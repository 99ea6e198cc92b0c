/**
 A run in which a forced unmount succeeds although a dup in flight still points to a file of the
 filesystem: it closes the slot that dup has just written, before dup has raised the count.
 */
module UnmountRace {
  import opened Common
  import opened OpenFiles
  import opened Descriptors
  import opened DescriptorTheorems
  import opened UnmountSafety

  lemma {:induction false} RunAppend(s: State, steps: seq<Step>, step: Step)
    requires Possible(s, steps) && Enabled(Run(s, steps), step)
    ensures Possible(s, steps + [step]) && Run(s, steps + [step]) == Do(Run(s, steps), step)
    decreases |steps|
  {
    hide Enabled, Do;
    if steps == [] {
      assert steps + [step] == [step] && [step][1..] == [];
    } else {
      assert (steps + [step])[0] == steps[0] && (steps + [step])[1..] == steps[1..] + [step];
      RunAppend(Do(s, steps[0]), steps[1..], step);
    }
  }

  lemma Then(now: State, step: Step)
    requires Reachable(now) && Enabled(now, step)
    ensures Reachable(Do(now, step))
  {
    hide Enabled, Do, Initial;
    var s: State, steps: seq<Step> :| Initial(s) && Possible(s, steps) && now == Run(s, steps);
    RunAppend(s, steps, step);
  }

  // Thread 1 opens file 7 on filesystem 5, mounted at "/", and duplicates its descriptor 0.
  // Thread 2 unmounts "/" by force.

  const A := Slot(0, 0)
  const B := Slot(0, 1)
  const MINE := Hand(1, 0)
  const HALFWAY := Storing(0, 1, DupStore)
  const REQUEST := Request("/", ["/"], true)

  /** The pointers to file 7, the only file there is, and its count. */
  predicate Pointed(h: Heap, places: set<Place>, half: set<Place>, refs: nat) {
    && h.holder.Keys == places && (forall p :: p in places ==> h.holder[p] == 7)
    && h.half == half
    && (if refs == 0 then h.refs.Keys == {} else h.refs.Keys == {7} && h.refs[7] == refs)
    && 7 in h.parent && h.parent[7] == Some(5) && OpenFileCount(h, 5) == (if refs == 0 then 0 else 1)
  }

  /** Where the two threads are, with the mutexes that go with it. */
  predicate Here(s: State, one: Pc, two: Pc) {
    && s.mounts == map["/" := 5] && 0 in s.tables && At(s, 1) == one && At(s, 2) == two
    && (0 in s.tableLock <==> Locks(one) == Some(0))
    && (s.fsLock == if LocksFs(one) then Some(1) else if LocksFs(two) then Some(2) else None)
  }

  predicate Plain(step: Step) {
    !step.Mount? && !step.UmountErase? && !step.Register? && !step.DestroyBegin?
  }

  /** Thread 1 locks no table but table 0, thread 2 locks none. */
  predicate Apart(t: Tid, pc: Pc) {
    Locks(pc).None? || (Locks(pc) == Some(0) && t == 1)
  }

  /** The step can be taken, and what it does. */
  ghost predicate Takes(s: State, step: Step, from: Pc, to: Pc, h: Heap) {
    && Enabled(s, step) && Next(s, step) == to && Pointers(s, step) == h && Plain(step)
    && Apart(step.t, from) && Apart(step.t, to)
  }

  /** A step of thread 1, before thread 2 begins. */
  lemma One(s: State, step: Step, one: Pc, one': Pc, h: Heap) returns (s': State)
    requires Reachable(s) && Here(s, one, Idle) && Takes(s, step, one, one', h) && step.t == 1
    ensures Reachable(s') && Here(s', one', Idle) && s'.heap == h
  {
    hide Reachable, Enabled, Next, Pointers;
    Then(s, step);
    AtAfter(s, step);
    s' := Do(s, step);
  }

  /** A step of thread 2, while thread 1 is in the middle of its store. */
  lemma Two(s: State, step: Step, two: Pc, two': Pc, h: Heap) returns (s': State)
    requires Reachable(s) && Here(s, HALFWAY, two) && Takes(s, step, two, two', h) && step.t == 2
    ensures Reachable(s') && Here(s', HALFWAY, two') && s'.heap == h
  {
    hide Reachable, Enabled, Next, Pointers;
    Then(s, step);
    AtAfter(s, step);
    s' := Do(s, step);
  }

  lemma CopyOne(h: Heap, places: set<Place>, half: set<Place>, refs: nat, from: Place, to: Place)
    requires Pointed(h, places, half, refs) && from in places && to !in places && refs > 0 && to !in half
    ensures Pointed(Copy(h, from, to), places + {to}, half, refs + 1)
    ensures Pointed(Write(h, from, to), places + {to}, half + {to}, refs)
  {
  }

  lemma MoveOne(h: Heap, places: set<Place>, half: set<Place>, refs: nat, from: Place, to: Place)
    requires Pointed(h, places, half, refs) && from in places && to !in places && to !in half
    ensures Pointed(Move(h, from, to), places - {from} + {to}, half - {from}, refs)
  {
  }

  lemma DropOne(h: Heap, places: set<Place>, half: set<Place>, refs: nat, p: Place)
    requires Pointed(h, places, half, refs) && p in places && p !in half && refs > 0
    ensures Pointed(Drop(h, p), places - {p}, half, refs - 1)
  {
  }

  lemma RaiseOne(h: Heap, places: set<Place>, half: set<Place>, refs: nat, p: Place)
    requires Pointed(h, places, half, refs) && p in half && refs > 0
    ensures Pointed(Raise(h, p, Some(7)), places, half - {p}, refs + 1)
  {
  }

  const EMPTY := Heap(map[], {}, map[], map[], map[])
  const START := State(EMPTY, map["/" := 5], {0}, {0}, map[], None, map[])

  lemma EmptyIsExact()
    ensures Exact(EMPTY)
  {
    assert forall fs: FsId :: FilesOf(EMPTY, fs) == {};
  }

  lemma StartIsInitial()
    ensures Reachable(START) && Here(START, Idle, Idle)
  {
    hide Exact, Do, Enabled;
    EmptyIsExact();
    assert Initial(START) && Possible(START, []) && START == Run(START, []);
  }

  lemma CreateOne()
    ensures Pointed(Create(EMPTY, MINE, 7, Some(5)), {MINE}, {}, 1)
  {
  }

  // Thread 1.

  lemma Begins(s: State)
    requires Here(s, Idle, Idle)
    ensures Takes(s, OpenBegin(1, 0), Idle, Finding(0, 0, false), s.heap)
  {
  }

  lemma Finds(s: State)
    requires At(s, 1) == Finding(0, 0, false) && A !in s.heap.holder
    ensures Takes(s, Find(1), Finding(0, 0, false), Found(0, 0), s.heap)
  {
  }

  lemma FindsTaken(s: State)
    requires At(s, 1) == Finding(0, 0, true) && A in s.heap.holder
    ensures Takes(s, Find(1), Finding(0, 0, true), Finding(0, 1, true), s.heap)
  {
  }

  lemma FindsFree(s: State)
    requires At(s, 1) == Finding(0, 1, true) && B !in s.heap.holder
    ensures Takes(s, Find(1), Finding(0, 1, true), Ready(0, 1, DupStore), s.heap)
  {
  }

  lemma LocksManager(s: State)
    requires Here(s, Found(0, 0), Idle)
    ensures Takes(s, OpenLock(1), Found(0, 0), Opening(0, 0), s.heap)
  {
  }

  lemma Creates(s: State)
    requires At(s, 1) == Opening(0, 0) && 7 !in s.heap.refs && 5 in s.mounts.Values
    ensures Takes(s, OpenCreate(1, 7, Some(5)), Opening(0, 0), Ready(0, 0, OpenStore),
                  Create(s.heap, MINE, 7, Some(5)))
  {
    hide NextStoreStep, NextTableStep, NextUnmount, StorePointers, TablePointers, UnmountPointers, Create;
  }

  lemma WritesSlot(s: State, fd: nat, store: Store)
    requires At(s, 1) == Ready(0, fd, store)
    ensures Takes(s, StoreWrite(1), Ready(0, fd, store), Storing(0, fd, store), Write(s.heap, MINE, Slot(0, fd)))
  {
  }

  lemma Raises(s: State)
    requires At(s, 1) == Storing(0, 0, OpenStore)
    ensures Takes(s, StoreRaise(1, false), Storing(0, 0, OpenStore), Stored(0, true),
                  Raise(s.heap, A, FileAt(s.heap, MINE)))
  {
  }

  lemma Drops(s: State)
    requires At(s, 1) == Stored(0, true)
    ensures Takes(s, StoreDrop(1), Stored(0, true), Idle, Drop(s.heap, MINE))
  {
  }

  lemma Loads(s: State)
    requires Here(s, Idle, Idle) && A in s.heap.holder
    ensures Takes(s, Load(1, 0, 0, ForDup), Idle, DupLoaded(0), Copy(s.heap, A, MINE))
  {
  }

  lemma LocksTable(s: State)
    requires Here(s, DupLoaded(0), Idle)
    ensures Takes(s, DupLock(1), DupLoaded(0), Finding(0, 0, true), s.heap)
  {
  }

  // Thread 2.

  lemma Unmounts(s: State)
    requires Here(s, HALFWAY, Idle)
    ensures Takes(s, UmountBegin(2, REQUEST), Idle, Scanning(REQUEST), s.heap)
  {
  }

  lemma Looks(s: State, fd: nat)
    requires At(s, 2) == Scanning(REQUEST) && 0 in s.tables && fd < MAX_OPEN_FILES && Slot(0, fd) in s.heap.holder
    ensures Takes(s, UmountLook(2, 0, fd), Scanning(REQUEST), Looking(REQUEST, 0, fd),
                  Copy(s.heap, Slot(0, fd), Hand(2, 0)))
  {
    hide NextFind, NextStore, NextStoreStep, NextTableStep, StorePointers, TablePointers;
  }

  lemma Unmounted()
    ensures ToUnmount(map["/" := 5], REQUEST, Some(5))
  {
    assert REQUEST.keys[0] == "/";
  }

  lemma Decides(s: State, fd: nat)
    requires At(s, 2) == Looking(REQUEST, 0, fd) && s.mounts == map["/" := 5] && Slot(0, fd) in s.heap.holder
    requires FileAt(s.heap, Hand(2, 0)) == Some(7) && 7 in s.heap.parent && s.heap.parent[7] == Some(5)
    ensures Takes(s, UmountDecide(2), Looking(REQUEST, 0, fd), Forcing(REQUEST),
                  Move(s.heap, Slot(0, fd), Hand(2, 1)))
  {
    hide NextFind, NextStore, NextStoreStep, NextTableStep, StorePointers, TablePointers, ToUnmount, Move;
    Unmounted();
  }

  lemma Closes(s: State)
    requires At(s, 2) == Forcing(REQUEST)
    ensures Takes(s, UmountClose(2), Forcing(REQUEST), Forced(REQUEST), Drop(s.heap, Hand(2, 1)))
  {
    hide NextFind, NextStore, NextStoreStep, NextTableStep, StorePointers, TablePointers;
  }

  lemma Looked(s: State)
    requires At(s, 2) == Forced(REQUEST)
    ensures Takes(s, UmountLooked(2), Forced(REQUEST), Scanning(REQUEST), Drop(s.heap, Hand(2, 0)))
  {
    hide NextFind, NextStore, NextStoreStep, NextTableStep, StorePointers, TablePointers;
  }

  lemma Scanned(s: State)
    requires At(s, 2) == Scanning(REQUEST)
    ensures Takes(s, UmountScanned(2), Scanning(REQUEST), Checking(REQUEST, 0, 0), s.heap)
  {
  }

  lemma Checks(s: State)
    requires At(s, 2) == Checking(REQUEST, 0, 0) && s.mounts == map["/" := 5] && OpenFileCount(s.heap, 5) == 0
    ensures Takes(s, UmountCheck(2), Checking(REQUEST, 0, 0), Checking(REQUEST, 1, 0), s.heap)
  {
    hide NextFind, NextStore, NextStoreStep, NextTableStep, StorePointers, TablePointers;
  }

  lemma HereAre(s: State, one: Pc, two: Pc)
    requires Here(s, one, two)
    ensures At(s, 1) == one && At(s, 2) == two && s.mounts == map["/" := 5] && 0 in s.tables
    ensures !LocksFs(one) && !LocksFs(two) ==> s.fsLock.None?
  {
  }

  // The run.

  lemma Opens() returns (s: State)
    ensures Reachable(s) && Here(s, Opening(0, 0), Idle) && s.heap == EMPTY
  {
    hide Reachable, Takes, Locks, LocksFs, Plain, At, Here;
    StartIsInitial();
    Begins(START);
    s := One(START, OpenBegin(1, 0), Idle, Finding(0, 0, false), START.heap);
    HereAre(s, Finding(0, 0, false), Idle);
    Finds(s);
    s := One(s, Find(1), Finding(0, 0, false), Found(0, 0), s.heap);
    LocksManager(s);
    s := One(s, OpenLock(1), Found(0, 0), Opening(0, 0), s.heap);
  }

  lemma Opened() returns (s: State)
    ensures Reachable(s) && Here(s, Idle, Idle) && Pointed(s.heap, {A}, {}, 1)
  {
    hide Reachable, Takes, Locks, LocksFs, Plain, At, Here, Pointed, Create, Write, Raise, Drop;
    s := Opens();
    HereAre(s, Opening(0, 0), Idle);
    assert s.mounts["/"] == 5;
    Creates(s);
    CreateOne();
    s := One(s, OpenCreate(1, 7, Some(5)), Opening(0, 0), Ready(0, 0, OpenStore), Create(s.heap, MINE, 7, Some(5)));
    HereAre(s, Ready(0, 0, OpenStore), Idle);
    WritesSlot(s, 0, OpenStore);
    CopyOne(s.heap, {MINE}, {}, 1, MINE, A);
    s := One(s, StoreWrite(1), Ready(0, 0, OpenStore), Storing(0, 0, OpenStore), Write(s.heap, MINE, A));
    s := Finishes(s);
  }

  lemma Finishes(before: State) returns (s: State)
    requires Reachable(before) && Here(before, Storing(0, 0, OpenStore), Idle)
    requires Pointed(before.heap, {MINE} + {A}, {} + {A}, 1)
    ensures Reachable(s) && Here(s, Idle, Idle) && Pointed(s.heap, {A}, {}, 1)
  {
    hide Reachable, Takes, Locks, LocksFs, Plain, At, Here, Pointed, Raise, Drop;
    s := before;
    HereAre(s, Storing(0, 0, OpenStore), Idle);
    Raises(s);
    IsSeven(s.heap, {MINE} + {A}, {} + {A}, 1, MINE);
    RaiseOne(s.heap, {MINE} + {A}, {} + {A}, 1, A);
    s := One(s, StoreRaise(1, false), Storing(0, 0, OpenStore), Stored(0, true), Raise(s.heap, A, Some(7)));
    HereAre(s, Stored(0, true), Idle);
    Drops(s);
    assert {} + {A} - {A} == {};
    DropOne(s.heap, {MINE} + {A}, {}, 2, MINE);
    assert {MINE} + {A} - {MINE} == {A};
    s := One(s, StoreDrop(1), Stored(0, true), Idle, Drop(s.heap, MINE));
  }

  /** The duplicate is in slot 1, but not counted yet. */
  lemma HalfDuplicated() returns (s: State)
    ensures Reachable(s) && Here(s, HALFWAY, Idle) && Pointed(s.heap, {A, MINE, B}, {B}, 2)
  {
    hide Reachable, Takes, Locks, LocksFs, Plain, At, Here, Pointed, Copy, Write;
    s := Opened();
    IsSeven(s.heap, {A}, {}, 1, A);
    Loads(s);
    CopyOne(s.heap, {A}, {}, 1, A, MINE);
    s := One(s, Load(1, 0, 0, ForDup), Idle, DupLoaded(0), Copy(s.heap, A, MINE));
    LocksTable(s);
    s := One(s, DupLock(1), DupLoaded(0), Finding(0, 0, true), s.heap);
    assert {A} + {MINE} == {A, MINE};
    s := Duplicates(s);
  }

  lemma Duplicates(before: State) returns (s: State)
    requires Reachable(before) && Here(before, Finding(0, 0, true), Idle) && Pointed(before.heap, {A, MINE}, {}, 2)
    ensures Reachable(s) && Here(s, HALFWAY, Idle) && Pointed(s.heap, {A, MINE, B}, {B}, 2)
  {
    hide Reachable, Takes, Locks, LocksFs, Plain, At, Here, Pointed, Write;
    s := FindsSecond(before);
    HereAre(s, Ready(0, 1, DupStore), Idle);
    WritesSlot(s, 1, DupStore);
    CopyOne(s.heap, {A, MINE}, {}, 2, MINE, B);
    assert {A, MINE} + {B} == {A, MINE, B} && {} + {B} == {B};
    s := One(s, StoreWrite(1), Ready(0, 1, DupStore), HALFWAY, Write(s.heap, MINE, B));
  }

  lemma FindsSecond(before: State) returns (s: State)
    requires Reachable(before) && Here(before, Finding(0, 0, true), Idle) && Pointed(before.heap, {A, MINE}, {}, 2)
    ensures Reachable(s) && Here(s, Ready(0, 1, DupStore), Idle) && s.heap == before.heap
  {
    hide Reachable, Takes, At, Here, Pointed, FileAt, OpenFileCount;
    s := PassesFirst(before);
    HereAre(s, Finding(0, 1, true), Idle);
    IsSeven(s.heap, {A, MINE}, {}, 2, B);
    FindsFree(s);
    s := One(s, Find(1), Finding(0, 1, true), Ready(0, 1, DupStore), s.heap);
  }

  lemma PassesFirst(before: State) returns (s: State)
    requires Reachable(before) && Here(before, Finding(0, 0, true), Idle) && Pointed(before.heap, {A, MINE}, {}, 2)
    ensures Reachable(s) && Here(s, Finding(0, 1, true), Idle) && s.heap == before.heap
  {
    hide Reachable, Takes, At, Here, Pointed, FileAt, OpenFileCount;
    HereAre(before, Finding(0, 0, true), Idle);
    IsSeven(before.heap, {A, MINE}, {}, 2, A);
    FindsTaken(before);
    s := One(before, Find(1), Finding(0, 0, true), Finding(0, 1, true), before.heap);
  }

  lemma LooksAt(before: State, fd: nat, places: set<Place>, half: set<Place>, refs: nat) returns (s: State)
    requires Reachable(before) && Here(before, HALFWAY, Scanning(REQUEST))
    requires Pointed(before.heap, places, half, refs) && refs > 0 && fd < MAX_OPEN_FILES && Slot(0, fd) in places
    requires Hand(2, 0) !in places && Hand(2, 0) !in half
    ensures Reachable(s) && Here(s, HALFWAY, Looking(REQUEST, 0, fd))
    ensures Pointed(s.heap, places + {Hand(2, 0)}, half, refs + 1)
  {
    hide Reachable, Takes, Locks, LocksFs, Plain, At, Here, Pointed, Copy;
    var p := Slot(0, fd);
    IsSeven(before.heap, places, half, refs, p);
    HereAre(before, HALFWAY, Scanning(REQUEST));
    Looks(before, fd);
    CopyOne(before.heap, places, half, refs, p, Hand(2, 0));
    s := Two(before, UmountLook(2, 0, fd), Scanning(REQUEST), Looking(REQUEST, 0, fd),
             Copy(before.heap, p, Hand(2, 0)));
  }

  lemma TakesOut(before: State, fd: nat, places: set<Place>, half: set<Place>, refs: nat) returns (s: State)
    requires Reachable(before) && Here(before, HALFWAY, Looking(REQUEST, 0, fd))
    requires Pointed(before.heap, places, half, refs) && Slot(0, fd) in places
    requires Hand(2, 0) in places && Hand(2, 1) !in places && Hand(2, 1) !in half
    ensures Reachable(s) && Here(s, HALFWAY, Forcing(REQUEST))
    ensures Pointed(s.heap, places - {Slot(0, fd)} + {Hand(2, 1)}, half - {Slot(0, fd)}, refs)
  {
    hide Reachable, Takes, Locks, LocksFs, Plain, At, Here, Pointed, Move;
    var p := Slot(0, fd);
    HereAre(before, HALFWAY, Looking(REQUEST, 0, fd));
    IsSeven(before.heap, places, half, refs, Hand(2, 0));
    IsSeven(before.heap, places, half, refs, p);
    Decides(before, fd);
    MoveOne(before.heap, places, half, refs, p, Hand(2, 1));
    s := Two(before, UmountDecide(2), Looking(REQUEST, 0, fd), Forcing(REQUEST), Move(before.heap, p, Hand(2, 1)));
  }

  /** The forced unmount closes a slot: the count falls by one, whether or not the slot was counted. */
  lemma ForcesClosed(before: State, fd: nat, places: set<Place>, half: set<Place>, refs: nat) returns (s: State)
    requires Reachable(before) && Here(before, HALFWAY, Scanning(REQUEST))
    requires Pointed(before.heap, places, half, refs) && refs > 0 && fd < MAX_OPEN_FILES && Slot(0, fd) in places
    requires Hand(2, 0) !in places + half && Hand(2, 1) !in places + half
    ensures Reachable(s) && Here(s, HALFWAY, Scanning(REQUEST))
    ensures Pointed(s.heap, places - {Slot(0, fd)}, half - {Slot(0, fd)}, refs - 1)
  {
    hide Reachable, Here, Pointed;
    var p := Slot(0, fd);
    s := LooksAt(before, fd, places, half, refs);
    s := TakesOut(s, fd, places + {Hand(2, 0)}, half, refs + 1);
    s := LetsGo(s, places + {Hand(2, 0)} - {p} + {Hand(2, 1)}, half - {p}, refs + 1);
    assert places + {Hand(2, 0)} - {p} + {Hand(2, 1)} - {Hand(2, 1)} - {Hand(2, 0)} == places - {p};
  }

  lemma LetsGo(before: State, places: set<Place>, half: set<Place>, refs: nat) returns (s: State)
    requires Reachable(before) && Here(before, HALFWAY, Forcing(REQUEST))
    requires Pointed(before.heap, places, half, refs) && refs > 1
    requires Hand(2, 0) in places && Hand(2, 1) in places && Hand(2, 0) !in half && Hand(2, 1) !in half
    ensures Reachable(s) && Here(s, HALFWAY, Scanning(REQUEST))
    ensures Pointed(s.heap, places - {Hand(2, 1)} - {Hand(2, 0)}, half, refs - 2)
  {
    hide Reachable, Takes, Locks, LocksFs, Plain, At, Here, Pointed, Drop;
    s := before;
    HereAre(s, HALFWAY, Forcing(REQUEST));
    Closes(s);
    DropOne(s.heap, places, half, refs, Hand(2, 1));
    s := Two(s, UmountClose(2), Forcing(REQUEST), Forced(REQUEST), Drop(s.heap, Hand(2, 1)));
    HereAre(s, HALFWAY, Forced(REQUEST));
    Looked(s);
    DropOne(s.heap, places - {Hand(2, 1)}, half, refs - 1, Hand(2, 0));
    s := Two(s, UmountLooked(2), Forced(REQUEST), Scanning(REQUEST), Drop(s.heap, Hand(2, 0)));
  }

  lemma ClosesBoth() returns (s: State)
    ensures Reachable(s) && Here(s, HALFWAY, Scanning(REQUEST)) && Pointed(s.heap, {MINE}, {}, 0)
  {
    hide Reachable, Takes, Locks, LocksFs, Plain, At, Here, Pointed;
    s := HalfDuplicated();
    HereAre(s, HALFWAY, Idle);
    Unmounts(s);
    s := Two(s, UmountBegin(2, REQUEST), Idle, Scanning(REQUEST), s.heap);
    s := ForcesClosed(s, 0, {A, MINE, B}, {B}, 2);
    assert {A, MINE, B} - {A} == {MINE, B} && {B} - {A} == {B};
    s := ForcesClosed(s, 1, {MINE, B}, {B}, 1);
    assert {MINE, B} - {B} == {MINE} && {B} - {B} == {};
  }

  lemma ChecksPass() returns (s: State)
    ensures Reachable(s) && Here(s, HALFWAY, Checking(REQUEST, 1, 0)) && Pointed(s.heap, {MINE}, {}, 0)
  {
    hide Reachable, Takes, Locks, LocksFs, Plain, At, Here, Pointed;
    s := ClosesBoth();
    HereAre(s, HALFWAY, Scanning(REQUEST));
    Scanned(s);
    s := Two(s, UmountScanned(2), Scanning(REQUEST), Checking(REQUEST, 0, 0), s.heap);
    HereAre(s, HALFWAY, Checking(REQUEST, 0, 0));
    IsSeven(s.heap, {MINE}, {}, 0, MINE);
    Checks(s);
    s := Two(s, UmountCheck(2), Checking(REQUEST, 0, 0), Checking(REQUEST, 1, 0), s.heap);
  }

  lemma Erases(s: State)
    requires At(s, 2) == Checking(REQUEST, 1, 0) && s.mounts == map["/" := 5]
    ensures Enabled(s, UmountErase(2)) && Do(s, UmountErase(2)).mounts == map[]
  {
    hide Next, Pointers, NextTableLock, NextFsLock, NextTables;
    assert "/" <= "/";
  }

  /**
   The unmount succeeds and takes filesystem 5, while the dup still points to file 7 on it, which has
   been deleted under it; and the dup is about to raise a count that is no more.
   */
  lemma UnmountsUnderDup() returns (s: State)
    ensures Reachable(s) && Enabled(s, UmountErase(2))
    ensures s.mounts == map["/" := 5] && Do(s, UmountErase(2)).mounts == map[]
    ensures At(s, 1) == Storing(0, 1, DupStore) && FileAt(s.heap, Hand(1, 0)) == Some(7)
    ensures 7 in s.heap.parent && s.heap.parent[7] == Some(5) && 7 !in s.heap.refs
  {
    hide Reachable, Enabled, Do, Here, At;
    s := ChecksPass();
    HereAre(s, HALFWAY, Checking(REQUEST, 1, 0));
    Erases(s);
    IsSeven(s.heap, {MINE}, {}, 0, MINE);
  }

  lemma IsSeven(h: Heap, places: set<Place>, half: set<Place>, refs: nat, p: Place)
    requires Pointed(h, places, half, refs)
    ensures FileAt(h, p) == if p in places then Some(7) else None
    ensures p in h.holder <==> p in places
    ensures 7 in h.parent && h.parent[7] == Some(5) && OpenFileCount(h, 5) == (if refs == 0 then 0 else 1)
  {
  }
}
