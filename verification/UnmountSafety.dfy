/**
 When the counts of open files can be trusted, and so when unmounting is safe: exactly in the runs
 in which no close, by a thread or by a forced unmount, takes a pointer out of a slot between the
 two halves of the assignment that puts it there.
 */
module UnmountSafety {
  import opened Common
  import opened OpenFiles
  import opened Descriptors
  import opened DescriptorTheorems

  /** Every file that is still counted belongs to a mounted filesystem. */
  ghost predicate FilesMounted(h: Heap, mounts: map<string, FsId>) {
    forall f :: f in h.refs && f in h.parent && h.parent[f].Some? ==> h.parent[f].value in mounts.Values
  }

  /** The counters an unmount has seen at zero are still zero. */
  ghost predicate ZerosOk(h: Heap, mounts: map<string, FsId>, pc: Pc) {
    pc.Checking? ==>
      forall j :: 0 <= j < pc.i && j < |pc.req.keys| && pc.req.keys[j] in mounts ==>
        OpenFileCount(h, mounts[pc.req.keys[j]]) == 0
  }

  /** A slot that is being assigned to holds the pointer in hand, uncounted. */
  ghost predicate HalfOk(h: Heap, t: Tid, pc: Pc) {
    HalfDone(pc).Some? ==>
      HalfDone(pc).value in h.half && FileAt(h, HalfDone(pc).value) == FileAt(h, Hand(t, 0))
  }

  ghost predicate CountsOk(s: State, t: Tid) {
    ZerosOk(s.heap, s.mounts, At(s, t)) && HalfOk(s.heap, t, At(s, t))
  }

  ghost predicate Safe(s: State) {
    Inv(s) && Exact(s.heap) && FilesMounted(s.heap, s.mounts) && forall t: Tid :: CountsOk(s, t)
  }

  lemma SafeAt(s: State, t: Tid)
    requires Safe(s)
    ensures ThreadOk(s, t) && CountsOk(s, t)
  {
  }

  // ---------- What disturbs a store ----------

  /** A close of a slot that some thread is just assigning to. */
  ghost predicate Disturbs(s: State, step: Step) {
    Taken(s, step).Some? && exists u: Tid :: HalfDone(At(s, u)) == Taken(s, step)
  }

  lemma HalfHasOwner(s: State, p: Place) returns (u: Tid)
    requires Safe(s) && p in s.heap.half
    ensures p.Slot? && p in s.heap.holder && p.table in s.tableLock && u == s.tableLock[p.table]
    ensures HalfDone(At(s, u)) == Some(p) && FileAt(s.heap, Hand(u, 0)) == FileAt(s.heap, p)
  {
    u := s.tableLock[p.table];
    SafeAt(s, u);
  }

  lemma NotHalf(s: State, step: Step)
    requires Safe(s) && !Disturbs(s, step) && Taken(s, step).Some?
    ensures Taken(s, step).value !in s.heap.half
  {
    hide Inv, Exact, FilesMounted;
    if Taken(s, step).value in s.heap.half {
      var u := HalfHasOwner(s, Taken(s, step).value);
    }
  }

  /** While a store is half done, the thread that does it keeps a counted pointer to the file. */
  lemma HandIsBacked(s: State, t: Tid, n: nat)
    requires Safe(s) && HalfDone(At(s, t)).None?
    ensures Backed(s.heap, Hand(t, n)) && Hand(t, n) !in s.heap.half
  {
    hide Inv, Exact, FilesMounted;
    forall q | q in s.heap.half && q in s.heap.holder
      ensures exists r :: r != Hand(t, n) && r in Counted(s.heap, s.heap.holder[q])
    {
      var u := HalfHasOwner(s, q);
      HandIsCounted(s, u);
      assert Hand(u, 0) != Hand(t, n) && Hand(u, 0) in Counted(s.heap, s.heap.holder[q]);
    }
    HandIsCounted(s, t);
  }

  lemma HandIsCounted(s: State, t: Tid)
    requires Safe(s)
    ensures forall n: nat :: Hand(t, n) !in s.heap.half
  {
  }

  lemma SlotIsBacked(s: State, t: Tid, p: Place)
    requires Safe(s) && p.Slot? && Private(At(s, t)) == Some(p.table)
    ensures Backed(s.heap, p) && p !in s.heap.half
  {
    hide Exact, FilesMounted, HandsOk, SlotsOk, KeysOk, HalvesOk, PrivateDistinct, ZerosOk, HalfOk;
    SafeAt(s, t);
    forall q | q in s.heap.half && q in s.heap.holder
      ensures exists r :: r != p && r in Counted(s.heap, s.heap.holder[q])
    {
      var u := HalfHasOwner(s, q);
      HandIsCounted(s, u);
      assert Hand(u, 0) in Counted(s.heap, s.heap.holder[q]);
    }
    if p in s.heap.half {
      var u := HalfHasOwner(s, p);
      SafeAt(s, u);
    }
  }

  // ---------- Counts stay exact ----------

  /** No file is created, and the counters do not rise. */
  ghost predicate NoNewFiles(h: Heap, h': Heap) {
    && h'.parent == h.parent
    && (forall f :: f in h'.refs ==> f in h.refs)
    && (forall fs: FsId :: OpenFileCount(h', fs) <= OpenFileCount(h, fs))
  }

  ghost predicate StaysExact(h: Heap, h': Heap) {
    Exact(h') && NoNewFiles(h, h')
  }

  lemma CopyStays(h: Heap, from: Place, to: Place)
    requires Exact(h) && to !in h.holder
    ensures StaysExact(h, Copy(h, from, to))
  {
    hide Exact;
    if from in h.holder { CopyExact(h, from, to); }
  }

  lemma MoveStays(h: Heap, from: Place, to: Place)
    requires Exact(h) && to !in h.holder && from !in h.half
    ensures StaysExact(h, Move(h, from, to))
  {
    hide Exact;
    if from in h.holder { MoveExactIff(h, from, to); }
  }

  lemma DropStays(h: Heap, p: Place)
    requires Exact(h) && p !in h.half && Backed(h, p)
    ensures StaysExact(h, Drop(h, p))
  {
    hide Exact, Backed;
    if p in h.holder {
      DropExact(h, p);
      forall fs: FsId ensures OpenFileCount(Drop(h, p), fs) <= OpenFileCount(h, fs) {
        CountersFall(h, p, fs);
      }
    }
  }

  lemma StoreStays(h: Heap, from: Place, to: Place)
    requires Exact(h) && to !in h.holder
    ensures StaysExact(h, Write(h, from, to))
  {
    hide Exact;
    if from in h.holder { WriteExact(h, from, to); }
  }

  lemma RaiseStays(h: Heap, p: Place)
    requires Exact(h) && p in h.half && p in h.holder
    ensures StaysExact(h, Raise(h, p, FileAt(h, p)))
  {
    hide Exact;
    RaiseExact(h, p);
  }

  /** An unused file is constructed, on a filesystem or, as a pipe, on none. */
  lemma CreateStays(h: Heap, p: Place, f: FileId, parent: Option<FsId>)
    requires Exact(h) && p !in h.holder && f !in h.refs
    ensures
      var h' := Create(h, p, f, parent);
      && Exact(h')
      && (forall g :: g in h'.refs && g != f ==> g in h.refs && h'.parent[g] == h.parent[g])
      && (parent.None? ==> forall fs: FsId :: OpenFileCount(h', fs) <= OpenFileCount(h, fs))
  {
    CreateExact(h, p, f, parent);
  }

  lemma CallCounts(s: State, step: Step)
    requires Safe(s) && Enabled(s, step) && (step.Load? || step.Close? || step.Release?)
    requires Taken(s, step).Some? ==> Taken(s, step).value !in s.heap.half
    ensures StaysExact(s.heap, Pointers(s, step))
  {
    hide Safe, StaysExact, Copy, Move, Drop, Exact, Backed, Concerned, Forces, KeysOk, SlotsOk, TablePointers,
         StorePointers, UnmountPointers;
    var h, t := s.heap, step.t;
    SafeIs(s);
    SafeAt(s, t);
    match step
    case Load(_, table, fd, _) => CopyStays(h, Slot(table, fd), Hand(t, 0));
    case Close(_, table, fd) => MoveStays(h, Slot(table, fd), Hand(t, 0));
    case Release(_) => DropHandStays(s, t, 0);
  }

  lemma DropHandStays(s: State, t: Tid, n: nat)
    requires Safe(s) && HalfDone(At(s, t)).None?
    ensures StaysExact(s.heap, Drop(s.heap, Hand(t, n)))
  {
    hide Safe, StaysExact, Drop, Exact, Backed;
    SafeIs(s);
    HandIsBacked(s, t, n);
    DropStays(s.heap, Hand(t, n));
  }

  lemma DecideCounts(s: State, t: Tid)
    requires Safe(s) && At(s, t).Looking?
    requires Taken(s, UmountDecide(t)).Some? ==> Taken(s, UmountDecide(t)).value !in s.heap.half
    ensures StaysExact(s.heap, Pointers(s, UmountDecide(t)))
  {
    hide Safe, StaysExact, Move, Drop, Exact, Concerned, KeysOk, SlotsOk, LocksOk;
    SafeIs(s);
    SafeAt(s, t);
    if Forces(s, t) {
      MoveStays(s.heap, Slot(At(s, t).table, At(s, t).fd), Hand(t, 1));
    } else {
      DropHandStays(s, t, 0);
    }
  }

  lemma UnmountCounts(s: State, step: Step)
    requires Safe(s) && Enabled(s, step) && UnmountStep(step) && !step.UmountDecide?
    ensures StaysExact(s.heap, Pointers(s, step))
  {
    hide Safe, StaysExact, Copy, Move, Drop, Exact, Concerned, Forces, KeysOk, SlotsOk, LocksOk, At;
    hide TablePointers, StorePointers, CallPointers;
    var h, t := s.heap, step.t;
    SafeIs(s);
    SafeAt(s, t);
    match step
    case UmountLook(_, table, fd) => CopyStays(h, Slot(table, fd), Hand(t, 0));
    case UmountClose(_) => DropHandStays(s, t, 1);
    case UmountLooked(_) => DropHandStays(s, t, 0);
  }

  lemma SafeIs(s: State)
    requires Safe(s)
    ensures Inv(s) && Exact(s.heap) && FilesMounted(s.heap, s.mounts)
  {
  }

  lemma RaiseCounts(s: State, t: Tid, reread: bool)
    requires Safe(s) && At(s, t).Storing?
    ensures StaysExact(s.heap, Pointers(s, StoreRaise(t, reread)))
  {
    hide Inv, StaysExact, Raise, Exact, FilesMounted;
    SafeAt(s, t);
    var p := Slot(At(s, t).table, At(s, t).fd);
    var u := HalfHasOwner(s, p);
    assert FileAt(s.heap, Hand(t, 0)) == FileAt(s.heap, p);
    RaiseStays(s.heap, p);
  }

  /** dup2 swaps: the slot's pointer goes into the other hand, and a counted copy takes its place. */
  lemma SwapCounts(s: State, t: Tid)
    requires Safe(s) && At(s, t).Dup2Locked?
    ensures StaysExact(s.heap, Pointers(s, Dup2Swap(t)))
  {
    hide Safe, Copy, Move, Exact, KeysOk, SlotsOk;
    SafeIs(s);
    SafeAt(s, t);
    var h, p := s.heap, Slot(At(s, t).table, At(s, t).newFd);
    LockedIsNotHalf(s, t, p);
    MoveStays(h, p, Hand(t, 1));
    SwappedOut(h, p, Hand(t, 1));
    CopyStays(Move(h, p, Hand(t, 1)), Hand(t, 0), p);
    NoNewFilesTwice(h, Move(h, p, Hand(t, 1)), Copy(Move(h, p, Hand(t, 1)), Hand(t, 0), p));
  }

  lemma SwappedOut(h: Heap, from: Place, to: Place)
    requires from != to
    ensures from !in Move(h, from, to).holder
  {
  }

  lemma NoNewFilesTwice(h: Heap, h': Heap, h'': Heap)
    requires NoNewFiles(h, h') && NoNewFiles(h', h'')
    ensures NoNewFiles(h, h'')
  {
    assert forall fs: FsId :: OpenFileCount(h'', fs) <= OpenFileCount(h', fs) <= OpenFileCount(h, fs);
  }

  lemma LockedIsNotHalf(s: State, t: Tid, p: Place)
    requires Safe(s) && p.Slot? && Locks(At(s, t)) == Some(p.table) && HalfDone(At(s, t)).None?
    ensures p !in s.heap.half
  {
    hide Exact, FilesMounted, HandsOk, SlotsOk, KeysOk, HalvesOk, PrivateDistinct, ZerosOk, HalfOk;
    SafeAt(s, t);
    if p in s.heap.half {
      var u := HalfHasOwner(s, p);
    }
  }

  lemma StoreCounts(s: State, step: Step)
    requires Safe(s) && Enabled(s, step) && StoreStep(step)
    ensures StaysExact(s.heap, Pointers(s, step))
  {
    hide Safe, Copy, Drop, Write, Raise, Move, Exact, KeysOk, LocksOk, StaysExact, FileAt, At;
    hide UnmountPointers, CallPointers, TablePointers;
    var h, t, pc := s.heap, step.t, At(s, step.t);
    SafeIs(s);
    SafeAt(s, t);
    match step
    case StoreWrite(_) => StoreStays(h, Hand(t, 0), Slot(pc.table, pc.fd));
    case StoreRaise(_, reread) => RaiseCounts(s, t, reread);
    case StoreDrop(_) => DropHandStays(s, t, 0);
    case Dup2Swap(_) => SwapCounts(s, t);
    case Dup2Drop(_) => DropHandStays(s, t, 1);
  }

  lemma TableCounts(s: State, step: Step)
    requires Safe(s) && Enabled(s, step) && TableStep(step)
    ensures StaysExact(s.heap, Pointers(s, step))
  {
    hide Safe, Copy, Drop, Exact, KeysOk, LocksOk, StaysExact, At;
    hide UnmountPointers, CallPointers, StorePointers;
    var h, t, pc := s.heap, step.t, At(s, step.t);
    SafeIs(s);
    SafeAt(s, t);
    SameStays(h);
    if step.DestroySlot? {
      DropSlotStays(s, t, Slot(pc.dst, pc.next));
    } else {
      CopyStays(h, Slot(pc.table, pc.next), Slot(pc.dst, pc.next));
    }
  }

  lemma DropSlotStays(s: State, t: Tid, p: Place)
    requires Safe(s) && p.Slot? && Private(At(s, t)) == Some(p.table)
    ensures StaysExact(s.heap, Drop(s.heap, p))
  {
    hide Safe, StaysExact, Drop, Exact, Backed;
    SafeIs(s);
    SlotIsBacked(s, t, p);
    DropStays(s.heap, p);
  }

  lemma SameStays(h: Heap)
    requires Exact(h)
    ensures StaysExact(h, h)
  {
  }

  /** Unless a step disturbs a store, the counts stay exact, and only an open raises a counter. */
  lemma StepCounts(s: State, step: Step)
    requires Safe(s) && Enabled(s, step) && !Disturbs(s, step) && !step.OpenCreate? && !step.PipeCreate?
    ensures StaysExact(s.heap, Pointers(s, step))
  {
    hide Safe, StaysExact, Disturbs, Pointers, Taken, CanLock, Occupied;
    SafeIs(s);
    if QuietStep(step) {
      QuietPointers(s, step);
      SameStays(s.heap);
    } else if StoreStep(step) {
      StoreCounts(s, step);
    } else if TableStep(step) {
      TableCounts(s, step);
    } else {
      if Taken(s, step).Some? { NotHalf(s, step); }
      if step.UmountDecide? {
        DecideCounts(s, step.t);
      } else if UnmountStep(step) {
        UnmountCounts(s, step);
      } else {
        CallCounts(s, step);
      }
    }
  }

  /** A step that disturbs a store leaves a count too low. */
  lemma DisturbedIsInexact(s: State, step: Step)
    requires Safe(s) && Enabled(s, step) && Disturbs(s, step)
    ensures !Exact(Pointers(s, step))
  {
    hide Inv, Exact, FilesMounted, Concerned, KeysOk, SlotsOk, Move;
    var u: Tid :| HalfDone(At(s, u)) == Taken(s, step);
    var p, t := Taken(s, step).value, step.t;
    SafeAt(s, u);
    SafeAt(s, t);
    assert p in s.heap.half;
    var w := HalfHasOwner(s, p);
    MoveExactIff(s.heap, p, Hand(t, if step.Close? then 0 else 1));
  }

  // ---------- Mounted filesystems ----------

  /** When an unmount erases its filesystems, nobody anywhere points to a file on them. */
  lemma ErasedAreIdle(s: State, t: Tid, key: string)
    requires Safe(s) && At(s, t).Checking? && At(s, t).i == |At(s, t).req.keys|
    requires key in s.mounts && At(s, t).req.path <= key
    ensures OpenFileCount(s.heap, s.mounts[key]) == 0
    ensures forall p :: p in s.heap.holder ==> s.heap.parent[s.heap.holder[p]] != Some(s.mounts[key])
  {
    hide Exact, HandsOk, SlotsOk, LocksOk, HalfOk;
    var pc := At(s, t);
    SafeAt(s, t);
    assert key in pc.req.keys;
    var j :| 0 <= j < |pc.req.keys| && pc.req.keys[j] == key;
    assert OpenFileCount(s.heap, s.mounts[pc.req.keys[j]]) == 0;
    ZeroMeansNoPointer(s.heap, s.mounts[key]);
  }

  lemma EraseMounted(s: State, t: Tid)
    requires Safe(s) && At(s, t).Checking? && At(s, t).i == |At(s, t).req.keys|
    ensures FilesMounted(s.heap, Erase(s.mounts, At(s, t).req.path))
  {
    hide Inv;
    var path := At(s, t).req.path;
    var after := Erase(s.mounts, path);
    forall f | f in s.heap.refs && f in s.heap.parent && s.heap.parent[f].Some?
      ensures s.heap.parent[f].value in after.Values
    {
      var fs := s.heap.parent[f].value;
      assert f in FilesOf(s.heap, fs) && OpenFileCount(s.heap, fs) != 0;
      var key :| key in s.mounts && s.mounts[key] == fs;
      if path <= key { ErasedAreIdle(s, t, key); }
      assert key in after && after[key] == fs;
    }
  }

  lemma MountMounted(h: Heap, mounts: map<string, FsId>, key: string, fs: FsId)
    requires FilesMounted(h, mounts) && key !in mounts
    ensures FilesMounted(h, mounts[key := fs])
  {
    var after := mounts[key := fs];
    forall v | v in mounts.Values ensures v in after.Values {
      var k :| k in mounts && mounts[k] == v;
      assert after[k] == v;
    }
  }

  /** Opening happens on a mounted filesystem, with the manager's mutex held. */
  lemma CreateCounts(s: State, step: Step)
    requires Safe(s) && Enabled(s, step) && (step.OpenCreate? || step.PipeCreate?)
    ensures Exact(Pointers(s, step)) && FilesMounted(Pointers(s, step), s.mounts)
    ensures step.PipeCreate? ==>
              forall fs: FsId :: OpenFileCount(Pointers(s, step), fs) <= OpenFileCount(s.heap, fs)
  {
    hide Safe, Exact, KeysOk, SlotsOk, LocksOk, OpenFileCount, At, TablePointers, StorePointers, UnmountPointers;
    SafeIs(s);
    SafeAt(s, step.t);
    CreateStays(s.heap, Hand(step.t, 0), step.file, if step.OpenCreate? then step.parent else None);
    HasParents(s.heap);
  }

  lemma HasParents(h: Heap)
    requires Exact(h)
    ensures forall f :: f in h.refs ==> f in h.parent
  {
  }

  lemma NoNewMounted(h: Heap, h': Heap, mounts: map<string, FsId>)
    requires FilesMounted(h, mounts) && NoNewFiles(h, h')
    ensures FilesMounted(h', mounts)
  {
  }

  lemma MountingNeeds(s: State, step: Step)
    requires Enabled(s, step)
    ensures step.UmountErase? ==> At(s, step.t).Checking? && At(s, step.t).i == |At(s, step.t).req.keys|
    ensures step.Mount? ==> step.key !in s.mounts
  {
    hide At, CanLock, Occupied;
  }

  lemma MountedAfter(s: State, step: Step)
    requires Safe(s) && Enabled(s, step) && !Disturbs(s, step)
    ensures Exact(Pointers(s, step)) && FilesMounted(Pointers(s, step), NextMounts(s, step))
  {
    hide Safe, Enabled, Pointers, Disturbs, Exact, FilesMounted, NoNewFiles, Erase, At;
    SafeIs(s);
    MountingNeeds(s, step);
    if step.OpenCreate? || step.PipeCreate? {
      CreateCounts(s, step);
    } else {
      StepCounts(s, step);
      NoNewMounted(s.heap, Pointers(s, step), s.mounts);
      if step.UmountErase? {
        QuietPointers(s, step);
        EraseMounted(s, step.t);
      } else if step.Mount? {
        MountMounted(Pointers(s, step), s.mounts, step.key, step.fs);
      }
    }
  }

  // ---------- The other threads ----------

  lemma OthersHalf(s: State, step: Step, u: Tid)
    requires Safe(s) && Enabled(s, step) && !Disturbs(s, step) && u != step.t
    ensures HalfOk(Pointers(s, step), u, At(s, u))
  {
    hide Inv, Exact, FilesMounted, Enabled, Pointers, Next, Changed, Taken;
    SafeAt(s, u);
    if HalfDone(At(s, u)).Some? {
      var p := HalfDone(At(s, u)).value;
      assert Taken(s, step) != Some(p);
      OthersSlot(s, step, u, p);
      HeapStep(s, step);
    }
  }

  lemma OthersZeros(s: State, step: Step, u: Tid)
    requires Safe(s) && Enabled(s, step) && !Disturbs(s, step) && u != step.t
    ensures ZerosOk(Pointers(s, step), NextMounts(s, step), At(s, u))
  {
    hide Safe, Enabled, Pointers, NextMounts, Disturbs, At, OpenFileCount;
    if At(s, u).Checking? {
      CheckedZeros(s, u);
      LockedOut(s, step, u);
      CountersStay(s, step);
    }
  }

  lemma CheckedZeros(s: State, u: Tid)
    requires Safe(s)
    ensures ZerosOk(s.heap, s.mounts, At(s, u))
  {
    hide Exact, FilesMounted, Inv, ZerosOk, HalfOk;
    SafeAt(s, u);
  }

  /** While a thread checks the counters, no other opens or mounts anything. */
  lemma LockedOut(s: State, step: Step, u: Tid)
    requires Safe(s) && Enabled(s, step) && u != step.t && At(s, u).Checking?
    ensures NextMounts(s, step) == s.mounts && !step.OpenCreate?
  {
    hide Safe, Enabled, NextMounts, At;
    HasManager(s, u);
    HasManager(s, step.t);
    WithoutManager(s, step);
  }

  lemma HasManager(s: State, t: Tid)
    requires Safe(s)
    ensures LocksFs(At(s, t)) <==> s.fsLock == Some(t)
  {
    hide Safe, At, LocksFs, HandsOk, SlotsOk, KeysOk, CountsOk;
    SafeAt(s, t);
  }

  lemma WithoutManager(s: State, step: Step)
    requires Enabled(s, step) && !LocksFs(At(s, step.t)) && s.fsLock.Some?
    ensures NextMounts(s, step) == s.mounts && !step.OpenCreate?
  {
    hide Enabled, At, Erase;
    ManagerNeeded(s, step);
  }

  lemma ManagerNeeded(s: State, step: Step)
    requires Enabled(s, step)
    ensures step.Mount? ==> s.fsLock.None?
    ensures step.UmountErase? || step.OpenCreate? ==> LocksFs(At(s, step.t))
  {
    hide At, CanLock, Occupied;
  }

  lemma CountersStay(s: State, step: Step)
    requires Safe(s) && Enabled(s, step) && !Disturbs(s, step) && !step.OpenCreate?
    ensures forall fs: FsId :: OpenFileCount(s.heap, fs) == 0 ==> OpenFileCount(Pointers(s, step), fs) == 0
  {
    hide Safe, Enabled, Pointers, Disturbs, OpenFileCount;
    MountedAfter(s, step);
    if step.PipeCreate? { CreateCounts(s, step); } else { StepCounts(s, step); }
    forall fs: FsId ensures OpenFileCount(Pointers(s, step), fs) >= 0 {
      CountIsNatural(Pointers(s, step), fs);
    }
  }

  lemma CountIsNatural(h: Heap, fs: FsId)
    requires Exact(h)
    ensures OpenFileCount(h, fs) >= 0
  {
  }

  // ---------- The thread itself ----------

  lemma ChecksOfRest(s: State, step: Step)
    requires Enabled(s, step) && !PlainStep(step)
    ensures !Next(s, step).Checking?
  {
    hide At, Forces, Concerned, Occupied, NextCall;
  }

  lemma ChecksOfCall(s: State, step: Step)
    requires Enabled(s, step) && PlainStep(step) && Next(s, step).Checking?
    ensures step.UmountScanned? || step.UmountCheck?
  {
    hide At, CanLock, Occupied, OpenFileCount, NextTableStep, NextStoreStep, NextUnmount;
  }

  lemma OwnZeros(s: State, step: Step)
    requires Safe(s) && Enabled(s, step)
    ensures ZerosOk(Pointers(s, step), NextMounts(s, step), Next(s, step))
  {
    hide Inv, Exact, FilesMounted, HandsOk, SlotsOk, LocksOk, HalfOk, Erase, Pointers, CanLock, Occupied;
    SafeAt(s, step.t);
    if Next(s, step).Checking? {
      if PlainStep(step) { ChecksOfCall(s, step); } else { ChecksOfRest(s, step); }
      QuietPointers(s, step);
    }
  }

  lemma HalvesOfRest(s: State, step: Step)
    requires Enabled(s, step) && !PlainStep(step) && HalfDone(Next(s, step)).Some?
    ensures step.StoreWrite?
  {
    hide At, Forces, Concerned, Occupied, NextCall;
  }

  lemma HalvesOfCall(s: State, step: Step)
    requires Enabled(s, step) && PlainStep(step)
    ensures HalfDone(Next(s, step)).None?
  {
    hide At, CanLock, Occupied, OpenFileCount, NextTableStep, NextStoreStep, NextUnmount;
  }

  lemma WriteLeavesHalf(s: State, t: Tid)
    requires Safe(s) && At(s, t).Ready?
    ensures HalfOk(Pointers(s, StoreWrite(t)), t, Next(s, StoreWrite(t)))
  {
    hide Inv, Exact, FilesMounted, SlotsOk, LocksOk, KeysOk, ZerosOk;
    SafeAt(s, t);
  }

  lemma OwnHalf(s: State, step: Step)
    requires Safe(s) && Enabled(s, step)
    ensures HalfOk(Pointers(s, step), step.t, Next(s, step))
  {
    hide Safe, Pointers, Next;
    if HalfDone(Next(s, step)).Some? {
      if PlainStep(step) {
        HalvesOfCall(s, step);
      } else {
        HalvesOfRest(s, step);
        WriteLeavesHalf(s, step.t);
      }
    }
  }

  /** From a safe state, a step leads to one if and only if it does not disturb a store. */
  lemma StepIsSafeIff(s: State, step: Step)
    requires Safe(s) && Enabled(s, step)
    ensures Safe(Do(s, step)) <==> !Disturbs(s, step)
    ensures Disturbs(s, step) ==> !Exact(Do(s, step).heap)
  {
    hide Inv, Exact, FilesMounted, ZerosOk, HalfOk, Enabled, Pointers, Next, NextMounts, NextTables,
         NextTableLock, NextFsLock, Disturbs;
    var s' := Do(s, step);
    if Disturbs(s, step) {
      DisturbedIsInexact(s, step);
    } else {
      StepKeepsInv(s, step);
      MountedAfter(s, step);
      AtAfter(s, step);
      OwnZeros(s, step);
      OwnHalf(s, step);
      forall u: Tid ensures CountsOk(s', u) {
        if u != step.t {
          OthersZeros(s, step, u);
          OthersHalf(s, step, u);
        }
      }
    }
  }

  lemma InitialSafe(s: State)
    requires Initial(s)
    ensures Safe(s)
  {
    hide Inv;
    InitialInv(s);
    forall t: Tid ensures CountsOk(s, t) {
      assert At(s, t) == Idle;
    }
  }

  // ---------- Whole runs ----------

  /** No step of the run closes a slot that some thread is just assigning to. */
  ghost predicate Undisturbed(s: State, steps: seq<Step>)
    decreases |steps|
  {
    steps != [] ==> !Disturbs(s, steps[0]) && Undisturbed(Do(s, steps[0]), steps[1..])
  }

  /** Whatever still points to a file, it is alive and its filesystem is mounted. */
  ghost predicate PointersMounted(s: State) {
    forall p :: p in s.heap.holder ==>
      var f := s.heap.holder[p];
      && f in s.heap.refs && f in s.heap.parent
      && (s.heap.parent[f].Some? ==> s.heap.parent[f].value in s.mounts.Values)
  }

  /** An unmount that is about to erase its filesystems leaves no pointer to a file on them behind. */
  ghost predicate UnmountsIdle(s: State) {
    forall t: Tid, key, p ::
      && At(s, t).Checking? && At(s, t).i == |At(s, t).req.keys|
      && key in s.mounts && At(s, t).req.path <= key && p in s.heap.holder ==>
        s.heap.holder[p] in s.heap.parent && s.heap.parent[s.heap.holder[p]] != Some(s.mounts[key])
  }

  ghost predicate Sound(s: State) {
    Exact(s.heap) && PointersMounted(s) && UnmountsIdle(s)
  }

  ghost predicate SoundThroughout(s: State, steps: seq<Step>)
    decreases |steps|
  {
    Sound(s) && (steps != [] ==> SoundThroughout(Do(s, steps[0]), steps[1..]))
  }

  lemma SafeIsSound(s: State)
    requires Safe(s)
    ensures Sound(s)
  {
    hide Inv;
    HasParents(s.heap);
    forall t: Tid, key, p |
      && At(s, t).Checking? && At(s, t).i == |At(s, t).req.keys|
      && key in s.mounts && At(s, t).req.path <= key && p in s.heap.holder
      ensures s.heap.holder[p] in s.heap.parent && s.heap.parent[s.heap.holder[p]] != Some(s.mounts[key])
    {
      ErasedAreIdle(s, t, key);
    }
  }

  lemma {:induction false} SafeRunIff(s: State, steps: seq<Step>)
    requires Safe(s) && Possible(s, steps)
    ensures SoundThroughout(s, steps) <==> Undisturbed(s, steps)
    ensures Undisturbed(s, steps) ==> Safe(Run(s, steps))
    decreases |steps|
  {
    hide Safe, Enabled, Do, Disturbs, Exact, PointersMounted, UnmountsIdle;
    SafeIsSound(s);
    if steps != [] {
      StepIsSafeIff(s, steps[0]);
      if !Disturbs(s, steps[0]) {
        SafeRunIff(Do(s, steps[0]), steps[1..]);
      }
    }
  }

  /**
   In any run, counts stay exact, every pointer leads to a live file of a mounted filesystem and no
   unmount erases a filesystem that is in use, if and only if the run is undisturbed.
   */
  lemma SoundIffUndisturbed(s: State, steps: seq<Step>)
    requires Initial(s) && Possible(s, steps)
    ensures SoundThroughout(s, steps) <==> Undisturbed(s, steps)
  {
    hide Initial, Safe, Possible, SoundThroughout, Undisturbed;
    InitialSafe(s);
    SafeRunIff(s, steps);
  }

  /** The states of undisturbed runs. */
  ghost predicate Calm(now: State) {
    exists s: State, steps: seq<Step> ::
      Initial(s) && Possible(s, steps) && Undisturbed(s, steps) && now == Run(s, steps)
  }

  lemma CalmIsSafe(now: State)
    requires Calm(now)
    ensures Safe(now)
  {
    hide Safe, Initial;
    var s: State, steps: seq<Step> :|
      Initial(s) && Possible(s, steps) && Undisturbed(s, steps) && now == Run(s, steps);
    InitialSafe(s);
    SafeRunIff(s, steps);
  }

  /**
   In every undisturbed run, a file that anything still points to, be it a descriptor of any table, a
   table being copied or destroyed, or a local variable of an operation in flight, belongs to a
   filesystem that is still mounted.
   */
  lemma LiveFilesAreMounted(s: State, p: Place)
    requires Calm(s) && p in s.heap.holder
    ensures
      var f := s.heap.holder[p];
      f in s.heap.parent && (s.heap.parent[f].Some? ==> s.heap.parent[f].value in s.mounts.Values)
  {
    hide Calm, Inv;
    CalmIsSafe(s);
  }

  /** In every undisturbed run, an unmount that succeeds takes only filesystems without any live file. */
  lemma UnmountIsSafe(s: State, t: Tid, key: string)
    requires Calm(s) && Enabled(s, UmountErase(t))
    requires key in s.mounts && key !in Do(s, UmountErase(t)).mounts
    ensures forall p :: p in s.heap.holder ==>
      s.heap.holder[p] in s.heap.parent && s.heap.parent[s.heap.holder[p]] != Some(s.mounts[key])
  {
    hide Calm, Inv, Pointers;
    CalmIsSafe(s);
    HasParents(s.heap);
    ErasedAreIdle(s, t, key);
  }
}
