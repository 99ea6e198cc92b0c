/**
 What the descriptor calls leave in the slots, over whole calls and whatever other threads do in between:
 dup and dup2 the file they loaded, open and pipe the file they made, in the first slots found free.
 */
module DescriptorCalls {
  import opened Common
  import opened OpenFiles
  import opened Descriptors
  import opened DescriptorTheorems

  // ---------- A slot is a plain variable ----------

  /** What a slot holds after a step, told without counts, hands and halves. */
  function SlotAfter(s: State, step: Step, p: Place): Option<FileId> {
    var pc, mine, now := At(s, step.t), FileAt(s.heap, Hand(step.t, 0)), FileAt(s.heap, p);
    match step
    case Close(_, table, fd) => if p == Slot(table, fd) then None else now
    case StoreWrite(_) => if pc.Ready? && p == Slot(pc.table, pc.fd) then mine else now
    case Dup2Swap(_) => if pc.Dup2Locked? && p == Slot(pc.table, pc.newFd) then mine else now
    case CopySlot(_, keep) =>
      if pc.Copying? && p == Slot(pc.dst, pc.next) && pc.next < MAX_OPEN_FILES && keep
      then FileAt(s.heap, Slot(pc.table, pc.next)) else now
    case DestroySlot(_) =>
      if pc.Destroying? && p == Slot(pc.dst, pc.next) && pc.next < MAX_OPEN_FILES then None else now
    case UmountDecide(t) => if Forces(s, t) && p == Slot(pc.table, pc.fd) then None else now
    case _ => now
  }

  lemma UnchangedSlot(s: State, step: Step, p: Place)
    requires Inv(s) && Enabled(s, step) && p.Slot? && Changed(s, step) != Some(p)
    ensures FileAt(Pointers(s, step), p) == FileAt(s.heap, p)
  {
    hide Inv, Enabled, Pointers, Next, Changed;
    HeapStep(s, step);
  }

  lemma UnchangedIs(s: State, step: Step, p: Place)
    requires Changed(s, step) != Some(p)
    ensures SlotAfter(s, step, p) == FileAt(s.heap, p)
  {
    hide FileAt, At, ToUnmount;
  }

  lemma ChangedByCall(s: State, step: Step, p: Place)
    requires Enabled(s, step) && Changed(s, step) == Some(p) && (step.Close? || step.UmountDecide?)
    ensures FileAt(Pointers(s, step), p) == SlotAfter(s, step, p)
  {
    hide At, Concerned;
  }

  lemma HandIsFull(s: State, t: Tid)
    requires Inv(s) && Hands(At(s, t)) >= 1
    ensures Hand(t, 0) in s.heap.holder && FileAt(s.heap, Hand(t, 0)) == Some(s.heap.holder[Hand(t, 0)])
  {
    hide LocksOk, SlotsOk, KeysOk, TablesOk, HalvesOk, PrivateDistinct;
    InvAt(s, t);
  }

  lemma ChangedByStore(s: State, step: Step, p: Place)
    requires Inv(s) && Enabled(s, step) && Changed(s, step) == Some(p) && StoreStep(step)
    ensures FileAt(Pointers(s, step), p) == SlotAfter(s, step, p)
  {
    hide At, Inv;
    HandIsFull(s, step.t);
  }

  lemma ChangedByTable(s: State, step: Step, p: Place)
    requires Inv(s) && Enabled(s, step) && Changed(s, step) == Some(p) && TableStep(step)
    ensures FileAt(Pointers(s, step), p) == SlotAfter(s, step, p)
  {
    hide At, LocksOk, HandsOk, KeysOk, TablesOk, HalvesOk, PrivateDistinct;
    InvAt(s, step.t);
  }

  /**
   In every run, slots change as plain variables would: a slot is emptied by its close, by a forced unmount
   of the filesystem its file is on, or with its table, and is written only by the calls that say so.
   */
  lemma SlotsArePlain(s: State, step: Step, p: Place)
    requires Reachable(s) && Enabled(s, step) && p.Slot?
    ensures FileAt(Do(s, step).heap, p) == SlotAfter(s, step, p)
  {
    hide Reachable, Inv, Enabled, Pointers, Next, SlotAfter, Changed;
    ReachableInv(s);
    if Changed(s, step) != Some(p) {
      UnchangedSlot(s, step, p);
      UnchangedIs(s, step, p);
    } else {
      WhoChanges(s, step);
      if StoreStep(step) {
        ChangedByStore(s, step, p);
      } else if TableStep(step) {
        ChangedByTable(s, step, p);
      } else {
        ChangedByCall(s, step, p);
      }
    }
  }

  lemma WhoChanges(s: State, step: Step)
    requires Changed(s, step).Some?
    ensures StoreStep(step) || TableStep(step) || step.Close? || step.UmountDecide?
  {
  }

  // ---------- Pointers in hand ----------

  /** What a step leaves in a thread's hand. */
  lemma HandAfter(s: State, step: Step, t: Tid)
    requires Inv(s) && Enabled(s, step) && (step.t == t ==> QuietStep(step) || step.StoreWrite? || step.StoreRaise?)
    ensures FileAt(Do(s, step).heap, Hand(t, 0)) == FileAt(s.heap, Hand(t, 0))
  {
    hide Inv, Enabled, Pointers, Next;
    if step.t != t {
      HeapStep(s, step);
    } else if QuietStep(step) {
      QuietPointers(s, step);
    } else {
      StoreKeepsHand(s, step);
    }
  }

  lemma StoreKeepsHand(s: State, step: Step)
    requires step.StoreWrite? || step.StoreRaise?
    ensures FileAt(Pointers(s, step), Hand(step.t, 0)) == FileAt(s.heap, Hand(step.t, 0))
  {
    hide At;
  }

  /** What `dup2` puts into the slot and takes out of it, in one swap. */
  lemma Dup2Swaps(s: State, t: Tid)
    requires Inv(s) && Enabled(s, Dup2Swap(t))
    ensures
      var s', p := Do(s, Dup2Swap(t)), Slot(At(s, t).table, At(s, t).newFd);
      && FileAt(s.heap, Hand(t, 0)).Some?
      && FileAt(s'.heap, p) == FileAt(s'.heap, Hand(t, 0)) == FileAt(s.heap, Hand(t, 0))
      && FileAt(s'.heap, Hand(t, 1)) == FileAt(s.heap, p)
  {
    hide Inv, Next;
    HandIsFull(s, t);
    NoSecondHand(s, t);
  }

  lemma NoSecondHand(s: State, t: Tid)
    requires Inv(s) && Hands(At(s, t)) == 1
    ensures Hand(t, 1) !in s.heap.holder
  {
    hide LocksOk, SlotsOk, KeysOk, TablesOk, HalvesOk, PrivateDistinct;
    InvAt(s, t);
  }

  /** Loading a descriptor takes the file that is in the slot at that moment. */
  lemma Loads(s: State, t: Tid, table: TableId, fd: nat, purpose: Purpose)
    requires Enabled(s, Load(t, table, fd, purpose))
    ensures
      var s' := Do(s, Load(t, table, fd, purpose));
      FileAt(s'.heap, Hand(t, 0)) == FileAt(s.heap, Slot(table, fd)) && FileAt(s.heap, Slot(table, fd)).Some?
  {
    hide Next;
  }

  // ---------- Whole calls ----------

  /** The only steps that a thread itself takes are of these kinds. */
  predicate OnlySearches(steps: seq<Step>, t: Tid) {
    forall i :: 0 <= i < |steps| && steps[i].t == t ==> steps[i].DupLock? || steps[i].Dup2Lock? || steps[i].Find?
  }

  predicate OnlyStores(steps: seq<Step>, t: Tid) {
    forall i :: 0 <= i < |steps| && steps[i].t == t ==> steps[i].StoreWrite? || steps[i].StoreRaise?
  }

  lemma {:induction false} HandStays(s: State, steps: seq<Step>, t: Tid)
    requires Inv(s) && Possible(s, steps) && (OnlySearches(steps, t) || OnlyStores(steps, t))
    ensures FileAt(Run(s, steps).heap, Hand(t, 0)) == FileAt(s.heap, Hand(t, 0)) && Inv(Run(s, steps))
    decreases |steps|
  {
    hide Inv, Enabled, Do, FileAt;
    if steps != [] {
      assert forall i :: 0 <= i < |steps[1..]| ==> steps[1..][i] == steps[i + 1];
      StepKeepsInv(s, steps[0]);
      HandAfter(s, steps[0], t);
      HandStays(Do(s, steps[0]), steps[1..], t);
    }
  }

  /** The places of a dup on its table, up to the store or to the failure for want of a free slot. */
  predicate InDup(pc: Pc, table: TableId) {
    || pc == DupLoaded(table) || pc == Using
    || (pc.Finding? && pc.table == table && pc.dup) || (pc.Ready? && pc.table == table && pc.store == DupStore)
  }

  lemma SearchStep(s: State, step: Step, t: Tid, table: TableId)
    requires Enabled(s, step) && InDup(At(s, t), table)
    requires step.t == t ==> step.DupLock? || step.Dup2Lock? || step.Find?
    ensures InDup(At(Do(s, step), t), table)
  {
    hide Enabled, Pointers, Next, Do;
    AtAfter(s, step);
    if step.t == t { SearchNext(s, step, table); }
  }

  lemma SearchNext(s: State, step: Step, table: TableId)
    requires Enabled(s, step) && InDup(At(s, step.t), table) && (step.DupLock? || step.Dup2Lock? || step.Find?)
    ensures InDup(Next(s, step), table)
  {
    hide At;
  }

  lemma {:induction false} StaysInDup(s: State, steps: seq<Step>, t: Tid, table: TableId)
    requires Possible(s, steps) && OnlySearches(steps, t) && InDup(At(s, t), table)
    ensures InDup(At(Run(s, steps), t), table)
    decreases |steps|
  {
    hide Enabled, Do, InDup, At;
    if steps != [] {
      assert forall i :: 0 <= i < |steps[1..]| ==> steps[1..][i] == steps[i + 1];
      SearchStep(s, steps[0], t, table);
      StaysInDup(Do(s, steps[0]), steps[1..], t, table);
    }
  }

  /** The slots that a thread's steps assign to, and what is then in them, in order. */
  function Stores(s: State, steps: seq<Step>, t: Tid): seq<(Place, Option<FileId>)>
    decreases |steps|
  {
    if steps == [] then []
    else
      var step, pc := steps[0], At(s, t);
      (if step == StoreWrite(t) && pc.Ready?
       then [(Slot(pc.table, pc.fd), FileAt(Do(s, step).heap, Slot(pc.table, pc.fd)))] else [])
      + Stores(Do(s, step), steps[1..], t)
  }

  /** The slots that a thread at such a place has still to assign `f` to. */
  function Owed(pc: Pc, f: Option<FileId>): seq<(Place, Option<FileId>)> {
    match pc
    case Ready(table, fd, PipeFirst(fd1)) => [(Slot(table, fd), f), (Slot(table, fd1), f)]
    case Ready(table, fd, _) => [(Slot(table, fd), f)]
    case Storing(table, fd, PipeFirst(fd1)) => [(Slot(table, fd1), f)]
    case _ => []
  }

  lemma OwedStep(s: State, step: Step, t: Tid)
    requires Inv(s) && Enabled(s, step) && (step.t == t ==> step.StoreWrite? || step.StoreRaise?)
    ensures
      var f := FileAt(s.heap, Hand(t, 0));
      Stores(s, [step], t) + Owed(At(Do(s, step), t), f) == Owed(At(s, t), f)
  {
    hide Inv, Enabled, Next, Pointers, Owed, Do;
    AtAfter(s, step);
    assert [step][1..] == [];
    if step.t == t {
      OwedNext(s, step);
      if step.StoreWrite? { WriteStores(s, t); }
    }
  }

  lemma WriteStores(s: State, t: Tid)
    requires Inv(s) && Enabled(s, StoreWrite(t))
    ensures
      && At(s, t).Ready?
      && FileAt(Do(s, StoreWrite(t)).heap, Slot(At(s, t).table, At(s, t).fd)) == FileAt(s.heap, Hand(t, 0))
  {
    hide Inv, Next;
    HandIsFull(s, t);
  }

  lemma OwedNext(s: State, step: Step)
    requires Enabled(s, step) && (step.StoreWrite? || step.StoreRaise?)
    ensures
      var f, pc := FileAt(s.heap, Hand(step.t, 0)), At(s, step.t);
      if step.StoreWrite?
      then pc.Ready? && [(Slot(pc.table, pc.fd), f)] + Owed(Next(s, step), f) == Owed(pc, f)
      else Owed(Next(s, step), f) == Owed(pc, f)
  {
    hide At, FileAt;
  }

  lemma StoresFirst(s: State, steps: seq<Step>, t: Tid)
    requires steps != []
    ensures Stores(s, steps, t) == Stores(s, [steps[0]], t) + Stores(Do(s, steps[0]), steps[1..], t)
  {
    hide Do;
    assert [steps[0]][1..] == [] && Stores(Do(s, steps[0]), [], t) == [];
  }

  /** What a thread has stored, and what it has still to store, are what it had to store. */
  lemma {:induction false} StoresAreOwed(s: State, steps: seq<Step>, t: Tid)
    requires Inv(s) && Possible(s, steps) && OnlyStores(steps, t)
    ensures
      var f := FileAt(s.heap, Hand(t, 0));
      Stores(s, steps, t) + Owed(At(Run(s, steps), t), f) == Owed(At(s, t), f)
    decreases |steps|
  {
    hide Inv, Enabled, Do, FileAt, Owed, Stores, At;
    var f := FileAt(s.heap, Hand(t, 0));
    if steps == [] {
      NothingStored(s, t);
    } else {
      assert forall i :: 0 <= i < |steps[1..]| ==> steps[1..][i] == steps[i + 1];
      var s1 := Do(s, steps[0]);
      StepKeepsInv(s, steps[0]);
      HandAfter(s, steps[0], t);
      OwedStep(s, steps[0], t);
      StoresFirst(s, steps, t);
      StoresAreOwed(s1, steps[1..], t);
      var a, b, end := Stores(s, [steps[0]], t), Stores(s1, steps[1..], t), Owed(At(Run(s, steps), t), f);
      assert (a + b) + end == a + (b + end);
    }
  }

  lemma NothingStored(s: State, t: Tid)
    ensures Stores(s, [], t) == []
  {
  }

  lemma OwesNothing(pc: Pc, f: Option<FileId>)
    requires pc.Stored? || pc == Using
    ensures Owed(pc, f) == []
  {
  }

  /**
   A dup that finds a free slot stores there, and nowhere else, the file it loaded from the descriptor it was
   given, whatever other threads do to that descriptor in between.
   */
  lemma DupStoresLoaded(s: State, t: Tid, table: TableId, fd: nat, search: seq<Step>, store: seq<Step>)
    requires Reachable(s) && Enabled(s, Load(t, table, fd, ForDup))
    requires Possible(Do(s, Load(t, table, fd, ForDup)), search) && OnlySearches(search, t)
    requires
      var found := Run(Do(s, Load(t, table, fd, ForDup)), search);
      && At(found, t).Ready? && Possible(found, store) && OnlyStores(store, t)
      && At(Run(found, store), t) == Using
    ensures
      var found := Run(Do(s, Load(t, table, fd, ForDup)), search);
      && FileAt(s.heap, Slot(table, fd)).Some?
      && Stores(found, store, t) == [(Slot(table, At(found, t).fd), FileAt(s.heap, Slot(table, fd)))]
  {
    hide Reachable, Inv, Enabled, Do, FileAt, Stores, Owed, Run, Possible, OnlySearches, OnlyStores, At;
    var loaded := Do(s, Load(t, table, fd, ForDup));
    var found := Run(loaded, search);
    ReachableInv(s);
    StepKeepsInv(s, Load(t, table, fd, ForDup));
    Loads(s, t, table, fd, ForDup);
    LoadBegins(s, t, table, fd);
    HandStays(loaded, search, t);
    StaysInDup(loaded, search, t, table);
    StoresAreOwed(found, store, t);
    OwesNothing(At(Run(found, store), t), FileAt(found.heap, Hand(t, 0)));
    DupOwes(At(found, t), table, FileAt(found.heap, Hand(t, 0)));
  }

  lemma LoadBegins(s: State, t: Tid, table: TableId, fd: nat)
    ensures At(Do(s, Load(t, table, fd, ForDup)), t) == DupLoaded(table)
  {
    hide Pointers;
    AtAfter(s, Load(t, table, fd, ForDup));
  }

  lemma DupOwes(pc: Pc, table: TableId, f: Option<FileId>)
    requires InDup(pc, table) && pc.Ready?
    ensures Owed(pc, f) == [(Slot(table, pc.fd), f)]
  {
  }

  /** What open makes is what it stores, in the slot it found, and nowhere else. */
  lemma OpenStoresMade(s: State, t: Tid, file: FileId, parent: Option<FsId>, store: seq<Step>)
    requires Reachable(s) && Enabled(s, OpenCreate(t, file, parent))
    requires
      var made := Do(s, OpenCreate(t, file, parent));
      Possible(made, store) && OnlyStores(store, t) && At(Run(made, store), t).Stored?
    ensures At(s, t).Opening?
    ensures Stores(Do(s, OpenCreate(t, file, parent)), store, t) == [(Slot(At(s, t).table, At(s, t).fd), Some(file))]
  {
    hide Reachable, Inv, Enabled, Do, FileAt, Stores, Owed, Run, Possible, OnlyStores, At;
    var made := Do(s, OpenCreate(t, file, parent));
    ReachableInv(s);
    StepKeepsInv(s, OpenCreate(t, file, parent));
    OpenMakes(s, t, file, parent);
    StoresAreOwed(made, store, t);
    OwesNothing(At(Run(made, store), t), FileAt(made.heap, Hand(t, 0)));
  }

  lemma OpenMakes(s: State, t: Tid, file: FileId, parent: Option<FsId>)
    requires Enabled(s, OpenCreate(t, file, parent))
    ensures
      var made := Do(s, OpenCreate(t, file, parent));
      && At(s, t).Opening? && FileAt(made.heap, Hand(t, 0)) == Some(file)
      && Owed(At(made, t), Some(file)) == [(Slot(At(s, t).table, At(s, t).fd), Some(file))]
  {
    hide NextStoreStep, NextTableStep, NextUnmount, StorePointers, TablePointers, UnmountPointers;
  }

  /** A pipe stores one and the same new file in the two different slots it found, and nowhere else. */
  lemma PipeStoresMade(s: State, t: Tid, file: FileId, store: seq<Step>)
    requires Reachable(s) && Enabled(s, PipeCreate(t, file))
    requires
      var made := Do(s, PipeCreate(t, file));
      Possible(made, store) && OnlyStores(store, t) && At(Run(made, store), t).Stored?
    ensures At(s, t).PipeFound? && At(s, t).fd0 != At(s, t).fd1 && file !in s.heap.refs
    ensures
      var table, fd0, fd1 := At(s, t).table, At(s, t).fd0, At(s, t).fd1;
      Stores(Do(s, PipeCreate(t, file)), store, t) == [(Slot(table, fd0), Some(file)), (Slot(table, fd1), Some(file))]
  {
    hide Reachable, Inv, Enabled, Do, FileAt, Stores, Owed, Run, Possible, OnlyStores, At;
    var made := Do(s, PipeCreate(t, file));
    ReachableInv(s);
    StepKeepsInv(s, PipeCreate(t, file));
    PipeMakes(s, t, file);
    StoresAreOwed(made, store, t);
    OwesNothing(At(Run(made, store), t), FileAt(made.heap, Hand(t, 0)));
    PipeSlotsDiffer(s, t);
  }

  lemma PipeMakes(s: State, t: Tid, file: FileId)
    requires Enabled(s, PipeCreate(t, file))
    ensures
      var made := Do(s, PipeCreate(t, file));
      && At(s, t).PipeFound? && file !in s.heap.refs && FileAt(made.heap, Hand(t, 0)) == Some(file)
      && var table, fd0, fd1 := At(s, t).table, At(s, t).fd0, At(s, t).fd1;
         Owed(At(made, t), Some(file)) == [(Slot(table, fd0), Some(file)), (Slot(table, fd1), Some(file))]
  {
    hide NextStoreStep, NextTableStep, NextUnmount, StorePointers, TablePointers, UnmountPointers;
  }

  lemma PipeSlotsDiffer(s: State, t: Tid)
    requires Inv(s) && At(s, t).PipeFound?
    ensures At(s, t).fd0 != At(s, t).fd1
  {
    hide LocksOk, HandsOk, KeysOk, TablesOk, HalvesOk, PrivateDistinct;
    InvAt(s, t);
  }

  /** A dup2 swaps the file it loaded into the slot it was given, and what was there into its other hand. */
  lemma Dup2StoresLoaded(s: State, t: Tid, table: TableId, fd: nat, newFd: nat, wait: seq<Step>)
    requires Reachable(s) && Enabled(s, Load(t, table, fd, ForDup2(newFd)))
    requires Possible(Do(s, Load(t, table, fd, ForDup2(newFd))), wait) && OnlySearches(wait, t)
    requires Enabled(Run(Do(s, Load(t, table, fd, ForDup2(newFd))), wait), Dup2Swap(t))
    ensures
      var now := Run(Do(s, Load(t, table, fd, ForDup2(newFd))), wait);
      var end := Do(now, Dup2Swap(t));
      && FileAt(s.heap, Slot(table, fd)).Some?
      && FileAt(end.heap, Slot(table, newFd)) == FileAt(s.heap, Slot(table, fd))
      && FileAt(end.heap, Hand(t, 1)) == FileAt(now.heap, Slot(table, newFd))
  {
    hide Reachable, Inv, Enabled, Do, FileAt, Run, Possible, OnlySearches, At;
    var load := Load(t, table, fd, ForDup2(newFd));
    var loaded := Do(s, load);
    ReachableInv(s);
    StepKeepsInv(s, load);
    Loads(s, t, table, fd, ForDup2(newFd));
    HandStays(loaded, wait, t);
    Load2Begins(s, t, table, fd, newFd);
    StaysInDup2(loaded, wait, t, table, newFd);
    SwapPlace(Run(loaded, wait), t);
    Dup2Swaps(Run(loaded, wait), t);
  }

  lemma SwapPlace(s: State, t: Tid)
    requires Enabled(s, Dup2Swap(t))
    ensures At(s, t).Dup2Locked?
  {
  }

  predicate InDup2(pc: Pc, table: TableId, newFd: nat) {
    pc == Dup2Loaded(table, newFd) || pc == Dup2Locked(table, newFd)
  }

  lemma Load2Begins(s: State, t: Tid, table: TableId, fd: nat, newFd: nat)
    ensures InDup2(At(Do(s, Load(t, table, fd, ForDup2(newFd))), t), table, newFd)
  {
    hide Pointers;
    AtAfter(s, Load(t, table, fd, ForDup2(newFd)));
  }

  lemma Search2Next(s: State, step: Step, table: TableId, newFd: nat)
    requires Enabled(s, step) && InDup2(At(s, step.t), table, newFd)
    requires step.DupLock? || step.Dup2Lock? || step.Find?
    ensures InDup2(Next(s, step), table, newFd)
  {
    hide At;
  }

  lemma {:induction false} StaysInDup2(s: State, steps: seq<Step>, t: Tid, table: TableId, newFd: nat)
    requires Possible(s, steps) && OnlySearches(steps, t) && InDup2(At(s, t), table, newFd)
    ensures InDup2(At(Run(s, steps), t), table, newFd)
    decreases |steps|
  {
    hide Enabled, Do, InDup2, At, Next;
    if steps != [] {
      assert forall i :: 0 <= i < |steps[1..]| ==> steps[1..][i] == steps[i + 1];
      AtAfter(s, steps[0]);
      if steps[0].t == t { Search2Next(s, steps[0], table, newFd); }
      StaysInDup2(Do(s, steps[0]), steps[1..], t, table, newFd);
    }
  }

  // ---------- The first free slots ----------

  /** The slot was in use at some moment of the run. */
  predicate Seen(s: State, steps: seq<Step>, p: Place)
    decreases |steps|
  {
    p in s.heap.holder || (steps != [] && Seen(Do(s, steps[0]), steps[1..], p))
  }

  predicate OnlyFinds(steps: seq<Step>, t: Tid) {
    forall i :: 0 <= i < |steps| && steps[i].t == t ==> steps[i].Find?
  }

  /** How far a search has got; one that failed has got to the end. */
  function Limit(pc: Pc): nat {
    match pc
    case Finding(_, next, _) => next
    case Found(_, fd) => fd
    case Ready(_, fd, _) => fd
    case PipeFinding(_, next, _) => next
    case PipeFound(_, _, fd1) => fd1
    case _ => MAX_OPEN_FILES
  }

  /** The free slot that a pipe has found first. */
  function First(pc: Pc): Option<nat> {
    match pc
    case PipeFinding(_, _, first) => first
    case PipeFound(_, fd0, _) => Some(fd0)
    case _ => None
  }

  predicate InSearch(pc: Pc, table: TableId) {
    (pc.Finding? || pc.PipeFinding?) && pc.table == table
  }

  /** What one look at a slot tells. */
  lemma FindLooks(s: State, t: Tid, table: TableId)
    requires InSearch(At(s, t), table)
    ensures
      var pc, pc' := At(s, t), Next(s, Find(t));
      && (InSearch(pc', table) ==>
            && Limit(pc') == Limit(pc) + 1 && (pc'.Finding? <==> pc.Finding?)
            && ((Slot(table, Limit(pc)) in s.heap.holder && First(pc') == First(pc))
                || (pc.PipeFinding? && First(pc).None? && First(pc') == Some(Limit(pc)))))
      && (!InSearch(pc', table) ==>
            && Limit(pc') == (if Limit(pc) < MAX_OPEN_FILES then Limit(pc) else MAX_OPEN_FILES)
            && !pc'.Finding? && !pc'.PipeFinding? && (pc'.PipeFound? ==> First(pc') == First(pc)))
  {
  }

  /** Searches begin with the first slot. */
  lemma SearchBegins(s: State, step: Step)
    requires Enabled(s, step) && (step.OpenBegin? || step.DupLock? || step.PipeBegin?)
    ensures
      var table := if step.DupLock? then At(s, step.t).table else step.table;
      InSearch(Next(s, step), table) && Limit(Next(s, step)) == 0 && First(Next(s, step)) == None
  {
    hide At;
  }

  /**
   A search looks at the slots in order: of those below the one it found, or all if it failed, each was in
   use at some moment of the search, but for the one that a pipe keeps as its first.
   */
  lemma {:induction false} SearchSees(s: State, steps: seq<Step>, t: Tid, table: TableId) returns (kept: Option<nat>)
    requires Possible(s, steps) && OnlyFinds(steps, t) && InSearch(At(s, t), table)
    ensures
      var pc, pc' := At(s, t), At(Run(s, steps), t);
      && (forall j :: Limit(pc) <= j < Limit(pc') ==> Seen(s, steps, Slot(table, j)) || kept == Some(j))
      && (First(pc).Some? || pc.Finding? ==> kept == First(pc))
      && (pc'.PipeFinding? || pc'.PipeFound? ==> kept == First(pc'))
    decreases |steps|
  {
    hide Enabled, Do, At, Next, Limit, First;
    if steps == [] {
      return First(At(s, t));
    }
    var s1, step := Do(s, steps[0]), steps[0];
    assert forall i :: 0 <= i < |steps[1..]| ==> steps[1..][i] == steps[i + 1];
    AtAfter(s, step);
    if step.t == t { FindLooks(s, t, table); }
    if InSearch(At(s1, t), table) {
      kept := SearchSees(s1, steps[1..], t, table);
    } else {
      SearchOver(s1, steps[1..], t);
      kept := First(At(s, t));
    }
  }

  /** A search that is over stays where it ended. */
  lemma {:induction false} SearchOver(s: State, steps: seq<Step>, t: Tid)
    requires Possible(s, steps) && OnlyFinds(steps, t) && !At(s, t).Finding? && !At(s, t).PipeFinding?
    ensures At(Run(s, steps), t) == At(s, t)
    decreases |steps|
  {
    hide Do, Next;
    if steps != [] {
      assert forall i :: 0 <= i < |steps[1..]| ==> steps[1..][i] == steps[i + 1];
      AtAfter(s, steps[0]);
      SearchOver(Do(s, steps[0]), steps[1..], t);
    }
  }
}
