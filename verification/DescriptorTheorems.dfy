/**
 What every run of the descriptor operations keeps, whatever happens to the counts of files:
 mutexes and pointers in hand go with where a thread is, a slot found empty stays empty until
 it is filled, only dup2 replaces a descriptor, and no thread waits for ever for a mutex.
 */
module DescriptorTheorems {
  import opened Common
  import opened OpenFiles
  import opened Descriptors

  // ---------- The invariant ----------

  ghost predicate HandsIn(h: Heap, t: Tid, n: nat) {
    forall i: nat :: Hand(t, i) in h.holder <==> i < n
  }

  /** A thread has as many pointers in hand as its place says. */
  ghost predicate HandsOk(h: Heap, t: Tid, pc: Pc) {
    HandsIn(h, t, Hands(pc))
  }

  /** The two slots of a pipe differ. */
  ghost predicate PipeOk(pc: Pc) {
    && (pc.PipeFound? ==> pc.fd0 != pc.fd1)
    && (pc.PipeFinding? && pc.first.Some? ==> pc.first.value < pc.next)
    && ((pc.Ready? || pc.Storing?) && pc.store.PipeFirst? ==> pc.fd != pc.store.fd1)
  }

  /** The slots a thread relies on are still empty. */
  ghost predicate SlotsOk(h: Heap, pc: Pc) {
    && (forall p :: p in Reserved(pc) ==> p !in h.holder)
    && PipeOk(pc)
    && (pc.Copying? ==> forall fd :: fd >= pc.next ==> Slot(pc.dst, fd) !in h.holder)
  }

  /** What an unmount found when it started is still so. */
  ghost predicate KeysOk(mounts: map<string, FsId>, pc: Pc) {
    Unmounting(pc) ==>
      && pc.req.path in mounts && (forall key :: key in pc.req.keys <==> key in mounts && pc.req.path <= key)
      && (pc.Checking? ==> pc.i <= |pc.req.keys|)
  }

  ghost predicate LocksOk(s: State, t: Tid) {
    var pc := At(s, t);
    && (Locks(pc).Some? ==>
          Locks(pc).value in s.tables && Locks(pc).value in s.tableLock && s.tableLock[Locks(pc).value] == t)
    && (LocksFs(pc) <==> s.fsLock == Some(t))
    && (Private(pc).Some? ==> Private(pc).value in s.known && Private(pc).value !in s.tables)
  }

  ghost predicate ThreadOk(s: State, t: Tid) {
    LocksOk(s, t) && HandsOk(s.heap, t, At(s, t)) && SlotsOk(s.heap, At(s, t)) && KeysOk(s.mounts, At(s, t))
  }

  /** No table is private to two threads. */
  ghost predicate PrivateDistinct(s: State) {
    forall t: Tid, u: Tid :: Private(At(s, t)).Some? && Private(At(s, t)) == Private(At(s, u)) ==> t == u
  }

  ghost predicate TablesOk(s: State) {
    && s.tables <= s.known
    && (forall p :: p in s.heap.holder && p.Slot? ==> p.table in s.known)
    && (forall table :: table in s.tableLock ==> Locks(At(s, s.tableLock[table])) == Some(table))
  }

  /** A pointer that is not counted yet is in a slot that some thread is assigning to. */
  ghost predicate HalvesOk(s: State) {
    forall p :: p in s.heap.half ==>
      && p.Slot? && p in s.heap.holder && p.table in s.tableLock
      && HalfDone(At(s, s.tableLock[p.table])) == Some(p)
  }

  ghost predicate Inv(s: State) {
    TablesOk(s) && PrivateDistinct(s) && HalvesOk(s) && forall t: Tid :: ThreadOk(s, t)
  }

  lemma InvAt(s: State, t: Tid)
    requires Inv(s)
    ensures ThreadOk(s, t)
  {
  }

  // ---------- Mutexes and tables ----------

  /** A step that neither stores, copies tables nor looks at what to unmount. */
  predicate PlainStep(step: Step) {
    !StoreStep(step) && !TableStep(step) && !UnmountStep(step)
  }

  lemma MutexAfterOfCall(s: State, step: Step)
    requires Enabled(s, step) && PlainStep(step)
    ensures
      var pc, next := At(s, step.t), Next(s, step);
      || Locks(next) == Locks(pc) || Locks(next).None?
      || (Locks(pc).None? && CanLock(s, Locks(next).value) && !step.DestroyBegin?)
  {
    hide Concerned, Forces, At, OpenFileCount, NextTableStep, NextStoreStep, NextUnmount;
  }

  lemma MutexAfterOfRest(s: State, step: Step)
    requires Enabled(s, step) && !PlainStep(step)
    ensures
      var pc, next := At(s, step.t), Next(s, step);
      || Locks(next) == Locks(pc) || Locks(next).None?
      || (Locks(pc).None? && CanLock(s, Locks(next).value) && !step.DestroyBegin?)
  {
    hide Concerned, Forces, At, OpenFileCount, NextCall;
  }

  /** A step takes at most a free mutex. */
  lemma NextTableMutex(s: State, step: Step)
    requires Enabled(s, step)
    ensures
      var pc, next := At(s, step.t), Next(s, step);
      || Locks(next) == Locks(pc) || Locks(next).None?
      || (Locks(pc).None? && CanLock(s, Locks(next).value) && !step.DestroyBegin?)
  {
    hide Enabled, Next, Locks, CanLock;
    if PlainStep(step) { MutexAfterOfCall(s, step); } else { MutexAfterOfRest(s, step); }
  }

  lemma NextFsMutex(s: State, step: Step)
    requires Enabled(s, step)
    ensures
      var pc, next := At(s, step.t), Next(s, step);
      LocksFs(next) == LocksFs(pc) || !LocksFs(next) || s.fsLock.None?
  {
    hide Enabled, Next, LocksFs;
    if PlainStep(step) { FsMutexOfCall(s, step); } else { FsMutexOfRest(s, step); }
  }

  lemma FsMutexOfCall(s: State, step: Step)
    requires Enabled(s, step) && PlainStep(step)
    ensures
      var pc, next := At(s, step.t), Next(s, step);
      LocksFs(next) == LocksFs(pc) || !LocksFs(next) || s.fsLock.None?
  {
    hide At, OpenFileCount, NextTableStep, NextStoreStep, NextUnmount;
  }

  lemma FsMutexOfRest(s: State, step: Step)
    requires Enabled(s, step) && !PlainStep(step)
    ensures
      var pc, next := At(s, step.t), Next(s, step);
      LocksFs(next) == LocksFs(pc) || !LocksFs(next) || s.fsLock.None?
  {
    hide Concerned, Forces, At, NextCall;
  }

  /** A table that becomes private was unknown or free, and one that becomes registered was private. */
  lemma NextPrivate(s: State, step: Step)
    requires Enabled(s, step)
    ensures
      var pc, next := At(s, step.t), Next(s, step);
      && (Private(next).Some? && Private(next) != Private(pc) ==>
            (step.CopyBegin? && Private(next).value == step.dst) ||
            (step.DestroyBegin? && Private(next).value == step.table))
      && (step.Register? ==> pc.Copied? && Private(next).None?)
  {
    hide Enabled, Next, Private;
    if PlainStep(step) { PrivateOfCall(s, step); } else { PrivateOfRest(s, step); }
  }

  lemma PrivateOfCall(s: State, step: Step)
    requires Enabled(s, step) && PlainStep(step)
    ensures
      var pc, next := At(s, step.t), Next(s, step);
      && (step.CopyBegin? ==> Private(next) == Some(step.dst))
      && (step.DestroyBegin? ==> Private(next) == Some(step.table))
      && (step.Register? ==> pc.Copied? && Private(next).None?)
      && (step.CopyBegin? || step.DestroyBegin? || Private(next).None?)
      && (next.Copying? ==> step.CopyBegin?)
  {
    hide Concerned, Forces, At, OpenFileCount, NextTableStep, NextStoreStep, NextUnmount, Occupied;
  }

  lemma PrivateOfRest(s: State, step: Step)
    requires Enabled(s, step) && !PlainStep(step)
    ensures Private(Next(s, step)).None? || Private(Next(s, step)) == Private(At(s, step.t))
    ensures Next(s, step).Copying? ==> step.CopySlot? && At(s, step.t).Copying?
  {
    hide Concerned, Forces, At, NextCall, Occupied;
  }

  /** Where the threads are after a step. */
  lemma AtAfter(s: State, step: Step)
    ensures forall u: Tid :: At(Do(s, step), u) == if u == step.t then Next(s, step) else At(s, u)
  {
    hide Next, Pointers, NextMounts, NextTables, NextTableLock, NextFsLock;
  }

  lemma TablesAfter(s: State, step: Step)
    requires Inv(s) && Enabled(s, step)
    ensures var s' := Do(s, step); s'.tables <= s'.known && s.known <= s'.known
    ensures forall table :: table in s.tables && table !in Do(s, step).tables ==>
              table !in s.tableLock && step.DestroyBegin?
    ensures forall table :: table in Do(s, step).tables && table !in s.tables ==>
              Private(At(s, step.t)) == Some(table) && step.Register?
  {
    hide Next, Pointers, NextMounts, NextTableLock, NextFsLock, HandsOk, SlotsOk, KeysOk, HalvesOk, PrivateDistinct;
    InvAt(s, step.t);
  }

  lemma LocksAfter(s: State, step: Step, u: Tid)
    requires Inv(s) && Enabled(s, step)
    ensures LocksOk(Do(s, step), u)
  {
    hide Next, Pointers, NextMounts, NextTables, HandsOk, SlotsOk, KeysOk, HalvesOk, Enabled;
    InvAt(s, step.t);
    InvAt(s, u);
    AtAfter(s, step);
    TablesAfter(s, step);
    NextTableMutex(s, step);
    NextFsMutex(s, step);
    PrivateAfter(s, step, u);
  }

  lemma PrivateAfter(s: State, step: Step, u: Tid)
    requires Inv(s) && Enabled(s, step)
    ensures
      var s' := Do(s, step);
      Private(At(s', u)).Some? ==> Private(At(s', u)).value in s'.known && Private(At(s', u)).value !in s'.tables
  {
    hide Next, Pointers, NextMounts, HandsOk, SlotsOk, KeysOk, HalvesOk, NextTableLock, NextFsLock;
    InvAt(s, step.t);
    InvAt(s, u);
    AtAfter(s, step);
    NextPrivate(s, step);
  }

  lemma PrivateStays(s: State, step: Step)
    requires Inv(s) && Enabled(s, step)
    ensures PrivateDistinct(Do(s, step))
  {
    hide Next, Pointers, NextMounts, NextTables, HandsOk, SlotsOk, KeysOk, HalvesOk, NextTableLock, NextFsLock;
    AtAfter(s, step);
    NextPrivate(s, step);
    forall u: Tid ensures Private(At(s, u)).Some? ==>
      Private(At(s, u)).value in s.known && Private(At(s, u)).value !in s.tables
    {
      InvAt(s, u);
    }
  }

  lemma OwnersAfter(s: State, step: Step)
    requires Inv(s) && Enabled(s, step)
    ensures
      var s' := Do(s, step);
      forall table :: table in s'.tableLock ==> Locks(At(s', s'.tableLock[table])) == Some(table)
  {
    hide Next, Pointers, NextMounts, NextTables, HandsOk, SlotsOk, KeysOk, HalvesOk, NextFsLock,
         PrivateDistinct, Enabled;
    InvAt(s, step.t);
    AtAfter(s, step);
    NextTableMutex(s, step);
  }

  // ---------- Pointers ----------

  /** The slot that a step takes the pointer out of. */
  function Taken(s: State, step: Step): Option<Place> {
    match step
    case Close(_, table, fd) => Some(Slot(table, fd))
    case UmountDecide(t) =>
      if At(s, t).Looking? && Forces(s, t) then Some(Slot(At(s, t).table, At(s, t).fd)) else None
    case _ => None
  }

  /** The slot that a step assigns to, in whole or in half. */
  function Assigned(pc: Pc, step: Step): Option<Place> {
    match (step, pc)
    case (StoreWrite(_), Ready(table, fd, _)) => Some(Slot(table, fd))
    case (StoreRaise(_, _), Storing(table, fd, _)) => Some(Slot(table, fd))
    case (Dup2Swap(_), Dup2Locked(table, newFd)) => Some(Slot(table, newFd))
    case (CopySlot(_, _), Copying(_, dst, next)) => Some(Slot(dst, next))
    case (DestroySlot(_), Destroying(dst, next)) => Some(Slot(dst, next))
    case _ => None
  }

  /** The only slot that a step changes. */
  function Changed(s: State, step: Step): Option<Place> {
    if step.Close? || step.UmountDecide? then Taken(s, step) else Assigned(At(s, step.t), step)
  }

  /** Whether that slot may hold another pointer than before. */
  predicate Writes(step: Step) {
    step.StoreWrite? || step.Dup2Swap? || step.CopySlot?
  }

  /**
   What a thread's step may change: the pointers in its hand, of which there are then `hands`, and one
   slot, which may lose its pointer, or get another one if `writes`, uncounted if `half`.
   */
  ghost predicate Touches(h: Heap, h': Heap, t: Tid, hands: nat, changed: Option<Place>, writes: bool, half: bool) {
    && HandsIn(h', t, hands)
    && (forall u: Tid, n: nat :: u != t ==> FileAt(h', Hand(u, n)) == FileAt(h, Hand(u, n)))
    && (forall p: Place :: p.Slot? && changed != Some(p) ==>
          FileAt(h', p) == FileAt(h, p) && (p in h'.half <==> p in h.half))
    && (changed.Some? ==>
          && (writes || FileAt(h', changed.value) == None || FileAt(h', changed.value) == FileAt(h, changed.value))
          && (changed.value in h'.half ==> half))
    && (forall p :: p in h'.half && p.Hand? ==> p in h.half)
  }

  lemma NothingTouched(h: Heap, t: Tid, hands: nat, changed: Option<Place>, writes: bool)
    requires HandsIn(h, t, hands) && (changed.Some? ==> changed.value !in h.half)
    ensures Touches(h, h, t, hands, changed, writes, false)
  {
  }

  lemma CopyToHand(h: Heap, p: Place, t: Tid)
    requires p.Slot? && p in h.holder && HandsIn(h, t, 0)
    ensures Touches(h, Copy(h, p, Hand(t, 0)), t, 1, None, false, false)
  {
  }

  lemma MoveToHand(h: Heap, p: Place, t: Tid, n: nat)
    requires p.Slot? && p in h.holder && HandsIn(h, t, n)
    ensures Touches(h, Move(h, p, Hand(t, n)), t, n + 1, Some(p), false, false)
  {
  }

  lemma DropHand(h: Heap, t: Tid, n: nat)
    requires HandsIn(h, t, n + 1)
    ensures Touches(h, Drop(h, Hand(t, n)), t, n, None, false, false)
  {
  }

  /** There is nothing to drop in the hand after the last. */
  lemma DropNoHand(h: Heap, t: Tid, n: nat)
    requires HandsIn(h, t, n)
    ensures Touches(h, Drop(h, Hand(t, n)), t, n, None, false, false)
  {
  }

  lemma CreateInHand(h: Heap, t: Tid, f: FileId, parent: Option<FsId>)
    requires HandsIn(h, t, 0)
    ensures Touches(h, Create(h, Hand(t, 0), f, parent), t, 1, None, false, false)
  {
  }

  lemma WriteSlot(h: Heap, p: Place, t: Tid)
    requires p.Slot? && HandsIn(h, t, 1)
    ensures Touches(h, Write(h, Hand(t, 0), p), t, 1, Some(p), true, true)
  {
  }

  lemma RaiseSlot(h: Heap, p: Place, f: Option<FileId>, t: Tid)
    requires p.Slot? && HandsIn(h, t, 1)
    ensures Touches(h, Raise(h, p, f), t, 1, Some(p), false, false)
  {
  }

  lemma SwapSlot(h: Heap, p: Place, t: Tid)
    requires p.Slot? && HandsIn(h, t, 1)
    ensures Touches(h, Copy(Move(h, p, Hand(t, 1)), Hand(t, 0), p), t, if p in h.holder then 2 else 1, Some(p), true, false)
  {
    hide Copy, Move;
    var mid := Move(h, p, Hand(t, 1));
    if p in h.holder {
      MovedOut(h, p, Hand(t, 1));
    } else {
      NothingMoved(h, p, Hand(t, 1));
    }
    CopiedOver(mid, Hand(t, 0), p);
  }

  lemma MovedOut(h: Heap, from: Place, to: Place)
    requires from in h.holder && from != to
    ensures forall p: Place :: FileAt(Move(h, from, to), p) ==
              if p == to then FileAt(h, from) else if p == from then None else FileAt(h, p)
    ensures forall p: Place :: p in Move(h, from, to).holder <==> p == to || (p in h.holder && p != from)
    ensures Move(h, from, to).half == h.half - {from, to}
  {
  }

  lemma NothingMoved(h: Heap, from: Place, to: Place)
    requires from !in h.holder
    ensures Move(h, from, to) == h
  {
  }

  lemma CopiedOver(h: Heap, from: Place, to: Place)
    requires from in h.holder
    ensures forall p: Place :: FileAt(Copy(h, from, to), p) == if p == to then FileAt(h, from) else FileAt(h, p)
    ensures forall p: Place :: p in Copy(h, from, to).holder <==> p == to || p in h.holder
    ensures Copy(h, from, to).half == h.half - {to}
  {
  }

  lemma CopyToSlot(h: Heap, from: Place, to: Place, t: Tid)
    requires to.Slot? && to !in h.half && HandsIn(h, t, 0)
    ensures Touches(h, Copy(h, from, to), t, 0, Some(to), true, false)
  {
  }

  lemma DropSlot(h: Heap, p: Place, t: Tid)
    requires p.Slot? && p !in h.half && HandsIn(h, t, 0)
    ensures Touches(h, Drop(h, p), t, 0, Some(p), false, false)
  {
  }

  /** What a step does to hands, slots and half-done stores. */
  ghost predicate HeapAfter(s: State, step: Step) {
    Touches(s.heap, Pointers(s, step), step.t, Hands(Next(s, step)), Changed(s, step), Writes(step), step.StoreWrite?)
  }

  predicate QuietStep(step: Step) {
    || step.OpenBegin? || step.DupLock? || step.Dup2Lock? || step.Find? || step.OpenAbort? || step.OpenLock?
    || step.OpenFail? || step.PipeBegin? || step.CopyBegin? || step.Register? || step.DestroyBegin?
    || step.Mount? || step.UmountBegin? || step.UmountScanned? || step.UmountCheck? || step.UmountErase?
  }

  lemma QuietPointers(s: State, step: Step)
    requires QuietStep(step)
    ensures Pointers(s, step) == s.heap && Changed(s, step) == None
  {
    hide Forces, At;
  }

  lemma QuietHands(s: State, step: Step)
    requires Enabled(s, step) && QuietStep(step)
    ensures Hands(Next(s, step)) == Hands(At(s, step.t))
  {
    hide At, CanLock, Occupied, OpenFileCount, NextTableStep, NextStoreStep, NextUnmount;
  }

  lemma QuietHeap(s: State, step: Step)
    requires Inv(s) && Enabled(s, step) && QuietStep(step)
    ensures HeapAfter(s, step)
  {
    hide Inv, Next, Pointers, HandsIn, Touches, Changed, Enabled;
    InvAt(s, step.t);
    QuietPointers(s, step);
    QuietHands(s, step);
    NothingTouched(s.heap, step.t, Hands(At(s, step.t)), None, Writes(step));
  }

  lemma StoreHeap(s: State, step: Step)
    requires Inv(s) && Enabled(s, step) && StoreStep(step)
    ensures HeapAfter(s, step)
  {
    hide Inv, KeysOk, SlotsOk, LocksOk, Touches, HandsIn, Copy, Move, Drop, Write, Raise, At, NextUnmount,
         NextCall, NextTableStep;
    hide UnmountPointers, CallPointers, TablePointers, Taken;
    var h, t, pc := s.heap, step.t, At(s, step.t);
    InvAt(s, t);
    match step
    case StoreWrite(_) => WriteSlot(h, Slot(pc.table, pc.fd), t);
    case StoreRaise(_, reread) =>
      var p := Slot(pc.table, pc.fd);
      RaiseSlot(h, p, FileAt(h, if reread then p else Hand(t, 0)), t);
    case StoreDrop(_) => DropHand(h, t, 0);
    case Dup2Swap(_) => SwapSlot(h, Slot(pc.table, pc.newFd), t);
    case Dup2Drop(_) => if pc.replaced { DropHand(h, t, 1); } else { DropNoHand(h, t, 1); }
  }

  lemma DecideHeap(s: State, t: Tid)
    requires Inv(s) && At(s, t).Looking?
    ensures HeapAfter(s, UmountDecide(t))
  {
    hide Inv, Concerned, KeysOk, SlotsOk, LocksOk, Touches, HandsIn, Move, Drop;
    InvAt(s, t);
    if Forces(s, t) {
      MoveToHand(s.heap, Slot(At(s, t).table, At(s, t).fd), t, 1);
    } else {
      DropHand(s.heap, t, 0);
    }
  }

  lemma UnmountHeap(s: State, step: Step)
    requires Inv(s) && Enabled(s, step) && UnmountStep(step) && !step.UmountDecide?
    ensures HeapAfter(s, step)
  {
    hide Inv, Concerned, Forces, KeysOk, SlotsOk, LocksOk, Touches, HandsIn, Copy, Move, Drop, At, NextCall,
         NextStoreStep, NextTableStep;
    hide CallPointers, StorePointers, TablePointers;
    var h, t := s.heap, step.t;
    InvAt(s, t);
    match step
    case UmountLook(_, table, fd) => CopyToHand(h, Slot(table, fd), t);
    case UmountClose(_) => DropHand(h, t, 1);
    case UmountLooked(_) => DropHand(h, t, 0);
  }

  lemma CallHeap(s: State, step: Step)
    requires Inv(s) && Enabled(s, step)
    requires step.Load? || step.Close? || step.Release? || step.OpenCreate? || step.PipeCreate?
    ensures HeapAfter(s, step)
  {
    hide Inv, Forces, KeysOk, SlotsOk, LocksOk, Touches, HandsIn, Copy, Move, Drop, Create, At, NextUnmount,
         NextStoreStep, NextTableStep;
    hide UnmountPointers, StorePointers, TablePointers;
    var h, t := s.heap, step.t;
    InvAt(s, t);
    match step
    case Load(_, table, fd, _) => CopyToHand(h, Slot(table, fd), t);
    case Close(_, table, fd) => MoveToHand(h, Slot(table, fd), t, 0);
    case Release(_) => DropHand(h, t, 0);
    case OpenCreate(_, file, parent) => CreateInHand(h, t, file, parent);
    case PipeCreate(_, file) => CreateInHand(h, t, file, None);
  }

  /** A slot of a private table is never half assigned to. */
  lemma PrivateIsWhole(s: State, t: Tid, p: Place)
    requires Inv(s) && p.Slot? && Private(At(s, t)) == Some(p.table)
    ensures p !in s.heap.half
  {
    hide HandsOk, SlotsOk, KeysOk, PrivateDistinct;
    InvAt(s, t);
    if p in s.heap.half { InvAt(s, s.tableLock[p.table]); }
  }

  lemma TableHeap(s: State, step: Step)
    requires Inv(s) && Enabled(s, step) && TableStep(step)
    ensures HeapAfter(s, step)
  {
    hide Inv, KeysOk, SlotsOk, LocksOk, Touches, HandsIn, Copy, Drop;
    var h, t, pc := s.heap, step.t, At(s, step.t);
    InvAt(s, t);
    var p := Slot(pc.dst, pc.next);
    PrivateIsWhole(s, t, p);
    NothingTouched(h, t, 0, Some(p), Writes(step));
    if step.DestroySlot? {
      DropSlot(h, p, t);
    } else {
      CopyToSlot(h, Slot(pc.table, pc.next), p, t);
    }
  }

  lemma HeapStep(s: State, step: Step)
    requires Inv(s) && Enabled(s, step)
    ensures HeapAfter(s, step)
  {
    hide Inv, HeapAfter;
    if QuietStep(step) {
      QuietHeap(s, step);
    } else if StoreStep(step) {
      StoreHeap(s, step);
    } else if step.UmountDecide? {
      DecideHeap(s, step.t);
    } else if UnmountStep(step) {
      UnmountHeap(s, step);
    } else if TableStep(step) {
      TableHeap(s, step);
    } else {
      CallHeap(s, step);
    }
  }

  // ---------- Slots found empty ----------

  /** What a thread assigns to is its own, by its mutex or because nobody else can reach it. */
  lemma AssignedIsOwn(s: State, step: Step)
    requires Inv(s) && Assigned(At(s, step.t), step).Some?
    ensures
      var p, pc := Assigned(At(s, step.t), step).value, At(s, step.t);
      p.Slot? && (Locks(pc) == Some(p.table) || Private(pc) == Some(p.table)) && p.table in s.known
  {
    hide HandsOk, SlotsOk, KeysOk, HalvesOk, PrivateDistinct;
    InvAt(s, step.t);
  }

  /** Whether a thread relies on a slot as its own. */
  predicate Owns(pc: Pc, p: Place) {
    p.Slot? && (Locks(pc) == Some(p.table) || Private(pc) == Some(p.table))
  }

  /** No thread changes a slot of another thread's table but by closing it. */
  lemma OthersSlot(s: State, step: Step, u: Tid, p: Place)
    requires Inv(s) && Enabled(s, step) && u != step.t && Owns(At(s, u), p)
    ensures Changed(s, step) != Some(p) || Taken(s, step) == Some(p)
  {
    hide HandsOk, SlotsOk, KeysOk, HalvesOk, Enabled, Assigned, Taken;
    InvAt(s, u);
    InvAt(s, step.t);
    if Assigned(At(s, step.t), step).Some? { AssignedIsOwn(s, step); }
  }

  /** An empty slot stays empty unless the step writes to it. */
  lemma EmptyStays(s: State, step: Step, p: Place)
    requires Inv(s) && Enabled(s, step) && p.Slot? && p !in s.heap.holder
    requires Changed(s, step) != Some(p) || !Writes(step)
    ensures p !in Pointers(s, step).holder
  {
    hide Inv, Pointers, Enabled, Changed, Next;
    HeapStep(s, step);
    assert FileAt(s.heap, p) == None;
  }

  lemma OthersEmpty(s: State, step: Step, u: Tid, p: Place)
    requires Inv(s) && Enabled(s, step) && u != step.t && Owns(At(s, u), p) && p !in s.heap.holder
    ensures p !in Pointers(s, step).holder
  {
    hide Inv, Pointers, Enabled, Next, Assigned;
    OthersSlot(s, step, u, p);
    EmptyStays(s, step, p);
  }

  lemma OthersSlots(s: State, step: Step, u: Tid)
    requires Inv(s) && Enabled(s, step) && u != step.t
    ensures SlotsOk(Pointers(s, step), At(s, u))
  {
    hide Inv, Next, Pointers, HandsOk, KeysOk, LocksOk, Enabled;
    var pc, h' := At(s, u), Pointers(s, step);
    InvAt(s, u);
    forall p: Place | Owns(pc, p) && p !in s.heap.holder ensures p !in h'.holder {
      OthersEmpty(s, step, u, p);
    }
    ReservedIsOwn(pc);
    assert pc.Copying? ==> forall fd :: Owns(pc, Slot(pc.dst, fd));
  }

  lemma ReservedIsOwn(pc: Pc)
    ensures forall p :: p in Reserved(pc) ==> Owns(pc, p)
  {
  }

  /** The slots a thread relies on after a step are slots it relied on before, or found empty just now. */
  lemma NextReserved(s: State, step: Step, p: Place)
    requires Enabled(s, step) && SlotsOk(s.heap, At(s, step.t)) && p in Reserved(Next(s, step))
    ensures p.Slot? && p !in s.heap.holder && (Changed(s, step) != Some(p) || !Writes(step))
  {
    hide Enabled, Next, Reserved, Changed, SlotsOk;
    if PlainStep(step) {
      ReservedOfCall(s, step, p);
    } else if StoreStep(step) {
      ReservedOfStore(s, step, p);
    } else {
      ReservedOfRest(s, step);
    }
  }

  lemma ReservedOfCall(s: State, step: Step, p: Place)
    requires Enabled(s, step) && SlotsOk(s.heap, At(s, step.t)) && p in Reserved(Next(s, step)) && PlainStep(step)
    ensures p.Slot? && p !in s.heap.holder && !Writes(step)
  {
    hide Forces, At, CanLock, Occupied, OpenFileCount, NextTableStep, NextStoreStep, NextUnmount;
  }

  lemma ReservedOfStore(s: State, step: Step, p: Place)
    requires Enabled(s, step) && SlotsOk(s.heap, At(s, step.t)) && p in Reserved(Next(s, step)) && StoreStep(step)
    ensures p.Slot? && p !in s.heap.holder && Changed(s, step) != Some(p)
  {
    hide At, NextCall, NextUnmount, NextTableStep, Taken;
  }

  lemma ReservedOfRest(s: State, step: Step)
    requires Enabled(s, step) && (TableStep(step) || UnmountStep(step))
    ensures Reserved(Next(s, step)) == {}
  {
    hide Forces, Concerned, At, Occupied, NextCall, NextStoreStep;
  }

  lemma NextPipe(s: State, step: Step)
    requires Enabled(s, step) && PipeOk(At(s, step.t))
    ensures PipeOk(Next(s, step))
  {
    hide Enabled, Next, PipeOk;
    if PlainStep(step) { PipeOfCall(s, step); } else { PipeOfRest(s, step); }
  }

  lemma PipeOfCall(s: State, step: Step)
    requires Enabled(s, step) && PipeOk(At(s, step.t)) && PlainStep(step)
    ensures PipeOk(Next(s, step))
  {
    hide At, CanLock, Occupied, OpenFileCount, NextTableStep, NextStoreStep, NextUnmount;
  }

  lemma PipeOfRest(s: State, step: Step)
    requires Enabled(s, step) && PipeOk(At(s, step.t)) && !PlainStep(step)
    ensures PipeOk(Next(s, step))
  {
    hide Forces, Concerned, At, Occupied, NextCall;
  }

  lemma NextCopying(s: State, step: Step)
    requires Enabled(s, step) && Next(s, step).Copying?
    ensures step.CopyBegin? || (step.CopySlot? && At(s, step.t).Copying?)
  {
    hide Forces, At, CanLock, Occupied, OpenFileCount, Next;
    if PlainStep(step) { PrivateOfCall(s, step); } else { PrivateOfRest(s, step); }
  }

  /** The table a thread copies into is still empty from where it goes on. */
  lemma NextCopy(s: State, step: Step, fd: nat)
    requires Inv(s) && Enabled(s, step) && (step.CopyBegin? || step.CopySlot?)
    requires Next(s, step).Copying? && fd >= Next(s, step).next
    ensures
      var p := Slot(Next(s, step).dst, fd);
      p !in s.heap.holder && (Changed(s, step) != Some(p) || !Writes(step))
  {
    hide HandsOk, KeysOk, HalvesOk, PrivateDistinct, CanLock, Reserved, LocksOk;
    InvAt(s, step.t);
  }

  lemma OwnSlots(s: State, step: Step)
    requires Inv(s) && Enabled(s, step)
    ensures SlotsOk(Pointers(s, step), Next(s, step))
  {
    hide Next, HandsOk, KeysOk, HalvesOk, Pointers, PrivateDistinct, TablesOk, Enabled, Changed, Reserved;
    InvAt(s, step.t);
    var h' := Pointers(s, step);
    NextPipe(s, step);
    forall p | p in Reserved(Next(s, step)) ensures p !in h'.holder {
      NextReserved(s, step, p);
      EmptyStays(s, step, p);
    }
    if Next(s, step).Copying? {
      NextCopying(s, step);
      forall fd | fd >= Next(s, step).next ensures Slot(Next(s, step).dst, fd) !in h'.holder {
        NextCopy(s, step, fd);
        EmptyStays(s, step, Slot(Next(s, step).dst, fd));
      }
    }
  }

  // ---------- Half-done stores ----------

  /** The thread that has a store half done can only finish it. */
  lemma HalfFinishes(s: State, step: Step)
    requires Enabled(s, step) && HalfDone(At(s, step.t)).Some?
    ensures step.StoreRaise? && Changed(s, step) == HalfDone(At(s, step.t))
  {
    hide Forces, CanLock, Occupied;
  }

  lemma WriteIsHalf(s: State, t: Tid)
    requires Inv(s) && At(s, t).Ready?
    ensures HalfDone(Next(s, StoreWrite(t))) == Changed(s, StoreWrite(t)) == Some(Slot(At(s, t).table, At(s, t).fd))
    ensures Slot(At(s, t).table, At(s, t).fd) in Pointers(s, StoreWrite(t)).holder
    ensures Locks(Next(s, StoreWrite(t))) == Locks(At(s, t)) == Some(At(s, t).table)
  {
    hide SlotsOk, KeysOk, LocksOk;
    InvAt(s, t);
  }

  lemma HalvesAfter(s: State, step: Step)
    requires Inv(s) && Enabled(s, step)
    ensures HalvesOk(Do(s, step))
  {
    hide Inv, SlotsOk, KeysOk, HandsIn, Next, Pointers, NextMounts, NextTables, NextTableLock, NextFsLock,
         Enabled, Changed, Taken;
    var s' := Do(s, step);
    HeapStep(s, step);
    HalvesAre(s);
    forall p | p in s'.heap.half
      ensures p.Slot? && p in s'.heap.holder && p.table in s'.tableLock
      ensures HalfDone(At(s', s'.tableLock[p.table])) == Some(p)
    {
      if Changed(s, step) == Some(p) {
        HalfWritten(s, step);
      } else {
        HalfStays(s, step, p);
        assert FileAt(s'.heap, p) == FileAt(s.heap, p);
      }
    }
  }

  lemma HalvesAre(s: State)
    requires Inv(s)
    ensures HalvesOk(s)
  {
  }

  lemma HalfWritten(s: State, step: Step)
    requires Inv(s) && Enabled(s, step) && step.StoreWrite?
    ensures
      var s', p := Do(s, step), Slot(At(s, step.t).table, At(s, step.t).fd);
      && Changed(s, step) == Some(p) && p in s'.heap.holder && p.table in s'.tableLock
      && HalfDone(At(s', s'.tableLock[p.table])) == Some(p)
  {
    hide SlotsOk, KeysOk, HandsOk, Next, Pointers, NextMounts, NextTables, NextFsLock, HalvesOk, Changed;
    InvAt(s, step.t);
    WriteIsHalf(s, step.t);
    AtAfter(s, step);
  }

  lemma HalfStays(s: State, step: Step, p: Place)
    requires Inv(s) && Enabled(s, step) && p in s.heap.half && Changed(s, step) != Some(p)
    ensures
      var s' := Do(s, step);
      p.table in s'.tableLock && HalfDone(At(s', s'.tableLock[p.table])) == Some(p)
  {
    hide SlotsOk, KeysOk, HandsOk, Next, Pointers, NextMounts, NextTables, NextFsLock, PrivateDistinct,
         Enabled, Changed;
    var u := s.tableLock[p.table];
    InvAt(s, u);
    InvAt(s, step.t);
    AtAfter(s, step);
    NextTableMutex(s, step);
    if u == step.t { HalfFinishes(s, step); }
  }

  // ---------- Every run ----------

  lemma StoresDontUnmount(s: State, step: Step)
    requires Enabled(s, step) && (StoreStep(step) || TableStep(step))
    ensures !Unmounting(Next(s, step))
  {
    hide At, NextUnmount, NextCall;
  }

  lemma KeysOfUnmount(s: State, step: Step)
    requires Enabled(s, step) && KeysOk(s.mounts, At(s, step.t)) && UnmountStep(step)
    ensures KeysOk(s.mounts, Next(s, step)) && NextMounts(s, step) == s.mounts
  {
    hide Forces, Concerned, At, Occupied, NextTableStep, NextStoreStep, NextCall;
  }

  lemma KeysOfCall(s: State, step: Step)
    requires Enabled(s, step) && KeysOk(s.mounts, At(s, step.t)) && PlainStep(step) && Unmounting(Next(s, step))
    ensures KeysOk(s.mounts, Next(s, step)) && NextMounts(s, step) == s.mounts
  {
    hide At, CanLock, Occupied, OpenFileCount, NextTableStep, NextStoreStep, NextUnmount, NextFind;
    assert step.UmountBegin? || step.UmountScanned? || step.UmountCheck? by {
      UnmountersGoOn(s, step);
    }
  }

  lemma UnmountersGoOn(s: State, step: Step)
    requires Enabled(s, step) && PlainStep(step) && Unmounting(Next(s, step))
    ensures step.UmountBegin? || step.UmountScanned? || step.UmountCheck?
  {
    hide At, CanLock, Occupied, OpenFileCount, NextTableStep, NextStoreStep, NextUnmount;
  }

  lemma KeysAfter(s: State, step: Step, u: Tid)
    requires Inv(s) && Enabled(s, step)
    ensures KeysOk(NextMounts(s, step), if u == step.t then Next(s, step) else At(s, u))
  {
    hide Next, HandsOk, SlotsOk, HalvesOk, Pointers, TablesOk, PrivateDistinct;
    InvAt(s, step.t);
    InvAt(s, u);
    if u == step.t && Unmounting(Next(s, step)) {
      if StoreStep(step) || TableStep(step) {
        StoresDontUnmount(s, step);
      } else if UnmountStep(step) {
        KeysOfUnmount(s, step);
      } else {
        KeysOfCall(s, step);
      }
    }
  }

  lemma KnownAfter(s: State, step: Step)
    requires Inv(s) && Enabled(s, step)
    ensures forall p :: p in Pointers(s, step).holder && p.Slot? ==> p.table in s.known
  {
    hide HandsOk, SlotsOk, HalvesOk, Pointers, PrivateDistinct, Next, KeysOk, Enabled, Assigned, Taken;
    HeapStep(s, step);
    if Assigned(At(s, step.t), step).Some? { AssignedIsOwn(s, step); }
    forall p | p in Pointers(s, step).holder && p.Slot? ensures p.table in s.known {
      assert FileAt(Pointers(s, step), p).Some?;
    }
  }

  lemma StepKeepsInv(s: State, step: Step)
    requires Inv(s) && Enabled(s, step)
    ensures Inv(Do(s, step))
  {
    hide Enabled, Next, Pointers, NextMounts, NextTables, NextTableLock, NextFsLock;
    hide LocksOk, SlotsOk, KeysOk, HalvesOk, PrivateDistinct, HandsIn;
    var s' := Do(s, step);
    TablesAfter(s, step);
    KnownAfter(s, step);
    OwnersAfter(s, step);
    PrivateStays(s, step);
    HalvesAfter(s, step);
    AtAfter(s, step);
    forall u: Tid ensures ThreadOk(s', u) {
      LocksAfter(s, step, u);
      KeysAfter(s, step, u);
      ThreadAfter(s, step, u);
    }
  }

  lemma ThreadAfter(s: State, step: Step, u: Tid)
    requires Inv(s) && Enabled(s, step)
    ensures
      var pc := if u == step.t then Next(s, step) else At(s, u);
      HandsOk(Pointers(s, step), u, pc) && SlotsOk(Pointers(s, step), pc)
  {
    hide Next, Pointers, SlotsOk, KeysOk, LocksOk, HalvesOk, TablesOk, PrivateDistinct, Enabled, Changed;
    HeapStep(s, step);
    if u == step.t {
      OwnSlots(s, step);
    } else {
      OthersSlots(s, step, u);
      InvAt(s, u);
      forall i: nat ensures Hand(u, i) in Pointers(s, step).holder <==> Hand(u, i) in s.heap.holder {
        assert FileAt(Pointers(s, step), Hand(u, i)) == FileAt(s.heap, Hand(u, i));
      }
    }
  }

  /** No thread is at work; the tables may hold files, such as the console, that no filesystem owns. */
  ghost predicate Initial(s: State) {
    && Exact(s.heap) && s.heap.half == {} && s.tables == s.known
    && s.pc == map[] && s.tableLock == map[] && s.fsLock.None?
    && (forall p :: p in s.heap.holder ==> p.Slot? && p.table in s.tables && p.fd < MAX_OPEN_FILES)
    && (forall f :: f in s.heap.refs ==> s.heap.parent[f].None?)
  }

  function Run(s: State, steps: seq<Step>): State
    decreases |steps|
  {
    if steps == [] then s else Run(Do(s, steps[0]), steps[1..])
  }

  ghost predicate Possible(s: State, steps: seq<Step>)
    decreases |steps|
  {
    steps != [] ==> Enabled(s, steps[0]) && Possible(Do(s, steps[0]), steps[1..])
  }

  lemma InitialInv(s: State)
    requires Initial(s)
    ensures Inv(s)
  {
    forall t: Tid ensures ThreadOk(s, t) {
      assert At(s, t) == Idle;
    }
  }

  lemma {:induction false} RunKeepsInv(s: State, steps: seq<Step>)
    requires Inv(s) && Possible(s, steps)
    ensures Inv(Run(s, steps))
    decreases |steps|
  {
    hide Inv, Enabled, Do;
    if steps != [] {
      StepKeepsInv(s, steps[0]);
      RunKeepsInv(Do(s, steps[0]), steps[1..]);
    }
  }

  /** The states that some run from an initial one reaches. */
  ghost predicate Reachable(now: State) {
    exists s: State, steps: seq<Step> :: Initial(s) && Possible(s, steps) && now == Run(s, steps)
  }

  lemma ReachableInv(now: State)
    requires Reachable(now)
    ensures Inv(now)
  {
    hide Inv, Initial;
    var s: State, steps: seq<Step> :| Initial(s) && Possible(s, steps) && now == Run(s, steps);
    InitialInv(s);
    RunKeepsInv(s, steps);
  }

  // ---------- Descriptors ----------

  /** Only dup2 writes to a slot that is in use. */
  lemma WrittenWasFree(s: State, step: Step)
    requires Inv(s) && Enabled(s, step) && Writes(step) && !step.Dup2Swap? && Changed(s, step).Some?
    ensures Changed(s, step).value !in s.heap.holder
  {
    hide HandsOk, KeysOk, HalvesOk, PrivateDistinct, TablesOk, LocksOk;
    InvAt(s, step.t);
  }

  /** In every run, an open descriptor keeps its file or is closed, unless it is the one `dup2` replaces. */
  lemma OnlyDup2Overwrites(s: State, step: Step, p: Place)
    requires Reachable(s) && Enabled(s, step) && p.Slot? && p in s.heap.holder
    ensures
      || FileAt(Pointers(s, step), p) == None
      || FileAt(Pointers(s, step), p) == FileAt(s.heap, p)
      || (step.Dup2Swap? && At(s, step.t).Dup2Locked? && p == Slot(At(s, step.t).table, At(s, step.t).newFd))
  {
    hide Reachable, Inv, Pointers, Next, Enabled, At;
    ReachableInv(s);
    HeapStep(s, step);
    if Changed(s, step) == Some(p) && Writes(step) && !step.Dup2Swap? {
      WrittenWasFree(s, step);
    }
  }

  /**
   In every run, a descriptor that open, dup or pipe hands out was free until the very step that writes
   it, and that step puts the file there that the thread has in hand.
   */
  lemma NewDescriptorWasFree(s: State, t: Tid)
    requires Reachable(s) && Enabled(s, StoreWrite(t))
    ensures
      var p := Slot(At(s, t).table, At(s, t).fd);
      && p !in s.heap.holder
      && FileAt(s.heap, Hand(t, 0)).Some?
      && FileAt(Pointers(s, StoreWrite(t)), p) == FileAt(s.heap, Hand(t, 0))
  {
    hide Reachable, Inv, Next;
    ReachableInv(s);
    InvAt(s, t);
    WrittenWasFree(s, StoreWrite(t));
  }

  // ---------- Mutexes ----------

  /** What a thread that holds a mutex does next; `file` is an unused file for it to construct. */
  function Onward(pc: Pc, t: Tid, file: FileId): Step {
    match pc
    case Finding(_, _, _) => Find(t)
    case PipeFinding(_, _, _) => Find(t)
    case Found(_, _) => OpenLock(t)
    case Opening(_, _) => OpenCreate(t, file, None)
    case PipeFound(_, _, _) => PipeCreate(t, file)
    case Ready(_, _, _) => StoreWrite(t)
    case Storing(_, _, _) => StoreRaise(t, false)
    case Stored(_, _) => StoreDrop(t)
    case Dup2Locked(_, _) => Dup2Swap(t)
    case Dup2Swapped(_, _) => Dup2Drop(t)
    case Copying(_, _, _) => CopySlot(t, true)
    case Scanning(_) => UmountScanned(t)
    case Looking(_, _, _) => UmountDecide(t)
    case Forcing(_) => UmountClose(t)
    case Forced(_) => UmountLooked(t)
    case Checking(req, i, _) => if i < |req.keys| then UmountCheck(t) else UmountErase(t)
    case _ => Release(t)
  }

  /** A thread that holds a mutex can go on, unless it waits for the manager's mutex with a table's in hand. */
  lemma HolderGoesOn(s: State, t: Tid, file: FileId)
    requires Inv(s) && file !in s.heap.refs && (Locks(At(s, t)).Some? || LocksFs(At(s, t)))
    ensures Enabled(s, Onward(At(s, t), t, file)) || (At(s, t).Found? && s.fsLock.Some?)
  {
    hide HandsOk, SlotsOk, HalvesOk, PrivateDistinct, TablesOk, LocksOk;
    InvAt(s, t);
  }

  /**
   In every run, whenever a mutex is held, some thread that holds one can take its next step: the
   manager's mutex is taken after a table's, and never the other way round.
   */
  lemma NoDeadlock(s: State, file: FileId)
    requires Reachable(s) && file !in s.heap.refs && (s.fsLock.Some? || s.tableLock != map[])
    ensures exists t: Tid ::
      (Locks(At(s, t)).Some? || LocksFs(At(s, t))) && Enabled(s, Onward(At(s, t), t, file))
  {
    hide Reachable, Enabled, Onward, HandsOk, SlotsOk, KeysOk, HalvesOk, PrivateDistinct;
    ReachableInv(s);
    var t: Tid := if s.fsLock.Some? then s.fsLock.value else
      var table :| table in s.tableLock; s.tableLock[table];
    InvAt(s, t);
    HolderGoesOn(s, t, file);
    assert At(s, t).Found? ==> s.fsLock != Some(t);
  }
}
