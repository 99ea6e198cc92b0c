/**
 What an unmount does besides being safe: it can see every descriptor there is, closes one only by force and
 only if it has to, comes to an end, and leaves the mount table as the table's own operation does.
 */
module UnmountCalls {
  import opened Common
  import opened OpenFiles
  import opened Descriptors
  import opened DescriptorTheorems
  import opened DescriptorCalls
  import MountTable
  import PathSpec

  // ---------- Every descriptor is in sight ----------

  /** The slots a thread is about to write to exist. */
  predicate Bounded(pc: Pc) {
    match pc
    case Dup2Loaded(_, newFd) => newFd < MAX_OPEN_FILES
    case Dup2Locked(_, newFd) => newFd < MAX_OPEN_FILES
    case Found(_, fd) => fd < MAX_OPEN_FILES
    case Opening(_, fd) => fd < MAX_OPEN_FILES
    case Ready(_, fd, store) => fd < MAX_OPEN_FILES && (store.PipeFirst? ==> store.fd1 < MAX_OPEN_FILES)
    case Storing(_, fd, store) => fd < MAX_OPEN_FILES && (store.PipeFirst? ==> store.fd1 < MAX_OPEN_FILES)
    case PipeFinding(_, _, first) => first.Some? ==> first.value < MAX_OPEN_FILES
    case PipeFound(_, fd0, fd1) => fd0 < MAX_OPEN_FILES && fd1 < MAX_OPEN_FILES
    case _ => true
  }

  /** What a thread has destroyed of a table is gone. */
  ghost predicate Cleared(h: Heap, pc: Pc) {
    pc.Destroying? ==> forall fd :: 0 <= fd < pc.next ==> Slot(pc.dst, fd) !in h.holder
  }

  /** The table is registered, or a thread is just copying or destroying it. */
  ghost predicate InSight(s: State, table: TableId) {
    table in s.tables || exists t: Tid :: Private(At(s, t)) == Some(table)
  }

  ghost predicate AllInSight(s: State) {
    && (forall t: Tid :: Bounded(At(s, t)) && Cleared(s.heap, At(s, t)))
    && (forall p :: p in s.heap.holder && p.Slot? ==> p.fd < MAX_OPEN_FILES && InSight(s, p.table))
  }

  lemma BoundedOfCall(s: State, step: Step)
    requires Enabled(s, step) && Bounded(At(s, step.t)) && PlainStep(step)
    ensures Bounded(Next(s, step))
  {
    hide At, CanLock, OpenFileCount, NextTableStep, NextStoreStep, NextUnmount;
  }

  lemma BoundedOfRest(s: State, step: Step)
    requires Enabled(s, step) && Bounded(At(s, step.t)) && !PlainStep(step)
    ensures Bounded(Next(s, step))
  {
    hide At, Concerned, Forces, NextCall;
  }

  lemma NextDestroying(s: State, step: Step)
    requires Enabled(s, step) && Next(s, step).Destroying?
    ensures
      || (step.DestroyBegin? && Next(s, step).next == 0)
      || (step.DestroySlot? && At(s, step.t).Destroying? && At(s, step.t).next < MAX_OPEN_FILES
          && Next(s, step) == Destroying(At(s, step.t).dst, At(s, step.t).next + 1))
  {
    hide Enabled, Next, At;
    if PlainStep(step) { DestroyOfCall(s, step); } else { DestroyOfRest(s, step); }
  }

  lemma DestroyOfCall(s: State, step: Step)
    requires Enabled(s, step) && PlainStep(step) && Next(s, step).Destroying?
    ensures step.DestroyBegin? && Next(s, step).next == 0
  {
    hide At, CanLock, Occupied, OpenFileCount, NextTableStep, NextStoreStep, NextUnmount;
  }

  lemma DestroyOfRest(s: State, step: Step)
    requires Enabled(s, step) && !PlainStep(step) && Next(s, step).Destroying?
    ensures step.DestroySlot? && At(s, step.t).Destroying? && At(s, step.t).next < MAX_OPEN_FILES
    ensures Next(s, step) == Destroying(At(s, step.t).dst, At(s, step.t).next + 1)
  {
    hide At, Concerned, Forces, NextCall;
  }

  /** A slot that was empty, or is emptied, is not written. */
  lemma ClearedAfter(s: State, step: Step, u: Tid)
    requires Inv(s) && Enabled(s, step) && Cleared(s.heap, At(s, u))
    ensures Cleared(Pointers(s, step), if u == step.t then Next(s, step) else At(s, u))
  {
    hide Inv, Enabled, Pointers, Next;
    var pc := if u == step.t then Next(s, step) else At(s, u);
    if pc.Destroying? {
      forall fd | 0 <= fd < pc.next ensures Slot(pc.dst, fd) !in Pointers(s, step).holder {
        if u != step.t {
          OthersEmpty(s, step, u, Slot(pc.dst, fd));
        } else {
          NextDestroying(s, step);
          DestroyedSlot(s, step.t, fd);
        }
      }
    }
  }

  lemma DestroyedSlot(s: State, t: Tid, fd: nat)
    requires Cleared(s.heap, At(s, t)) && At(s, t).Destroying? && At(s, t).next < MAX_OPEN_FILES
    requires fd <= At(s, t).next
    ensures Slot(At(s, t).dst, fd) !in Pointers(s, DestroySlot(t)).holder
  {
  }

  /** Which slots are in use after a step: those that were, and one that a thread had ready. */
  lemma WrittenIsOwn(s: State, step: Step, p: Place)
    requires Inv(s) && Enabled(s, step) && Bounded(At(s, step.t)) && p.Slot?
    requires p in Pointers(s, step).holder && p !in s.heap.holder
    ensures p.fd < MAX_OPEN_FILES && Owns(At(s, step.t), p)
  {
    hide Inv, Pointers, Enabled, Next, Changed, Bounded, At;
    if Changed(s, step) != Some(p) || !Writes(step) {
      EmptyStays(s, step, p);
      assert false;
    } else {
      WriteIsAssigned(s, step, p);
      AssignedIsOwn(s, step);
    }
  }

  lemma WriteIsAssigned(s: State, step: Step, p: Place)
    requires Enabled(s, step) && Bounded(At(s, step.t)) && Writes(step) && Changed(s, step) == Some(p)
    requires p in Pointers(s, step).holder && p !in s.heap.holder
    ensures Assigned(At(s, step.t), step) == Some(p) && p.Slot? && p.fd < MAX_OPEN_FILES
  {
    hide At;
  }

  lemma OwnIsInSight(s: State, t: Tid, p: Place)
    requires Inv(s) && Owns(At(s, t), p)
    ensures InSight(s, p.table)
  {
    hide HandsOk, SlotsOk, KeysOk, HalvesOk, PrivateDistinct, TablesOk;
    InvAt(s, t);
  }

  /** A table goes out of sight only when it has been destroyed to the end. */
  lemma StaysInSight(s: State, step: Step, table: TableId)
    requires Enabled(s, step) && InSight(s, table)
    ensures
      || InSight(Do(s, step), table)
      || (step.DestroySlot? && At(s, step.t).Destroying? && At(s, step.t).dst == table
          && At(s, step.t).next >= MAX_OPEN_FILES)
  {
    hide Enabled, Next, Pointers, NextMounts, NextTableLock, NextFsLock;
    var s' := Do(s, step);
    AtAfter(s, step);
    if table in s.tables {
      if table !in s'.tables {
        NextOwns(s, step);
        assert Private(At(s', step.t)) == Some(table);
      }
    } else {
      var t: Tid :| Private(At(s, t)) == Some(table);
      if t == step.t {
        NextOwns(s, step);
        if Private(Next(s, step)) == Some(table) { assert Private(At(s', t)) == Some(table); }
      } else {
        assert Private(At(s', t)) == Some(table);
      }
    }
  }

  lemma NextOwns(s: State, step: Step)
    requires Enabled(s, step)
    ensures step.DestroyBegin? ==> Private(Next(s, step)) == Some(step.table)
    ensures
      var pc := At(s, step.t);
      Private(pc).Some? ==>
        || Private(Next(s, step)) == Private(pc)
        || (step.Register? && Private(pc).value in NextTables(s, step))
        || (step.DestroySlot? && pc.Destroying? && pc.next >= MAX_OPEN_FILES)
  {
    hide At, Concerned, Forces, NextStore, NextFind, NextCheck;
  }

  lemma StepKeepsSight(s: State, step: Step)
    requires Inv(s) && Enabled(s, step) && AllInSight(s)
    ensures AllInSight(Do(s, step))
  {
    hide Inv, Enabled, Pointers, Next, NextMounts, NextTables, NextTableLock, NextFsLock, Bounded, Cleared, InSight;
    var s' := Do(s, step);
    AtAfter(s, step);
    if PlainStep(step) { BoundedOfCall(s, step); } else { BoundedOfRest(s, step); }
    forall u: Tid ensures Bounded(At(s', u)) && Cleared(s'.heap, At(s', u)) {
      ClearedAfter(s, step, u);
    }
    forall p | p in s'.heap.holder && p.Slot? ensures p.fd < MAX_OPEN_FILES && InSight(s', p.table) {
      if p !in s.heap.holder {
        WrittenIsOwn(s, step, p);
        OwnIsInSight(s, step.t, p);
      }
      StaysInSight(s, step, p.table);
      if !InSight(s', p.table) { DestroyedToTheEnd(s, step, p); }
    }
  }

  lemma DestroyedToTheEnd(s: State, step: Step, p: Place)
    requires Cleared(s.heap, At(s, step.t)) && p.Slot? && p.fd < MAX_OPEN_FILES
    requires step.DestroySlot? && At(s, step.t).Destroying?
    requires At(s, step.t).dst == p.table && At(s, step.t).next >= MAX_OPEN_FILES
    ensures p !in Pointers(s, step).holder
  {
  }

  lemma {:induction false} RunKeepsSight(s: State, steps: seq<Step>)
    requires Inv(s) && Possible(s, steps) && AllInSight(s)
    ensures AllInSight(Run(s, steps))
    decreases |steps|
  {
    hide Inv, Enabled, Do, AllInSight;
    if steps != [] {
      StepKeepsInv(s, steps[0]);
      StepKeepsSight(s, steps[0]);
      RunKeepsSight(Do(s, steps[0]), steps[1..]);
    }
  }

  lemma InitialSight(s: State)
    requires Initial(s)
    ensures AllInSight(s)
  {
    assert forall t: Tid :: At(s, t) == Idle;
  }

  /**
   In every run, every open descriptor is one that an unmount can look at, unless a thread is just copying or
   destroying its table.
   */
  lemma DescriptorsInSight(s: State, p: Place, t: Tid)
    requires Reachable(s) && p in s.heap.holder && p.Slot?
    requires At(s, t).Scanning? && forall u: Tid :: Private(At(s, u)) != Some(p.table)
    ensures Enabled(s, UmountLook(t, p.table, p.fd))
  {
    hide Initial, Inv, Possible, Run;
    var s0: State, steps: seq<Step> :| Initial(s0) && Possible(s0, steps) && s == Run(s0, steps);
    InitialInv(s0);
    InitialSight(s0);
    RunKeepsSight(s0, steps);
    SeenIsEnabled(s, p, t);
  }

  lemma SeenIsEnabled(s: State, p: Place, t: Tid)
    requires AllInSight(s) && p in s.heap.holder && p.Slot?
    requires At(s, t).Scanning? && forall u: Tid :: Private(At(s, u)) != Some(p.table)
    ensures Enabled(s, UmountLook(t, p.table, p.fd))
  {
    assert InSight(s, p.table);
  }

  // ---------- What an unmount closes ----------

  /** The file in hand is on a filesystem mounted at the path of the unmount, or whose key begins with it. */
  ghost predicate OnUnmounted(s: State, t: Tid) {
    && At(s, t).Looking? && Hand(t, 0) in s.heap.holder && s.heap.holder[Hand(t, 0)] in s.heap.parent
    && exists key :: key in s.mounts && At(s, t).req.path <= key &&
         s.heap.parent[s.heap.holder[Hand(t, 0)]] == Some(s.mounts[key])
  }

  lemma ConcernedIs(s: State, t: Tid)
    requires Inv(s) && At(s, t).Looking?
    ensures Concerned(s, t) <==> OnUnmounted(s, t)
  {
    hide HandsOk, SlotsOk, LocksOk, HalvesOk, PrivateDistinct, TablesOk;
    InvAt(s, t);
    var req := At(s, t).req;
    if OnUnmounted(s, t) {
      var key :| key in s.mounts && req.path <= key && s.heap.parent[s.heap.holder[Hand(t, 0)]] == Some(s.mounts[key]);
      assert key in req.keys;
      var i :| 0 <= i < |req.keys| && req.keys[i] == key;
    }
  }

  /**
   In every run, an unmount that is not forced closes nothing and gives up at the first descriptor of a
   filesystem it would take; a forced one closes it and goes on; both leave all other descriptors alone.
   */
  lemma UnmountCloses(s: State, t: Tid, p: Place)
    requires Reachable(s) && Enabled(s, UmountDecide(t)) && p.Slot?
    ensures
      var s', req, looked := Do(s, UmountDecide(t)), At(s, t).req, Slot(At(s, t).table, At(s, t).fd);
      && FileAt(s'.heap, p) == (if req.force && OnUnmounted(s, t) && p == looked then None else FileAt(s.heap, p))
      && (!req.force ==> At(s', t) == if OnUnmounted(s, t) then Idle else Scanning(req))
      && (req.force ==>
            At(s', t) == if OnUnmounted(s, t) && looked in s.heap.holder then Forcing(req) else Scanning(req))
  {
    hide Reachable, Inv, Pointers, OnUnmounted, Concerned, Next, NextMounts, NextTables, NextTableLock, NextFsLock;
    ReachableInv(s);
    ConcernedIs(s, t);
    SlotsArePlain(s, UmountDecide(t), p);
    AtAfter(s, UmountDecide(t));
    DecideNext(s, t);
  }

  lemma DecideNext(s: State, t: Tid)
    requires At(s, t).Looking?
    ensures
      var req := At(s, t).req;
      Next(s, UmountDecide(t)) ==
      if Forces(s, t) then Forcing(req) else if Concerned(s, t) && !req.force then Idle else Scanning(req)
  {
    hide Concerned;
  }

  // ---------- An unmount comes to an end ----------

  /** How many looks at a counter an unmount may still take. */
  function LooksLeft(pc: Pc): int {
    if pc.Checking? then
      (if pc.req.force then MAX_RETRY - 1 - pc.retry else 0) * |pc.req.keys| + |pc.req.keys| - pc.i
    else 0
  }

  predicate InCheck(pc: Pc) {
    pc.Checking? ==> pc.i <= |pc.req.keys| && pc.retry < MAX_RETRY && (!pc.req.force ==> pc.retry == 0)
  }

  /** Each look at a counter uses one up; only a counter that is not zero ends the unmount, or starts a round. */
  lemma CheckUsesOne(s: State, t: Tid)
    requires Enabled(s, UmountCheck(t)) && InCheck(At(s, t))
    ensures
      var pc, pc' := At(s, t), Next(s, UmountCheck(t));
      && InCheck(pc') && (pc'.Checking? || pc' == Idle) && LooksLeft(pc') < LooksLeft(pc)
      && (pc' == pc.(i := pc.i + 1) <==>
            pc.req.keys[pc.i] in s.mounts && OpenFileCount(s.heap, s.mounts[pc.req.keys[pc.i]]) == 0)
  {
    hide OpenFileCount;
    var pc := At(s, t);
    var n, r := |pc.req.keys|, MAX_RETRY - 1 - pc.retry;
    assert r >= 1 ==> (r - 1) * n + n == r * n;
  }

  function Looks(steps: seq<Step>, t: Tid): nat {
    if steps == [] then 0 else (if steps[0] == UmountCheck(t) then 1 else 0) + Looks(steps[1..], t)
  }

  predicate OnlyChecks(steps: seq<Step>, t: Tid) {
    forall i :: 0 <= i < |steps| && steps[i].t == t ==> steps[i].UmountCheck?
  }

  lemma {:induction false} ChecksAreBounded(s: State, steps: seq<Step>, t: Tid)
    requires Possible(s, steps) && OnlyChecks(steps, t) && InCheck(At(s, t)) && (At(s, t).Checking? || At(s, t) == Idle)
    ensures Looks(steps, t) + LooksLeft(At(Run(s, steps), t)) <= LooksLeft(At(s, t))
    ensures LooksLeft(At(Run(s, steps), t)) >= 0
    decreases |steps|
  {
    hide Do, Next, LooksLeft;
    if steps == [] {
      LooksAreNatural(At(s, t));
    } else {
      assert forall i :: 0 <= i < |steps[1..]| ==> steps[1..][i] == steps[i + 1];
      AtAfter(s, steps[0]);
      if steps[0].t == t { CheckUsesOne(s, t); }
      ChecksAreBounded(Do(s, steps[0]), steps[1..], t);
    }
  }

  lemma LooksAreNatural(pc: Pc)
    requires InCheck(pc)
    ensures LooksLeft(pc) >= 0
    ensures pc.Checking? ==> LooksLeft(pc) <= (if pc.req.force then MAX_RETRY else 1) * |pc.req.keys|
  {
  }

  /**
   Whatever the others do, an unmount looks at no more counters than it has keys, three times that by force:
   it then erases its filesystems or has given up.
   */
  lemma UnmountEnds(s: State, steps: seq<Step>, t: Tid)
    requires At(s, t).Checking? && At(s, t).i == 0 && At(s, t).retry == 0
    requires Possible(s, steps) && OnlyChecks(steps, t)
    ensures Looks(steps, t) <= (if At(s, t).req.force then MAX_RETRY else 1) * |At(s, t).req.keys|
  {
    hide Possible, Run, At, LooksLeft;
    ChecksAreBounded(s, steps, t);
    LooksAreNatural(At(s, t));
  }

  // ---------- The mount table ----------

  /** The unmount of a path that `umount` does not refuse before it looks at anything. */
  predicate Erasing(s: State, t: Tid, path: string) {
    At(s, t).Checking? && At(s, t).req.path == path && path != "" && |path| <= PathSpec.PATH_MAX
  }

  /** In every run, an unmount that succeeds does to the mounts what the mount table's own unmount does. */
  lemma EraseIsUnmounting(s: State, t: Tid, path: string)
    requires Reachable(s) && Erasing(s, t, path)
    ensures MountTable.Unmounting(s.mounts, path, false) == MountTable.Change(0, Do(s, UmountErase(t)).mounts)
  {
    hide Reachable, HandsOk, SlotsOk, LocksOk, HalvesOk, PrivateDistinct, TablesOk, Pointers, Next;
    ReachableInv(s);
    InvAt(s, t);
  }

  /** Nothing else changes the mounts but mounting, which adds one key. */
  lemma MountsChange(s: State, step: Step)
    requires Enabled(s, step) && !step.UmountErase?
    ensures
      var after := Do(s, step).mounts;
      && (forall key :: key in s.mounts ==> key in after && after[key] == s.mounts[key])
      && (step.Mount? ==>
            step.key !in s.mounts && after.Keys == s.mounts.Keys + {step.key} && after[step.key] == step.fs)
      && (!step.Mount? ==> after == s.mounts)
  {
    hide At, Pointers, Next, NextTables, NextTableLock, NextFsLock;
  }
}
