/**
 How `run` and `runOne` come to an end: `run` only by an exception of a functor it calls itself,
 `runOne` after the one call it makes, however deeply the functors run the queue in turn.
 */
module EventLoops {
  import opened Common
  import opened EventRing
  import opened EventQueue

  function Depth(s: State, t: Tid): nat {
    |Frames(s, t)|
  }

  /** A thread that is inside `run` and not in a functor. */
  predicate BetweenCalls(pc: Pc) {
    pc == Looping || pc.GetWaiting? || pc == GetSignalled
  }

  // ---------- Calls and places change only by a thread's own steps ----------

  predicate OwnStep(step: Step, t: Tid) {
    !step.IrqPost? && step.t == t
  }

  /** Being woken is all that another's step does to a thread. */
  predicate Woken(pc: Pc, pc': Pc) {
    pc' == pc || (pc.GetWaiting? && pc' == GetSignalled) || (pc.PostWaiting? && pc' == PostSignalled(pc.event))
  }

  lemma WakesOnly(s: State, t: Tid)
    requires ListsOk(s)
    ensures Woken(At(s, t), At(WakeGetter(s), t)) && Woken(At(s, t), At(WakePoster(s), t))
    ensures Frames(WakeGetter(s), t) == Frames(WakePoster(s), t) == Frames(s, t)
  {
    hide NoRepeats;
    if s.waitingGet != [] { assert At(s, s.waitingGet[0]).GetWaiting?; }
    if s.waitingPut != [] { assert At(s, s.waitingPut[0]).PostWaiting?; }
  }

  lemma PutWakes(s: State, e: Event, t: Tid)
    requires ListsOk(s) && s.ring.put < Size(s)
    ensures Woken(At(s, t), At(DoPut(s, e), t)) && Frames(DoPut(s, e), t) == Frames(s, t)
  {
    hide ListsOk, WakeGetter, Put;
    var s1 := s.(ring := Put(s.ring, e), accepted := s.accepted + [e]);
    SameLists(s, s1);
    WakesOnly(s1, t);
  }

  lemma PostWakes(s: State, u: Tid, e: Event, t: Tid)
    requires ListsOk(s) && !Waits(At(s, u))
    ensures t != u ==> Woken(At(s, t), At(TryPost(s, u, e), t))
    ensures Frames(TryPost(s, u, e), t) == Frames(s, t)
    ensures At(TryPost(s, u, e), u) == Free || At(TryPost(s, u, e), u).PostWaiting?
  {
    hide ListsOk, DoPut;
    if s.ring.n < Size(s) && s.ring.put < Size(s) {
      GotoLists(s, u, Free);
      PutWakes(Goto(s, u, Free), e, t);
      PutWakes(Goto(s, u, Free), e, u);
    }
  }

  /** Taking an event pushes its call; without one the thread waits, or gives up. */
  lemma GetWakes(s: State, u: Tid, loop: bool, t: Tid)
    requires Fifo(s) && ListsOk(s) && !Waits(At(s, u))
    ensures t != u ==> Woken(At(s, t), At(TryGet(s, u, loop), t)) && Frames(TryGet(s, u, loop), t) == Frames(s, t)
    ensures
      var s' := TryGet(s, u, loop);
      if s.ring.n > 0 then
        && Contents(s.ring) != [] && At(s', u) == Free
        && Frames(s', u) == Frames(s, u) + [Frame(Contents(s.ring)[0], loop)]
        && s'.taken == s.taken + [Contents(s.ring)[0]]
        && s'.ring == Take(s.ring) && Valid(s'.ring) && Contents(s'.ring) == Contents(s.ring)[1..]
      else Frames(s', u) == Frames(s, u) && At(s', u) == if loop then GetWaiting(true) else Free
  {
    hide ListsOk, NoRepeats, Valid, Contents, Take, WakePoster;
    ValidBounds(s.ring);
    if s.ring.n > 0 {
      TakeRemoves(s.ring);
      var e := s.ring.slots[s.ring.get].value;
      var s0 := Goto(s, u, Free);
      var s1 := s0.(ring := Take(s.ring), taken := s.taken + [e],
                    frames := s.frames[u := Frames(s, u) + [Frame(e, loop)]]);
      GotoLists(s, u, Free);
      SameLists(s0, s1);
      WakesOnly(s1, t);
      WakesOnly(s1, u);
      WakeTakesNothing(s1);
    }
  }

  lemma WakeTakesNothing(s: State)
    ensures WakePoster(s).ring == s.ring && WakePoster(s).taken == s.taken
  {
  }

  lemma OthersLeaveAlone(s: State, step: Step, t: Tid)
    requires Inv(s) && Enabled(s, step) && !OwnStep(step, t)
    ensures Woken(At(s, t), At(Do(s, step), t)) && Frames(Do(s, step), t) == Frames(s, t)
  {
    hide Fifo, ListsOk, NoLostWakeup, Owned, TryPost, TryGet, DoPut;
    match step
    case Post(u, event) =>
      var s1 := s.(submitted := s.submitted + {event});
      SameLists(s, s1);
      PostWakes(s1, u, event, t);
    case IrqPost(event) =>
      var s1 := s.(submitted := s.submitted + {event});
      SameLists(s, s1);
      if s.ring.n < Size(s) && s.ring.put < Size(s) { PutWakes(s1, event, t); }
    case Run(u, loop) => GetWakes(s, u, loop, t);
    case Resume(u) =>
      if At(s, u).PostSignalled? {
        PostWakes(s, u, At(s, u).event, t);
      } else {
        GetWakes(s, u, true, t);
      }
    case _ =>
  }

  // ---------- run ----------

  /** The thread is in a `run` that it called at depth `d`. */
  predicate InRun(s: State, t: Tid, d: nat) {
    && Depth(s, t) >= d
    && (Depth(s, t) > d ==> Frames(s, t)[d].loop)
    && (Depth(s, t) == d ==> BetweenCalls(At(s, t)))
  }

  predicate ThrowsAt(s: State, step: Step, t: Tid, d: nat) {
    step == Throw(t) && Depth(s, t) == d + 1
  }

  lemma OwnStepInRun(s: State, step: Step, t: Tid, d: nat)
    requires Inv(s) && Enabled(s, step) && OwnStep(step, t) && InRun(s, t, d)
    ensures
      var s' := Do(s, step);
      if ThrowsAt(s, step, t, d) then At(s', t) == Free && Depth(s', t) == d else InRun(s', t, d)
  {
    hide Fifo, ListsOk, NoLostWakeup, Owned, TryPost, TryGet, DoPut, Contents, Valid;
    match step
    case Post(_, event) =>
      var s1 := s.(submitted := s.submitted + {event});
      SameLists(s, s1);
      PostWakes(s1, t, event, t);
    case Run(_, loop) => GetWakes(s, t, loop, t);
    case Resume(_) =>
      if At(s, t).PostSignalled? {
        PostWakes(s, t, At(s, t).event, t);
      } else {
        GetWakes(s, t, true, t);
      }
    case _ =>
  }

  lemma StepInRun(s: State, step: Step, t: Tid, d: nat)
    requires Inv(s) && Enabled(s, step) && InRun(s, t, d)
    ensures
      var s' := Do(s, step);
      if ThrowsAt(s, step, t, d) then At(s', t) == Free && Depth(s', t) == d else InRun(s', t, d)
  {
    hide Inv, Enabled, Do, Frames, At;
    if OwnStep(step, t) {
      OwnStepInRun(s, step, t, d);
    } else {
      OthersLeaveAlone(s, step, t);
    }
  }

  /** No functor that the `run` called at depth `d` calls itself throws. */
  predicate NoThrow(s: State, steps: seq<Step>, t: Tid, d: nat)
    decreases |steps|
  {
    steps != [] ==> !ThrowsAt(s, steps[0], t, d) && NoThrow(Do(s, steps[0]), steps[1..], t, d)
  }

  lemma {:induction false} StaysInRun(s: State, steps: seq<Step>, t: Tid, d: nat)
    requires Inv(s) && Possible(s, steps) && InRun(s, t, d) && NoThrow(s, steps, t, d)
    ensures Inv(Steps(s, steps)) && InRun(Steps(s, steps), t, d)
    decreases |steps|
  {
    hide Inv, Enabled, Do, InRun, ThrowsAt;
    if steps != [] {
      StepKeepsInv(s, steps[0]);
      StepInRun(s, steps[0], t, d);
      StaysInRun(Do(s, steps[0]), steps[1..], t, d);
    }
  }

  lemma RunBegins(s: State, t: Tid)
    requires Inv(s) && Enabled(s, Run(t, true))
    ensures InRun(Do(s, Run(t, true)), t, Depth(s, t))
  {
    hide Fifo, ListsOk, NoLostWakeup, Owned, TryGet, Contents, Valid;
    GetWakes(s, t, true, t);
  }

  /**
   Once a thread has called `run`, in every continuation in which no functor of that very `run` throws, it is
   never back in its own code: it waits for events, or is in a functor, however many events were called.
   */
  lemma RunNeverReturns(s: State, steps: seq<Step>, t: Tid, more: seq<Step>)
    requires Initial(s) && Possible(s, steps) && Enabled(Steps(s, steps), Run(t, true))
    requires
      var called := Do(Steps(s, steps), Run(t, true));
      Possible(called, more) && NoThrow(called, more, t, Depth(Steps(s, steps), t))
    ensures
      var d, end := Depth(Steps(s, steps), t), Steps(Do(Steps(s, steps), Run(t, true)), more);
      At(end, t) == Free ==> Depth(end, t) > d
  {
    hide Initial, Inv, Enabled, Do, NoThrow;
    var now := Steps(s, steps);
    InitialInv(s);
    StepsKeepInv(s, steps);
    StepKeepsInv(now, Run(t, true));
    RunBegins(now, t);
    StaysInRun(Do(now, Run(t, true)), more, t, Depth(now, t));
  }

  /** The first such exception ends it, and the thread is back where it called `run`. */
  lemma ThrowEndsRun(s: State, steps: seq<Step>, t: Tid, more: seq<Step>)
    requires Initial(s) && Possible(s, steps) && Enabled(Steps(s, steps), Run(t, true))
    requires
      var d, called := Depth(Steps(s, steps), t), Do(Steps(s, steps), Run(t, true));
      && Possible(called, more) && NoThrow(called, more, t, d)
      && Enabled(Steps(called, more), Throw(t)) && Depth(Steps(called, more), t) == d + 1
    ensures
      var d, called := Depth(Steps(s, steps), t), Do(Steps(s, steps), Run(t, true));
      var end := Do(Steps(called, more), Throw(t));
      At(end, t) == Free && Depth(end, t) == d
  {
    hide Initial, Inv, Enabled, Do, NoThrow, InRun, Depth;
    var now := Steps(s, steps);
    InitialInv(s);
    StepsKeepInv(s, steps);
    StepKeepsInv(now, Run(t, true));
    RunBegins(now, t);
    StaysInRun(Do(now, Run(t, true)), more, t, Depth(now, t));
    StepInRun(Steps(Do(now, Run(t, true)), more), Throw(t), t, Depth(now, t));
  }

  // ---------- runOne ----------

  /**
   With an event in the ring, `run` and `runOne` start one call, of the oldest; with none, `runOne` changes
   nothing, and `run` waits.
   */
  lemma OldestIsCalled(s: State, t: Tid, loop: bool)
    requires Inv(s) && Enabled(s, Run(t, loop))
    ensures
      var s' := Do(s, Run(t, loop));
      && (forall u: Tid :: u != t ==> Frames(s', u) == Frames(s, u))
      && if s.ring.n > 0 then
           && Contents(s.ring) != [] && At(s', t) == Free
           && Frames(s', t) == Frames(s, t) + [Frame(Contents(s.ring)[0], loop)]
           && Valid(s'.ring) && Contents(s'.ring) == Contents(s.ring)[1..]
         else
           && s' == s.(pc := s'.pc, waitingGet := s'.waitingGet) && (forall u: Tid :: u != t ==> At(s', u) == At(s, u))
           && (if loop then At(s', t) == GetWaiting(true) && s'.waitingGet == s.waitingGet + [t]
               else At(s', t) == Free && s'.waitingGet == s.waitingGet)
  {
    hide ListsOk, NoLostWakeup, Owned, Contents, Take, TryGet;
    var s' := Do(s, Run(t, loop));
    GetWakes(s, t, loop, t);
    forall u: Tid | u != t ensures Frames(s', u) == Frames(s, u) {
      GetWakes(s, t, loop, u);
    }
    if s.ring.n == 0 { NothingToTake(s, t, loop); }
  }

  lemma NothingToTake(s: State, t: Tid, loop: bool)
    requires s.ring.n == 0
    ensures
      var s' := TryGet(s, t, loop);
      && s' == s.(pc := s'.pc, waitingGet := s'.waitingGet) && (forall u: Tid :: u != t ==> At(s', u) == At(s, u))
      && s'.waitingGet == if loop then s.waitingGet + [t] else s.waitingGet
  {
  }

  /** The thread is in the one call that a `runOne` at depth `d` makes. */
  predicate InOne(s: State, t: Tid, d: nat) {
    Depth(s, t) > d && !Frames(s, t)[d].loop
  }

  lemma StepInOne(s: State, step: Step, t: Tid, d: nat)
    requires Inv(s) && Enabled(s, step) && InOne(s, t, d)
    ensures
      var s' := Do(s, step);
      InOne(s', t, d) || (Depth(s', t) == d && At(s', t) == Free)
  {
    hide Inv, ListsOk, Fifo, TryPost, TryGet, DoPut, Contents, Valid;
    if !OwnStep(step, t) {
      OthersLeaveAlone(s, step, t);
    } else {
      InvLists(s);
      match step
      case Post(_, event) =>
        var s1 := s.(submitted := s.submitted + {event});
        SameLists(s, s1);
        PostWakes(s1, t, event, t);
      case Run(_, loop) => GetWakes(s, t, loop, t);
      case Resume(_) =>
        if At(s, t).PostSignalled? {
          PostWakes(s, t, At(s, t).event, t);
        } else {
          GetWakes(s, t, true, t);
        }
      case _ =>
    }
  }

  lemma InvLists(s: State)
    requires Inv(s)
    ensures ListsOk(s) && Fifo(s)
  {
  }

  /** The thread is deeper than `d` all along the steps, but for the end. */
  predicate StaysDeeper(s: State, steps: seq<Step>, t: Tid, d: nat)
    decreases |steps|
  {
    steps != [] ==> Depth(s, t) > d && StaysDeeper(Do(s, steps[0]), steps[1..], t, d)
  }

  lemma {:induction false} StaysInOne(s: State, steps: seq<Step>, t: Tid, d: nat)
    requires Inv(s) && Possible(s, steps) && StaysDeeper(s, steps, t, d)
    requires InOne(s, t, d) || (Depth(s, t) == d && At(s, t) == Free)
    ensures var end := Steps(s, steps); Depth(end, t) == d ==> At(end, t) == Free
    decreases |steps|
  {
    hide Inv, Enabled, Do, At, Frames;
    if steps != [] {
      StepKeepsInv(s, steps[0]);
      StepInOne(s, steps[0], t, d);
      StaysInOne(Do(s, steps[0]), steps[1..], t, d);
    }
  }

  /** When the call that `runOne` made has returned or thrown, the thread is back in its own code. */
  lemma RunOneReturns(s: State, steps: seq<Step>, t: Tid, more: seq<Step>)
    requires Initial(s) && Possible(s, steps) && Enabled(Steps(s, steps), Run(t, false))
    requires
      var called := Do(Steps(s, steps), Run(t, false));
      Possible(called, more) && StaysDeeper(called, more, t, Depth(Steps(s, steps), t))
    ensures
      var d, end := Depth(Steps(s, steps), t), Steps(Do(Steps(s, steps), Run(t, false)), more);
      Depth(end, t) == d ==> At(end, t) == Free
  {
    hide Initial, Inv, Enabled, Do, StaysDeeper, At, Contents, Valid;
    var now := Steps(s, steps);
    InitialInv(s);
    StepsKeepInv(s, steps);
    StepKeepsInv(now, Run(t, false));
    OldestIsCalled(now, t, false);
    StaysInOne(Do(now, Run(t, false)), more, t, Depth(now, t));
  }
}
