/**
 A fixed event queue shared by any number of posting and running threads and interrupts.
 Every critical section under the global interrupt lock is one atomic step; a waiting
 thread sits in a list until a token is cleared for it, and may wake up for no reason.
 */
module EventQueue {
  import opened Common
  import opened EventRing

  datatype Pc =
    | Free                                       // in its own code, or in that of a functor it calls
    | PostWaiting(event: Event, asleep: bool)    // in waitingPut
    | PostSignalled(event: Event)                // token cleared, not yet resumed
    | GetWaiting(asleep: bool)                   // in waitingGet
    | GetSignalled
    | Looping                                    // back from a functor, about to lock again

  /** A functor being called, without the lock, by `run` or by `runOne`. */
  datatype Frame = Frame(event: Event, loop: bool)

  datatype State = State(
    ring: Ring<Event>,
    waitingGet: seq<Tid>,
    waitingPut: seq<Tid>,
    pc: map<Tid, Pc>,
    frames: map<Tid, seq<Frame>>,    // the calls a thread is in, the innermost last
    submitted: set<Event>,     // every functor handed to a post so far
    destroyed: set<Event>,     // those whose post gave up
    accepted: seq<Event>,      // in the order they entered the ring
    taken: seq<Event>,         // in the order they left it
    called: seq<Event>)

  function At(s: State, t: Tid): Pc {
    if t in s.pc then s.pc[t] else Free
  }

  function Frames(s: State, t: Tid): seq<Frame> {
    if t in s.frames then s.frames[t] else []
  }

  function Size(s: State): nat {
    |s.ring.slots|
  }

  datatype Step =
    | Post(t: Tid, event: Event)
    | IrqPost(event: Event)        // from an interrupt, or without blocking
    | Run(t: Tid, loop: bool)
    | Resume(t: Tid)               // a signalled thread gets the lock back
    | Spurious(t: Tid)             // a waiting thread wakes up for no reason
    | SleepAgain(t: Tid)
    | Return(t: Tid)               // the innermost functor returns
    | Throw(t: Tid)                // the innermost functor throws

  ghost predicate Enabled(s: State, step: Step) {
    match step
    case Post(t, event) => At(s, t) == Free && event !in s.submitted
    case IrqPost(event) => event !in s.submitted
    case Run(t, loop) => At(s, t) == Free || (At(s, t) == Looping && loop)
    case Resume(t) => At(s, t).PostSignalled? || At(s, t) == GetSignalled
    case Spurious(t) => At(s, t) == GetWaiting(true) || (At(s, t).PostWaiting? && At(s, t).asleep)
    case SleepAgain(t) => At(s, t) == GetWaiting(false) || (At(s, t).PostWaiting? && !At(s, t).asleep)
    case Return(t) => At(s, t) == Free && Frames(s, t) != []
    case Throw(t) => At(s, t) == Free && Frames(s, t) != []
  }

  function Goto(s: State, t: Tid, pc: Pc): State {
    s.(pc := s.pc[t := pc])
  }

  /** Clears the token of the first waiting getter. */
  function WakeGetter(s: State): State {
    if s.waitingGet == [] then s
    else Goto(s.(waitingGet := s.waitingGet[1..]), s.waitingGet[0], GetSignalled)
  }

  function WakePoster(s: State): State {
    if s.waitingPut == [] then s
    else
      var t := s.waitingPut[0];
      Goto(s.(waitingPut := s.waitingPut[1..]), t,
           if At(s, t).PostWaiting? then PostSignalled(At(s, t).event) else At(s, t))
  }

  function DoPut(s: State, e: Event): State
    requires s.ring.put < |s.ring.slots|
  {
    WakeGetter(s.(ring := Put(s.ring, e), accepted := s.accepted + [e]))
  }

  /** One attempt of a thread to post: into the ring, or to the end of the waiting list. */
  function TryPost(s: State, t: Tid, e: Event): State {
    if s.ring.n < Size(s) && s.ring.put < Size(s) then DoPut(Goto(s, t, Free), e)
    else Goto(s.(waitingPut := s.waitingPut + [t]), t, PostWaiting(e, true))
  }

  /** One attempt of a thread to take an event; `runOne` gives up instead of waiting. */
  function TryGet(s: State, t: Tid, loop: bool): State {
    if s.ring.n > 0 && s.ring.get < Size(s) && s.ring.slots[s.ring.get].Some? then
      var e := s.ring.slots[s.ring.get].value;
      WakePoster(Goto(s.(ring := Take(s.ring), taken := s.taken + [e],
                         frames := s.frames[t := Frames(s, t) + [Frame(e, loop)]]), t, Free))
    else if loop then Goto(s.(waitingGet := s.waitingGet + [t]), t, GetWaiting(true))
    else Goto(s, t, Free)
  }

  /** Leaving the innermost call; an exception leaves the loop of `run` too. */
  function EndCall(s: State, t: Tid, thrown: bool): State {
    var calls := Frames(s, t);
    if calls == [] then s
    else
      var last := calls[|calls| - 1];
      Goto(s.(called := s.called + [last.event], frames := s.frames[t := calls[..|calls| - 1]]), t,
           if last.loop && !thrown then Looping else Free)
  }

  function Do(s: State, step: Step): State {
    match step
    case Post(t, event) => TryPost(s.(submitted := s.submitted + {event}), t, event)
    case IrqPost(event) =>
      var s1 := s.(submitted := s.submitted + {event});
      if s.ring.n < Size(s) && s.ring.put < Size(s) then DoPut(s1, event)
      else s1.(destroyed := s.destroyed + {event})     // with the temporary that held it
    case Run(t, loop) => TryGet(s, t, loop)
    case Resume(t) =>
      (match At(s, t)
       case PostSignalled(event) => TryPost(s, t, event)
       case GetSignalled => TryGet(s, t, true)
       case _ => s)
    case Spurious(t) =>
      Goto(s, t, if At(s, t).PostWaiting? then PostWaiting(At(s, t).event, false) else GetWaiting(false))
    case SleepAgain(t) =>
      Goto(s, t, if At(s, t).PostWaiting? then PostWaiting(At(s, t).event, true) else GetWaiting(true))
    case Return(t) => EndCall(s, t, false)
    case Throw(t) => EndCall(s, t, true)
  }

  // ---------- The invariant ----------

  /** The waiting lists hold exactly the threads that wait, each once. */
  ghost predicate ListsOk(s: State) {
    && NoRepeats(s.waitingGet) && NoRepeats(s.waitingPut)
    && (forall t :: t in s.waitingGet <==> At(s, t).GetWaiting?)
    && (forall t :: t in s.waitingPut <==> At(s, t).PostWaiting?)
  }

  ghost function SignalledGetters(s: State): set<Tid> {
    set t | t in s.pc && s.pc[t] == GetSignalled
  }

  ghost function SignalledPosters(s: State): set<Tid> {
    set t | t in s.pc && s.pc[t].PostSignalled?
  }

  /** While threads wait, every event or free slot is spoken for by a thread on its way. */
  ghost predicate NoLostWakeup(s: State) {
    && (s.waitingGet != [] ==> s.ring.n <= |SignalledGetters(s)|)
    && (s.waitingPut != [] ==> Size(s) - s.ring.n <= |SignalledPosters(s)|)
  }

  lemma SignalGetter(s: State, t: Tid, pc: Pc)
    ensures
      var before, after := SignalledGetters(s), SignalledGetters(Goto(s, t, pc));
      && (pc == GetSignalled ==> after == before + {t})
      && (pc != GetSignalled ==> after == before - {t})
    ensures t in SignalledGetters(s) <==> At(s, t) == GetSignalled
  {
  }

  lemma SignalPoster(s: State, t: Tid, pc: Pc)
    ensures
      var before, after := SignalledPosters(s), SignalledPosters(Goto(s, t, pc));
      && (pc.PostSignalled? ==> after == before + {t})
      && (!pc.PostSignalled? ==> after == before - {t})
    ensures t in SignalledPosters(s) <==> At(s, t).PostSignalled?
  {
  }

  /** The functor a posting thread still holds. */
  function Held(pc: Pc): Option<Event> {
    match pc
    case PostWaiting(event, _) => Some(event)
    case PostSignalled(event) => Some(event)
    case _ => None
  }

  /** The call of `e` is the one at depth `i` of a thread. */
  predicate Calls(s: State, t: Tid, i: nat, e: Event) {
    i < |Frames(s, t)| && Frames(s, t)[i].event == e
  }

  ghost predicate BeingCalled(s: State, e: Event) {
    exists t: Tid, i: nat :: Calls(s, t, i, e)
  }

  /** The ring is a first-in first-out queue. */
  ghost predicate Fifo(s: State) {
    Valid(s.ring) && s.accepted == s.taken + Contents(s.ring)
  }

  /** Every functor has one owner at a time and is called once. */
  ghost predicate Owned(s: State) {
    && NoRepeats(s.accepted) && NoRepeats(s.called)
    && (forall e :: e in s.accepted ==> e in s.submitted)
    && (forall t: Tid :: Held(At(s, t)).Some? ==>
          Held(At(s, t)).value in s.submitted && Held(At(s, t)).value !in s.accepted)
    && (forall t: Tid, u: Tid :: Held(At(s, t)).Some? && Held(At(s, t)) == Held(At(s, u)) ==> t == u)
    && (forall t: Tid, i: nat, e :: Calls(s, t, i, e) ==> e in s.taken && e !in s.called)
    && (forall t: Tid, i: nat, u: Tid, j: nat, e :: Calls(s, t, i, e) && Calls(s, u, j, e) ==> t == u && i == j)
    && (forall e :: e in s.called ==> e in s.taken)
    && (forall e :: e in s.taken ==> e in s.called || BeingCalled(s, e))
  }

  ghost predicate Inv(s: State) {
    Fifo(s) && ListsOk(s) && NoLostWakeup(s) && Owned(s)
  }

  // ---------- Waiting lists ----------

  predicate Waits(pc: Pc) {
    pc.GetWaiting? || pc.PostWaiting?
  }

  lemma GotoLists(s: State, t: Tid, pc: Pc)
    requires ListsOk(s) && !Waits(At(s, t)) && !Waits(pc)
    ensures ListsOk(Goto(s, t, pc))
  {
    var s' := Goto(s, t, pc);
    assert forall u :: u != t ==> At(s', u) == At(s, u);
    assert At(s', t) == pc;
  }

  lemma JoinGetters(s: State, t: Tid)
    requires ListsOk(s) && !Waits(At(s, t))
    ensures ListsOk(Goto(s.(waitingGet := s.waitingGet + [t]), t, GetWaiting(true)))
  {
    var s' := Goto(s.(waitingGet := s.waitingGet + [t]), t, GetWaiting(true));
    assert forall u :: u != t ==> At(s', u) == At(s, u);
    assert At(s', t) == GetWaiting(true);
    assert t !in s.waitingGet;
  }

  lemma JoinPosters(s: State, t: Tid, e: Event)
    requires ListsOk(s) && !Waits(At(s, t))
    ensures ListsOk(Goto(s.(waitingPut := s.waitingPut + [t]), t, PostWaiting(e, true)))
  {
    var s' := Goto(s.(waitingPut := s.waitingPut + [t]), t, PostWaiting(e, true));
    assert forall u :: u != t ==> At(s', u) == At(s, u);
    assert At(s', t) == PostWaiting(e, true);
    assert t !in s.waitingPut;
  }

  lemma FirstLeaves(xs: seq<Tid>)
    requires xs != [] && NoRepeats(xs)
    ensures NoRepeats(xs[1..]) && xs[0] !in xs[1..]
    ensures forall t :: t in xs <==> t == xs[0] || t in xs[1..]
  {
    assert xs == [xs[0]] + xs[1..];
  }

  lemma WakeGetterLists(s: State)
    requires ListsOk(s)
    ensures ListsOk(WakeGetter(s))
  {
    hide NoRepeats;
    if s.waitingGet != [] {
      FirstLeaves(s.waitingGet);
      var t, s' := s.waitingGet[0], WakeGetter(s);
      assert forall u :: u != t ==> At(s', u) == At(s, u);
      assert At(s, t).GetWaiting? && At(s', t) == GetSignalled;
    }
  }

  lemma WakePosterLists(s: State)
    requires ListsOk(s)
    ensures ListsOk(WakePoster(s))
  {
    hide NoRepeats;
    if s.waitingPut != [] {
      FirstLeaves(s.waitingPut);
      var t, s' := s.waitingPut[0], WakePoster(s);
      assert forall u :: u != t ==> At(s', u) == At(s, u);
      assert At(s, t).PostWaiting? && At(s', t) == PostSignalled(At(s, t).event);
    }
  }

  // ---------- Counting the threads on their way ----------

  lemma WakeGetterCounts(s: State)
    requires ListsOk(s)
    ensures |SignalledGetters(WakeGetter(s))| == |SignalledGetters(s)| + (if s.waitingGet == [] then 0 else 1)
    ensures SignalledPosters(WakeGetter(s)) == SignalledPosters(s)
  {
    hide SignalledGetters, SignalledPosters, NoRepeats;
    if s.waitingGet != [] {
      var t, popped := s.waitingGet[0], s.(waitingGet := s.waitingGet[1..]);
      assert At(popped, t) == At(s, t) && At(s, t).GetWaiting?;
      SamePcs(s, popped);
      SignalGetter(popped, t, GetSignalled);
      SignalPoster(popped, t, GetSignalled);
    }
  }

  lemma WakePosterCounts(s: State)
    requires ListsOk(s)
    ensures |SignalledPosters(WakePoster(s))| == |SignalledPosters(s)| + (if s.waitingPut == [] then 0 else 1)
    ensures SignalledGetters(WakePoster(s)) == SignalledGetters(s)
  {
    hide SignalledGetters, SignalledPosters, NoRepeats;
    if s.waitingPut != [] {
      var t, popped := s.waitingPut[0], s.(waitingPut := s.waitingPut[1..]);
      assert At(popped, t) == At(s, t) && At(s, t).PostWaiting?;
      SamePcs(s, popped);
      SignalGetter(popped, t, PostSignalled(At(s, t).event));
      SignalPoster(popped, t, PostSignalled(At(s, t).event));
    }
  }

  lemma SamePcs(s: State, s': State)
    requires s'.pc == s.pc
    ensures SignalledGetters(s') == SignalledGetters(s) && SignalledPosters(s') == SignalledPosters(s)
  {
  }

  // ---------- Posting ----------

  /** A thread leaves for a place where nobody counts it as signalled. */
  lemma LeaveCounts(s: State, t: Tid, pc: Pc)
    requires pc != GetSignalled && !pc.PostSignalled?
    ensures |SignalledGetters(Goto(s, t, pc))| == |SignalledGetters(s)| - (if At(s, t) == GetSignalled then 1 else 0)
    ensures |SignalledPosters(Goto(s, t, pc))| == |SignalledPosters(s)| - (if At(s, t).PostSignalled? then 1 else 0)
  {
    hide SignalledGetters, SignalledPosters;
    SignalGetter(s, t, pc);
    SignalPoster(s, t, pc);
  }

  /** Adding an event wakes a getter for it; the slot was promised to the poster, or to nobody. */
  lemma PutKeepsWakeups(s: State, e: Event)
    requires ListsOk(s) && s.ring.put < Size(s) && s.ring.n < Size(s)
    requires s.waitingGet != [] ==> s.ring.n <= |SignalledGetters(s)|
    requires s.waitingPut != [] ==> Size(s) - s.ring.n - 1 <= |SignalledPosters(s)|
    ensures NoLostWakeup(DoPut(s, e)) && ListsOk(DoPut(s, e))
  {
    hide SignalledGetters, SignalledPosters, NoRepeats, ListsOk;
    var s1 := s.(ring := Put(s.ring, e), accepted := s.accepted + [e]);
    SamePcs(s, s1);
    SameLists(s, s1);
    WakeGetterCounts(s1);
    WakeGetterLists(s1);
  }

  lemma SameLists(s: State, s': State)
    requires ListsOk(s) && s'.pc == s.pc && s'.waitingGet == s.waitingGet && s'.waitingPut == s.waitingPut
    ensures ListsOk(s')
  {
    assert forall t :: At(s', t) == At(s, t);
  }

  lemma TryPostWakeups(s: State, t: Tid, e: Event)
    requires Valid(s.ring) && ListsOk(s) && NoLostWakeup(s)
    requires At(s, t) == Free || At(s, t).PostSignalled?
    ensures NoLostWakeup(TryPost(s, t, e)) && ListsOk(TryPost(s, t, e))
  {
    hide SignalledGetters, SignalledPosters, NoRepeats, ListsOk, Put;
    if s.ring.n < Size(s) && s.ring.put < Size(s) {
      LeaveCounts(s, t, Free);
      GotoLists(s, t, Free);
      PutKeepsWakeups(Goto(s, t, Free), e);
    } else {
      FullRing(s.ring);
      var s1 := s.(waitingPut := s.waitingPut + [t]);
      SamePcs(s, s1);
      LeaveCounts(s1, t, PostWaiting(e, true));
      JoinPosters(s, t, e);
    }
  }

  lemma FullRing(r: Ring<Event>)
    requires Valid(r)
    ensures r.n < |r.slots| ==> r.put < |r.slots|
  {
  }

  // ---------- Taking ----------

  lemma TakeKeepsWakeups(s: State)
    requires ListsOk(s) && s.ring.get < Size(s) && s.ring.n > 0
    requires s.waitingGet != [] ==> s.ring.n - 1 <= |SignalledGetters(s)|
    requires s.waitingPut != [] ==> Size(s) - s.ring.n <= |SignalledPosters(s)|
    ensures
      var s1 := s.(ring := Take(s.ring));
      NoLostWakeup(WakePoster(s1)) && ListsOk(WakePoster(s1))
  {
    hide SignalledGetters, SignalledPosters, NoRepeats, ListsOk;
    var s1 := s.(ring := Take(s.ring));
    SamePcs(s, s1);
    SameLists(s, s1);
    WakePosterCounts(s1);
    WakePosterLists(s1);
  }

  lemma TryGetWakeups(s: State, t: Tid, loop: bool)
    requires Valid(s.ring) && ListsOk(s) && NoLostWakeup(s)
    requires At(s, t) == Free || At(s, t) == Looping || At(s, t) == GetSignalled
    requires At(s, t) == GetSignalled ==> loop
    ensures NoLostWakeup(TryGet(s, t, loop)) && ListsOk(TryGet(s, t, loop))
  {
    hide SignalledGetters, SignalledPosters, NoRepeats, ListsOk, Take;
    if s.ring.n > 0 {
      TakeRemoves(s.ring);
      var e := s.ring.slots[s.ring.get].value;
      var s0 := s.(taken := s.taken + [e], frames := s.frames[t := Frames(s, t) + [Frame(e, loop)]]);
      SamePcs(s, s0);
      SameLists(s, s0);
      LeaveCounts(s0, t, Free);
      GotoLists(s0, t, Free);
      TakeKeepsWakeups(Goto(s0, t, Free));
    } else if loop {
      var s1 := s.(waitingGet := s.waitingGet + [t]);
      SamePcs(s, s1);
      LeaveCounts(s1, t, GetWaiting(true));
      JoinGetters(s, t);
    } else {
      LeaveCounts(s, t, Free);
      GotoLists(s, t, Free);
    }
  }

  // ---------- First in, first out ----------

  lemma TryPostFifo(s: State, t: Tid, e: Event)
    requires Fifo(s)
    ensures Fifo(TryPost(s, t, e))
  {
    hide Valid, Contents, Put;
    FullRing(s.ring);
    if s.ring.n < Size(s) {
      PutAppends(s.ring, e);
    }
  }

  lemma IrqPostFifo(s: State, e: Event)
    requires Fifo(s) && s.ring.n < Size(s) && s.ring.put < Size(s)
    ensures Fifo(DoPut(s, e))
  {
    hide Valid, Contents, Put;
    PutAppends(s.ring, e);
  }

  lemma TryGetFifo(s: State, t: Tid, loop: bool)
    requires Fifo(s)
    ensures Fifo(TryGet(s, t, loop))
  {
    hide Valid, Contents, Take;
    ValidBounds(s.ring);
    if s.ring.n > 0 {
      TakeRemoves(s.ring);
      var e := s.ring.slots[s.ring.get].value;
      assert s.taken + ([e] + Contents(Take(s.ring))) == (s.taken + [e]) + Contents(Take(s.ring));
    }
  }

  // ---------- Ownership ----------

  /** Waking a thread changes neither what it holds nor what it calls. */
  ghost predicate SameOwners(s: State, s': State) {
    && (forall t: Tid :: Held(At(s', t)) == Held(At(s, t)))
    && s'.frames == s.frames && s'.submitted == s.submitted && s'.accepted == s.accepted
    && s'.taken == s.taken && s'.called == s.called
  }

  lemma SameCalls(s: State, s': State)
    requires s'.frames == s.frames
    ensures forall t: Tid, i: nat, e :: Calls(s', t, i, e) <==> Calls(s, t, i, e)
    ensures forall e :: BeingCalled(s', e) <==> BeingCalled(s, e)
  {
    forall e ensures BeingCalled(s', e) <==> BeingCalled(s, e) {
      if t: Tid, i: nat :| Calls(s', t, i, e) { assert Calls(s, t, i, e); }
      if t: Tid, i: nat :| Calls(s, t, i, e) { assert Calls(s', t, i, e); }
    }
  }

  lemma OwnedSame(s: State, s': State)
    requires Owned(s) && SameOwners(s, s')
    ensures Owned(s')
  {
    hide Calls, BeingCalled, NoRepeats;
    SameCalls(s, s');
  }

  lemma WakesKeepOwners(s: State)
    requires ListsOk(s)
    ensures SameOwners(s, WakeGetter(s)) && SameOwners(s, WakePoster(s))
  {
    hide NoRepeats;
    if s.waitingGet != [] {
      assert At(s, s.waitingGet[0]).GetWaiting?;
    }
    if s.waitingPut != [] {
      assert At(s, s.waitingPut[0]).PostWaiting?;
    }
  }

  /** A functor handed to a post: new, or held by the posting thread until now. */
  ghost predicate Offers(s: State, t: Tid, e: Event) {
    || At(s, t) == PostSignalled(e)
    || (At(s, t) == Free && e in s.submitted && e !in s.accepted && forall u: Tid :: Held(At(s, u)) != Some(e))
  }

  lemma AcceptOwned(s: State, t: Tid, e: Event)
    requires Owned(s) && Offers(s, t, e)
    ensures Owned(Goto(s, t, Free).(accepted := s.accepted + [e]))
  {
    hide Calls, BeingCalled;
    var s' := Goto(s, t, Free).(accepted := s.accepted + [e]);
    assert forall u: Tid :: u != t ==> At(s', u) == At(s, u);
    assert At(s', t) == Free;
    assert forall u: Tid :: u == t || Held(At(s, u)) != Some(e);
    SameCalls(s, s');
  }

  lemma TryPostOwned(s: State, t: Tid, e: Event)
    requires Owned(s) && Valid(s.ring) && ListsOk(s) && Offers(s, t, e)
    ensures Owned(TryPost(s, t, e))
  {
    hide NoRepeats, Valid, Put, Calls, BeingCalled;
    if s.ring.n < Size(s) && s.ring.put < Size(s) {
      AcceptOwned(s, t, e);
      var s1 := Goto(s, t, Free).(ring := Put(s.ring, e), accepted := s.accepted + [e]);
      OwnedSame(Goto(s, t, Free).(accepted := s.accepted + [e]), s1);
      GotoLists(s, t, Free);
      SameLists(Goto(s, t, Free), s1);
      WakesKeepOwners(s1);
      OwnedSame(s1, WakeGetter(s1));
    } else {
      var s' := TryPost(s, t, e);
      assert forall u: Tid :: u != t ==> At(s', u) == At(s, u);
      assert At(s', t) == PostWaiting(e, true);
      SameCalls(s, s');
    }
  }

  lemma IrqPostOwned(s: State, e: Event)
    requires Owned(s) && ListsOk(s) && s.ring.put < Size(s)
    requires e in s.submitted && e !in s.accepted && forall u: Tid :: Held(At(s, u)) != Some(e)
    ensures Owned(DoPut(s, e))
  {
    hide NoRepeats, Put, Calls, BeingCalled;
    AcceptFresh(s, e);
    var s1 := s.(ring := Put(s.ring, e), accepted := s.accepted + [e]);
    OwnedSame(s.(accepted := s.accepted + [e]), s1);
    SameLists(s, s1);
    WakesKeepOwners(s1);
    OwnedSame(s1, WakeGetter(s1));
  }

  lemma AcceptFresh(s: State, e: Event)
    requires Owned(s) && e in s.submitted && e !in s.accepted
    requires forall u: Tid :: Held(At(s, u)) != Some(e)
    ensures Owned(s.(accepted := s.accepted + [e]))
  {
    hide Calls, BeingCalled;
    var s' := s.(accepted := s.accepted + [e]);
    assert forall u: Tid :: At(s', u) == At(s, u);
    SameCalls(s, s');
  }

  /** Entering a call adds just that call. */
  lemma PushCalls(s: State, s': State, t: Tid, f: Frame)
    requires s'.frames == s.frames[t := Frames(s, t) + [f]]
    ensures forall u: Tid, i: nat, e :: Calls(s', u, i, e) <==>
              Calls(s, u, i, e) || (u == t && i == |Frames(s, t)| && e == f.event)
    ensures forall e :: BeingCalled(s', e) <==> BeingCalled(s, e) || e == f.event
  {
    assert forall u: Tid :: Frames(s', u) == if u == t then Frames(s, t) + [f] else Frames(s, u);
    forall u: Tid, i: nat, e
      ensures Calls(s', u, i, e) <==> Calls(s, u, i, e) || (u == t && i == |Frames(s, t)| && e == f.event)
    {
    }
    forall e ensures BeingCalled(s', e) <==> BeingCalled(s, e) || e == f.event {
      if e == f.event { assert Calls(s', t, |Frames(s, t)|, e); }
      if u: Tid, i: nat :| Calls(s', u, i, e) { assert Calls(s, u, i, e) || e == f.event; }
      if u: Tid, i: nat :| Calls(s, u, i, e) { assert Calls(s', u, i, e); }
    }
  }

  lemma StartCallOwned(s: State, t: Tid, f: Frame)
    requires Owned(s) && Held(At(s, t)).None? && f.event !in s.taken
    ensures Owned(Goto(s, t, Free).(taken := s.taken + [f.event], frames := s.frames[t := Frames(s, t) + [f]]))
  {
    hide Calls, BeingCalled, NoRepeats;
    var s' := Goto(s, t, Free).(taken := s.taken + [f.event], frames := s.frames[t := Frames(s, t) + [f]]);
    assert forall u: Tid :: u != t ==> At(s', u) == At(s, u);
    assert At(s', t) == Free;
    PushCalls(s, s', t, f);
  }

  lemma NextIsNew(s: State)
    requires Fifo(s) && NoRepeats(s.accepted) && s.ring.n > 0
    ensures s.ring.slots[s.ring.get].Some? && s.ring.slots[s.ring.get].value !in s.taken
  {
    hide Take;
    TakeRemoves(s.ring);
    var e := s.ring.slots[s.ring.get].value;
    assert s.accepted[|s.taken|] == e;
    assert forall i :: 0 <= i < |s.taken| ==> s.accepted[i] == s.taken[i];
  }

  lemma TryGetOwned(s: State, t: Tid, loop: bool)
    requires Owned(s) && Fifo(s) && ListsOk(s)
    requires At(s, t) == Free || At(s, t) == Looping || At(s, t) == GetSignalled
    ensures Owned(TryGet(s, t, loop))
  {
    hide NoRepeats, Valid, Contents, Take;
    ValidBounds(s.ring);
    if s.ring.n > 0 {
      NextIsNew(s);
      var e := s.ring.slots[s.ring.get].value;
      var f := Frame(e, loop);
      StartCallOwned(s, t, f);
      var s0 := Goto(s, t, Free).(taken := s.taken + [e], frames := s.frames[t := Frames(s, t) + [f]]);
      var s1 := s0.(ring := Take(s.ring));
      OwnedSame(s0, s1);
      GotoLists(s, t, Free);
      SameLists(Goto(s, t, Free), s1);
      WakesKeepOwners(s1);
      OwnedSame(s1, WakePoster(s1));
    } else {
      OwnedSame(s, TryGet(s, t, loop));
    }
  }

  /** Leaving the innermost call removes just that call. */
  lemma PopCalls(s: State, s': State, t: Tid)
    requires Frames(s, t) != []
    requires s'.frames == s.frames[t := Frames(s, t)[..|Frames(s, t)| - 1]]
    ensures forall u: Tid, i: nat, e :: Calls(s', u, i, e) <==>
              Calls(s, u, i, e) && !(u == t && i == |Frames(s, t)| - 1)
    ensures forall e :: BeingCalled(s', e) ==> BeingCalled(s, e)
    ensures forall e :: BeingCalled(s, e) ==> BeingCalled(s', e) || e == Frames(s, t)[|Frames(s, t)| - 1].event
  {
    var n := |Frames(s, t)| - 1;
    assert forall u: Tid :: Frames(s', u) == if u == t then Frames(s, t)[..n] else Frames(s, u);
    forall u: Tid, i: nat, e ensures Calls(s', u, i, e) <==> Calls(s, u, i, e) && !(u == t && i == n) {
    }
    forall e ensures BeingCalled(s', e) ==> BeingCalled(s, e)
      ensures BeingCalled(s, e) ==> BeingCalled(s', e) || e == Frames(s, t)[n].event
    {
      if u: Tid, i: nat :| Calls(s', u, i, e) { assert Calls(s, u, i, e); }
      if u: Tid, i: nat :| Calls(s, u, i, e) { assert Calls(s', u, i, e) || e == Frames(s, t)[n].event; }
    }
  }

  lemma EndCallOwned(s: State, t: Tid, thrown: bool)
    requires Owned(s) && Held(At(s, t)).None? && Frames(s, t) != []
    ensures Owned(EndCall(s, t, thrown))
  {
    hide BeingCalled;
    var s', n := EndCall(s, t, thrown), |Frames(s, t)| - 1;
    var e := Frames(s, t)[n].event;
    assert Calls(s, t, n, e);
    assert forall u: Tid :: u != t ==> At(s', u) == At(s, u);
    PopCalls(s, s', t);
    LeftCalls(s, s', t);
  }

  lemma LeftCalls(s: State, s': State, t: Tid)
    requires Owned(s) && Frames(s, t) != []
    requires s'.frames == s.frames[t := Frames(s, t)[..|Frames(s, t)| - 1]]
    ensures forall u: Tid, i: nat, e :: Calls(s', u, i, e) ==> e != Frames(s, t)[|Frames(s, t)| - 1].event
  {
    hide BeingCalled, NoRepeats;
    var n := |Frames(s, t)| - 1;
    PopCalls(s, s', t);
    assert Calls(s, t, n, Frames(s, t)[n].event);
  }

  // ---------- Every step keeps the invariant ----------

  lemma SubmitKeepsInv(s: State, e: Event, destroyed: set<Event>)
    requires Inv(s)
    ensures Inv(s.(submitted := s.submitted + {e}, destroyed := destroyed))
  {
    hide Valid, Contents, NoRepeats, SignalledGetters, SignalledPosters, ListsOk, Calls, BeingCalled;
    var s' := s.(submitted := s.submitted + {e}, destroyed := destroyed);
    SamePcs(s, s');
    SameLists(s, s');
    assert forall t: Tid :: At(s', t) == At(s, t);
    SameCalls(s, s');
  }

  lemma FreshIsFree(s: State, e: Event)
    requires Owned(s) && e !in s.submitted
    ensures e !in s.accepted && forall u: Tid :: Held(At(s, u)) != Some(e)
  {
  }

  lemma TryPostKeepsInv(s: State, t: Tid, e: Event)
    requires Inv(s) && Offers(s, t, e)
    ensures Inv(TryPost(s, t, e))
  {
    hide Valid, Contents, ListsOk, NoLostWakeup, Owned, TryPost;
    TryPostFifo(s, t, e);
    TryPostWakeups(s, t, e);
    TryPostOwned(s, t, e);
  }

  lemma TryGetKeepsInv(s: State, t: Tid, loop: bool)
    requires Inv(s)
    requires At(s, t) == Free || At(s, t) == Looping || At(s, t) == GetSignalled
    requires At(s, t) == GetSignalled ==> loop
    ensures Inv(TryGet(s, t, loop))
  {
    hide Valid, Contents, ListsOk, NoLostWakeup, Owned, TryGet;
    TryGetFifo(s, t, loop);
    TryGetWakeups(s, t, loop);
    TryGetOwned(s, t, loop);
  }

  lemma IrqPostKeepsInv(s: State, e: Event)
    requires Inv(s) && e in s.submitted && e !in s.accepted && s.ring.n < Size(s) && s.ring.put < Size(s)
    requires forall u: Tid :: Held(At(s, u)) != Some(e)
    ensures Inv(DoPut(s, e))
  {
    hide Valid, Contents, ListsOk, SignalledGetters, SignalledPosters, Owned, DoPut;
    IrqPostFifo(s, e);
    PutKeepsWakeups(s, e);
    IrqPostOwned(s, e);
  }

  lemma TurnKeepsInv(s: State, t: Tid, pc: Pc)
    requires Inv(s) && Waits(At(s, t)) && Waits(pc)
    requires pc.GetWaiting? == At(s, t).GetWaiting? && Held(pc) == Held(At(s, t))
    ensures Inv(Goto(s, t, pc))
  {
    hide Valid, Contents, NoRepeats, SignalledGetters, SignalledPosters;
    LeaveCounts(s, t, pc);
    assert forall u: Tid :: u != t ==> At(Goto(s, t, pc), u) == At(s, u);
    assert At(Goto(s, t, pc), t) == pc;
    OwnedSame(s, Goto(s, t, pc));
  }

  lemma EndCallKeepsInv(s: State, t: Tid, thrown: bool)
    requires Inv(s) && At(s, t) == Free && Frames(s, t) != []
    ensures Inv(EndCall(s, t, thrown))
  {
    hide Valid, Contents, NoRepeats, SignalledGetters, SignalledPosters, Owned, ListsOk;
    var s' := EndCall(s, t, thrown);
    LeaveCounts(s, t, At(s', t));
    EndCallOwned(s, t, thrown);
    GotoLists(s, t, At(s', t));
    SamePcs(Goto(s, t, At(s', t)), s');
    SameLists(Goto(s, t, At(s', t)), s');
  }

  lemma StepKeepsInv(s: State, step: Step)
    requires Inv(s) && Enabled(s, step)
    ensures Inv(Do(s, step))
  {
    hide Inv, TryPost, TryGet, DoPut, EndCall;
    match step
    case Post(t, event) =>
      var s1 := s.(submitted := s.submitted + {event});
      SubmitKeepsInv(s, event, s.destroyed);
      FreshOffer(s, t, event);
      TryPostKeepsInv(s1, t, event);
    case IrqPost(event) =>
      var s1 := s.(submitted := s.submitted + {event});
      FreshOffer(s, 0, event);
      if s.ring.n < Size(s) && s.ring.put < Size(s) {
        SubmitKeepsInv(s, event, s.destroyed);
        IrqPostKeepsInv(s1, event);
      } else {
        SubmitKeepsInv(s, event, s.destroyed + {event});
      }
    case Run(t, loop) => TryGetKeepsInv(s, t, loop);
    case Resume(t) =>
      if At(s, t).PostSignalled? {
        TryPostKeepsInv(s, t, At(s, t).event);
      } else {
        TryGetKeepsInv(s, t, true);
      }
    case Spurious(t) =>
      TurnKeepsInv(s, t, if At(s, t).PostWaiting? then PostWaiting(At(s, t).event, false) else GetWaiting(false));
    case SleepAgain(t) =>
      TurnKeepsInv(s, t, if At(s, t).PostWaiting? then PostWaiting(At(s, t).event, true) else GetWaiting(true));
    case Return(t) => EndCallKeepsInv(s, t, false);
    case Throw(t) => EndCallKeepsInv(s, t, true);
  }

  lemma FreshOffer(s: State, t: Tid, e: Event)
    requires Inv(s) && e !in s.submitted
    ensures
      var s1 := s.(submitted := s.submitted + {e});
      && e !in s1.accepted && (forall u: Tid :: Held(At(s1, u)) != Some(e))
      && (At(s, t) == Free ==> Offers(s1, t, e))
  {
    FreshIsFree(s, e);
    var s1 := s.(submitted := s.submitted + {e});
    assert forall u: Tid :: At(s1, u) == At(s, u);
  }

  // ---------- Whole runs ----------

  ghost predicate Initial(s: State) {
    && Valid(s.ring) && s.ring.n == 0 && s.waitingGet == [] && s.waitingPut == [] && s.pc == map[] && s.frames == map[]
    && s.submitted == {} && s.destroyed == {} && s.accepted == [] && s.taken == [] && s.called == []
  }

  function Steps(s: State, steps: seq<Step>): State
    decreases |steps|
  {
    if steps == [] then s else Steps(Do(s, steps[0]), steps[1..])
  }

  ghost predicate Possible(s: State, steps: seq<Step>)
    decreases |steps|
  {
    steps != [] ==> Enabled(s, steps[0]) && Possible(Do(s, steps[0]), steps[1..])
  }

  lemma InitialInv(s: State)
    requires Initial(s)
    ensures Inv(s)
  {
    assert forall t: Tid :: At(s, t) == Free;
  }

  lemma {:induction false} StepsKeepInv(s: State, steps: seq<Step>)
    requires Inv(s) && Possible(s, steps)
    ensures Inv(Steps(s, steps))
    decreases |steps|
  {
    hide Inv, Enabled, Do;
    if steps != [] {
      StepKeepsInv(s, steps[0]);
      StepsKeepInv(Do(s, steps[0]), steps[1..]);
    }
  }

  /** No run loses a wakeup, and getters and posters never all sleep with nobody signalled. */
  lemma NeverAllAsleep(s: State, steps: seq<Step>)
    requires Initial(s) && Possible(s, steps)
    ensures
      var now := Steps(s, steps);
      && (now.waitingGet != [] ==> now.ring.n <= |SignalledGetters(now)|)
      && (now.waitingPut != [] ==> Size(now) - now.ring.n <= |SignalledPosters(now)|)
      && (now.waitingGet != [] && now.waitingPut != [] ==>
            SignalledGetters(now) != {} || SignalledPosters(now) != {})
  {
    InitialInv(s);
    StepsKeepInv(s, steps);
  }

  /** Events leave the ring in the order they entered it, and the ring indices agree. */
  lemma TakenInOrder(s: State, steps: seq<Step>)
    requires Initial(s) && Possible(s, steps)
    ensures
      var now := Steps(s, steps);
      && |now.ring.slots| > 0 && now.ring.put == (now.ring.get + now.ring.n) % |now.ring.slots|
      && now.taken <= now.accepted && |now.accepted| - |now.taken| == now.ring.n
  {
    InitialInv(s);
    StepsKeepInv(s, steps);
    var now := Steps(s, steps);
    PositionIsModulo(now.ring, now.ring.n);
  }
}
