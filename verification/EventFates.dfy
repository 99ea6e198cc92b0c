/**
 What becomes of the functors handed to a fixed event queue: each is held by the thread that
 posts it, or accepted, or destroyed, and one that is accepted is queued, in a call or called.
 */
module EventFates {
  import opened Common
  import opened EventRing
  import opened EventQueue

  ghost predicate HeldBySome(s: State, e: Event) {
    exists t: Tid :: Held(At(s, t)) == Some(e)
  }

  /** Every functor is somewhere, but for those on their way, and one that was destroyed nowhere else. */
  ghost predicate PlacedBut(s: State, onTheWay: set<Event>) {
    && (forall e :: e in s.destroyed ==> e in s.submitted && e !in s.accepted && !HeldBySome(s, e))
    && (forall e :: e in s.submitted ==> e in s.accepted || e in s.destroyed || HeldBySome(s, e) || e in onTheWay)
  }

  ghost predicate Placed(s: State) {
    PlacedBut(s, {})
  }

  /** No functor changes hands, but for those of `gone`, which are accepted. */
  ghost predicate Passes(s: State, s': State, gone: seq<Event>) {
    && s'.submitted == s.submitted && s'.destroyed == s.destroyed && s'.accepted == s.accepted + gone
    && (forall t: Tid :: Held(At(s', t)) == Held(At(s, t)) ||
                         (Held(At(s', t)).None? && Held(At(s, t)).Some? && Held(At(s, t)).value in gone))
  }

  /** What was accepted or destroyed stays so, and a functor leaves the thread that holds it only into the ring. */
  ghost predicate Onward(s: State, s': State) {
    && s.accepted <= s'.accepted && s.destroyed <= s'.destroyed
    && (forall t: Tid :: Held(At(s, t)).Some? ==>
          Held(At(s', t)) == Held(At(s, t)) || Held(At(s, t)).value in s'.accepted)
  }

  lemma PassesPlaced(s: State, s': State, gone: seq<Event>, onTheWay: set<Event>)
    requires PlacedBut(s, onTheWay) && Passes(s, s', gone)
    requires forall e :: e in onTheWay ==> e in gone
    requires forall e :: e in gone ==> e in s.submitted && e !in s.destroyed
    ensures Placed(s') && Onward(s, s')
  {
    forall e ensures HeldBySome(s', e) ==> HeldBySome(s, e)
      ensures HeldBySome(s, e) && e !in gone ==> HeldBySome(s', e)
    {
      if t: Tid :| Held(At(s', t)) == Some(e) { assert Held(At(s, t)) == Some(e); }
      if t: Tid :| Held(At(s, t)) == Some(e) { assert e in gone || Held(At(s', t)) == Some(e); }
    }
  }

  // ---------- What each step does with the functors ----------

  lemma DoPutPasses(s: State, e: Event)
    requires ListsOk(s) && s.ring.put < Size(s)
    ensures Passes(s, DoPut(s, e), [e])
  {
    hide NoRepeats, Put;
    var s1 := s.(ring := Put(s.ring, e), accepted := s.accepted + [e]);
    assert forall t: Tid :: At(s1, t) == At(s, t);
    SameLists(s, s1);
    WakesKeepOwners(s1);
  }

  lemma TryGetPasses(s: State, t: Tid, loop: bool)
    requires ListsOk(s) && Held(At(s, t)).None? && !Waits(At(s, t))
    ensures Passes(s, TryGet(s, t, loop), [])
  {
    hide NoRepeats, Take, ListsOk;
    if s.ring.n > 0 && s.ring.get < Size(s) && s.ring.slots[s.ring.get].Some? {
      var e := s.ring.slots[s.ring.get].value;
      var s0 := Goto(s, t, Free);
      var s1 := s0.(ring := Take(s.ring), taken := s.taken + [e],
                    frames := s.frames[t := Frames(s, t) + [Frame(e, loop)]]);
      GotoLists(s, t, Free);
      SameLists(s0, s1);
      WakesKeepOwners(s1);
    }
  }

  lemma EndCallPasses(s: State, t: Tid, thrown: bool)
    requires At(s, t) == Free
    ensures Passes(s, EndCall(s, t, thrown), [])
  {
  }

  lemma TurnPasses(s: State, t: Tid, pc: Pc)
    requires Held(pc) == Held(At(s, t))
    ensures Passes(s, Goto(s, t, pc), [])
  {
  }

  lemma TryPostPlaced(s: State, t: Tid, e: Event, onTheWay: set<Event>)
    requires ListsOk(s) && Owned(s) && PlacedBut(s, onTheWay) && Offers(s, t, e) && e !in s.destroyed
    requires onTheWay == if At(s, t) == Free then {e} else {}
    ensures Placed(TryPost(s, t, e)) && Onward(s, TryPost(s, t, e))
  {
    hide NoRepeats, DoPut, ListsOk, PlacedBut, HeldBySome;
    var s' := TryPost(s, t, e);
    OffersSubmitted(s, t, e);
    if s.ring.n < Size(s) && s.ring.put < Size(s) {
      GotoLists(s, t, Free);
      DoPutPasses(Goto(s, t, Free), e);
      PassesPlaced(s, s', [e], onTheWay);
    } else if At(s, t) == Free {
      HolderPlaced(s, s', t, e);
    } else {
      assert Passes(s, s', []);
      PassesPlaced(s, s', [], {});
    }
  }

  lemma OffersSubmitted(s: State, t: Tid, e: Event)
    requires Owned(s) && Offers(s, t, e)
    ensures e in s.submitted && e !in s.accepted
  {
  }

  /** A thread that goes to wait takes hold of the functor it posts. */
  lemma HolderPlaced(s: State, s': State, t: Tid, e: Event)
    requires PlacedBut(s, {e}) && e in s.submitted && e !in s.destroyed && Held(At(s, t)).None?
    requires s'.submitted == s.submitted && s'.destroyed == s.destroyed && s'.accepted == s.accepted
    requires forall u: Tid :: Held(At(s', u)) == if u == t then Some(e) else Held(At(s, u))
    ensures Placed(s') && Onward(s, s')
  {
    assert Held(At(s', t)) == Some(e);
    forall x: Event ensures HeldBySome(s', x) <==> HeldBySome(s, x) || x == e {
      if u: Tid :| Held(At(s', u)) == Some(x) { assert u == t || Held(At(s, u)) == Some(x); }
      if u: Tid :| Held(At(s, u)) == Some(x) { assert Held(At(s', u)) == Some(x); }
    }
  }

  lemma SubmitPlaced(s: State, e: Event)
    requires Inv(s) && Placed(s) && e !in s.submitted
    ensures
      var s1 := s.(submitted := s.submitted + {e});
      PlacedBut(s1, {e}) && e !in s1.destroyed && Placed(s1.(destroyed := s.destroyed + {e}))
    ensures
      var s1 := s.(submitted := s.submitted + {e});
      Onward(s, s1) && Onward(s, s1.(destroyed := s.destroyed + {e}))
  {
    hide Fifo, ListsOk, NoLostWakeup, NoRepeats, Calls, BeingCalled;
    FreshIsFree(s, e);
    var s1 := s.(submitted := s.submitted + {e});
    var s2 := s1.(destroyed := s.destroyed + {e});
    assert forall t: Tid :: At(s1, t) == At(s, t) && At(s2, t) == At(s, t);
    forall x: Event ensures HeldBySome(s1, x) == HeldBySome(s, x) == HeldBySome(s2, x) {
      if t: Tid :| Held(At(s, t)) == Some(x) {
        assert Held(At(s1, t)) == Some(x) && Held(At(s2, t)) == Some(x);
      }
      if t: Tid :| Held(At(s1, t)) == Some(x) { assert Held(At(s, t)) == Some(x); }
      if t: Tid :| Held(At(s2, t)) == Some(x) { assert Held(At(s, t)) == Some(x); }
    }
  }

  lemma IrqPostPlaced(s: State, e: Event)
    requires Inv(s) && Placed(s) && e !in s.submitted
    ensures Placed(Do(s, IrqPost(e))) && Onward(s, Do(s, IrqPost(e)))
  {
    hide Fifo, ListsOk, NoLostWakeup, Owned, PlacedBut, HeldBySome, DoPut;
    var s1 := s.(submitted := s.submitted + {e});
    SubmitPlaced(s, e);
    if s.ring.n < Size(s) && s.ring.put < Size(s) {
      SameLists(s, s1);
      DoPutPasses(s1, e);
      PassesPlaced(s1, DoPut(s1, e), [e], {e});
    }
  }

  lemma PostPlaced(s: State, t: Tid, e: Event)
    requires Inv(s) && Placed(s) && Enabled(s, Post(t, e))
    ensures Placed(Do(s, Post(t, e))) && Onward(s, Do(s, Post(t, e)))
  {
    hide Inv, Offers, PlacedBut, HeldBySome, TryPost;
    var s1 := s.(submitted := s.submitted + {e});
    SubmitPlaced(s, e);
    SubmitKeepsInv(s, e, s.destroyed);
    FreshOffer(s, t, e);
    InvParts(s1);
    TryPostPlaced(s1, t, e, {e});
  }

  lemma InvParts(s: State)
    requires Inv(s)
    ensures ListsOk(s) && Owned(s)
  {
  }

  lemma ResumePlaced(s: State, t: Tid)
    requires Inv(s) && Placed(s) && Enabled(s, Resume(t))
    ensures Placed(Do(s, Resume(t))) && Onward(s, Do(s, Resume(t)))
  {
    hide Inv, ListsOk, Owned, TryPost, TryGet;
    InvParts(s);
    if At(s, t).PostSignalled? {
      assert HeldBySome(s, At(s, t).event) by { assert Held(At(s, t)) == Some(At(s, t).event); }
      TryPostPlaced(s, t, At(s, t).event, {});
    } else {
      TryGetPasses(s, t, true);
      PassesPlaced(s, TryGet(s, t, true), [], {});
    }
  }

  lemma StepPlaced(s: State, step: Step)
    requires Inv(s) && Placed(s) && Enabled(s, step)
    ensures Placed(Do(s, step)) && Onward(s, Do(s, step))
  {
    hide Inv, PlacedBut, TryPost, TryGet, EndCall, DoPut, ListsOk, Owned, Onward;
    InvParts(s);
    match step
    case Post(t, event) => PostPlaced(s, t, event);
    case IrqPost(event) => IrqPostPlaced(s, event);
    case Resume(t) => ResumePlaced(s, t);
    case Run(t, loop) =>
      TryGetPasses(s, t, loop);
      PassesPlaced(s, Do(s, step), [], {});
    case Return(t) =>
      EndCallPasses(s, t, false);
      PassesPlaced(s, Do(s, step), [], {});
    case Throw(t) =>
      EndCallPasses(s, t, true);
      PassesPlaced(s, Do(s, step), [], {});
    case _ =>
      TurnPasses(s, step.t, At(Do(s, step), step.t));
      PassesPlaced(s, Do(s, step), [], {});
  }

  // ---------- Whole runs ----------

  lemma OnwardTwice(s: State, s1: State, s2: State)
    requires Onward(s, s1) && Onward(s1, s2)
    ensures Onward(s, s2)
  {
    forall t: Tid | Held(At(s, t)).Some?
      ensures Held(At(s2, t)) == Held(At(s, t)) || Held(At(s, t)).value in s2.accepted
    {
      assert Held(At(s1, t)) == Held(At(s, t)) || Held(At(s, t)).value in s1.accepted;
    }
  }

  lemma {:induction false} StepsPlaced(s: State, steps: seq<Step>)
    requires Inv(s) && Placed(s) && Possible(s, steps)
    ensures Inv(Steps(s, steps)) && Placed(Steps(s, steps)) && Onward(s, Steps(s, steps))
    decreases |steps|
  {
    hide Inv, PlacedBut, Enabled, Do;
    if steps != [] {
      var s1 := Do(s, steps[0]);
      StepKeepsInv(s, steps[0]);
      StepPlaced(s, steps[0]);
      StepsPlaced(s1, steps[1..]);
      OnwardTwice(s, s1, Steps(s1, steps[1..]));
    }
  }

  lemma RunPlaced(s: State, steps: seq<Step>)
    requires Initial(s) && Possible(s, steps)
    ensures Inv(Steps(s, steps)) && Placed(Steps(s, steps))
  {
    InitialInv(s);
    StepsPlaced(s, steps);
  }

  /**
   Every functor handed to a post is in exactly one place: held by the one thread that waits to post it,
   destroyed because its post gave up, still in the ring, in one call of one thread, or called, once.
   */
  lemma CalledOnce(s: State, steps: seq<Step>, e: Event)
    requires Initial(s) && Possible(s, steps)
    ensures
      var now := Steps(s, steps);
      && (e in now.submitted <==> e in now.accepted || e in now.destroyed || HeldBySome(now, e))
      && !(e in now.accepted && e in now.destroyed) && !(e in now.accepted && HeldBySome(now, e))
      && !(e in now.destroyed && HeldBySome(now, e))
      && (forall t: Tid, u: Tid :: Held(At(now, t)) == Some(e) && Held(At(now, u)) == Some(e) ==> t == u)
    ensures
      var now := Steps(s, steps);
      && NoRepeats(now.accepted) && NoRepeats(now.called)
      && Valid(now.ring)
      && (e in now.accepted <==> e in Contents(now.ring) || e in now.taken)
      && !(e in Contents(now.ring) && e in now.taken)
      && (e in now.taken <==> e in now.called || BeingCalled(now, e))
      && (BeingCalled(now, e) ==> e !in now.called)
      && (forall t: Tid, i: nat, u: Tid, j: nat :: Calls(now, t, i, e) && Calls(now, u, j, e) ==> t == u && i == j)
  {
    RunPlaced(s, steps);
    QueuedOrTaken(Steps(s, steps), e);
  }

  lemma QueuedOrTaken(s: State, e: Event)
    requires Fifo(s) && NoRepeats(s.accepted)
    ensures e in s.accepted <==> e in Contents(s.ring) || e in s.taken
    ensures !(e in Contents(s.ring) && e in s.taken)
  {
    hide Valid, Contents;
    var c := Contents(s.ring);
    if j :| 0 <= j < |c| && c[j] == e {
      assert s.accepted[|s.taken| + j] == e;
      assert forall i :: 0 <= i < |s.taken| ==> s.taken[i] == s.accepted[i] != e;
    }
  }

  /**
   A blocking post never loses its functor: whatever happens after it, the thread holds the functor until
   it is accepted, so once the thread is past the post the functor has been accepted.
   */
  lemma PostIsNeverDropped(s: State, steps: seq<Step>, t: Tid, e: Event, more: seq<Step>)
    requires Initial(s) && Possible(s, steps) && Enabled(Steps(s, steps), Post(t, e))
    requires Possible(Do(Steps(s, steps), Post(t, e)), more)
    ensures
      var end := Steps(Do(Steps(s, steps), Post(t, e)), more);
      && e !in end.destroyed && (Held(At(end, t)) == Some(e) || e in end.accepted)
      && (At(end, t) == Free ==> e in end.accepted)
  {
    var now := Steps(s, steps);
    var s1 := Do(now, Post(t, e));
    RunPlaced(s, steps);
    StepKeepsInv(now, Post(t, e));
    StepPlaced(now, Post(t, e));
    PostOffers(now, t, e);
    StepsPlaced(s1, more);
    var end := Steps(s1, more);
    assert Held(At(s1, t)) == Some(e) || e in s1.accepted;
    assert Held(At(end, t)) == Some(e) || e in end.accepted;
    assert Held(At(end, t)) == Some(e) ==> HeldBySome(end, e);
  }

  lemma PostOffers(s: State, t: Tid, e: Event)
    requires Valid(s.ring)
    ensures var s1 := Do(s, Post(t, e)); Held(At(s1, t)) == Some(e) || e in s1.accepted
  {
    hide Put;
  }

  /**
   A post that does not block, from an interrupt or a thread, loses its functor exactly when it finds the
   ring full: then the functor is never accepted, and otherwise it never is destroyed, whatever happens after.
   */
  lemma IrqPostDropsIffFull(s: State, steps: seq<Step>, e: Event, more: seq<Step>)
    requires Initial(s) && Possible(s, steps) && Enabled(Steps(s, steps), IrqPost(e))
    requires Possible(Do(Steps(s, steps), IrqPost(e)), more)
    ensures
      var now := Steps(s, steps);
      var end := Steps(Do(now, IrqPost(e)), more);
      && (e in end.destroyed <==> now.ring.n == Size(now))
      && (e in end.accepted <==> now.ring.n < Size(now))
  {
    var now := Steps(s, steps);
    var s1 := Do(now, IrqPost(e));
    RunPlaced(s, steps);
    StepKeepsInv(now, IrqPost(e));
    StepPlaced(now, IrqPost(e));
    IrqPostFate(now, e);
    StepsPlaced(s1, more);
  }

  lemma IrqPostFate(s: State, e: Event)
    requires Valid(s.ring)
    ensures s.ring.n <= Size(s)
    ensures
      var s1 := Do(s, IrqPost(e));
      if s.ring.n == Size(s) then e in s1.destroyed else e in s1.accepted
  {
    hide Put;
  }
}
