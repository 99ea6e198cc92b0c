/**
 The ring of a fixed event queue and the callbacks stored in it. A callback owns at most
 one functor; moving from a callback leaves it empty.
 */
module EventRing {
  import opened Common

  type Event = nat
  type Tid = nat

  // ---------- The ring as a value ----------

  datatype Ring<T> = Ring(slots: seq<Option<T>>, put: nat, get: nat, n: nat)

  /** The slot `i` places after the next one to be taken. */
  function Position<T>(r: Ring<T>, i: nat): int {
    var x := r.get + i;
    if x < |r.slots| then x else x - |r.slots|
  }

  lemma PositionIsModulo<T>(r: Ring<T>, i: nat)
    requires r.get < |r.slots| && i <= |r.slots|
    ensures Position(r, i) == (r.get + i) % |r.slots|
  {
  }

  ghost predicate Valid<T>(r: Ring<T>) {
    && |r.slots| >= 1 && r.get < |r.slots| && r.n <= |r.slots|
    && r.put == Position(r, r.n)
    && (forall i :: 0 <= i < r.n ==> r.slots[Position(r, i)].Some?)
    && (forall i :: r.n <= i < |r.slots| ==> r.slots[Position(r, i)].None?)
  }

  ghost function Contents<T>(r: Ring<T>): seq<T>
    requires Valid(r)
  {
    seq(r.n, i requires 0 <= i < r.n => r.slots[Position(r, i)].value)
  }

  function Next(i: nat, size: nat): nat {
    if i + 1 >= size then 0 else i + 1
  }

  function Put<T>(r: Ring<T>, e: T): Ring<T>
    requires r.put < |r.slots|
  {
    Ring(r.slots[r.put := Some(e)], Next(r.put, |r.slots|), r.get, r.n + 1)
  }

  function Take<T>(r: Ring<T>): Ring<T>
    requires r.get < |r.slots| && r.n > 0
  {
    Ring(r.slots[r.get := None], r.put, Next(r.get, |r.slots|), r.n - 1)
  }

  /** Adding to a ring that is not full fills an empty slot and appends to the contents. */
  lemma PutAppends<T>(r: Ring<T>, e: T)
    requires Valid(r) && r.n < |r.slots|
    ensures r.put < |r.slots| && r.slots[r.put].None?
    ensures Valid(Put(r, e)) && Contents(Put(r, e)) == Contents(r) + [e]
  {
    var r' := Put(r, e);
    assert r.slots[Position(r, r.n)].None?;
    forall i | 0 <= i < |r.slots| && i != r.n
      ensures r'.slots[Position(r', i)] == r.slots[Position(r, i)]
    {
    }
  }

  /** Taking from a ring that is not empty removes the oldest of the contents. */
  lemma TakeRemoves<T>(r: Ring<T>)
    requires Valid(r) && r.n > 0
    ensures r.slots[r.get].Some?
    ensures Valid(Take(r)) && Contents(r) == [r.slots[r.get].value] + Contents(Take(r))
  {
    var r' := Take(r);
    assert Position(r, 0) == r.get && r.slots[Position(r, 0)].Some?;
    forall i | 0 <= i < |r.slots| - 1
      ensures r'.slots[Position(r', i)] == r.slots[Position(r, i + 1)]
    {
    }
    assert Position(r', |r.slots| - 1) == r.get;
  }

  lemma ValidBounds<T>(r: Ring<T>)
    requires Valid(r)
    ensures r.get < |r.slots| && r.n <= |r.slots| && |Contents(r)| == r.n
  {
  }

  // ---------- Callbacks and the ring in memory ----------

  class Callback {
    var functor: Option<Event>

    constructor ()
      ensures functor == None
    {
      functor := None;
    }

    constructor Holding(e: Event)
      ensures functor == Some(e)
    {
      functor := Some(e);
    }

    /** Move assignment: destroys what it held, and leaves the source inert. */
    method MoveFrom(rhs: Callback) returns (destroyed: Option<Event>)
      modifies this, rhs
      ensures if rhs == this then functor == old(functor) && destroyed == None
              else functor == old(rhs.functor) && rhs.functor == None && destroyed == old(functor)
    {
      if rhs == this { return None; }
      destroyed := functor;
      functor := rhs.functor;
      rhs.functor := None;
    }

    method Clear() returns (destroyed: Option<Event>)
      modifies this
      ensures functor == None && destroyed == old(functor)
    {
      destroyed := functor;
      functor := None;
    }
  }

  /** How many places after the next event to be taken a slot is. */
  function Age(size: nat, get: nat, i: nat): int {
    if i >= get then i - get else i - get + size
  }

  /** The slots in use, with what their callbacks hold; a callback that was posted may be empty. */
  ghost function InUse(functors: seq<Option<Event>>, get: nat, n: nat): (slots: seq<Option<Option<Event>>>)
    ensures |slots| == |functors|
  {
    seq(|functors|, i requires 0 <= i < |functors| => if Age(|functors|, get, i) < n then Some(functors[i]) else None)
  }

  /** The slots not in use hold no functor. */
  ghost predicate RestEmpty(functors: seq<Option<Event>>, get: nat, n: nat) {
    forall i :: 0 <= i < |functors| && Age(|functors|, get, i) >= n ==> functors[i] == None
  }

  lemma InUsePut(functors: seq<Option<Event>>, r: Ring<Option<Event>>, e: Option<Event>)
    requires Valid(r) && r.slots == InUse(functors, r.get, r.n) && RestEmpty(functors, r.get, r.n)
    requires r.n < |r.slots|
    ensures r.put < |functors| && functors[r.put] == None
    ensures InUse(functors[r.put := e], r.get, r.n + 1) == Put(r, e).slots
    ensures RestEmpty(functors[r.put := e], r.get, r.n + 1)
  {
    hide Contents;
    assert Age(|functors|, r.get, r.put) == r.n;
    assert forall i :: 0 <= i < |functors| && i != r.put ==> Age(|functors|, r.get, i) != r.n;
  }

  lemma InUseTake(functors: seq<Option<Event>>, r: Ring<Option<Event>>)
    requires Valid(r) && r.slots == InUse(functors, r.get, r.n) && RestEmpty(functors, r.get, r.n)
    requires r.n > 0
    ensures r.slots[r.get] == Some(functors[r.get])
    ensures InUse(functors[r.get := None], Next(r.get, |functors|), r.n - 1) == Take(r).slots
    ensures RestEmpty(functors[r.get := None], Next(r.get, |functors|), r.n - 1)
  {
    hide Contents;
    assert Age(|functors|, r.get, r.get) == 0;
    assert forall i :: 0 <= i < |functors| ==>
      Age(|functors|, Next(r.get, |functors|), i) == if i == r.get then |functors| - 1 else Age(|functors|, r.get, i) - 1;
  }

  class FixedEventQueue {
    const events: array<Callback>
    var put: nat
    var get: nat
    var n: nat
    var waitingGet: seq<Tid>
    var waitingPut: seq<Tid>

    constructor (size: nat)
      requires size >= 1
      ensures Ok() && n == 0 && events.Length == size && waitingGet == [] && waitingPut == []
      ensures fresh(events) && fresh(events[..])
    {
      var first := new Callback();
      events := new Callback[size](_ => first);
      put, get, n, waitingGet, waitingPut := 0, 0, 0, [], [];
      new;
      for i := 0 to size
        invariant events.Length == size && put == 0 && get == 0 && n == 0 && waitingGet == [] && waitingPut == []
        invariant fresh(events) && fresh(events[..])
        invariant forall j :: 0 <= j < i ==> events[j] != first && events[j].functor == None
        invariant forall j, k :: 0 <= j < k < i ==> events[j] != events[k]
        invariant forall j :: i <= j < size ==> events[j] == first
      {
        events[i] := new Callback();
      }
    }

    ghost predicate Distinct()
      reads this, events
    {
      forall i, j :: 0 <= i < j < events.Length ==> events[i] != events[j]
    }

    ghost function Functors(): seq<Option<Event>>
      reads events, events[..]
    {
      seq(events.Length, i reads events, events[..] requires 0 <= i < events.Length => events[i].functor)
    }

    ghost function Shape(): Ring<Option<Event>>
      reads this, events, events[..]
    {
      Ring(InUse(Functors(), get, n), put, get, n)
    }

    ghost predicate Ok()
      reads this, events, events[..]
    {
      Distinct() && Valid(Shape()) && RestEmpty(Functors(), get, n)
    }

    /** Moves an event into the next free slot. */
    method MoveIn(event: Callback)
      requires Ok() && event !in events[..] && n < events.Length
      modifies this`put, this`n, event, events[..]
      ensures Ok() && events[..] == old(events[..]) && old(put) < events.Length
      ensures event.functor == None && Shape() == Put(old(Shape()), old(event.functor))
      ensures Contents(Shape()) == old(Contents(Shape())) + [old(event.functor)]
    {
      hide Valid, Contents, InUse, RestEmpty;
      ghost var before, functors, e := Shape(), Functors(), event.functor;
      PutAppends(before, e);
      InUsePut(functors, before, e);
      var destroyed := events[put].MoveFrom(event);
      assert destroyed == None;
      put := put + 1;
      if put >= events.Length { put := 0; }
      n := n + 1;
      assert Functors() == functors[before.put := e];
    }

    /** Moves the oldest event out of its slot. */
    method MoveOut() returns (f: Callback)
      requires Ok() && n > 0
      modifies this`get, this`n, events[..]
      ensures Ok() && events[..] == old(events[..]) && old(get) < events.Length
      ensures fresh(f) && f.functor == old(Contents(Shape()))[0]
      ensures Shape() == Take(old(Shape())) && Contents(Shape()) == old(Contents(Shape()))[1..]
    {
      hide Valid, Contents, InUse, RestEmpty;
      ghost var before, functors := Shape(), Functors();
      ValidBounds(before);
      TakeRemoves(before);
      InUseTake(functors, before);
      f := new Callback();
      var destroyed := f.MoveFrom(events[get]);
      get := get + 1;
      if get >= events.Length { get := 0; }
      n := n - 1;
      assert Functors() == functors[before.get := None];
    }

    /** Adds an event unless the ring is full, and picks the getter to wake. */
    method IRQpostImpl(event: Callback) returns (ok: bool, woken: Option<Tid>)
      requires Ok() && event !in events[..]
      modifies this, event, events[..]
      ensures old(n) < events.Length ==> old(put) < events.Length
      ensures Ok() && events[..] == old(events[..]) && waitingPut == old(waitingPut)
      ensures ok <==> old(n) < events.Length
      ensures !ok ==> event.functor == old(event.functor) && Shape() == old(Shape()) &&
                      waitingGet == old(waitingGet) && woken == None
      ensures ok ==>
        && event.functor == None && Shape() == Put(old(Shape()), old(event.functor))
        && Contents(Shape()) == old(Contents(Shape())) + [old(event.functor)]
        && (if old(waitingGet) == [] then waitingGet == [] && woken == None
            else waitingGet == old(waitingGet)[1..] && woken == Some(old(waitingGet)[0]))
    {
      hide Valid, Contents, InUse, RestEmpty, Put;
      if n >= events.Length {
        ValidBounds(Shape());
        return false, None;
      }
      MoveIn(event);
      ok, woken := true, None;
      if waitingGet != [] {
        woken := Some(waitingGet[0]);
        waitingGet := waitingGet[1..];
      }
    }

    /**
     The post of an interrupt, and of a thread that does not block: the functor moves into a temporary,
     and dies with it when the ring is full.
     */
    method IRQpost(functor: Event) returns (ok: bool, woken: Option<Tid>, destroyed: Option<Event>)
      requires Ok()
      modifies this, events[..]
      ensures old(n) < events.Length ==> old(put) < events.Length
      ensures Ok() && events[..] == old(events[..]) && waitingPut == old(waitingPut)
      ensures ok <==> old(n) < events.Length
      ensures !ok ==> Shape() == old(Shape()) && waitingGet == old(waitingGet) && woken == None
      ensures ok ==>
        && Shape() == Put(old(Shape()), Some(functor))
        && Contents(Shape()) == old(Contents(Shape())) + [Some(functor)]
        && (if old(waitingGet) == [] then waitingGet == [] && woken == None
            else waitingGet == old(waitingGet)[1..] && woken == Some(old(waitingGet)[0]))
      ensures destroyed == if ok then None else Some(functor)
    {
      hide Valid, Contents, InUse, RestEmpty, Put;
      var event := new Callback.Holding(functor);
      ok, woken := IRQpostImpl(event);
      destroyed := event.Clear();
    }

    /** Takes the oldest event out of the ring, and picks the poster to wake. */
    method TakeEvent() returns (f: Callback, woken: Option<Tid>)
      requires Ok() && n > 0
      modifies this, events[..]
      ensures Ok() && events[..] == old(events[..]) && waitingGet == old(waitingGet)
      ensures fresh(f) && f.functor == old(Contents(Shape()))[0]
      ensures old(get) < events.Length && Shape() == Take(old(Shape()))
      ensures Contents(Shape()) == old(Contents(Shape()))[1..]
      ensures if old(waitingPut) == [] then waitingPut == [] && woken == None
              else waitingPut == old(waitingPut)[1..] && woken == Some(old(waitingPut)[0])
    {
      hide Valid, Contents, InUse, RestEmpty, Take;
      f := MoveOut();
      woken := None;
      if waitingPut != [] {
        woken := Some(waitingPut[0]);
        waitingPut := waitingPut[1..];
      }
    }
  }
}
