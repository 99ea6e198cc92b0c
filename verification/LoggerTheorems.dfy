/**
 What every run of the logging pipeline keeps: each record and each buffer is in exactly one
 place, nothing is written past its memory, and the bytes reach the file in the order in which
 the records were queued.
 */
module LoggerTheorems {
  import opened Common
  import opened Logger

  // ---------- Lists without repeats ----------

  lemma HeadRemoved(xs: seq<nat>)
    requires NoRepeats(xs) && xs != []
    ensures NoRepeats(xs[1..])
    ensures forall x: nat :: x in xs[1..] <==> x in xs && x != xs[0]
  {
    forall x: nat ensures x in xs[1..] <==> x in xs && x != xs[0] {
      assert xs == [xs[0]] + xs[1..];
      if x in xs[1..] {
        var i :| 0 <= i < |xs[1..]| && xs[1..][i] == x;
        assert xs[i + 1] == x && xs[0] != xs[i + 1];
      }
    }
  }

  lemma NewAppended(xs: seq<nat>, n: nat)
    requires NoRepeats(xs) && n !in xs
    ensures NoRepeats(xs + [n])
    ensures forall x: nat :: x in xs + [n] <==> x in xs || x == n
  {
  }

  // ---------- Records ----------

  lemma RecordTaken(c: Config, eq: seq<Rec>, full: seq<Rec>, at: map<Rec, RecPlace>,
                    callers: map<Tid, Caller>, packer: Packer, t: Tid)
    requires RecordsPlaced(c, eq, full, at, callers, packer)
    requires eq != [] && CallerIn(callers, t) == Some(Entered)
    ensures RecordsPlaced(c, eq[1..], full, at[eq[0] := WithCaller(t)], callers[t := Filling(eq[0])], packer)
  {
    var r := eq[0];
    HeadRemoved(eq);
    assert r in eq && PlaceOf(at, r) == InEmptyQueue;
    var at' := at[r := WithCaller(t)];
    var callers' := callers[t := Filling(r)];
    assert forall x: Rec :: PlaceOf(at', x) == if x == r then WithCaller(t) else PlaceOf(at, x);
    assert forall u: Tid :: CallerIn(callers', u) == if u == t then Some(Filling(r)) else CallerIn(callers, u);
    assert forall x: Rec :: !Holds(CallerIn(callers, t), x);
  }

  lemma RecordReturned(c: Config, eq: seq<Rec>, full: seq<Rec>, at: map<Rec, RecPlace>,
                       callers: map<Tid, Caller>, packer: Packer, t: Tid, r: Rec)
    requires RecordsPlaced(c, eq, full, at, callers, packer)
    requires Holds(CallerIn(callers, t), r)
    ensures RecordsPlaced(c, eq + [r], full, at[r := InEmptyQueue], callers - {t}, packer)
  {
    assert PlaceOf(at, r) == WithCaller(t);
    NewAppended(eq, r);
    var at' := at[r := InEmptyQueue];
    assert forall x: Rec :: PlaceOf(at', x) == if x == r then InEmptyQueue else PlaceOf(at, x);
    assert forall u: Tid :: CallerIn(callers - {t}, u) == if u == t then None else CallerIn(callers, u);
  }

  lemma RecordQueued(c: Config, eq: seq<Rec>, full: seq<Rec>, at: map<Rec, RecPlace>,
                     callers: map<Tid, Caller>, packer: Packer, t: Tid, r: Rec)
    requires RecordsPlaced(c, eq, full, at, callers, packer)
    requires Holds(CallerIn(callers, t), r)
    ensures RecordsPlaced(c, eq, full + [r], at[r := InFullQueue], callers - {t}, packer)
  {
    assert PlaceOf(at, r) == WithCaller(t);
    NewAppended(full, r);
    var at' := at[r := InFullQueue];
    assert forall x: Rec :: PlaceOf(at', x) == if x == r then InFullQueue else PlaceOf(at, x);
    assert forall u: Tid :: CallerIn(callers - {t}, u) == if u == t then None else CallerIn(callers, u);
  }

  lemma RecordPacked(c: Config, eq: seq<Rec>, full: seq<Rec>, at: map<Rec, RecPlace>,
                     callers: map<Tid, Caller>, packer: Packer, b: Buf)
    requires RecordsPlaced(c, eq, full, at, callers, packer)
    requires full != [] && !packer.Copied?
    ensures RecordsPlaced(c, eq, full[1..], at[full[0] := WithPacker], callers, Copied(b, full[0]))
  {
    var r := full[0];
    HeadRemoved(full);
    assert r in full && PlaceOf(at, r) == InFullQueue;
    var at' := at[r := WithPacker];
    assert forall x: Rec :: PlaceOf(at', x) == if x == r then WithPacker else PlaceOf(at, x);
  }

  lemma RecordRecycled(c: Config, eq: seq<Rec>, full: seq<Rec>, at: map<Rec, RecPlace>,
                       callers: map<Tid, Caller>, packer: Packer, packer': Packer)
    requires RecordsPlaced(c, eq, full, at, callers, packer)
    requires packer.Copied? && !packer'.Copied?
    ensures RecordsPlaced(c, eq + [packer.rec], full, at[packer.rec := InEmptyQueue], callers, packer')
  {
    var r := packer.rec;
    assert PlaceOf(at, r) == WithPacker;
    NewAppended(eq, r);
    var at' := at[r := InEmptyQueue];
    assert forall x: Rec :: PlaceOf(at', x) == if x == r then InEmptyQueue else PlaceOf(at, x);
  }

  /** A caller or the packer moves on without giving or taking a record. */
  lemma RecordsStay(c: Config, eq: seq<Rec>, full: seq<Rec>, at: map<Rec, RecPlace>,
                    callers: map<Tid, Caller>, callers': map<Tid, Caller>, packer: Packer, packer': Packer)
    requires RecordsPlaced(c, eq, full, at, callers, packer)
    requires packer == packer' || (!packer.Copied? && !packer'.Copied?)
    requires forall t: Tid, r: Rec :: Holds(CallerIn(callers', t), r) <==> Holds(CallerIn(callers, t), r)
    ensures RecordsPlaced(c, eq, full, at, callers', packer')
  {
  }

  // ---------- Buffers ----------

  lemma BufferTaken(c: Config, el: seq<Buf>, full: seq<Buf>, at: map<Buf, BufPlace>, writers: Option<Buf>)
    requires BuffersPlaced(c, el, full, at, None, writers)
    requires el != []
    ensures BuffersPlaced(c, el[1..], full, at[el[0] := PackersOwn], Some(el[0]), writers)
  {
    HeadRemoved(el);
    assert el[0] in el && BufPlaceOf(at, el[0]) == InEmptyList;
    var at' := at[el[0] := PackersOwn];
    assert forall x: Buf :: BufPlaceOf(at', x) == if x == el[0] then PackersOwn else BufPlaceOf(at, x);
  }

  lemma BufferFilled(c: Config, el: seq<Buf>, full: seq<Buf>, at: map<Buf, BufPlace>, b: Buf, writers: Option<Buf>)
    requires BuffersPlaced(c, el, full, at, Some(b), writers)
    ensures BuffersPlaced(c, el, full + [b], at[b := InFullList], None, writers)
  {
    assert BufPlaceOf(at, b) == PackersOwn;
    NewAppended(full, b);
    var at' := at[b := InFullList];
    assert forall x: Buf :: BufPlaceOf(at', x) == if x == b then InFullList else BufPlaceOf(at, x);
  }

  lemma BufferToWriter(c: Config, el: seq<Buf>, full: seq<Buf>, at: map<Buf, BufPlace>, packers: Option<Buf>)
    requires BuffersPlaced(c, el, full, at, packers, None)
    requires full != []
    ensures BuffersPlaced(c, el, full[1..], at[full[0] := WritersOwn], packers, Some(full[0]))
  {
    HeadRemoved(full);
    assert full[0] in full && BufPlaceOf(at, full[0]) == InFullList;
    var at' := at[full[0] := WritersOwn];
    assert forall x: Buf :: BufPlaceOf(at', x) == if x == full[0] then WritersOwn else BufPlaceOf(at, x);
  }

  lemma BufferRecycled(c: Config, el: seq<Buf>, full: seq<Buf>, at: map<Buf, BufPlace>, packers: Option<Buf>, b: Buf)
    requires BuffersPlaced(c, el, full, at, packers, Some(b))
    ensures BuffersPlaced(c, el + [b], full, at[b := InEmptyList], packers, None)
  {
    assert BufPlaceOf(at, b) == WritersOwn;
    NewAppended(el, b);
    var at' := at[b := InEmptyList];
    assert forall x: Buf :: BufPlaceOf(at', x) == if x == b then InEmptyList else BufPlaceOf(at, x);
  }

  // ---------- Bytes ----------

  lemma DatasOther(mem: map<nat, Data>, k: nat, d: Data, ks: seq<nat>)
    requires k !in ks
    ensures Datas(mem[k := d], ks) == Datas(mem, ks)
  {
    assert forall i :: 0 <= i < |ks| ==> ks[i] in ks;
  }

  lemma DatasAppend(mem: map<nat, Data>, ks: seq<nat>, k: nat)
    ensures Datas(mem, ks + [k]) == Datas(mem, ks) + [DataOf(mem, k)]
  {
  }

  lemma DatasTail(mem: map<nat, Data>, ks: seq<nat>)
    requires ks != []
    ensures Datas(mem, ks)[1..] == Datas(mem, ks[1..]) && Datas(mem, ks)[0] == DataOf(mem, ks[0])
  {
  }

  lemma OrderQueued(file: Data, pending: Data, waiting: seq<Data>, queued: seq<Data>, begun: nat, failed: nat, d: Data)
    requires InOrder(file, pending, waiting, queued, begun, failed)
    ensures InOrder(file, pending, waiting + [d], queued + [d], begun, failed)
  {
    hide Flat;
    assert (queued + [d])[begun..|queued| - |waiting|] == queued[begun..|queued| - |waiting|];
    assert (queued + [d])[|queued| - |waiting|..] == queued[|queued| - |waiting|..] + [d];
  }

  lemma OrderPacked(file: Data, pending: Data, waiting: seq<Data>, queued: seq<Data>, begun: nat, failed: nat)
    requires InOrder(file, pending, waiting, queued, begun, failed)
    requires waiting != []
    ensures InOrder(file, pending + waiting[0], waiting[1..], queued, begun, failed)
  {
    hide Flat;
    var n := |queued| - |waiting|;
    assert queued[n] == waiting[0] && queued[n + 1..] == waiting[1..];
    assert queued[begun..n + 1] == queued[begun..n] + [waiting[0]];
    FlatAppend(queued[begun..n], [waiting[0]]);
    FlatOne(waiting[0]);
    assert file + (pending + waiting[0]) == (file + pending) + waiting[0];
  }

  lemma OrderWritten(file: Data, data: Data, rest: Data, waiting: seq<Data>, queued: seq<Data>, begun: nat, failed: nat)
    requires InOrder(file, data + rest, waiting, queued, begun, failed)
    ensures InOrder(file + data, rest, waiting, queued, begun, failed)
  {
    hide Flat;
    assert file + (data + rest) == (file + data) + rest;
  }

  /** A new session begins where the records that wait begin. */
  lemma OrderBegun(file: Data, pending: Data, waiting: seq<Data>, queued: seq<Data>, begun: nat, failed: nat)
    requires InOrder(file, pending, waiting, queued, begun, failed)
    ensures InOrder([], [], waiting, queued, |queued| - |waiting|, 0)
  {
    assert queued[|queued| - |waiting|..|queued| - |waiting|] == [];
  }

  /** A buffer that goes to the end of the full list keeps its place in the order. */
  lemma ListFilled(mem: map<Buf, Data>, full: seq<Buf>, b: Buf)
    ensures Flat(Datas(mem, full + [b])) == Flat(Datas(mem, full)) + DataOf(mem, b)
  {
    hide Flat, Datas, DataOf;
    DatasAppend(mem, full, b);
    FlatAppend(Datas(mem, full), [DataOf(mem, b)]);
    FlatOne(DataOf(mem, b));
  }

  lemma ListTaken(mem: map<Buf, Data>, full: seq<Buf>)
    requires full != []
    ensures Flat(Datas(mem, full)) == DataOf(mem, full[0]) + Flat(Datas(mem, full[1..]))
  {
    DatasTail(mem, full);
  }

  lemma StaysWithin(mem: map<nat, Data>, k: nat, d: Data, size: nat)
    requires AllWithin(mem, size) && |d| <= size
    ensures AllWithin(mem[k := d], size)
  {
    var mem' := mem[k := d];
    forall i: nat ensures |DataOf(mem', i)| <= size {
      assert |DataOf(mem, i)| <= size;
    }
  }

  // ---------- Stop signals ----------

  lemma LateAppend(q: seq<Option<Rec>>, x: Option<Rec>)
    ensures Late(q + [x]) == if x.None? then 0 else 1 + Late(q)
  {
    assert (q + [x])[..|q|] == q;
  }

  lemma {:induction false} LateTail(q: seq<Option<Rec>>)
    requires q != []
    ensures Late(q[1..]) == if None in q then Late(q) else Late(q) - 1
    ensures None !in q ==> Late(q) == |q|
    decreases |q|
  {
    var n := |q| - 1;
    if q[n].Some? && n > 0 {
      assert q == q[..n] + [q[n]];
      assert q[1..][..n - 1] == q[..n][1..];
      LateTail(q[..n]);
    }
  }

  // ---------- Steps of a caller ----------

  lemma EnterKeepsInv(c: Config, s: State, t: Tid)
    requires Inv(c, s) && Enabled(c, s, Enter(t))
    ensures Inv(c, Do(c, s, Enter(t)))
  {
    hide RecordsPlaced, BuffersPlaced, Sizes, Streams, Signals;
    var s' := s.(callers := s.callers[t := Entered]);
    assert forall u: Tid :: CallerIn(s'.callers, u) == if u == t then Some(Entered) else CallerIn(s.callers, u);
    RecordsStay(c, s.emptyQueue, Somes(s.fullQueue), s.recAt, s.callers, s'.callers, s.packer, s.packer);
    OtherState(c, s, s');
  }

  lemma GetRecordKeepsInv(c: Config, s: State, t: Tid)
    requires Inv(c, s) && Enabled(c, s, GetRecord(t))
    ensures Inv(c, Do(c, s, GetRecord(t)))
  {
    hide RecordsPlaced, BuffersPlaced, Sizes, Streams, Signals, DoPacker, DoControl, DoWriter;
    var s' := Do(c, s, GetRecord(t));
    if s.emptyQueue == [] {
      assert forall u: Tid :: CallerIn(s'.callers, u) == if u == t then None else CallerIn(s.callers, u);
      RecordsStay(c, s.emptyQueue, Somes(s.fullQueue), s.recAt, s.callers, s'.callers, s.packer, s.packer);
    } else {
      RecordTaken(c, s.emptyQueue, Somes(s.fullQueue), s.recAt, s.callers, s.packer, t);
    }
    OtherState(c, s, s');
  }

  /** A step that only moves callers and records keeps the rest of the invariant. */
  lemma OtherState(c: Config, s: State, s': State)
    requires Inv(c, s)
    requires s' == s.(emptyQueue := s'.emptyQueue, recAt := s'.recAt, callers := s'.callers)
    requires RecordsPlaced(c, s'.emptyQueue, Somes(s'.fullQueue), s'.recAt, s'.callers, s'.packer)
    ensures Inv(c, s')
  {
    hide RecordsPlaced, BuffersPlaced, InOrder, Late, Somes;
  }

  lemma SerializeKeepsInv(c: Config, s: State, t: Tid, data: Data)
    requires Inv(c, s) && Enabled(c, s, Serialize(t, data))
    ensures Inv(c, Do(c, s, Serialize(t, data)))
  {
    hide RecordsPlaced, BuffersPlaced, InOrder, Late, Somes, AllWithin, Datas, Flat, DoPacker, DoControl, DoWriter;
    StaysWithin(s.recData, s.callers[t].rec, data, c.maxRecordSize);
    var s' := Do(c, s, Serialize(t, data));
    var r := s.callers[t].rec;
    assert forall u: Tid :: CallerIn(s'.callers, u) == if u == t then Some(Filled(r)) else CallerIn(s.callers, u);
    RecordsStay(c, s.emptyQueue, Somes(s.fullQueue), s.recAt, s.callers, s'.callers, s.packer, s.packer);
    HeldIsNotQueued(c, s, t);
    DatasOther(s.recData, r, data, Somes(s.fullQueue));
  }

  lemma HeldIsNotQueued(c: Config, s: State, t: Tid)
    requires Inv(c, s) && HasRecord(CallerAt(s, t))
    ensures CallerAt(s, t).value.rec !in Somes(s.fullQueue)
    ensures CallerAt(s, t).value.rec !in s.emptyQueue
  {
    hide BuffersPlaced, Sizes, Streams, Signals;
    var r := CallerAt(s, t).value.rec;
    assert Holds(CallerIn(s.callers, t), r);
    assert PlaceOf(s.recAt, r) == WithCaller(t);
  }

  lemma RejectKeepsInv(c: Config, s: State, t: Tid)
    requires Inv(c, s) && Enabled(c, s, Reject(t))
    ensures Inv(c, Do(c, s, Reject(t)))
  {
    hide RecordsPlaced, BuffersPlaced, Sizes, Streams, Signals, DoPacker, DoControl, DoWriter;
    RecordReturned(c, s.emptyQueue, Somes(s.fullQueue), s.recAt, s.callers, s.packer, t, s.callers[t].rec);
    OtherState(c, s, Do(c, s, Reject(t)));
  }

  lemma EnqueueKeepsInv(c: Config, s: State, t: Tid)
    requires Inv(c, s) && Enabled(c, s, Enqueue(t))
    ensures Inv(c, Do(c, s, Enqueue(t)))
  {
    hide RecordsPlaced, BuffersPlaced, AllWithin, InOrder, Late, Somes, Datas, DoPacker, DoControl, DoWriter;
    var r := s.callers[t].rec;
    SomesAppend(s.fullQueue, Some(r));
    RecordQueued(c, s.emptyQueue, Somes(s.fullQueue), s.recAt, s.callers, s.packer, t, r);
    DatasAppend(s.recData, Somes(s.fullQueue), r);
    OrderQueued(s.file, Pending(s), Waiting(s), s.queued, s.begun, s.writeFailed, DataOf(s.recData, r));
    LateAppend(s.fullQueue, Some(r));
  }

  // ---------- Steps of start and stop ----------

  /** While the logger is stopped, what waits is what was queued after the stop signal. */
  lemma StoppedWaiting(c: Config, s: State)
    requires Inv(c, s) && s.control == Stopped
    ensures s.mark <= |s.queued| && |Waiting(s)| == |s.queued| - s.mark
  {
    hide RecordsPlaced, BuffersPlaced, Sizes, Streams, Late, Somes;
    SomesFull(s.fullQueue);
    if s.fullQueue != [] { LateTail(s.fullQueue); } else { LateNone(); }
  }

  lemma LateNone()
    ensures Late([]) == 0
  {
  }

  lemma StartKeepsInv(c: Config, s: State)
    requires Inv(c, s) && Enabled(c, s, Start)
    ensures Inv(c, Do(c, s, Start))
  {
    hide RecordsPlaced, BuffersPlaced, AllWithin, InOrder, Late, Datas;
    RecordsStay(c, s.emptyQueue, Somes(s.fullQueue), s.recAt, s.callers, s.callers, s.packer, NeedsBuffer(false));
    StoppedWaiting(c, s);
    OrderBegun(s.file, Pending(s), Waiting(s), s.queued, s.begun, s.writeFailed);
    assert Pending(Do(c, s, Start)) == [] by { assert Datas(s.bufData, []) == []; }
  }

  lemma ControlKeepsInv(c: Config, s: State, step: Step)
    requires Inv(c, s) && Enabled(c, s, step)
    requires step.StopBegin? || step.StopPackerJoined? || step.StopReturn?
    ensures Inv(c, Do(c, s, step))
  {
    hide RecordsPlaced, BuffersPlaced, AllWithin, InOrder, Late, Somes, Datas;
  }

  lemma StopSignalKeepsInv(c: Config, s: State)
    requires Inv(c, s) && Enabled(c, s, StopSignal)
    ensures Inv(c, Do(c, s, StopSignal))
  {
    hide RecordsPlaced, BuffersPlaced, AllWithin, InOrder, Late, Somes, Datas;
    SomesAppend(s.fullQueue, None);
    LateAppend(s.fullQueue, None);
  }

  // ---------- Steps of the packer ----------

  lemma PackTakeKeepsOrder(c: Config, s: State)
    requires Inv(c, s) && Enabled(c, s, PackTake)
    ensures Streams(Do(c, s, PackTake))
  {
    hide RecordsPlaced, BuffersPlaced, Sizes, Signals, InOrder, Datas, Flat, Somes, DoCaller, DoControl, DoWriter;
    if s.emptyList != [] {
      EmptyIsElsewhere(c, s);
      DatasOther(s.bufData, s.emptyList[0], [], Somes(s.fullList));
    }
    assert Pending(Do(c, s, PackTake)) == Pending(s);
  }

  lemma PackTakeKeepsInv(c: Config, s: State)
    requires c.Sensible() && Inv(c, s) && Enabled(c, s, PackTake)
    ensures Inv(c, Do(c, s, PackTake))
  {
    hide RecordsPlaced, BuffersPlaced, Streams, Late, Somes, AllWithin, DoCaller, DoControl, DoWriter;
    var s' := Do(c, s, PackTake);
    RecordsStay(c, s.emptyQueue, Somes(s.fullQueue), s.recAt, s.callers, s.callers, s.packer, s'.packer);
    PackTakeKeepsOrder(c, s);
    if s.emptyList != [] {
      BufferTaken(c, s.emptyList, Somes(s.fullList), s.bufAt, WritersBuf(s.writer));
      StaysWithin(s.bufData, s.emptyList[0], [], c.bufferSize);
    }
  }

  lemma EmptyIsElsewhere(c: Config, s: State)
    requires Inv(c, s) && s.emptyList != []
    ensures s.emptyList[0] !in Somes(s.fullList) && WritersBuf(s.writer) != Some(s.emptyList[0])
  {
    hide RecordsPlaced, Sizes, Streams, Signals;
    assert s.emptyList[0] in s.emptyList;
  }

  lemma PackersIsElsewhere(c: Config, s: State)
    requires Inv(c, s) && PackersBuf(s.packer).Some?
    ensures PackersBuf(s.packer).value !in Somes(s.fullList) && PackersBuf(s.packer) != WritersBuf(s.writer)
  {
    hide RecordsPlaced, Sizes, Streams, Signals;
    assert BufPlaceOf(s.bufAt, PackersBuf(s.packer).value) == PackersOwn;
  }

  lemma PackGetSignalKeepsInv(c: Config, s: State)
    requires Inv(c, s) && Enabled(c, s, PackGet) && s.fullQueue[0].None?
    ensures Inv(c, Do(c, s, PackGet))
  {
    hide RecordsPlaced, BuffersPlaced, AllWithin, InOrder, Late, Datas, DoCaller, DoControl, DoWriter;
    assert s.fullQueue[0] in s.fullQueue;
    RecordsStay(c, s.emptyQueue, Somes(s.fullQueue), s.recAt, s.callers, s.callers, s.packer, Stopping(s.packer.buf));
    SomesFull(s.fullQueue);
    LateTail(s.fullQueue);
  }

  lemma PackGetKeepsOrder(c: Config, s: State)
    requires Inv(c, s) && Enabled(c, s, PackGet) && s.fullQueue[0].Some?
    ensures Streams(Do(c, s, PackGet))
  {
    hide RecordsPlaced, BuffersPlaced, Sizes, Signals, InOrder, Datas, Flat, DataOf, DoCaller, DoControl, DoWriter;
    var r, b := s.fullQueue[0].value, s.packer.buf;
    var s' := Do(c, s, PackGet);
    PackersIsElsewhere(c, s);
    DatasOther(s.bufData, b, DataOf(s'.bufData, b), Somes(s.fullList));
    DatasTail(s.recData, Somes(s.fullQueue));
    OrderPacked(s.file, Pending(s), Waiting(s), s.queued, s.begun, s.writeFailed);
    DataUpdated(s.bufData, b, DataOf(s.bufData, b) + DataOf(s.recData, r));
    assert Pending(s') == Pending(s) + DataOf(s.recData, r);
  }

  lemma DataUpdated(mem: map<nat, Data>, k: nat, d: Data)
    ensures forall i: nat :: DataOf(mem[k := d], i) == if i == k then d else DataOf(mem, i)
  {
    forall i: nat ensures DataOf(mem[k := d], i) == if i == k then d else DataOf(mem, i) {
    }
  }

  lemma PackGetKeepsSignals(c: Config, s: State)
    requires Inv(c, s) && Enabled(c, s, PackGet) && s.fullQueue[0].Some?
    ensures var s' := Do(c, s, PackGet); Signals(s') && Phases(s') && Sleeping(s')
  {
    hide RecordsPlaced, BuffersPlaced, Sizes, Streams, Late, Somes, DataOf, DoCaller, DoControl, DoWriter;
    SomesRest(s.fullQueue);
    SomesFull(s.fullQueue);
    LateTail(s.fullQueue);
  }

  lemma PackGetKeepsInv(c: Config, s: State)
    requires Inv(c, s) && Enabled(c, s, PackGet) && s.fullQueue[0].Some?
    ensures Inv(c, Do(c, s, PackGet))
  {
    hide RecordsPlaced, BuffersPlaced, Streams, Signals, Phases, Sleeping, Somes, DoCaller, DoControl, DoWriter;
    var r, b := s.fullQueue[0].value, s.packer.buf;
    StaysWithin(s.bufData, b, DataOf(s.bufData, b) + DataOf(s.recData, r), c.bufferSize);
    SomesRest(s.fullQueue);
    RecordPacked(c, s.emptyQueue, Somes(s.fullQueue), s.recAt, s.callers, s.packer, b);
    PackGetKeepsOrder(c, s);
    PackGetKeepsSignals(c, s);
  }

  lemma SameOrder(s: State, s': State)
    requires Streams(s) && PackersBuf(s.packer) == PackersBuf(s'.packer)
    requires s' == s.(emptyQueue := s'.emptyQueue, recAt := s'.recAt, packer := s'.packer)
    ensures Streams(s')
  {
    hide InOrder, Datas, Flat, Somes;
  }

  lemma PackGiveBackKeepsInv(c: Config, s: State)
    requires c.Sensible() && Inv(c, s) && Enabled(c, s, PackGiveBack)
    ensures Inv(c, Do(c, s, PackGiveBack))
  {
    hide RecordsPlaced, BuffersPlaced, Streams, Late, Somes, DoCaller, DoControl, DoWriter;
    SameOrder(s, Do(c, s, PackGiveBack));
    RecordRecycled(c, s.emptyQueue, Somes(s.fullQueue), s.recAt, s.callers, s.packer,
                   Do(c, s, PackGiveBack).packer);
  }

  /** The packer's buffer goes to the end of the full list; the rest of the pipeline stays. */
  lemma HandedOver(s: State, s': State)
    requires Streams(s) && PackersBuf(s.packer).Some? && PackersBuf(s'.packer).None?
    requires Somes(s'.fullList) == Somes(s.fullList) + [PackersBuf(s.packer).value]
    requires s'.writer == s.writer || (!s.writer.Writing? && !s'.writer.Writing?)
    requires s'.bufData == s.bufData && s'.recData == s.recData && s'.fullQueue == s.fullQueue
    requires s'.file == s.file && s'.queued == s.queued && s'.begun == s.begun && s'.writeFailed == s.writeFailed
    ensures Streams(s')
  {
    hide InOrder, Datas, Flat, Somes;
    ListFilled(s.bufData, Somes(s.fullList), PackersBuf(s.packer).value);
    assert Pending(s') == Pending(s);
  }

  lemma PackEndKeepsOrder(c: Config, s: State, step: Step)
    requires Inv(c, s) && Enabled(c, s, step)
    requires step.PackFlush? || step.PackStop?
    ensures Streams(Do(c, s, step))
    ensures Somes(Do(c, s, step).fullList) == Somes(s.fullList) + [s.packer.buf]
  {
    hide RecordsPlaced, BuffersPlaced, Sizes, Signals, Streams, Somes, DoCaller, DoControl, DoWriter;
    var b := s.packer.buf;
    SomesAppend(s.fullList, Some(b));
    SomesAppend(s.fullList + [Some(b)], None);
    HandedOver(s, Do(c, s, step));
  }

  lemma PackEndKeepsSignals(c: Config, s: State, step: Step)
    requires Inv(c, s) && Enabled(c, s, step)
    requires step.PackFlush? || step.PackStop?
    requires Somes(Do(c, s, step).fullList) == Somes(s.fullList) + [s.packer.buf]
    ensures var s' := Do(c, s, step); Signals(s') && Phases(s') && Sleeping(s')
  {
    hide RecordsPlaced, BuffersPlaced, Sizes, Streams, Late, Somes, DoCaller, DoControl, DoWriter;
  }

  lemma PackEndKeepsInv(c: Config, s: State, step: Step)
    requires Inv(c, s) && Enabled(c, s, step)
    requires step.PackFlush? || step.PackStop?
    ensures Inv(c, Do(c, s, step))
  {
    hide RecordsPlaced, BuffersPlaced, AllWithin, Streams, Signals, Phases, Sleeping, Somes, DoCaller, DoControl, DoWriter;
    var s' := Do(c, s, step);
    RecordsStay(c, s.emptyQueue, Somes(s.fullQueue), s.recAt, s.callers, s.callers, s.packer, s'.packer);
    BufferFilled(c, s.emptyList, Somes(s.fullList), s.bufAt, s.packer.buf, WritersBuf(s.writer));
    PackEndKeepsOrder(c, s, step);
    PackEndKeepsSignals(c, s, step);
  }

  lemma SpuriousKeepsInv(c: Config, s: State, step: Step)
    requires Inv(c, s) && Enabled(c, s, step)
    requires step.PackSpurious? || step.WriteSpurious?
    ensures Inv(c, Do(c, s, step))
  {
    hide RecordsPlaced, BuffersPlaced, AllWithin, InOrder, Late, Datas, Flat, Somes;
    RecordsStay(c, s.emptyQueue, Somes(s.fullQueue), s.recAt, s.callers, s.callers, s.packer, Do(c, s, step).packer);
  }

  // ---------- Steps of the writer ----------

  /** A stop signal at the front, when the only signal of the list is at its end. */
  lemma LoneSignal(list: seq<Option<Buf>>)
    requires list != [] && list[0].None?
    ensures |Somes(list)| < |list|
    ensures |list| == |Somes(list)| + 1 && list[|list| - 1].None? ==> |list| == 1
  {
    if |list| > 1 && list[|list| - 1].None? {
      assert list[1..][|list| - 2].None?;
      SomesFull(list[1..]);
    }
  }

  /** The writer takes the buffer at the front of the full list; the rest of the pipeline stays. */
  lemma TakenOver(s: State, s': State)
    requires Streams(s) && !s.writer.Writing? && s'.writer.Writing?
    requires Somes(s.fullList) == [s'.writer.buf] + Somes(s'.fullList)
    requires s' == s.(fullList := s'.fullList, bufAt := s'.bufAt, writer := s'.writer)
    ensures Streams(s')
  {
    hide InOrder, Datas, Flat, Somes;
    assert ([s'.writer.buf] + Somes(s'.fullList))[1..] == Somes(s'.fullList);
    ListTaken(s.bufData, Somes(s.fullList));
    assert Pending(s') == Pending(s);
  }

  lemma WriteTakeKeepsOrder(c: Config, s: State)
    requires Inv(c, s) && Enabled(c, s, WriteTake)
    ensures Streams(Do(c, s, WriteTake))
  {
    hide RecordsPlaced, BuffersPlaced, Sizes, Signals, InOrder, Datas, Flat, DoCaller, DoControl, DoPacker;
    if s.fullList != [] && s.fullList[0].Some? {
      TakenOver(s, Do(c, s, WriteTake));
    }
  }

  lemma WriteTakeKeepsSignals(c: Config, s: State)
    requires Inv(c, s) && Enabled(c, s, WriteTake)
    ensures var s' := Do(c, s, WriteTake); Signals(s') && Phases(s') && Sleeping(s')
  {
    hide RecordsPlaced, BuffersPlaced, Sizes, Streams, Late, Somes, DoCaller, DoControl, DoPacker;
    if s.fullList != [] {
      SomesRest(s.fullList);
      if s.fullList[0].None? {
        LoneSignal(s.fullList);
      }
    }
  }

  lemma SomesRest<T>(q: seq<Option<T>>)
    requires q != []
    ensures |Somes(q)| == |Somes(q[1..])| + (if q[0].Some? then 1 else 0)
    ensures q[0].Some? ==> Somes(q) == [q[0].value] + Somes(q[1..]) && Somes(q)[1..] == Somes(q[1..])
    ensures q[0].None? ==> Somes(q) == Somes(q[1..])
  {
    if q[0].Some? {
      assert ([q[0].value] + Somes(q[1..]))[1..] == Somes(q[1..]);
    }
  }

  lemma WriteTakeKeepsInv(c: Config, s: State)
    requires Inv(c, s) && Enabled(c, s, WriteTake)
    ensures Inv(c, Do(c, s, WriteTake))
  {
    hide RecordsPlaced, BuffersPlaced, AllWithin, Streams, Signals, DoCaller, DoControl, DoPacker;
    WriteTakeKeepsOrder(c, s);
    WriteTakeKeepsSignals(c, s);
    if s.fullList != [] && s.fullList[0].Some? {
      assert Somes(s.fullList)[1..] == Somes(s.fullList[1..]);
      BufferToWriter(c, s.emptyList, Somes(s.fullList), s.bufAt, PackersBuf(s.packer));
    }
  }

  lemma WriteKeepsInv(c: Config, s: State, written: nat)
    requires Inv(c, s) && Enabled(c, s, Write(written))
    ensures Inv(c, Do(c, s, Write(written)))
  {
    hide RecordsPlaced, BuffersPlaced, AllWithin, Late, Datas, Flat, Somes, DoCaller, DoControl, DoPacker;
    var data := DataOf(s.bufData, s.writer.buf);
    var s' := Do(c, s, Write(written));
    assert Pending(s) == data + Pending(s');
    if written == |data| {
      OrderWritten(s.file, data, Pending(s'), Waiting(s), s.queued, s.begun, s.writeFailed);
      assert data[..written] == data;
    }
  }

  lemma WriteGiveBackKeepsInv(c: Config, s: State)
    requires Inv(c, s) && Enabled(c, s, WriteGiveBack)
    ensures Inv(c, Do(c, s, WriteGiveBack))
  {
    hide RecordsPlaced, BuffersPlaced, AllWithin, InOrder, Late, Datas, Flat, Somes, DoCaller, DoControl, DoPacker;
    BufferRecycled(c, s.emptyList, Somes(s.fullList), s.bufAt, PackersBuf(s.packer), s.writer.buf);
    RecordsStay(c, s.emptyQueue, Somes(s.fullQueue), s.recAt, s.callers, s.callers, s.packer,
                Do(c, s, WriteGiveBack).packer);
  }

  // ---------- All runs ----------

  lemma StepKeepsInv(c: Config, s: State, step: Step)
    requires c.Sensible() && Inv(c, s) && Enabled(c, s, step)
    ensures Inv(c, Do(c, s, step))
  {
    hide Inv, Do;
    match step
    case Enter(t) => EnterKeepsInv(c, s, t);
    case GetRecord(t) => GetRecordKeepsInv(c, s, t);
    case Serialize(t, data) => SerializeKeepsInv(c, s, t, data);
    case Reject(t) => RejectKeepsInv(c, s, t);
    case Enqueue(t) => EnqueueKeepsInv(c, s, t);
    case Start => StartKeepsInv(c, s);
    case StopSignal => StopSignalKeepsInv(c, s);
    case PackTake => PackTakeKeepsInv(c, s);
    case PackGet =>
      if s.fullQueue[0].None? { PackGetSignalKeepsInv(c, s); } else { PackGetKeepsInv(c, s); }
    case PackGiveBack => PackGiveBackKeepsInv(c, s);
    case PackFlush => PackEndKeepsInv(c, s, step);
    case PackStop => PackEndKeepsInv(c, s, step);
    case PackSpurious => SpuriousKeepsInv(c, s, step);
    case WriteSpurious => SpuriousKeepsInv(c, s, step);
    case WriteTake => WriteTakeKeepsInv(c, s);
    case Write(written) => WriteKeepsInv(c, s, written);
    case WriteGiveBack => WriteGiveBackKeepsInv(c, s);
    case _ => ControlKeepsInv(c, s, step);
  }

  lemma InitialInv(c: Config)
    requires c.Sensible()
    ensures Inv(c, Initial(c))
  {
    hide Pool, InOrder, NoRepeats;
    PoolHolds(c.numRecords);
    PoolHolds(c.numBuffers);
    NothingInOrder();
  }

  lemma PoolHolds(n: nat)
    ensures NoRepeats(Pool(n)) && forall x: nat :: x in Pool(n) <==> x < n
  {
    forall x: nat ensures x in Pool(n) <==> x < n {
      if x < n { assert Pool(n)[x] == x; }
    }
  }

  lemma NothingInOrder()
    ensures InOrder([], [], [], [], 0, 0) && NoRepeats<nat>([])
  {
  }

  lemma {:induction false} RunKeepsInv(c: Config, s: State, steps: seq<Step>)
    requires c.Sensible() && Inv(c, s) && Possible(c, s, steps)
    ensures Inv(c, Run(c, s, steps))
    decreases |steps|
  {
    hide Inv, Do, Enabled;
    if steps != [] {
      StepKeepsInv(c, s, steps[0]);
      RunKeepsInv(c, Do(c, s, steps[0]), steps[1..]);
    }
  }

  /** The states that a run from the initial one can reach. */
  ghost predicate Reachable(c: Config, s: State) {
    exists steps: seq<Step> :: Possible(c, Initial(c), steps) && s == Run(c, Initial(c), steps)
  }

  lemma ReachableInv(c: Config, s: State)
    requires c.Sensible() && Reachable(c, s)
    ensures Inv(c, s)
  {
    hide Inv, Initial;
    var steps: seq<Step> :| Possible(c, Initial(c), steps) && s == Run(c, Initial(c), steps);
    InitialInv(c);
    RunKeepsInv(c, Initial(c), steps);
  }

  // ---------- Conservation ----------

  function AsSet(xs: seq<nat>): set<nat> {
    set x | x in xs
  }

  lemma {:induction false} SizeOfSet(xs: seq<nat>)
    requires NoRepeats(xs)
    ensures |AsSet(xs)| == |xs|
    decreases |xs|
  {
    if xs != [] {
      HeadRemoved(xs);
      SizeOfSet(xs[1..]);
      assert AsSet(xs) == AsSet(xs[1..]) + {xs[0]};
    }
  }

  function RecordsInHand(s: State): set<Rec> {
    set r | r in s.recAt && (s.recAt[r].WithCaller? || s.recAt[r].WithPacker?)
  }

  function BuffersInHand(s: State): set<Buf> {
    set b | b in s.bufAt && (s.bufAt[b].PackersOwn? || s.bufAt[b].WritersOwn?)
  }

  /** Two lists and a set that split the first `n` numbers have `n` elements together. */
  lemma ThreeParts(n: nat, xs: seq<nat>, ys: seq<nat>, zs: set<nat>)
    requires NoRepeats(xs) && NoRepeats(ys) && AsSet(xs) !! AsSet(ys) !! zs
    requires forall k: nat :: k in AsSet(xs) + AsSet(ys) + zs <==> k < n
    ensures |xs| + |ys| + |zs| == n
  {
    hide NoRepeats, Pool, AsSet;
    PoolHolds(n);
    SizeOfSet(xs);
    SizeOfSet(ys);
    SizeOfSet(Pool(n));
    PoolAsSet(n);
    assert AsSet(xs) + AsSet(ys) + zs == AsSet(Pool(n));
  }

  lemma PoolAsSet(n: nat)
    ensures forall k: nat :: k in AsSet(Pool(n)) <==> k < n
    ensures |Pool(n)| == n
  {
    PoolHolds(n);
  }

  lemma RecordsConserved(c: Config, s: State)
    requires Inv(c, s)
    ensures |s.emptyQueue| + |Somes(s.fullQueue)| + |RecordsInHand(s)| == c.numRecords
  {
    hide BuffersPlaced, Sizes, Streams, Signals, NoRepeats, Somes;
    var xs, ys, zs := s.emptyQueue, Somes(s.fullQueue), RecordsInHand(s);
    forall k: nat ensures k in AsSet(xs) + AsSet(ys) + zs <==> k < c.numRecords
      ensures !(k in xs && k in ys) && !(k in xs && k in zs) && !(k in ys && k in zs) {
      assert PlaceOf(s.recAt, k) == NoRecord <==> k >= c.numRecords;
    }
    ThreeParts(c.numRecords, xs, ys, zs);
  }

  lemma BuffersConserved(c: Config, s: State)
    requires Inv(c, s)
    ensures |s.emptyList| + |Somes(s.fullList)| + |BuffersInHand(s)| == c.numBuffers
  {
    hide RecordsPlaced, Sizes, Streams, Signals, NoRepeats, Somes;
    var xs, ys, zs := s.emptyList, Somes(s.fullList), BuffersInHand(s);
    forall k: nat ensures k in AsSet(xs) + AsSet(ys) + zs <==> k < c.numBuffers {
      assert BufPlaceOf(s.bufAt, k) == NoBuffer <==> k >= c.numBuffers;
    }
    ThreeParts(c.numBuffers, xs, ys, zs);
  }

  /** Returning a record never waits: `emptyQueue` has a place for every record somebody holds. */
  lemma EmptyPutNeverBlocks(c: Config, s: State, t: Tid)
    requires c.Sensible() && Reachable(c, s)
    ensures HasRecord(CallerAt(s, t)) || s.packer.Copied? ==> |s.emptyQueue| < c.numRecords
  {
    hide Reachable, BuffersPlaced, Sizes, Streams, Signals, NoRepeats;
    ReachableInv(c, s);
    RecordsConserved(c, s);
    if HasRecord(CallerAt(s, t)) {
      HeldIsInHand(c, s, t);
    } else if s.packer.Copied? {
      assert PlaceOf(s.recAt, s.packer.rec) == WithPacker;
      assert s.packer.rec in RecordsInHand(s);
    }
  }

  lemma HeldIsInHand(c: Config, s: State, t: Tid)
    requires Inv(c, s) && HasRecord(CallerAt(s, t))
    ensures CallerAt(s, t).value.rec in RecordsInHand(s)
  {
    hide BuffersPlaced, Sizes, Streams, Signals, NoRepeats;
    var r := CallerAt(s, t).value.rec;
    assert Holds(CallerIn(s.callers, t), r);
    assert PlaceOf(s.recAt, r) == WithCaller(t);
  }

  /** Queueing a record never waits while no stop signal is queued; a queued signal takes one place. */
  lemma FullPutNeverBlocks(c: Config, s: State, t: Tid)
    requires c.Sensible() && Reachable(c, s) && HasRecord(CallerAt(s, t))
    ensures |s.fullQueue| < c.numRecords <==> None !in s.fullQueue || |Somes(s.fullQueue)| < c.numRecords - 1
  {
    hide Reachable, RecordsPlaced, BuffersPlaced, Sizes, Streams, Somes, Late;
    ReachableInv(c, s);
    RecordsConserved(c, s);
    HeldIsInHand(c, s, t);
    SomesFull(s.fullQueue);
  }

  lemma NothingInHand(c: Config, s: State)
    requires Inv(c, s) && PackersBuf(s.packer) == None && WritersBuf(s.writer) == None
    ensures BuffersInHand(s) == {}
  {
    hide RecordsPlaced, Sizes, Streams, Signals, NoRepeats;
    forall b | b in s.bufAt ensures s.bufAt[b] != PackersOwn && s.bufAt[b] != WritersOwn {
      assert s.bufAt[b] == BufPlaceOf(s.bufAt, b);
    }
  }

  lemma NeverBothAsleep(c: Config, s: State)
    requires c.Sensible() && Reachable(c, s)
    ensures !(s.packer == NeedsBuffer(true) && s.writer == NeedsFull(true))
  {
    hide Reachable, RecordsPlaced, BuffersPlaced, Sizes, Streams, Signals;
    ReachableInv(c, s);
    BuffersConserved(c, s);
    if s.packer == NeedsBuffer(true) && s.writer == NeedsFull(true) {
      NothingInHand(c, s);
    }
  }

  /**
   Copying a record never passes the end of the buffer, and the unsigned difference that decides
   whether another record fits is the true one. Unless it stops, a buffer goes to the writer only when a
   largest record might not fit any more.
   */
  lemma PackingFits(c: Config, s: State)
    requires c.Sensible() && Reachable(c, s)
    ensures s.packer.Packing? && s.fullQueue != [] && s.fullQueue[0].Some? ==>
              |DataOf(s.bufData, s.packer.buf)| + |DataOf(s.recData, s.fullQueue[0].value)| <= c.bufferSize
    ensures s.packer.Copied? ==>
              var used := |DataOf(s.bufData, s.packer.buf)|;
              (c.bufferSize - used) % UINT_RANGE == c.bufferSize - used
    ensures s.packer.Full? ==> !HasRoom(c, |DataOf(s.bufData, s.packer.buf)|)
  {
    hide Reachable, RecordsPlaced, BuffersPlaced, Streams, Signals;
    ReachableInv(c, s);
  }

  // ---------- The file ----------

  /** Nothing is lost, doubled or reordered between `log` and the file of the session. */
  lemma FileInOrder(c: Config, s: State)
    requires c.Sensible() && Reachable(c, s) && s.writeFailed == 0
    ensures s.begun <= |s.queued|
    ensures s.file + Pending(s) + Flat(Waiting(s)) == Flat(s.queued[s.begun..])
  {
    hide Reachable, RecordsPlaced, BuffersPlaced, Sizes, Signals, Flat, Pending, Waiting;
    ReachableInv(c, s);
    var n := |s.queued| - |Waiting(s)|;
    assert s.queued[s.begun..] == s.queued[s.begun..n] + s.queued[n..];
    FlatAppend(s.queued[s.begun..n], s.queued[n..]);
  }

  /**
   When `stop` returns, the file of the session is what was queued since the session began and
   before the stop signal, and every buffer is empty again.
   */
  lemma StopDrains(c: Config, s: State)
    requires c.Sensible() && Reachable(c, s) && Enabled(c, s, StopReturn)
    ensures s.begun <= s.mark <= |s.queued|
    ensures s.writeFailed == 0 ==> s.file == Flat(s.queued[s.begun..s.mark])
    ensures s.fullList == [] && |s.emptyList| == c.numBuffers
  {
    hide Reachable, RecordsPlaced, BuffersPlaced, Sizes;
    ReachableInv(c, s);
    BuffersConserved(c, s);
    NothingInHand(c, s);
    SomesFull(s.fullQueue);
    if s.fullQueue != [] { LateTail(s.fullQueue); }
    assert Pending(s) == [];
    assert s.file + [] == s.file;
  }

  /** The next session begins where the last one ended, with the records that came too late for it. */
  lemma SessionsAbut(c: Config, s: State)
    requires c.Sensible() && Reachable(c, s) && Enabled(c, s, Start)
    ensures
      var s' := Do(c, s, Start);
      s'.file == [] && s'.begun == s.mark <= |s.queued| && Waiting(s') == s.queued[s.mark..]
  {
    hide Reachable, RecordsPlaced, BuffersPlaced, Sizes, Signals, Flat, Pending, Datas, Somes;
    ReachableInv(c, s);
    StoppedWaiting(c, s);
  }

  // ---------- Stopping always gets on ----------

  /** The packer can go on, sleeps, or waits for a record. */
  function PackersNext(s: State): Step {
    match s.packer
    case NeedsBuffer(_) => PackTake
    case Packing(_) => PackGet
    case Copied(_, _) => PackGiveBack
    case Full(_) => PackFlush
    case _ => PackStop
  }

  function WritersNext(s: State): Step {
    match s.writer
    case Writing(_) => Write(0)
    case Written(_) => WriteGiveBack
    case _ => WriteTake
  }

  /**
   Once `stop` was called it cannot hang: as long as it has not returned, the packer, the writer
   or `stop` itself can take a step, whatever the callers do.
   */
  lemma StopCannotHang(c: Config, s: State)
    requires c.Sensible() && Reachable(c, s)
    requires s.control != Stopped && s.control != Started
    ensures || Enabled(c, s, StopSignal) || Enabled(c, s, StopPackerJoined) || Enabled(c, s, StopReturn)
            || Enabled(c, s, PackersNext(s)) || Enabled(c, s, WritersNext(s))
  {
    hide Reachable, RecordsPlaced, BuffersPlaced, Sizes, Streams, Late;
    ReachableInv(c, s);
    NeverBothAsleep(c, s);
    if s.packer.Copied? { EmptyPutNeverBlocks(c, s, 0); }
    assert s.fullQueue == [] ==> |s.fullQueue| < c.numRecords;
  }

  predicate ByCaller(step: Step) {
    step.Enter? || step.GetRecord? || step.Serialize? || step.Reject? || step.Enqueue?
  }

  predicate ByItself(step: Step) {
    step.PackSpurious? || step.WriteSpurious?
  }

  function PackersRank(p: Packer): nat {
    match p
    case NeedsBuffer(asleep) => if asleep then 0 else 1
    case Copied(_, _) => 8
    case Full(_) => 7
    case Stopping(_) => 10
    case _ => 0
  }

  function WritersRank(w: Writer): nat {
    match w
    case NeedsFull(asleep) => if asleep then 0 else 1
    case Written(_) => 3
    case Writing(_) => 4
    case WriterOff => 0
  }

  /** What `stop` and the records before its signal still cost. */
  function Ahead(control: Control, q: seq<Option<Rec>>): int {
    (if control == JoinsPacker then 2 else if control == JoinsWriter then 1 else 0) + 11 * (|q| - Late(q))
  }

  /** How far `stop` is from returning once its signal is queued. */
  function Distance(s: State): int {
    Ahead(s.control, s.fullQueue) + PackersRank(s.packer) + 4 * |s.fullList| + WritersRank(s.writer)
  }

  lemma CallersDontDelay(c: Config, s: State, step: Step)
    requires Enabled(c, s, step) && ByCaller(step)
    ensures Distance(Do(c, s, step)) == Distance(s)
    ensures Do(c, s, step).control == s.control
  {
    hide Late, DoPacker, DoControl, DoWriter;
    if step.Enqueue? {
      LateAppend(s.fullQueue, Some(s.callers[step.t].rec));
    }
  }

  lemma PackGetGetsCloser(c: Config, s: State)
    requires Inv(c, s) && Enabled(c, s, PackGet)
    requires s.control == JoinsPacker || s.control == JoinsWriter
    ensures Distance(Do(c, s, PackGet)) < Distance(s)
    ensures Do(c, s, PackGet).control == s.control
  {
    hide RecordsPlaced, BuffersPlaced, Sizes, Streams, Late, Somes, DataOf, DoCaller, DoControl, DoWriter;
    SomesFull(s.fullQueue);
    LateTail(s.fullQueue);
  }

  lemma PackTakeGetsCloser(c: Config, s: State)
    requires Enabled(c, s, PackTake)
    ensures Distance(Do(c, s, PackTake)) < Distance(s)
    ensures Do(c, s, PackTake).control == s.control
  {
    hide Ahead, DoCaller, DoControl, DoWriter, WritersRank;
  }

  lemma PackGiveBackGetsCloser(c: Config, s: State)
    requires Enabled(c, s, PackGiveBack)
    ensures Distance(Do(c, s, PackGiveBack)) < Distance(s)
    ensures Do(c, s, PackGiveBack).control == s.control
  {
    hide Ahead, DataOf, DoCaller, DoControl, DoWriter, WritersRank;
  }

  lemma PackFlushGetsCloser(c: Config, s: State)
    requires Enabled(c, s, PackFlush)
    ensures Distance(Do(c, s, PackFlush)) < Distance(s)
    ensures Do(c, s, PackFlush).control == s.control
  {
    hide Ahead, DoCaller, DoControl, DoWriter;
  }

  lemma PackStopGetsCloser(c: Config, s: State)
    requires Enabled(c, s, PackStop)
    ensures Distance(Do(c, s, PackStop)) < Distance(s)
    ensures Do(c, s, PackStop).control == s.control
  {
    hide Ahead, DoCaller, DoControl, DoWriter;
  }

  lemma WriteTakeGetsCloser(c: Config, s: State)
    requires Enabled(c, s, WriteTake)
    ensures Distance(Do(c, s, WriteTake)) < Distance(s)
    ensures Do(c, s, WriteTake).control == s.control
  {
    hide Ahead, DoCaller, DoControl, DoPacker, PackersRank;
  }

  lemma WriteGetsCloser(c: Config, s: State, written: nat)
    requires Enabled(c, s, Write(written))
    ensures Distance(Do(c, s, Write(written))) < Distance(s)
    ensures Do(c, s, Write(written)).control == s.control
  {
    hide Ahead, DataOf, DoCaller, DoControl, DoPacker, PackersRank;
  }

  lemma WriteGiveBackGetsCloser(c: Config, s: State)
    requires Enabled(c, s, WriteGiveBack)
    ensures Distance(Do(c, s, WriteGiveBack)) < Distance(s)
    ensures Do(c, s, WriteGiveBack).control == s.control
  {
    hide Ahead, DoCaller, DoControl, DoPacker;
  }

  lemma JoinGetsCloser(c: Config, s: State, step: Step)
    requires Enabled(c, s, step) && (step.StopPackerJoined? || step.StopReturn?)
    ensures Distance(Do(c, s, step)) < Distance(s)
    ensures step.StopPackerJoined? ==> Do(c, s, step).control == JoinsWriter
  {
    hide Late, DoCaller, DoPacker, DoWriter;
  }

  lemma SpuriousDelaysByOne(c: Config, s: State, step: Step)
    requires Enabled(c, s, step) && ByItself(step)
    ensures Distance(Do(c, s, step)) == Distance(s) + 1
    ensures Do(c, s, step).control == s.control
  {
    hide Ahead, DataOf, DoCaller, DoControl;
  }

  /** Steps of the packer, the writer and `stop` itself, each of which is work. */
  predicate IsWork(step: Step) {
    !ByCaller(step) && !ByItself(step)
  }

  /**
   Every step of the packer, the writer and `stop` brings the end closer, callers cannot delay it,
   and a spurious wakeup delays it by one step.
   */
  lemma StopGetsCloser(c: Config, s: State, step: Step)
    requires Inv(c, s) && Enabled(c, s, step)
    requires s.control == JoinsPacker || s.control == JoinsWriter
    ensures ByCaller(step) ==> Distance(Do(c, s, step)) == Distance(s)
    ensures ByItself(step) ==> Distance(Do(c, s, step)) == Distance(s) + 1
    ensures IsWork(step) ==> Distance(Do(c, s, step)) < Distance(s)
    ensures step.StopReturn? || Do(c, s, step).control == JoinsPacker || Do(c, s, step).control == JoinsWriter
  {
    hide Inv, Late, Distance, Do;
    match step
    case PackSpurious => SpuriousDelaysByOne(c, s, step);
    case WriteSpurious => SpuriousDelaysByOne(c, s, step);
    case StopPackerJoined => JoinGetsCloser(c, s, step);
    case StopReturn => JoinGetsCloser(c, s, step);
    case PackTake => PackTakeGetsCloser(c, s);
    case PackGet => PackGetGetsCloser(c, s);
    case PackGiveBack => PackGiveBackGetsCloser(c, s);
    case PackFlush => PackFlushGetsCloser(c, s);
    case PackStop => PackStopGetsCloser(c, s);
    case WriteTake => WriteTakeGetsCloser(c, s);
    case Write(written) => WriteGetsCloser(c, s, written);
    case WriteGiveBack => WriteGiveBackGetsCloser(c, s);
    case _ => CallersDontDelay(c, s, step);
  }

  function WorkDone(steps: seq<Step>): nat
    decreases |steps|
  {
    if steps == [] then 0 else (if IsWork(steps[0]) then 1 else 0) + WorkDone(steps[1..])
  }

  /** How often a sleeper woke up for no reason. */
  function Wakeups(steps: seq<Step>): nat
    decreases |steps|
  {
    if steps == [] then 0 else (if ByItself(steps[0]) then 1 else 0) + Wakeups(steps[1..])
  }

  /**
   However many callers keep logging, and in whatever order the threads run, `stop` returns before
   packer, writer and `stop` have taken more steps than its distance, which is known when the signal
   is queued, and one more for each time a sleeper woke up for no reason.
   */
  lemma {:induction false} StopIsBounded(c: Config, s: State, steps: seq<Step>)
    requires c.Sensible() && Inv(c, s) && (s.control == JoinsPacker || s.control == JoinsWriter)
    requires Possible(c, s, steps) && StopReturn !in steps
    ensures WorkDone(steps) < Distance(s) + Wakeups(steps)
    decreases |steps|
  {
    hide Inv, Enabled, Do, Distance, ByCaller, ByItself;
    DistanceIsPositive(s);
    if steps != [] {
      StepKeepsInv(c, s, steps[0]);
      StopGetsCloser(c, s, steps[0]);
      StopIsBounded(c, Do(c, s, steps[0]), steps[1..]);
    }
  }

  lemma {:induction false} LateWithin(q: seq<Option<Rec>>)
    ensures Late(q) <= |q|
    decreases |q|
  {
    if q != [] { LateWithin(q[..|q| - 1]); }
  }

  lemma DistanceIsPositive(s: State)
    ensures s.control == JoinsPacker || s.control == JoinsWriter ==> Distance(s) >= 1
  {
    LateWithin(s.fullQueue);
  }
}
