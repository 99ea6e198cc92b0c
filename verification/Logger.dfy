/**
 The logging pipeline: callers fill records, a packer copies records into buffers, a writer
 writes buffers to the file. Records and buffers come from fixed pools and travel through
 two bounded queues and two lists; an empty entry is the signal to stop.
 */
module Logger {
  import opened Common

  type Tid = nat
  type Rec = nat
  type Buf = nat
  type Byte = b: int | 0 <= b < 256
  type Data = seq<Byte>

  datatype Config = Config(numRecords: nat, numBuffers: nat, maxRecordSize: nat, bufferSize: nat) {
    predicate Sensible() {
      numRecords >= 1 && numBuffers >= 1 && maxRecordSize <= bufferSize < UINT_RANGE
    }
  }

  /** `unsigned int` has 32 bits; a negative difference wraps. */
  const UINT_RANGE: nat := 0x1_0000_0000

  /** The sizes the logger is built with. */
  const BUILT: Config := Config(128, 4, 128, 4096)

  lemma BuiltIsSensible()
    ensures BUILT.Sensible()
  {
  }

  datatype Caller =
    | Entered                // saw that the logger is started
    | Filling(rec: Rec)      // got an empty record
    | Filled(rec: Rec)       // serialised into it

  datatype Packer =
    | PackerOff
    | NeedsBuffer(asleep: bool)
    | Packing(buf: Buf)                // room for one more record
    | Copied(buf: Buf, rec: Rec)       // record copied, to be given back
    | Full(buf: Buf)
    | Stopping(buf: Buf)               // got the stop signal

  datatype Writer =
    | WriterOff
    | NeedsFull(asleep: bool)
    | Writing(buf: Buf)
    | Written(buf: Buf)

  datatype Control = Stopped | Started | StopAsked | JoinsPacker | JoinsWriter

  datatype RecPlace = NoRecord | InEmptyQueue | InFullQueue | WithCaller(t: Tid) | WithPacker
  datatype BufPlace = NoBuffer | InEmptyList | InFullList | PackersOwn | WritersOwn

  datatype State = State(
    emptyQueue: seq<Rec>,
    fullQueue: seq<Option<Rec>>,
    recData: map<Rec, Data>,
    recAt: map<Rec, RecPlace>,
    emptyList: seq<Buf>,
    fullList: seq<Option<Buf>>,
    bufData: map<Buf, Data>,
    bufAt: map<Buf, BufPlace>,
    callers: map<Tid, Caller>,
    packer: Packer,
    writer: Writer,
    control: Control,
    file: Data,              // written since the last start
    writeFailed: nat,        // writes that failed since the last start
    queued: seq<Data>,       // what was put into fullQueue so far, in order
    begun: nat,              // how much of it went to the files of earlier sessions
    mark: nat)               // how much of it was there when the stop signal was put

  // ---------- Queues with stop signals ----------

  /** The entries of a queue that are not stop signals. */
  function Somes<T>(q: seq<Option<T>>): (xs: seq<T>)
    ensures |xs| <= |q|
  {
    if q == [] then [] else if q[0].Some? then [q[0].value] + Somes(q[1..]) else Somes(q[1..])
  }

  lemma {:induction false} SomesAppend<T>(q: seq<Option<T>>, x: Option<T>)
    ensures Somes(q + [x]) == if x.Some? then Somes(q) + [x.value] else Somes(q)
    decreases |q|
  {
    if q == [] {
      assert q + [x] == [x] && [x][1..] == [];
    } else {
      assert (q + [x])[0] == q[0] && (q + [x])[1..] == q[1..] + [x];
      SomesAppend(q[1..], x);
    }
  }

  lemma {:induction false} SomesFull<T>(q: seq<Option<T>>)
    ensures |Somes(q)| == |q| <==> None !in q
    decreases |q|
  {
    if q != [] { SomesFull(q[1..]); }
  }

  function DataOf(mem: map<nat, Data>, k: nat): Data {
    if k in mem then mem[k] else []
  }

  function Datas(mem: map<nat, Data>, ks: seq<nat>): (ds: seq<Data>)
    ensures |ds| == |ks|
  {
    seq(|ks|, i requires 0 <= i < |ks| => DataOf(mem, ks[i]))
  }

  function Flat(ds: seq<Data>): Data {
    if ds == [] then [] else ds[0] + Flat(ds[1..])
  }

  lemma {:induction false} FlatAppend(a: seq<Data>, b: seq<Data>)
    ensures Flat(a + b) == Flat(a) + Flat(b)
    decreases |a|
  {
    if a == [] {
      assert a + b == b;
    } else {
      assert (a + b)[0] == a[0] && (a + b)[1..] == a[1..] + b;
      FlatAppend(a[1..], b);
    }
  }

  lemma FlatOne(d: Data)
    ensures Flat([d]) == d
  {
    assert [d][1..] == [];
  }

  // ---------- Steps ----------

  datatype Step =
    | Start
    | Enter(t: Tid)
    | GetRecord(t: Tid)
    | Serialize(t: Tid, data: Data)
    | Reject(t: Tid)
    | Enqueue(t: Tid)
    | StopBegin
    | StopSignal
    | StopPackerJoined
    | StopReturn
    | PackTake
    | PackSpurious
    | PackGet
    | PackGiveBack
    | PackFlush
    | PackStop
    | WriteTake
    | WriteSpurious
    | Write(written: nat)
    | WriteGiveBack

  function CallerIn(callers: map<Tid, Caller>, t: Tid): Option<Caller> {
    if t in callers then Some(callers[t]) else None
  }

  function CallerAt(s: State, t: Tid): Option<Caller> {
    CallerIn(s.callers, t)
  }

  predicate HasRecord(c: Option<Caller>) {
    c.Some? && (c.value.Filling? || c.value.Filled?)
  }

  function PackersBuf(p: Packer): Option<Buf> {
    match p
    case Packing(buf) => Some(buf)
    case Copied(buf, _) => Some(buf)
    case Full(buf) => Some(buf)
    case Stopping(buf) => Some(buf)
    case _ => None
  }

  function WritersBuf(w: Writer): Option<Buf> {
    match w
    case Writing(buf) => Some(buf)
    case Written(buf) => Some(buf)
    case _ => None
  }

  /** A step can be taken; a put into a full queue, or a get from an empty one, has to wait. */
  predicate Enabled(c: Config, s: State, step: Step) {
    match step
    case Start => s.control == Stopped
    case Enter(t) => s.control == Started && CallerAt(s, t) == None
    case GetRecord(t) => CallerAt(s, t) == Some(Entered)
    case Serialize(t, data) =>
      CallerAt(s, t).Some? && CallerAt(s, t).value.Filling? && |data| <= c.maxRecordSize
    case Reject(t) =>
      CallerAt(s, t).Some? && CallerAt(s, t).value.Filling? && |s.emptyQueue| < c.numRecords
    case Enqueue(t) =>
      CallerAt(s, t).Some? && CallerAt(s, t).value.Filled? && |s.fullQueue| < c.numRecords
    case StopBegin => s.control == Started
    case StopSignal => s.control == StopAsked && |s.fullQueue| < c.numRecords
    case StopPackerJoined => s.control == JoinsPacker && s.packer == PackerOff
    case StopReturn => s.control == JoinsWriter && s.writer == WriterOff
    case PackTake => s.packer == NeedsBuffer(false)
    case PackSpurious => s.packer == NeedsBuffer(true)
    case PackGet => s.packer.Packing? && s.fullQueue != []
    case PackGiveBack => s.packer.Copied? && |s.emptyQueue| < c.numRecords
    case PackFlush => s.packer.Full?
    case PackStop => s.packer.Stopping?
    case WriteTake => s.writer == NeedsFull(false)
    case WriteSpurious => s.writer == NeedsFull(true)
    case Write(written) => s.writer.Writing? && written <= |DataOf(s.bufData, s.writer.buf)|
    case WriteGiveBack => s.writer.Written?
  }

  /** `cond.broadcast()`: whoever sleeps on the condition variable wakes up. */
  function Broadcast(s: State): State {
    s.(packer := if s.packer == NeedsBuffer(true) then NeedsBuffer(false) else s.packer,
       writer := if s.writer == NeedsFull(true) then NeedsFull(false) else s.writer)
  }

  function DoCaller(c: Config, s: State, step: Step): State {
    match step
    case Enter(t) => s.(callers := s.callers[t := Entered])
    case GetRecord(t) =>
      if s.emptyQueue == [] then s.(callers := s.callers - {t})
      else
        var r := s.emptyQueue[0];
        s.(emptyQueue := s.emptyQueue[1..], recAt := s.recAt[r := WithCaller(t)],
           callers := s.callers[t := Filling(r)])
    case Serialize(t, data) =>
      (match CallerAt(s, t)
       case Some(Filling(r)) => s.(recData := s.recData[r := data], callers := s.callers[t := Filled(r)])
       case _ => s)
    case Reject(t) =>
      (match CallerAt(s, t)
       case Some(Filling(r)) =>
         s.(emptyQueue := s.emptyQueue + [r], recAt := s.recAt[r := InEmptyQueue], callers := s.callers - {t})
       case _ => s)
    case Enqueue(t) =>
      (match CallerAt(s, t)
       case Some(Filled(r)) =>
         s.(fullQueue := s.fullQueue + [Some(r)], recAt := s.recAt[r := InFullQueue],
            callers := s.callers - {t}, queued := s.queued + [DataOf(s.recData, r)])
       case _ => s)
    case _ => s
  }

  function DoControl(s: State, step: Step): State {
    match step
    case Start =>
      s.(control := Started, packer := NeedsBuffer(false), writer := NeedsFull(false),
         file := [], writeFailed := 0, begun := s.mark)
    case StopBegin => s.(control := StopAsked)
    case StopSignal => s.(control := JoinsPacker, fullQueue := s.fullQueue + [None], mark := |s.queued|)
    case StopPackerJoined => s.(control := JoinsWriter)
    case StopReturn => s.(control := Stopped)
    case _ => s
  }

  function DoPacker(c: Config, s: State, step: Step): State {
    match (step, s.packer)
    case (PackTake, NeedsBuffer(_)) =>
      if s.emptyList == [] then s.(packer := NeedsBuffer(true))
      else
        var b := s.emptyList[0];
        s.(emptyList := s.emptyList[1..], bufAt := s.bufAt[b := PackersOwn],
           bufData := s.bufData[b := []], packer := Packing(b))
    case (PackSpurious, _) => s.(packer := NeedsBuffer(false))
    case (PackGet, Packing(b)) =>
      if s.fullQueue == [] then s
      else if s.fullQueue[0].None? then s.(fullQueue := s.fullQueue[1..], packer := Stopping(b))
      else
        var r := s.fullQueue[0].value;
        s.(fullQueue := s.fullQueue[1..], recAt := s.recAt[r := WithPacker],
           bufData := s.bufData[b := DataOf(s.bufData, b) + DataOf(s.recData, r)], packer := Copied(b, r))
    case (PackGiveBack, Copied(b, r)) =>
      s.(emptyQueue := s.emptyQueue + [r], recAt := s.recAt[r := InEmptyQueue],
         packer := if (c.bufferSize - |DataOf(s.bufData, b)|) % UINT_RANGE >= c.maxRecordSize
                   then Packing(b) else Full(b))
    case (PackFlush, Full(b)) =>
      Broadcast(s.(fullList := s.fullList + [Some(b)], bufAt := s.bufAt[b := InFullList],
                   packer := NeedsBuffer(false)))
    case (PackStop, Stopping(b)) =>
      Broadcast(s.(fullList := s.fullList + [Some(b)] + [None], bufAt := s.bufAt[b := InFullList],
                   packer := PackerOff))
    case _ => s
  }

  function DoWriter(s: State, step: Step): State {
    match (step, s.writer)
    case (WriteTake, NeedsFull(_)) =>
      if s.fullList == [] then s.(writer := NeedsFull(true))
      else if s.fullList[0].None? then s.(fullList := s.fullList[1..], writer := WriterOff)
      else
        var b := s.fullList[0].value;
        s.(fullList := s.fullList[1..], bufAt := s.bufAt[b := WritersOwn], writer := Writing(b))
    case (WriteSpurious, _) => s.(writer := NeedsFull(false))
    case (Write(k), Writing(b)) =>
      var data := DataOf(s.bufData, b);
      if k > |data| then s
      else s.(file := s.file + data[..k], writer := Written(b),
              writeFailed := s.writeFailed + (if k == |data| then 0 else 1))
    case (WriteGiveBack, Written(b)) =>
      Broadcast(s.(emptyList := s.emptyList + [b], bufAt := s.bufAt[b := InEmptyList], writer := NeedsFull(false)))
    case _ => s
  }

  function Do(c: Config, s: State, step: Step): State {
    if step.Start? || step.StopBegin? || step.StopSignal? || step.StopPackerJoined? || step.StopReturn?
    then DoControl(s, step)
    else if step.Enter? || step.GetRecord? || step.Serialize? || step.Reject? || step.Enqueue?
    then DoCaller(c, s, step)
    else if step.WriteTake? || step.WriteSpurious? || step.Write? || step.WriteGiveBack?
    then DoWriter(s, step)
    else DoPacker(c, s, step)
  }

  function Pool(n: nat): (xs: seq<nat>)
    ensures |xs| == n && forall i :: 0 <= i < n ==> xs[i] == i
  {
    seq(n, i requires 0 <= i < n => i)
  }

  /** Everything is in the two empty pools and nothing has been written. */
  function Initial(c: Config): State {
    State(Pool(c.numRecords), [], map[], map r | r in Pool(c.numRecords) :: InEmptyQueue,
          Pool(c.numBuffers), [], map[], map b | b in Pool(c.numBuffers) :: InEmptyList,
          map[], PackerOff, WriterOff, Stopped, [], 0, [], 0, 0)
  }

  predicate Possible(c: Config, s: State, steps: seq<Step>)
    decreases |steps|
  {
    steps == [] || (Enabled(c, s, steps[0]) && Possible(c, Do(c, s, steps[0]), steps[1..]))
  }

  function Run(c: Config, s: State, steps: seq<Step>): State
    decreases |steps|
  {
    if steps == [] then s else Run(c, Do(c, s, steps[0]), steps[1..])
  }

  // ---------- A buffer in memory ----------

  predicate HasRoom(c: Config, size: nat) {
    size + c.maxRecordSize <= c.bufferSize
  }

  class Buffer {
    const data: array<Byte>
    var size: nat

    ghost predicate Valid()
      reads this
    {
      size <= data.Length
    }

    ghost function Contents(): Data
      reads this, data
      requires Valid()
    {
      data[..size]
    }

    constructor (bufferSize: nat)
      ensures Valid() && Contents() == [] && data.Length == bufferSize && fresh(data)
    {
      data := new Byte[bufferSize](_ => 0);
      size := 0;
    }

    /** Copies a record to the end of the buffer. */
    method Append(record: Data)
      requires Valid() && size + |record| <= data.Length
      modifies this`size, data
      ensures Valid() && Contents() == old(Contents()) + record
    {
      for i := 0 to |record|
        invariant size == old(size) && data[..size] == old(data[..size])
        invariant data[size..size + i] == record[..i]
      {
        data[size + i] := record[i];
      }
      assert data[..size + |record|] == data[..size] + data[size..size + |record|];
      size := size + |record|;
    }

    /**
     The loop that packs the records the queue delivers, until a record of the largest size may not
     fit any more or the queue has none left. The room is tested with an unsigned difference.
     */
    method Pack(c: Config, records: seq<Data>) returns (taken: nat)
      requires c.Sensible() && data.Length == c.bufferSize
      requires forall i :: 0 <= i < |records| ==> |records[i]| <= c.maxRecordSize
      modifies this`size, data
      ensures Valid() && taken <= |records| && Contents() == Flat(records[..taken])
      ensures forall k :: 0 <= k < taken ==> HasRoom(c, |Flat(records[..k])|)
      ensures taken < |records| ==> !HasRoom(c, size)
    {
      hide Flat;
      size, taken := 0, 0;
      FlatNone();
      assert data[..0] == [] && records[..0] == [];
      var more := true;
      while more && taken < |records|
        invariant Valid() && taken <= |records| && Contents() == Flat(records[..taken])
        invariant forall k :: 0 <= k < taken ==> HasRoom(c, |Flat(records[..k])|)
        invariant more <==> HasRoom(c, size)
        decreases |records| - taken
      {
        assert records[..taken + 1] == records[..taken] + [records[taken]];
        FlatAppend(records[..taken], [records[taken]]);
        FlatOne(records[taken]);
        Append(records[taken]);
        taken := taken + 1;
        more := (c.bufferSize - size) % UINT_RANGE >= c.maxRecordSize;
      }
    }
  }

  lemma FlatNone()
    ensures Flat([]) == []
  {
  }

  // ---------- Invariant ----------

  function PlaceOf(at: map<Rec, RecPlace>, r: Rec): RecPlace {
    if r in at then at[r] else NoRecord
  }

  function BufPlaceOf(at: map<Buf, BufPlace>, b: Buf): BufPlace {
    if b in at then at[b] else NoBuffer
  }

  predicate Holds(c: Option<Caller>, r: Rec) {
    HasRecord(c) && c.value.rec == r
  }

  /** Each record is in exactly one place. */
  ghost predicate RecordsPlaced(c: Config, emptyQueue: seq<Rec>, full: seq<Rec>, at: map<Rec, RecPlace>,
                                callers: map<Tid, Caller>, packer: Packer) {
    && NoRepeats(emptyQueue)
    && NoRepeats(full)
    && (forall r: Rec :: PlaceOf(at, r) == NoRecord <==> r >= c.numRecords)
    && (forall r: Rec :: r in emptyQueue <==> PlaceOf(at, r) == InEmptyQueue)
    && (forall r: Rec :: r in full <==> PlaceOf(at, r) == InFullQueue)
    && (forall r: Rec, t: Tid :: Holds(CallerIn(callers, t), r) <==> PlaceOf(at, r) == WithCaller(t))
    && (forall r: Rec :: (packer.Copied? && packer.rec == r) <==> PlaceOf(at, r) == WithPacker)
  }

  /** Each buffer is in exactly one place. */
  ghost predicate BuffersPlaced(c: Config, emptyList: seq<Buf>, full: seq<Buf>, at: map<Buf, BufPlace>,
                                packers: Option<Buf>, writers: Option<Buf>) {
    && NoRepeats(emptyList)
    && NoRepeats(full)
    && (forall b: Buf :: BufPlaceOf(at, b) == NoBuffer <==> b >= c.numBuffers)
    && (forall b: Buf :: b in emptyList <==> BufPlaceOf(at, b) == InEmptyList)
    && (forall b: Buf :: b in full <==> BufPlaceOf(at, b) == InFullList)
    && (forall b: Buf :: packers == Some(b) <==> BufPlaceOf(at, b) == PackersOwn)
    && (forall b: Buf :: writers == Some(b) <==> BufPlaceOf(at, b) == WritersOwn)
  }

  ghost predicate AllWithin(mem: map<nat, Data>, size: nat) {
    forall k: nat :: |DataOf(mem, k)| <= size
  }

  /** Nothing is larger than the memory it is in, and a packer packs on exactly while it has room for a record. */
  ghost predicate Sizes(c: Config, s: State) {
    && AllWithin(s.recData, c.maxRecordSize)
    && AllWithin(s.bufData, c.bufferSize)
    && (s.packer.Packing? ==> HasRoom(c, |DataOf(s.bufData, s.packer.buf)|))
    && (s.packer.Full? ==> !HasRoom(c, |DataOf(s.bufData, s.packer.buf)|))
  }

  /** The bytes that left the record queue and are not in the file yet, oldest first. */
  function Pending(s: State): Data {
    (if s.writer.Writing? then DataOf(s.bufData, s.writer.buf) else [])
    + Flat(Datas(s.bufData, Somes(s.fullList)))
    + (match PackersBuf(s.packer) case Some(b) => DataOf(s.bufData, b) case None => [])
  }

  /**
   The waiting records are the last of those ever queued, and unless a write failed, the file and
   the pending bytes are all the others since the session began.
   */
  predicate InOrder(file: Data, pending: Data, waiting: seq<Data>, queued: seq<Data>, begun: nat, writeFailed: nat) {
    && begun + |waiting| <= |queued|
    && queued[|queued| - |waiting|..] == waiting
    && (writeFailed == 0 ==> file + pending == Flat(queued[begun..|queued| - |waiting|]))
  }

  function Waiting(s: State): seq<Data> {
    Datas(s.recData, Somes(s.fullQueue))
  }

  predicate Streams(s: State) {
    InOrder(s.file, Pending(s), Waiting(s), s.queued, s.begun, s.writeFailed)
  }

  /** How many entries follow the last stop signal. */
  function Late(q: seq<Option<Rec>>): nat
    decreases |q|
  {
    if q == [] || q[|q| - 1].None? then 0 else 1 + Late(q[..|q| - 1])
  }

  predicate SignalQueued(control: Control, packer: Packer) {
    control == JoinsPacker && !packer.Stopping? && !packer.PackerOff?
  }

  predicate SignalListed(control: Control, packer: Packer, writer: Writer) {
    control != Stopped && packer.PackerOff? && !writer.WriterOff?
  }

  /** The two stop signals: one of each per session, in its queue exactly while it has been put and not taken. */
  predicate Signals(s: State) {
    && |s.fullQueue| == |Somes(s.fullQueue)| + (if SignalQueued(s.control, s.packer) then 1 else 0)
    && |s.fullList| == |Somes(s.fullList)| + (if SignalListed(s.control, s.packer, s.writer) then 1 else 0)
    && (SignalListed(s.control, s.packer, s.writer) ==> s.fullList != [] && s.fullList[|s.fullList| - 1].None?)
    && (s.control != Started && s.control != StopAsked ==>
          s.mark <= |s.queued| && Late(s.fullQueue) == |s.queued| - s.mark)
  }

  /** Which thread can be where while the logger is started, stopping or stopped. */
  predicate Phases(s: State) {
    && (s.control == Stopped ==> s.packer.PackerOff? && s.writer.WriterOff?)
    && (s.control == Started || s.control == StopAsked ==> !s.packer.PackerOff? && !s.packer.Stopping?)
    && (s.control == JoinsWriter ==> s.packer.PackerOff?)
    && (s.writer.WriterOff? ==> s.packer.PackerOff? && s.fullList == [])
  }

  /** A sleeper has nothing to take. */
  predicate Sleeping(s: State) {
    && (s.packer == NeedsBuffer(true) ==> s.emptyList == [])
    && (s.writer == NeedsFull(true) ==> s.fullList == [])
  }

  ghost predicate Inv(c: Config, s: State) {
    && RecordsPlaced(c, s.emptyQueue, Somes(s.fullQueue), s.recAt, s.callers, s.packer)
    && BuffersPlaced(c, s.emptyList, Somes(s.fullList), s.bufAt, PackersBuf(s.packer), WritersBuf(s.writer))
    && Sizes(c, s)
    && Streams(s)
    && Signals(s)
    && Phases(s)
    && Sleeping(s)
  }
}
