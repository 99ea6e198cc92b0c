/**
 What callers gave the logger, told by the steps they took alone, and that this is what its files hold:
 nothing is changed, lost, doubled or reordered, and every call is accounted for.
 */
module LoggerLedger {
  import opened Common
  import opened Logger
  import opened LoggerTheorems

  /**
   `last` is what each thread serialised last, `logged` what was in hand at each `Enqueue`, in order;
   `begun` and `mark` say how much of it came before the session and before its stop signal.
   */
  datatype Ledger = Ledger(last: map<Tid, Data>, logged: seq<Data>, begun: nat, mark: nat)

  const NOTHING: Ledger := Ledger(map[], [], 0, 0)

  function LastOf(l: Ledger, t: Tid): Data {
    if t in l.last then l.last[t] else []
  }

  function Note(l: Ledger, step: Step): Ledger {
    match step
    case Serialize(t, data) => l.(last := l.last[t := data])
    case Enqueue(t) => l.(logged := l.logged + [LastOf(l, t)])
    case StopSignal => l.(mark := |l.logged|)
    case Start => l.(begun := l.mark)
    case _ => l
  }

  function Noted(l: Ledger, steps: seq<Step>): Ledger
    decreases |steps|
  {
    if steps == [] then l else Noted(Note(l, steps[0]), steps[1..])
  }

  /** A write that wrote less than its buffer. */
  predicate FallsShort(s: State, step: Step) {
    step.Write? && s.writer.Writing? && step.written < |DataOf(s.bufData, s.writer.buf)|
  }

  // ---------- The pipeline agrees with the ledger ----------

  /** A caller's record holds what the caller serialised. */
  ghost predicate Faithful(s: State, l: Ledger) {
    forall t: Tid, r: Rec :: CallerAt(s, t) == Some(Filled(r)) ==> DataOf(s.recData, r) == LastOf(l, t)
  }

  ghost predicate Agrees(s: State, l: Ledger) {
    s.queued == l.logged && s.begun == l.begun && s.mark == l.mark && Faithful(s, l)
  }

  lemma OneHolder(c: Config, s: State, t: Tid, u: Tid)
    requires Inv(c, s) && HasRecord(CallerAt(s, t)) && HasRecord(CallerAt(s, u)) && t != u
    ensures CallerAt(s, t).value.rec != CallerAt(s, u).value.rec
  {
    hide BuffersPlaced, Sizes, Streams, Signals;
    var r := CallerAt(s, t).value.rec;
    assert Holds(CallerIn(s.callers, t), r) && PlaceOf(s.recAt, r) == WithCaller(t);
    assert Holds(CallerIn(s.callers, u), CallerAt(s, u).value.rec);
  }

  lemma SerializeIs(c: Config, s: State, t: Tid, data: Data)
    requires Enabled(c, s, Serialize(t, data))
    ensures
      var s' := Do(c, s, Serialize(t, data));
      && HasRecord(CallerAt(s, t)) && s'.queued == s.queued && s'.begun == s.begun && s'.mark == s.mark
      && var r := CallerAt(s, t).value.rec;
         s'.recData == s.recData[r := data] && s'.callers == s.callers[t := Filled(r)]
  {
    hide DoControl, DoPacker, DoWriter;
  }

  lemma SerializeAgrees(c: Config, s: State, l: Ledger, t: Tid, data: Data)
    requires Inv(c, s) && Enabled(c, s, Serialize(t, data)) && Agrees(s, l)
    ensures Agrees(Do(c, s, Serialize(t, data)), Note(l, Serialize(t, data)))
  {
    hide Inv, Enabled, Do;
    SerializeIs(c, s, t, data);
    var s', l' := Do(c, s, Serialize(t, data)), Note(l, Serialize(t, data));
    forall u: Tid, r: Rec | CallerAt(s', u) == Some(Filled(r)) ensures DataOf(s'.recData, r) == LastOf(l', u) {
      if u != t {
        assert CallerAt(s, u) == Some(Filled(r));
        OneHolder(c, s, t, u);
      }
    }
  }

  lemma CallerAgrees(c: Config, s: State, l: Ledger, step: Step)
    requires Enabled(c, s, step) && Agrees(s, l) && ByCaller(step) && !step.Serialize?
    ensures Agrees(Do(c, s, step), Note(l, step))
  {
    hide DoControl, DoPacker, DoWriter;
    var s', l' := Do(c, s, step), Note(l, step);
    forall u: Tid, r: Rec | CallerAt(s', u) == Some(Filled(r)) ensures CallerAt(s, u) == Some(Filled(r)) {
    }
  }

  /** What the packer and the writer leave as it was. */
  predicate SameCallers(s: State, s': State) {
    && s'.callers == s.callers && s'.recData == s.recData && s'.queued == s.queued
    && s'.begun == s.begun && s'.mark == s.mark
  }

  lemma PackerTakes(c: Config, s: State)
    ensures SameCallers(s, DoPacker(c, s, PackTake)) && DoPacker(c, s, PackTake).writeFailed == s.writeFailed
  {
  }

  lemma PackerGets(c: Config, s: State)
    ensures SameCallers(s, DoPacker(c, s, PackGet)) && DoPacker(c, s, PackGet).writeFailed == s.writeFailed
  {
    hide DataOf;
  }

  lemma PackerGivesBack(c: Config, s: State)
    ensures SameCallers(s, DoPacker(c, s, PackGiveBack)) && DoPacker(c, s, PackGiveBack).writeFailed == s.writeFailed
  {
    hide DataOf;
  }

  lemma PackerEnds(c: Config, s: State, step: Step)
    requires step.PackFlush? || step.PackStop?
    ensures SameCallers(s, DoPacker(c, s, step)) && DoPacker(c, s, step).writeFailed == s.writeFailed
  {
  }

  lemma PackerIdles(c: Config, s: State, step: Step)
    requires !(step.PackTake? || step.PackGet? || step.PackGiveBack? || step.PackFlush? || step.PackStop?)
    ensures SameCallers(s, DoPacker(c, s, step)) && DoPacker(c, s, step).writeFailed == s.writeFailed
  {
  }

  lemma PackerLeaves(c: Config, s: State, step: Step)
    ensures SameCallers(s, DoPacker(c, s, step)) && DoPacker(c, s, step).writeFailed == s.writeFailed
  {
    hide DoPacker, SameCallers;
    match step
    case PackTake => PackerTakes(c, s);
    case PackGet => PackerGets(c, s);
    case PackGiveBack => PackerGivesBack(c, s);
    case PackFlush => PackerEnds(c, s, step);
    case PackStop => PackerEnds(c, s, step);
    case _ => PackerIdles(c, s, step);
  }

  lemma WriterLeaves(s: State, step: Step)
    ensures SameCallers(s, DoWriter(s, step))
    ensures DoWriter(s, step).writeFailed == s.writeFailed + (if FallsShort(s, step) then 1 else 0)
  {
    hide DoWriter, FallsShort, SameCallers;
    if !(step.WriteTake? || step.Write? || step.WriteGiveBack?) { WriterIdles(s, step); }
    match step
    case WriteTake => WriterTakes(s);
    case Write(k) => WriterWrites(s, k);
    case WriteGiveBack => WriterGivesBack(s);
    case _ =>
  }

  lemma WriterIdles(s: State, step: Step)
    requires !(step.WriteTake? || step.Write? || step.WriteGiveBack?)
    ensures SameCallers(s, DoWriter(s, step)) && !FallsShort(s, step) && DoWriter(s, step).writeFailed == s.writeFailed
  {
  }

  lemma WriterTakes(s: State)
    ensures SameCallers(s, DoWriter(s, WriteTake)) && DoWriter(s, WriteTake).writeFailed == s.writeFailed
    ensures !FallsShort(s, WriteTake)
  {
  }

  lemma WriterWrites(s: State, k: nat)
    ensures SameCallers(s, DoWriter(s, Write(k)))
    ensures DoWriter(s, Write(k)).writeFailed == s.writeFailed + (if FallsShort(s, Write(k)) then 1 else 0)
  {
    hide DataOf;
  }

  lemma WriterGivesBack(s: State)
    ensures SameCallers(s, DoWriter(s, WriteGiveBack)) && DoWriter(s, WriteGiveBack).writeFailed == s.writeFailed
    ensures !FallsShort(s, WriteGiveBack)
  {
  }

  lemma OthersAgree(c: Config, s: State, l: Ledger, step: Step)
    requires Enabled(c, s, step) && Agrees(s, l) && !ByCaller(step)
    ensures Agrees(Do(c, s, step), Note(l, step))
  {
    hide Enabled, DoCaller, DoPacker, DoWriter, Faithful;
    PackerLeaves(c, s, step);
    WriterLeaves(s, step);
    StaysFaithful(s, Do(c, s, step), l, Note(l, step));
  }

  lemma StaysFaithful(s: State, s': State, l: Ledger, l': Ledger)
    requires Faithful(s, l) && s'.callers == s.callers && s'.recData == s.recData && l'.last == l.last
    ensures Faithful(s', l')
  {
    assert forall t: Tid :: CallerAt(s', t) == CallerAt(s, t) && LastOf(l', t) == LastOf(l, t);
  }

  lemma {:induction false} RunAgrees(c: Config, s: State, l: Ledger, steps: seq<Step>)
    requires c.Sensible() && Inv(c, s) && Possible(c, s, steps) && Agrees(s, l)
    ensures Agrees(Run(c, s, steps), Noted(l, steps))
    decreases |steps|
  {
    hide Inv, Enabled, Do, Agrees, Note;
    if steps != [] {
      var step := steps[0];
      StepKeepsInv(c, s, step);
      if step.Serialize? {
        SerializeAgrees(c, s, l, step.t, step.data);
      } else if ByCaller(step) {
        CallerAgrees(c, s, l, step);
      } else {
        OthersAgree(c, s, l, step);
      }
      RunAgrees(c, Do(c, s, step), Note(l, step), steps[1..]);
    }
  }

  /** What the full queue was given is what the callers serialised, record by record, in every run. */
  lemma QueuedIsLogged(c: Config, steps: seq<Step>)
    requires c.Sensible() && Possible(c, Initial(c), steps)
    ensures
      var s, l := Run(c, Initial(c), steps), Noted(NOTHING, steps);
      s.queued == l.logged && s.begun == l.begun && s.mark == l.mark && Reachable(c, s)
  {
    hide Inv, Possible, Run, Noted;
    InitialInv(c);
    StartAgrees(c);
    RunAgrees(c, Initial(c), NOTHING, steps);
  }

  lemma StartAgrees(c: Config)
    ensures Agrees(Initial(c), NOTHING)
  {
  }

  // ---------- The file ----------

  /** How many writes of the session fell short. */
  function ShortWrites(c: Config, s: State, steps: seq<Step>, n: nat): nat
    decreases |steps|
  {
    if steps == [] then n
    else ShortWrites(c, Do(c, s, steps[0]), steps[1..],
                     if steps[0].Start? then 0 else n + (if FallsShort(s, steps[0]) then 1 else 0))
  }

  lemma StepFailures(c: Config, s: State, step: Step)
    ensures Do(c, s, step).writeFailed ==
            if step.Start? then 0 else s.writeFailed + (if FallsShort(s, step) then 1 else 0)
  {
    hide DoPacker, DoWriter;
    PackerLeaves(c, s, step);
    WriterLeaves(s, step);
  }

  lemma {:induction false} FailuresCounted(c: Config, s: State, steps: seq<Step>)
    ensures Run(c, s, steps).writeFailed == ShortWrites(c, s, steps, s.writeFailed)
    decreases |steps|
  {
    hide Do, FallsShort;
    if steps != [] {
      StepFailures(c, s, steps[0]);
      FailuresCounted(c, Do(c, s, steps[0]), steps[1..]);
    }
  }

  /**
   As long as no write of the session fell short, its file, the bytes on their way and the waiting records
   are together exactly what callers logged since the session began, in the order of their `Enqueue` steps.
   */
  lemma FileIsLogged(c: Config, steps: seq<Step>)
    requires c.Sensible() && Possible(c, Initial(c), steps) && ShortWrites(c, Initial(c), steps, 0) == 0
    ensures
      var s, l := Run(c, Initial(c), steps), Noted(NOTHING, steps);
      l.begun <= |l.logged| && s.file + Pending(s) + Flat(Waiting(s)) == Flat(l.logged[l.begun..])
  {
    hide Possible, Run, Noted, ShortWrites, Reachable, Pending, Waiting, Flat;
    QueuedIsLogged(c, steps);
    FailuresCounted(c, Initial(c), steps);
    FileInOrder(c, Run(c, Initial(c), steps));
  }

  /** When `stop` returns, the file is exactly what was logged since the session began and before the signal. */
  lemma StopWritesLogged(c: Config, steps: seq<Step>)
    requires c.Sensible() && Possible(c, Initial(c), steps)
    requires Enabled(c, Run(c, Initial(c), steps), StopReturn)
    ensures
      var s, l := Run(c, Initial(c), steps), Noted(NOTHING, steps);
      && l.begun <= l.mark <= |l.logged|
      && (ShortWrites(c, Initial(c), steps, 0) == 0 ==> s.file == Flat(l.logged[l.begun..l.mark]))
      && s.fullList == [] && |s.emptyList| == c.numBuffers
  {
    hide Possible, Run, Noted, ShortWrites, Reachable, Enabled, Flat;
    QueuedIsLogged(c, steps);
    FailuresCounted(c, Initial(c), steps);
    StopDrains(c, Run(c, Initial(c), steps));
  }

  // ---------- Calls ----------

  function Calls(steps: seq<Step>): nat {
    if steps == [] then 0 else (if steps[0].Enter? then 1 else 0) + Calls(steps[1..])
  }

  function TooLarge(steps: seq<Step>): nat {
    if steps == [] then 0 else (if steps[0].Reject? then 1 else 0) + TooLarge(steps[1..])
  }

  /** How many calls found the empty queue empty. */
  function Dropped(c: Config, s: State, steps: seq<Step>): nat
    decreases |steps|
  {
    if steps == [] then 0
    else (if steps[0].GetRecord? && s.emptyQueue == [] then 1 else 0) + Dropped(c, Do(c, s, steps[0]), steps[1..])
  }

  /** A call that ends with this step. */
  predicate Ends(s: State, step: Step) {
    step.Reject? || step.Enqueue? || (step.GetRecord? && s.emptyQueue == [])
  }

  lemma CallerComesAndGoes(c: Config, s: State, step: Step)
    requires Enabled(c, s, step) && ByCaller(step)
    ensures step.Enter? <==> step.t !in s.callers
    ensures Ends(s, step) ==> !step.Enter?
    ensures DoCaller(c, s, step).callers.Keys ==
            if Ends(s, step) then s.callers.Keys - {step.t} else s.callers.Keys + {step.t}
  {
    hide DataOf;
    match step
    case Enter(_) =>
    case GetRecord(_) =>
    case Serialize(_, _) =>
    case Reject(_) =>
    case Enqueue(_) =>
  }

  lemma OthersDontCall(c: Config, s: State, step: Step)
    requires !ByCaller(step)
    ensures Do(c, s, step).callers == s.callers
  {
    hide DoPacker, DoWriter, DoCaller, FallsShort;
    PackerLeaves(c, s, step);
    WriterLeaves(s, step);
  }

  lemma KeyCount(before: set<Tid>, t: Tid)
    ensures |before - {t}| == |before| - (if t in before then 1 else 0)
    ensures |before + {t}| == |before| + (if t in before then 0 else 1)
  {
  }

  lemma StepAccounted(c: Config, s: State, step: Step)
    requires Enabled(c, s, step)
    ensures |s.callers| + (if step.Enter? then 1 else 0) ==
            |Do(c, s, step).callers| + (if Ends(s, step) then 1 else 0)
  {
    hide Enabled, DoPacker, DoWriter, DoControl, DoCaller;
    var before, after := s.callers, Do(c, s, step).callers;
    if ByCaller(step) {
      CallerComesAndGoes(c, s, step);
      KeyCount(before.Keys, step.t);
      assert |before| == |before.Keys| && |after| == |after.Keys|;
    } else {
      OthersDontCall(c, s, step);
    }
  }

  lemma {:induction false} RunAccounted(c: Config, s: State, l: Ledger, steps: seq<Step>)
    requires Possible(c, s, steps)
    ensures |s.callers| + |l.logged| + Calls(steps) ==
            |Run(c, s, steps).callers| + |Noted(l, steps).logged| + TooLarge(steps) + Dropped(c, s, steps)
    decreases |steps|
  {
    hide Enabled, Do;
    if steps != [] {
      StepAccounted(c, s, steps[0]);
      RunAccounted(c, Do(c, s, steps[0]), Note(l, steps[0]), steps[1..]);
    }
  }

  /**
   In every run, every call of `log` that saw the logger started has been queued, refused as too large,
   dropped because it found the empty queue empty, or is still under way.
   */
  lemma CallsAccounted(c: Config, steps: seq<Step>)
    requires c.Sensible() && Possible(c, Initial(c), steps)
    ensures
      var s := Run(c, Initial(c), steps);
      Calls(steps) == |s.queued| + TooLarge(steps) + Dropped(c, Initial(c), steps) + |s.callers|
  {
    hide Possible, Run, Noted, Calls, TooLarge, Dropped, Reachable;
    QueuedIsLogged(c, steps);
    RunAccounted(c, Initial(c), NOTHING, steps);
  }

  /** A call is dropped if and only if every record is queued or in somebody's hands. */
  lemma DroppedIff(c: Config, s: State, t: Tid)
    requires c.Sensible() && Reachable(c, s) && Enabled(c, s, GetRecord(t))
    ensures
      var s' := Do(c, s, GetRecord(t));
      && (CallerAt(s', t) == None <==> |Somes(s.fullQueue)| + |RecordsInHand(s)| == c.numRecords)
      && (CallerAt(s', t) == None ==> s' == s.(callers := s.callers - {t}))
      && (CallerAt(s', t) != None ==> s.emptyQueue != [] && CallerAt(s', t) == Some(Filling(s.emptyQueue[0])))
  {
    hide Reachable, Inv, Somes, RecordsInHand, DoPacker, DoWriter, DoControl;
    ReachableInv(c, s);
    RecordsConserved(c, s);
  }
}
