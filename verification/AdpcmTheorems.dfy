/**
 What the codec guarantees: encoder and decoder stay in lockstep, each code bounds
 the error, and a constant input is reproduced exactly after a fixed delay.
 */
module AdpcmTheorems {
  import opened Adpcm

  function Send(s: State, sample: Sample): State {
    Receive(s, CodeFor(StepSize(s.index), s.predicted, sample))
  }

  // ---------- Lockstep ----------

  /** The codes an encoder in state `s` sends for a stream of samples. */
  function Codes(s: State, samples: seq<Sample>): seq<Code>
    decreases |samples|
  {
    if samples == [] then []
    else
      var code := CodeFor(StepSize(s.index), s.predicted, samples[0]);
      [code] + Codes(Receive(s, code), samples[1..])
  }

  /** What a decoder in state `s` makes of a stream of codes. */
  function Decoded(s: State, codes: seq<Code>): (out: seq<Sample>)
    ensures |out| == |codes|
    decreases |codes|
  {
    if codes == [] then []
    else [Receive(s, codes[0]).predicted] + Decoded(Receive(s, codes[0]), codes[1..])
  }

  function After(s: State, codes: seq<Code>): State
    decreases |codes|
  {
    if codes == [] then s else After(Receive(s, codes[0]), codes[1..])
  }

  lemma {:induction false} AfterAppend(s: State, codes: seq<Code>, code: Code)
    ensures After(s, codes + [code]) == Receive(After(s, codes), code)
    ensures Decoded(s, codes + [code]) == Decoded(s, codes) + [Receive(After(s, codes), code).predicted]
    decreases |codes|
  {
    hide Receive;
    if codes == [] {
      assert [] + [code] == [code] && [code][1..] == [];
    } else {
      assert (codes + [code])[0] == codes[0] && (codes + [code])[1..] == codes[1..] + [code];
      AfterAppend(Receive(s, codes[0]), codes[1..], code);
    }
  }

  lemma {:induction false} CodesAppend(s: State, samples: seq<Sample>, sample: Sample)
    ensures
      var end := After(s, Codes(s, samples));
      Codes(s, samples + [sample]) == Codes(s, samples) + [CodeFor(StepSize(end.index), end.predicted, sample)]
    decreases |samples|
  {
    hide Receive, CodeFor, StepSize;
    if samples == [] {
      assert [] + [sample] == [sample] && [sample][1..] == [];
    } else {
      assert (samples + [sample])[0] == samples[0] && (samples + [sample])[1..] == samples[1..] + [sample];
      var code := CodeFor(StepSize(s.index), s.predicted, samples[0]);
      var rest := Codes(Receive(s, code), samples[1..]);
      assert Codes(s, samples) == [code] + rest && ([code] + rest)[1..] == rest;
      CodesAppend(Receive(s, code), samples[1..], sample);
    }
  }

  /**
   An encoder and a decoder that start in the same state are in the same state after every
   sample, and the decoder's output is exactly what the encoder predicts.
   */
  method Transmit(encoder: Encoder, decoder: Decoder, samples: seq<Sample>)
    returns (codes: seq<Code>, heard: seq<Sample>, predictions: seq<Sample>)
    requires encoder.Valid() && decoder.Valid() && encoder.Current() == decoder.Current()
    modifies encoder, decoder
    ensures encoder.Valid() && decoder.Valid() && encoder.Current() == decoder.Current()
    ensures codes == Codes(old(encoder.Current()), samples) && heard == predictions
    ensures heard == Decoded(old(decoder.Current()), codes)
    ensures decoder.Current() == After(old(decoder.Current()), codes)
  {
    hide Receive, IsCode, CodeFor, StepSize;
    codes, heard, predictions := [], [], [];
    ghost var start := decoder.Current();
    for i := 0 to |samples|
      invariant encoder.Valid() && decoder.Valid() && encoder.Current() == decoder.Current()
      invariant codes == Codes(start, samples[..i]) && heard == predictions
      invariant heard == Decoded(start, codes) && decoder.Current() == After(start, codes)
    {
      ghost var before := encoder.Current();
      var code := encoder.Encode(samples[i]);
      CodeUnique(StepSize(before.index), before.predicted, samples[i], code);
      var sample := decoder.Decode(code);
      AfterAppend(start, codes, code);
      assert samples[..i + 1] == samples[..i] + [samples[i]];
      CodesAppend(start, samples[..i], samples[i]);
      codes, heard, predictions := codes + [code], heard + [sample], predictions + [encoder.predsample];
    }
    assert samples[..|samples|] == samples;
  }

  // ---------- The error of one step ----------

  function Error(predicted: Sample, sample: Sample): nat {
    Abs(sample - predicted)
  }

  lemma LevelOfSeven(step: nat)
    ensures Level(step, 7) == step + step / 2 + step / 4
    ensures Level(step, 7) + step / 8 <= 2 * step
  {
  }

  /** The level found leaves little over, unless it is the highest one. */
  lemma LevelRemainder(step: nat, diff: nat, m: nat)
    requires IsMagnitude(step, diff, m) && diff < 2 * step
    ensures diff - Level(step, m) <= step / 4 + 1
    ensures step / 4 <= 2 * (step / 8) + 1
  {
    if m < 7 {
      GapBetweenLevels(step, m);
    }
  }

  lemma GapBetweenLevels(step: nat, m: nat)
    requires m < 7
    ensures Level(step, m + 1) - Level(step, m) <= step / 4 + 2
  {
    if m == 0 {} else if m == 1 {} else if m == 2 {} else if m == 3 {} else if m == 4 {} else if m == 5 {} else {}
  }

  /** A prediction that lands past the 16-bit range is pulled back towards the sample. */
  lemma ClampHelps(x: int, sample: Sample)
    ensures Abs(sample - Clamp(x)) <= Abs(sample - x)
    ensures -32768 <= x <= 32767 ==> Clamp(x) == x
  {
  }

  lemma QuantisationError(step: nat, predicted: Sample, sample: Sample)
    ensures
      var code := CodeFor(step, predicted, sample);
      var after := Moved(predicted, step, code);
      var before := Error(predicted, sample);
      if before < 2 * step then Error(after, sample) <= step / 8 + 2
      else
        && Magnitude(code) == 7
        && Error(after, sample) == before - (step + step / 2 + step / 4 + step / 8)
        && (predicted <= after <= sample || sample <= after <= predicted)
  {
    var code := CodeFor(step, predicted, sample);
    var m, before := Magnitude(code), Error(predicted, sample);
    var delta := Level(step, m) + step / 8;
    ClampHelps(if Bit8(code) then predicted - delta else predicted + delta, sample);
    if before < 2 * step {
      LevelRemainder(step, before, m);
    } else {
      LevelOfSeven(step);
      TopLevel(step, before, m);
    }
  }

  lemma TopLevel(step: nat, diff: nat, m: nat)
    requires IsMagnitude(step, diff, m) && diff >= 2 * step
    ensures m == 7
  {
  }

  // ---------- Convergence on a constant input ----------

  predicate Near(s: State, x: Sample) {
    Error(s.predicted, x) < 2 * StepSize(s.index)
  }

  /** The error is below one step, so the next step is smaller. */
  predicate Tight(s: State, x: Sample) {
    Error(s.predicted, x) < StepSize(s.index)
  }

  lemma IndexMoves(i: Index, code: Code)
    ensures Magnitude(code) < 4 ==> NextIndex(i, code) == if i == 0 then 0 else i - 1
    ensures Magnitude(code) >= 4 ==> NextIndex(i, code) >= i
    ensures Magnitude(code) == 7 ==> NextIndex(i, code) == if i + 8 > 88 then 88 else i + 8
  {
  }

  /** How many of the three quarter levels above the step a difference reaches. */
  function QuartersAbove(step: nat, diff: nat): nat {
    if diff >= step + step / 2 + step / 4 then 3
    else if diff >= step + step / 2 then 2
    else if diff >= step + step / 4 then 1
    else 0
  }

  lemma LargeDifference(step: nat, diff: nat, m: nat)
    requires IsMagnitude(step, diff, m) && diff >= step
    ensures m == 4 + QuartersAbove(step, diff)
  {
  }

  lemma IndexRises(i: Index, code: Code)
    requires Magnitude(code) >= 4
    ensures var j := i + 2 * (Magnitude(code) - 3); NextIndex(i, code) == if j > 88 then 88 else j
  {
  }

  /**
   The step follows the difference: its index falls by one below the step, and from the step on rises by two
   for the step and two for each quarter level above it that the difference reaches, within the table.
   */
  lemma IndexFollowsDifference(i: Index, predicted: Sample, sample: Sample)
    ensures
      var step, diff := StepSize(i), Error(predicted, sample);
      var rise := if diff < step then -1 else 2 + 2 * QuartersAbove(step, diff);
      NextIndex(i, CodeFor(step, predicted, sample)) ==
      if i + rise < 0 then 0 else if i + rise > 88 then 88 else i + rise
  {
    hide StepSize, IndexChange, NextIndex, QuartersAbove, Level;
    var step, diff := StepSize(i), Error(predicted, sample);
    var code := CodeFor(step, predicted, sample);
    IndexMoves(i, code);
    if diff < step {
      SmallDifference(step, diff, Magnitude(code));
    } else {
      LargeDifference(step, diff, Magnitude(code));
      IndexRises(i, code);
    }
  }

  lemma SmallDifference(step: nat, diff: nat, m: nat)
    requires IsMagnitude(step, diff, m) && diff < step
    ensures m < 4
  {
  }

  /** Being near brings the error below an eighth of the step, and below the next step. */
  lemma NearGetsTight(s: State, x: Sample)
    requires Near(s, x)
    ensures Tight(Send(s, x), x)
    ensures Error(Send(s, x).predicted, x) <= StepSize(s.index) / 8 + 2
  {
    hide StepSize, IndexChange, Moved, CodeFor;
    var step := StepSize(s.index);
    QuantisationError(step, s.predicted, x);
    var code := CodeFor(step, s.predicted, x);
    IndexMoves(s.index, code);
    var next := NextIndex(s.index, code);
    StepSizeRange(s.index);
    if next < s.index {
      StepSizeFollows(s.index);
    } else {
      StepSizeMonotone(s.index, next);
    }
  }

  lemma TightDescends(s: State, x: Sample)
    requires Tight(s, x)
    ensures Tight(Send(s, x), x)
    ensures Send(s, x).index == if s.index == 0 then 0 else s.index - 1
  {
    hide StepSize, IndexChange, Moved;
    NearGetsTight(s, x);
    var step := StepSize(s.index);
    var code := CodeFor(step, s.predicted, x);
    SmallDifference(step, Error(s.predicted, x), Magnitude(code));
    IndexMoves(s.index, code);
  }

  /** At the smallest step, small errors shrink to nothing and stay there. */
  lemma BottomStep(s: State, x: Sample)
    requires s.index == 0 && Error(s.predicted, x) < 7
    ensures
      var next := Error(Send(s, x).predicted, x);
      && next <= 2
      && (Error(s.predicted, x) <= 2 ==> next <= 1)
      && (Error(s.predicted, x) <= 1 ==> next == 0)
    ensures Send(s, x).index == 0
  {
    hide StepSize, IndexChange;
    StepSizeRange(0);
    TightDescends(s, x);
    SmallMoves(s.predicted, x);
  }

  lemma SmallMoves(predicted: Sample, x: Sample)
    requires Error(predicted, x) < 7
    ensures
      var next := Error(Moved(predicted, 7, CodeFor(7, predicted, x)), x);
      && next <= 2
      && (Error(predicted, x) <= 2 ==> next <= 1)
      && (Error(predicted, x) <= 1 ==> next == 0)
  {
  }

  /** The state after sending the same sample `k` times. */
  function SendMany(s: State, x: Sample, k: nat): State
    decreases k
  {
    if k == 0 then s else SendMany(Send(s, x), x, k - 1)
  }

  lemma {:induction false} BottomStays(s: State, x: Sample, k: nat)
    requires s == State(0, x)
    ensures SendMany(s, x, k) == s
    decreases k
  {
    hide Send;
    if k > 0 {
      BottomStep(s, x);
      BottomStays(Send(s, x), x, k - 1);
    }
  }

  lemma BottomConverges(s: State, x: Sample, k: nat)
    requires s.index == 0 && Error(s.predicted, x) < 7 && k >= 3
    ensures SendMany(s, x, k) == State(0, x)
  {
    hide Send;
    var a := Send(s, x);
    var b := Send(a, x);
    BottomStep(s, x);
    BottomStep(a, x);
    BottomStep(b, x);
    BottomStays(Send(b, x), x, k - 3);
    assert SendMany(s, x, k) == SendMany(a, x, k - 1) == SendMany(b, x, k - 2);
  }

  lemma {:induction false} TightConverges(s: State, x: Sample, k: nat)
    requires Tight(s, x) && k >= s.index + 3
    ensures SendMany(s, x, k) == State(0, x)
    decreases s.index
  {
    hide Send, StepSize;
    if s.index == 0 {
      StepSizeRange(0);
      BottomConverges(s, x, k);
    } else {
      TightDescends(s, x);
      TightConverges(Send(s, x), x, k - 1);
    }
  }

  /** Far from the input the step grows as fast as it can and the error falls. */
  lemma FarClimbs(s: State, x: Sample)
    requires !Near(s, x)
    ensures
      var next := Send(s, x);
      && next.index == (if s.index + 8 > 88 then 88 else s.index + 8)
      && (next.index == 88 ==> Near(next, x))
  {
    hide StepSize, IndexChange, Moved, CodeFor;
    var step := StepSize(s.index);
    QuantisationError(step, s.predicted, x);
    IndexMoves(s.index, CodeFor(step, s.predicted, x));
    StepSizeRange(s.index);
    StepSizeRange(88);
  }

  lemma {:induction false} ConvergesWithin(s: State, x: Sample, climbs: nat, k: nat)
    requires Near(s, x) || (climbs >= 1 && 8 * climbs >= 88 - s.index)
    requires k >= climbs + 92
    ensures SendMany(s, x, k) == State(0, x)
    decreases climbs
  {
    hide Send, StepSize, Near, Tight;
    if Near(s, x) {
      NearGetsTight(s, x);
      TightConverges(Send(s, x), x, k - 1);
    } else {
      FarClimbs(s, x);
      ConvergesWithin(Send(s, x), x, climbs - 1, k - 1);
    }
  }

  /** From any state, a constant input is predicted exactly from the 103rd sample on. */
  lemma ConstantInputConverges(s: State, x: Sample, k: nat)
    requires k >= 103
    ensures SendMany(s, x, k) == State(0, x)
  {
    ConvergesWithin(s, x, 11, k);
  }

  function Constant(x: Sample, n: nat): seq<Sample> {
    seq(n, _ => x)
  }

  /** Sending a constant is what the encoder's codes for it do to either side. */
  lemma {:induction false} SendManyIsAfter(s: State, x: Sample, n: nat)
    ensures After(s, Codes(s, Constant(x, n))) == SendMany(s, x, n)
    decreases n
  {
    hide CodeFor, StepSize, Receive;
    if n > 0 {
      assert Constant(x, n)[0] == x && Constant(x, n)[1..] == Constant(x, n - 1);
      SendManyIsAfter(Send(s, x), x, n - 1);
      var code := CodeFor(StepSize(s.index), s.predicted, x);
      assert Codes(s, Constant(x, n)) == [code] + Codes(Send(s, x), Constant(x, n - 1));
    }
  }

  lemma LastDecoded(s: State, codes: seq<Code>)
    requires codes != []
    ensures Decoded(s, codes)[|codes| - 1] == After(s, codes).predicted
  {
    hide Receive;
    var init, last := codes[..|codes| - 1], codes[|codes| - 1];
    assert codes == init + [last];
    AfterAppend(s, init, last);
  }

  /** From the 103rd sample of a constant on, the decoder puts out exactly that sample. */
  lemma ConstantIsHeard(s: State, x: Sample, n: nat)
    requires n >= 103
    ensures var heard := Decoded(s, Codes(s, Constant(x, n))); |heard| == n && heard[n - 1] == x
  {
    hide CodeFor, StepSize, Receive, SendMany;
    var codes := Codes(s, Constant(x, n));
    CodesLength(s, Constant(x, n));
    SendManyIsAfter(s, x, n);
    ConstantInputConverges(s, x, n);
    LastDecoded(s, codes);
  }

  lemma {:induction false} CodesLength(s: State, samples: seq<Sample>)
    ensures |Codes(s, samples)| == |samples|
    decreases |samples|
  {
    hide CodeFor, StepSize, Receive;
    if samples != [] {
      CodesLength(Send(s, samples[0]), samples[1..]);
    }
  }
}
