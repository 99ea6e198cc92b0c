/**
 The ADPCM codec: an adaptive quantiser whose encoder tracks what the decoder will
 reconstruct. Codes are four bits: a sign of weight 8 and a magnitude from 0 to 7.
 */
module Adpcm {
  /** The step sizes, ten to a row. */
  const STEP_SIZE_ROWS: seq<seq<nat>> := [
    [7, 8, 9, 10, 11, 12, 13, 14, 16, 17],
    [19, 21, 23, 25, 28, 31, 34, 37, 41, 45],
    [50, 55, 60, 66, 73, 80, 88, 97, 107, 118],
    [130, 143, 157, 173, 190, 209, 230, 253, 279, 307],
    [337, 371, 408, 449, 494, 544, 598, 658, 724, 796],
    [876, 963, 1060, 1166, 1282, 1411, 1552, 1707, 1878, 2066],
    [2272, 2499, 2749, 3024, 3327, 3660, 4026, 4428, 4871, 5358],
    [5894, 6484, 7132, 7845, 8630, 9493, 10442, 11487, 12635, 13899],
    [15289, 16818, 18500, 20350, 22385, 24623, 27086, 29794, 32767]]

  const INDEX_TABLE: seq<int> := [-1, -1, -1, -1, 2, 4, 6, 8, -1, -1, -1, -1, 2, 4, 6, 8]

  type Sample = s: int | -32768 <= s <= 32767
  type Index = i: int | 0 <= i <= 88
  type Code = c: int | 0 <= c < 16

  function Entry(r: nat, c: nat): nat
    requires c < 10 && 10 * r + c <= 88
  {
    STEP_SIZE_ROWS[r][c]
  }

  function StepSize(i: Index): nat {
    Entry(i / 10, i % 10)
  }

  lemma StepSizeRange(i: Index)
    ensures 7 <= StepSize(i) <= 32767
    ensures i == 0 ==> StepSize(i) == 7
    ensures i == 88 ==> StepSize(i) == 32767
  {
  }

  /**
   Steps rise by a tenth, rounded, up to the largest sample, and so never so fast that an eighth of one, and
   two, reaches the one before.
   */
  predicate Follows(step: nat, next: nat) {
    step < next && next / 8 + 2 < step && (-8 <= 10 * next - 11 * step <= 8 || next == 32767)
  }

  lemma RowFollows(r: nat, c: nat)
    requires 0 < c < 10 && 10 * r + c <= 88
    ensures Follows(Entry(r, c - 1), Entry(r, c))
  {
    if r == 0 {} else if r == 1 {} else if r == 2 {} else if r == 3 {} else if r == 4 {}
    else if r == 5 {} else if r == 6 {} else if r == 7 {} else {}
  }

  lemma NextRowFollows(r: nat)
    requires 0 < r < 9
    ensures Follows(Entry(r - 1, 9), Entry(r, 0))
  {
  }

  lemma StepSizeFollows(i: Index)
    requires i > 0
    ensures Follows(StepSize(i - 1), StepSize(i))
  {
    hide Follows, Entry;
    var r, c := i / 10, i % 10;
    assert i - 1 == if c > 0 then 10 * r + (c - 1) else 10 * (r - 1) + 9;
    if c > 0 {
      RowFollows(r, c);
    } else {
      NextRowFollows(r);
    }
  }

  lemma {:induction false} StepSizeMonotone(i: Index, j: Index)
    requires i <= j
    ensures StepSize(i) <= StepSize(j)
    decreases j
  {
    hide StepSize;
    if i < j {
      StepSizeFollows(j);
      StepSizeMonotone(i, j - 1);
    }
  }

  // ---------- Codes ----------

  datatype State = State(index: Index, predicted: Sample)

  function Clamp(x: int): Sample {
    if x > 32767 then 32767 else if x < -32768 then -32768 else x
  }

  function IndexChange(code: Code): int {
    INDEX_TABLE[code]
  }

  function NextIndex(i: Index, code: Code): Index {
    var j := i + IndexChange(code);
    if j < 0 then 0 else if j > 88 then 88 else j
  }

  // The bits of a code, from the sign down.

  predicate Bit8(code: Code) { code >= 8 }

  function Magnitude(code: Code): (m: nat)
    ensures m < 8
  {
    if code >= 8 then code - 8 else code
  }

  predicate Bit4(m: nat) { m >= 4 }

  predicate Bit2(m: nat) { (if m >= 4 then m - 4 else m) >= 2 }

  predicate Bit1(m: nat) { m == 1 || m == 3 || m == 5 || m == 7 }

  /** The difference that a magnitude stands for, rounded down. */
  function Level(step: nat, m: nat): nat {
    (if Bit4(m) then step else 0) + (if Bit2(m) then step / 2 else 0) + (if Bit1(m) then step / 4 else 0)
  }

  function Moved(predicted: Sample, step: nat, code: Code): Sample {
    var delta := Level(step, Magnitude(code)) + step / 8;
    Clamp(if Bit8(code) then predicted - delta else predicted + delta)
  }

  /** What receiving a code does to either side: the new prediction and the new step. */
  function Receive(s: State, code: Code): State {
    State(NextIndex(s.index, code), Moved(s.predicted, StepSize(s.index), code))
  }

  /** The magnitude of a difference: the highest level that does not exceed it. */
  predicate IsMagnitude(step: nat, diff: nat, m: nat) {
    m < 8 && Level(step, m) <= diff && (m < 7 ==> diff < Level(step, m + 1))
  }

  function Abs(x: int): nat {
    if x < 0 then -x else x
  }

  /** The right code for moving from a prediction towards a sample. */
  predicate IsCode(step: nat, predicted: Sample, sample: Sample, code: Code) {
    && (Bit8(code) <==> sample < predicted)
    && IsMagnitude(step, Abs(sample - predicted), Magnitude(code))
  }

  function MagnitudeOf(step: nat, diff: nat): (m: nat)
    ensures IsMagnitude(step, diff, m)
  {
    if diff >= Level(step, 7) then 7
    else if diff >= Level(step, 6) then 6
    else if diff >= Level(step, 5) then 5
    else if diff >= Level(step, 4) then 4
    else if diff >= Level(step, 3) then 3
    else if diff >= Level(step, 2) then 2
    else if diff >= Level(step, 1) then 1
    else 0
  }

  function CodeFor(step: nat, predicted: Sample, sample: Sample): (code: Code)
    ensures IsCode(step, predicted, sample, code)
  {
    var m := MagnitudeOf(step, Abs(sample - predicted));
    if sample < predicted then 8 + m else m
  }

  lemma MagnitudeUnique(step: nat, diff: nat, m: nat, n: nat)
    requires IsMagnitude(step, diff, m) && IsMagnitude(step, diff, n)
    ensures m == n
  {
  }

  lemma CodeUnique(step: nat, predicted: Sample, sample: Sample, code: Code)
    requires IsCode(step, predicted, sample, code)
    ensures code == CodeFor(step, predicted, sample)
  {
    hide IsMagnitude;
    MagnitudeUnique(step, Abs(sample - predicted), Magnitude(code), Magnitude(CodeFor(step, predicted, sample)));
  }

  // ---------- The encoder and the decoder ----------

  /** The greedy quantiser: bit by bit, with the inverse quantised difference alongside. */
  method Quantize(step: nat, difference: nat) returns (code: nat, diffq: nat)
    ensures IsMagnitude(step, difference, code)
    ensures diffq == Level(step, code) + step / 8
  {
    var diff, tmpstep := difference, step;
    code, diffq := 0, step / 8;
    if diff >= tmpstep {
      code := code + 4;
      diff := diff - tmpstep;
      diffq := diffq + step;
    }
    tmpstep := tmpstep / 2;
    if diff >= tmpstep {
      code := code + 2;
      diff := diff - tmpstep;
      diffq := diffq + step / 2;
    }
    tmpstep := tmpstep / 2;
    assert tmpstep == step / 4;
    if diff >= tmpstep {
      code := code + 1;
      diffq := diffq + step / 4;
    }
  }

  /**
   The difference of a magnitude: bit by bit, and an eighth of the step to round. Within the range of the
   step it is that far, at most two more, from every difference of that magnitude.
   */
  method Dequantize(step: nat, m: nat) returns (diffq: nat)
    ensures diffq == Level(step, m) + step / 8
    ensures forall diff: nat :: IsMagnitude(step, diff, m) && diff < 2 * step ==> Abs(diff - diffq) <= step / 8 + 2
  {
    diffq := step / 8;
    if Bit4(m) { diffq := diffq + step; }
    if Bit2(m) { diffq := diffq + step / 2; }
    if Bit1(m) { diffq := diffq + step / 4; }
  }

  class Encoder {
    var index: int
    var predsample: int

    predicate Valid()
      reads this
    {
      0 <= index <= 88 && -32768 <= predsample <= 32767
    }

    function Current(): State
      requires Valid()
      reads this
    {
      State(index, predsample)
    }

    constructor ()
      ensures Valid() && Current() == State(0, 0)
    {
      index, predsample := 0, 0;
    }

    method Encode(sample: Sample) returns (code: Code)
      requires Valid()
      modifies this
      ensures Valid()
      ensures IsCode(StepSize(old(index)), old(predsample), sample, code)
      ensures Current() == Receive(old(Current()), code)
    {
      hide StepSize, IndexChange, IsMagnitude, Level;
      code := 0;
      var step := StepSize(index);
      var diff := sample - predsample;
      if diff < 0 {
        code := 8;
        diff := -diff;
      }
      var m, diffq := Quantize(step, diff);
      code := code + m;
      if Bit8(code) {
        predsample := predsample - diffq;
      } else {
        predsample := predsample + diffq;
      }
      if predsample > 32767 {
        predsample := 32767;
      } else if predsample < -32768 {
        predsample := -32768;
      }
      index := index + IndexChange(code);
      if index < 0 {
        index := 0;
      } else if index > 88 {
        index := 88;
      }
    }
  }

  class Decoder {
    var index: int
    var predsample: int

    predicate Valid()
      reads this
    {
      0 <= index <= 88 && -32768 <= predsample <= 32767
    }

    function Current(): State
      requires Valid()
      reads this
    {
      State(index, predsample)
    }

    constructor ()
      ensures Valid() && Current() == State(0, 0)
    {
      index, predsample := 0, 0;
    }

    method Decode(code: Code) returns (sample: Sample)
      requires Valid()
      modifies this
      ensures Valid()
      ensures Current() == Receive(old(Current()), code)
      ensures sample == Current().predicted
    {
      hide StepSize, IndexChange, Level;
      var step := StepSize(index);
      var diffq := Dequantize(step, Magnitude(code));
      if Bit8(code) {
        predsample := predsample - diffq;
      } else {
        predsample := predsample + diffq;
      }
      if predsample > 32767 {
        predsample := 32767;
      } else if predsample < -32768 {
        predsample := -32768;
      }
      index := index + IndexChange(code);
      if index < 0 { index := 0; }
      if index > 88 { index := 88; }
      return predsample;
    }
  }
}
