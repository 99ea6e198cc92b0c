/**
 Converting a recording into the bytes of a sound, two codes to a byte, and that playing the bytes puts
 out what the encoder made of the recording.
 */
module Converter {
  import opened Adpcm
  import opened AdpcmTheorems
  import opened Player

  /** The samples that are converted: an odd last one is left out. */
  function Even(data: seq<Sample>): seq<Sample> {
    data[..|data| - |data| % 2]
  }

  /** Two codes in a byte, the first one in the low half. */
  function Packed(low: Code, high: Code): Byte {
    low + 16 * high
  }

  lemma NibblesOfByte(low: Code, high: Code)
    ensures Nibbles([Packed(low, high)]) == [low, high]
  {
    assert [Packed(low, high)][1..] == [];
  }

  /** The next code of a stream, and where it leaves the encoder. */
  method EncodeNext(encoder: Encoder, ghost start: State, ghost sent: seq<Sample>, sample: Sample) returns (code: Code)
    requires encoder.Valid() && encoder.Current() == After(start, Codes(start, sent))
    modifies encoder
    ensures encoder.Valid() && encoder.Current() == After(start, Codes(start, sent + [sample]))
    ensures Codes(start, sent + [sample]) == Codes(start, sent) + [code]
  {
    hide Receive, IsCode, CodeFor, StepSize, Codes, After;
    ghost var before := encoder.Current();
    code := encoder.Encode(sample);
    CodeUnique(StepSize(before.index), before.predicted, sample, code);
    CodesAppend(start, sent, sample);
    AfterAppend(start, Codes(start, sent), code);
  }

  method Convert(encoder: Encoder, data: seq<Sample>) returns (encoded: seq<Byte>)
    requires encoder.Valid()
    modifies encoder
    ensures encoder.Valid() && Nibbles(encoded) == Codes(old(encoder.Current()), Even(data))
  {
    hide Codes, After, Nibbles;
    ghost var start := encoder.Current();
    encoded := [];
    NothingYet(start);
    var n := |data| - |data| % 2;
    var i := 0;
    while i < n
      invariant 0 <= i <= n && i % 2 == 0 && encoder.Valid()
      invariant Nibbles(encoded) == Codes(start, data[..i])
      invariant encoder.Current() == After(start, Codes(start, data[..i]))
    {
      var low := EncodeNext(encoder, start, data[..i], data[i]);
      assert data[..i] + [data[i]] == data[..i + 1];
      var high := EncodeNext(encoder, start, data[..i + 1], data[i + 1]);
      assert data[..i + 1] + [data[i + 1]] == data[..i + 2];
      NibblesSplit(encoded, [Packed(low, high)]);
      NibblesOfByte(low, high);
      encoded := encoded + [Packed(low, high)];
      i := i + 2;
    }
  }

  lemma NothingYet(s: State)
    ensures Nibbles([]) == Codes(s, []) && After(s, Codes(s, [])) == s
  {
  }

  /**
   Played by a decoder in the state the encoder had, the bytes of a recording sound like the encoder's own
   predictions, sample by sample.
   */
  lemma ConvertedIsHeard(s: State, data: seq<Sample>, encoded: seq<Byte>, i: nat)
    requires Nibbles(encoded) == Codes(s, Even(data)) && i < |Even(data)|
    ensures |Stream(s, encoded)| == |Even(data)|
    ensures Heard(Stream(s, encoded)[i]) == After(s, Codes(s, data[..i + 1])).predicted
  {
    hide Nibbles, Codes, After, Decoded, Stream;
    CodesLength(s, Even(data));
    StreamIsHeard(s, encoded, i);
    PredictionAt(s, Even(data), i);
    assert Even(data)[..i + 1] == data[..i + 1];
  }

  lemma {:induction false} PredictionAt(s: State, samples: seq<Sample>, i: nat)
    requires i < |samples|
    ensures |Codes(s, samples)| == |samples|
    ensures Decoded(s, Codes(s, samples))[i] == After(s, Codes(s, samples[..i + 1])).predicted
    decreases |samples|
  {
    hide Receive, CodeFor, StepSize, After;
    var init, last := samples[..|samples| - 1], samples[|samples| - 1];
    assert samples == init + [last];
    CodesLength(s, samples);
    CodesLength(s, init);
    if i == |samples| - 1 {
      assert samples[..i + 1] == samples;
      LastDecoded(s, Codes(s, samples));
    } else {
      CodesAppend(s, init, last);
      var code := Codes(s, samples)[|init|];
      assert Codes(s, samples) == Codes(s, init) + [code];
      AfterAppend(s, Codes(s, init), code);
      PredictionAt(s, init, i);
      assert init[..i + 1] == samples[..i + 1];
    }
  }

  /** A constant recording is played exactly from its 103rd sample on. */
  lemma ConstantIsPlayed(s: State, x: Sample, n: nat, encoded: seq<Byte>, i: nat)
    requires Nibbles(encoded) == Codes(s, Even(Constant(x, n))) && 102 <= i < |Even(Constant(x, n))|
    ensures i < |Stream(s, encoded)| && Heard(Stream(s, encoded)[i]) == x
  {
    hide Nibbles, Codes, After, Decoded, Stream, SendMany;
    ConvertedIsHeard(s, Constant(x, n), encoded, i);
    assert Constant(x, n)[..i + 1] == Constant(x, i + 1);
    SendManyIsAfter(s, x, i + 1);
    ConstantInputConverges(s, x, i + 1);
  }
}
