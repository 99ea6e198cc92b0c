/**
 Playing a compressed sound: successive buffers are filled from the bytes of the sound,
 two samples to a byte, through the one decoder that all sounds share.
 */
module Player {
  import opened Adpcm
  import opened AdpcmTheorems

  type Byte = b: int | 0 <= b < 256
  type Word = w: int | 0 <= w < 65536

  /** A signed sample stored as an unsigned short. */
  function ToWord(s: Sample): Word {
    if s < 0 then s + 65536 else s
  }

  function ToWords(samples: seq<Sample>): (ws: seq<Word>)
    ensures |ws| == |samples|
  {
    seq(|samples|, i requires 0 <= i < |samples| => ToWord(samples[i]))
  }

  /** The codes of a sound: the low half of each byte, then the high half. */
  function Nibbles(data: seq<Byte>): (codes: seq<Code>)
    ensures |codes| == 2 * |data|
  {
    if data == [] then [] else [data[0] % 16, data[0] / 16] + Nibbles(data[1..])
  }

  /** Everything the bytes sound like to a decoder in state `s`. */
  function Stream(s: State, data: seq<Byte>): (ws: seq<Word>)
    ensures |ws| == 2 * |data|
  {
    ToWords(Decoded(s, Nibbles(data)))
  }

  function Zeros(n: nat): seq<Word> {
    seq(n, i => 0)
  }

  function Doubled(ws: seq<Word>): (ds: seq<Word>)
    ensures |ds| == 2 * |ws|
  {
    seq(2 * |ws|, i requires 0 <= i < 2 * |ws| => ws[i / 2])
  }

  /** The signed short that a word is, bit for bit. */
  function Heard(w: Word): Sample {
    if w >= 32768 then w - 65536 else w
  }

  /** Read as signed shorts again, the words of a stream are the samples the decoder puts out. */
  lemma StreamIsHeard(s: State, data: seq<Byte>, i: nat)
    requires i < 2 * |data|
    ensures Heard(Stream(s, data)[i]) == Decoded(s, Nibbles(data))[i]
  {
    hide Nibbles, Decoded;
    var samples := Decoded(s, Nibbles(data));
    assert ToWords(samples)[i] == ToWord(samples[i]);
  }

  // ---------- Streams fall apart anywhere ----------

  lemma {:induction false} DecodedSplit(s: State, a: seq<Code>, b: seq<Code>)
    ensures Decoded(s, a + b) == Decoded(s, a) + Decoded(After(s, a), b)
    ensures After(s, a + b) == After(After(s, a), b)
    decreases |a|
  {
    hide Receive;
    if a == [] {
      assert a + b == b;
    } else {
      assert (a + b)[0] == a[0] && (a + b)[1..] == a[1..] + b;
      DecodedSplit(Receive(s, a[0]), a[1..], b);
    }
  }

  lemma {:induction false} NibblesSplit(a: seq<Byte>, b: seq<Byte>)
    ensures Nibbles(a + b) == Nibbles(a) + Nibbles(b)
  {
    if a == [] {
      assert a + b == b;
    } else {
      assert (a + b)[0] == a[0] && (a + b)[1..] == a[1..] + b;
      NibblesSplit(a[1..], b);
    }
  }

  lemma ToWordsSplit(a: seq<Sample>, b: seq<Sample>)
    ensures ToWords(a + b) == ToWords(a) + ToWords(b)
  {
  }

  lemma StreamSplit(s: State, a: seq<Byte>, b: seq<Byte>)
    ensures Stream(s, a + b) == Stream(s, a) + Stream(After(s, Nibbles(a)), b)
    ensures After(s, Nibbles(a + b)) == After(After(s, Nibbles(a)), Nibbles(b))
  {
    hide Nibbles, Decoded, After, ToWords;
    NibblesSplit(a, b);
    DecodedSplit(s, Nibbles(a), Nibbles(b));
    ToWordsSplit(Decoded(s, Nibbles(a)), Decoded(After(s, Nibbles(a)), Nibbles(b)));
  }

  lemma OneByte(s: State, b: Byte)
    ensures
      var first := Receive(s, b % 16);
      var second := Receive(first, b / 16);
      Stream(s, [b]) == [ToWord(first.predicted), ToWord(second.predicted)] && After(s, Nibbles([b])) == second
  {
    hide Receive;
    assert [b][1..] == [];
    var codes: seq<Code> := [b % 16, b / 16];
    assert Nibbles([b]) == codes;
    assert codes[1..] == [b / 16] && [b / 16][1..] == [];
    var first := Receive(s, codes[0]);
    assert After(s, codes) == After(first, [codes[1]]) == Receive(first, codes[1]);
    assert Decoded(s, codes) == [first.predicted] + Decoded(first, [codes[1]]);
  }

  lemma DoubledSplit(a: seq<Word>, b: seq<Word>)
    ensures Doubled(a + b) == Doubled(a) + Doubled(b)
  {
  }

  lemma DoubledTwo(ws: seq<Word>)
    ensures ws == [] ==> Doubled(ws) == []
    ensures |ws| == 2 ==> Doubled(ws) == [ws[0], ws[0], ws[1], ws[1]]
  {
  }

  /** What one more byte adds to a sound: the samples of its two halves, each twice in stereo. */
  lemma NextByte(start: State, played: seq<Byte>, input: Byte)
    ensures
      var s := After(start, Nibbles(played));
      var first := Receive(s, input % 16);
      var second := Receive(first, input / 16);
      var a, b := ToWord(first.predicted), ToWord(second.predicted);
      && After(start, Nibbles(played + [input])) == second
      && Stream(start, played + [input]) == Stream(start, played) + [a, b]
      && Doubled(Stream(start, played + [input])) == Doubled(Stream(start, played)) + [a, a, b, b]
  {
    hide Stream, Nibbles, After, Receive, Doubled;
    var s := After(start, Nibbles(played));
    StreamSplit(start, played, [input]);
    OneByte(s, input);
    DoubledSplit(Stream(start, played), Stream(s, [input]));
    DoubledTwo(Stream(s, [input]));
  }

  // ---------- Filling buffers ----------

  method PadWithZeros(buffer: array<Word>, from: nat, to: nat)
    requires from <= to <= buffer.Length
    modifies buffer
    ensures buffer[..from] == old(buffer[..from]) && buffer[to..] == old(buffer[to..])
    ensures buffer[from..to] == Zeros(to - from)
  {
    for j := from to to
      invariant buffer[..from] == old(buffer[..from]) && buffer[to..] == old(buffer[to..])
      invariant forall k :: from <= k < j ==> buffer[k] == 0
    {
      buffer[j] := 0;
    }
  }

  class ADPCMSound {
    const soundData: seq<Byte>
    const decoder: Decoder
    var index: nat

    constructor (soundData: seq<Byte>, decoder: Decoder)
      ensures this.soundData == soundData && this.decoder == decoder && index == 0
    {
      this.soundData, this.decoder, index := soundData, decoder, 0;
    }

    predicate Valid()
      reads this, decoder
    {
      index <= |soundData| && decoder.Valid()
    }

    function Rest(): seq<Byte>
      requires index <= |soundData|
      reads this
    {
      soundData[index..]
    }

    /** Decodes the low half of the next byte, then the high half. */
    method DecodeNext() returns (a: Word, b: Word)
      requires Valid() && index < |soundData|
      modifies this`index, decoder
      ensures Valid() && index == old(index) + 1
      ensures
        var input := soundData[old(index)];
        var first := Receive(old(decoder.Current()), input % 16);
        var second := Receive(first, input / 16);
        decoder.Current() == second && a == ToWord(first.predicted) && b == ToWord(second.predicted)
    {
      hide Receive;
      var input := soundData[index];
      index := index + 1;
      var first := decoder.Decode(input % 16);
      var second := decoder.Decode(input / 16);
      a, b := ToWord(first), ToWord(second);
    }

    method DecodeMono(buffer: array<Word>, length: nat)
      requires Valid() && length % 2 == 0 && length / 2 <= |Rest()| && length <= buffer.Length
      modifies this`index, buffer, decoder
      ensures Valid() && Rest() == old(Rest())[length / 2..]
      ensures decoder.Current() == After(old(decoder.Current()), Nibbles(old(Rest())[..length / 2]))
      ensures buffer[..length] == Stream(old(decoder.Current()), old(Rest())[..length / 2])
      ensures buffer[length..] == old(buffer[length..])
    {
      hide Stream, Nibbles, After, Receive, Decoded;
      ghost var start, rest, base := decoder.Current(), Rest(), index;
      var i := 0;
      ghost var k, last := 0, length / 2;
      StreamNone(start);
      while i < length
        invariant k <= last && i == 2 * k && index == base + k
        invariant decoder.Valid() && decoder.Current() == After(start, Nibbles(rest[..k]))
        invariant buffer[..i] == Stream(start, rest[..k])
        invariant buffer[length..] == old(buffer[length..])
      {
        var input := soundData[index];
        assert rest[..k + 1] == rest[..k] + [input];
        NextByte(start, rest[..k], input);
        buffer[i], buffer[i + 1] := DecodeNext();
        assert buffer[..i + 2] == buffer[..i] + [buffer[i], buffer[i + 1]];
        i, k := i + 2, k + 1;
      }
    }

    method FillMonoBuffer(buffer: array<Word>, size: nat) returns (done: bool)
      requires Valid() && size <= buffer.Length
      modifies this`index, buffer, decoder
      ensures Valid() && buffer[size..] == old(buffer[size..])
      ensures size % 2 == 1 ==> done && index == old(index) && buffer[..] == old(buffer[..]) &&
                                decoder.Current() == old(decoder.Current())
      ensures size % 2 == 0 ==>
        var chunk := MonoChunk(old(decoder.Current()), old(Rest()), size);
        && buffer[..size] == chunk.words && done == chunk.done
        && Rest() == chunk.rest && decoder.Current() == chunk.state
    {
      hide Stream, Nibbles, After, MonoChunk, Zeros;
      if size % 2 == 1 { return true; }
      var remaining := |soundData| - index;
      var length := if size < 2 * remaining then size else 2 * remaining;
      MonoChunkIs(decoder.Current(), Rest(), size, length / 2);
      DecodeMono(buffer, length);
      assert buffer[size..] == buffer[length..][size - length..];
      if index < |soundData| {
        return false;
      }
      PadWithZeros(buffer, length, size);
      assert buffer[..size] == buffer[..length] + buffer[length..size];
      return true;
    }

    method DecodeStereo(buffer: array<Word>, length: nat)
      requires Valid() && length % 4 == 0 && length / 4 <= |Rest()| && length <= buffer.Length
      modifies this`index, buffer, decoder
      ensures Valid() && Rest() == old(Rest())[length / 4..]
      ensures decoder.Current() == After(old(decoder.Current()), Nibbles(old(Rest())[..length / 4]))
      ensures buffer[..length] == Doubled(Stream(old(decoder.Current()), old(Rest())[..length / 4]))
      ensures buffer[length..] == old(buffer[length..])
    {
      hide Stream, Nibbles, After, Receive, Decoded, Doubled;
      ghost var start, rest, base := decoder.Current(), Rest(), index;
      var i := 0;
      ghost var k, last := 0, length / 4;
      StreamNone(start);
      DoubledTwo([]);
      while i < length
        invariant k <= last && i == 4 * k && index == base + k
        invariant decoder.Valid() && decoder.Current() == After(start, Nibbles(rest[..k]))
        invariant buffer[..i] == Doubled(Stream(start, rest[..k]))
        invariant buffer[length..] == old(buffer[length..])
      {
        var input := soundData[index];
        assert rest[..k + 1] == rest[..k] + [input];
        NextByte(start, rest[..k], input);
        var first, second := DecodeNext();
        buffer[i], buffer[i + 1] := first, first;
        buffer[i + 2], buffer[i + 3] := second, second;
        assert buffer[..i + 4] == buffer[..i] + [buffer[i], buffer[i + 1], buffer[i + 2], buffer[i + 3]];
        i, k := i + 4, k + 1;
      }
    }

    method FillStereoBuffer(buffer: array<Word>, size: nat) returns (done: bool)
      requires Valid() && size <= buffer.Length
      modifies this`index, buffer, decoder
      ensures Valid() && buffer[size..] == old(buffer[size..])
      ensures size % 4 != 0 ==> done && index == old(index) && buffer[..] == old(buffer[..]) &&
                                decoder.Current() == old(decoder.Current())
      ensures size % 4 == 0 ==>
        var chunk := StereoChunk(old(decoder.Current()), old(Rest()), size);
        && buffer[..size] == chunk.words && done == chunk.done
        && Rest() == chunk.rest && decoder.Current() == chunk.state
    {
      hide Stream, Nibbles, After, Doubled, StereoChunk, Zeros;
      if size % 4 != 0 { return true; }
      var remaining := |soundData| - index;
      var length := if size < 4 * remaining then size else 4 * remaining;
      StereoChunkIs(decoder.Current(), Rest(), size, length / 4);
      DecodeStereo(buffer, length);
      assert buffer[size..] == buffer[length..][size - length..];
      if index < |soundData| {
        return false;
      }
      PadWithZeros(buffer, length, size);
      assert buffer[..size] == buffer[..length] + buffer[length..size];
      return true;
    }

    /** Starts the sound over; the decoder goes on from where it is. */
    method Rewind()
      requires Valid()
      modifies this`index
      ensures Valid() && Rest() == soundData
    {
      index := 0;
    }
  }

  lemma StreamNone(s: State)
    ensures Stream(s, []) == [] && After(s, Nibbles([])) == s
  {
  }

  /** What one buffer holds, and what is left for the next. */
  datatype Chunk = Chunk(words: seq<Word>, done: bool, state: State, rest: seq<Byte>)

  function Taken(rest: seq<Byte>, bytes: nat): nat {
    if bytes < |rest| then bytes else |rest|
  }

  function MonoChunk(s: State, rest: seq<Byte>, size: nat): Chunk {
    var n := Taken(rest, size / 2);
    Chunk(Stream(s, rest[..n]) + Zeros(size - 2 * n), n == |rest|, After(s, Nibbles(rest[..n])), rest[n..])
  }

  function StereoChunk(s: State, rest: seq<Byte>, size: nat): Chunk {
    var n := Taken(rest, size / 4);
    Chunk(Doubled(Stream(s, rest[..n])) + Zeros(size - 4 * n), n == |rest|, After(s, Nibbles(rest[..n])), rest[n..])
  }

  /** A buffer that does not end the sound is full. */
  lemma MonoChunkIs(s: State, rest: seq<Byte>, size: nat, n: nat)
    requires size % 2 == 0 && n == Taken(rest, size / 2)
    ensures
      var played := Stream(s, rest[..n]);
      && (n < |rest| ==> size == 2 * n)
      && MonoChunk(s, rest, size) ==
         Chunk(if n < |rest| then played else played + Zeros(size - 2 * n),
               n == |rest|, After(s, Nibbles(rest[..n])), rest[n..])
  {
    hide Stream, Nibbles, After;
    assert Stream(s, rest[..n]) + Zeros(0) == Stream(s, rest[..n]);
  }

  lemma StereoChunkIs(s: State, rest: seq<Byte>, size: nat, n: nat)
    requires size % 4 == 0 && n == Taken(rest, size / 4)
    ensures
      var played := Doubled(Stream(s, rest[..n]));
      && (n < |rest| ==> size == 4 * n)
      && StereoChunk(s, rest, size) ==
         Chunk(if n < |rest| then played else played + Zeros(size - 4 * n),
               n == |rest|, After(s, Nibbles(rest[..n])), rest[n..])
  {
    hide Stream, Nibbles, After, Doubled;
    assert Doubled(Stream(s, rest[..n])) + Zeros(0) == Doubled(Stream(s, rest[..n]));
  }

  // ---------- Whole sounds ----------

  datatype Played = Played(words: seq<Word>, done: bool)

  /** The buffers of the given sizes, one after the other, up to the one that ends the sound. */
  function PlayMono(s: State, rest: seq<Byte>, sizes: seq<nat>): Played
    decreases |sizes|
  {
    if sizes == [] then Played([], false)
    else
      var chunk := MonoChunk(s, rest, sizes[0]);
      if chunk.done then Played(chunk.words, true)
      else
        var later := PlayMono(chunk.state, chunk.rest, sizes[1..]);
        Played(chunk.words + later.words, later.done)
  }

  function PlayStereo(s: State, rest: seq<Byte>, sizes: seq<nat>): Played
    decreases |sizes|
  {
    if sizes == [] then Played([], false)
    else
      var chunk := StereoChunk(s, rest, sizes[0]);
      if chunk.done then Played(chunk.words, true)
      else
        var later := PlayStereo(chunk.state, chunk.rest, sizes[1..]);
        Played(chunk.words + later.words, later.done)
  }

  function Sum(sizes: seq<nat>): nat {
    if sizes == [] then 0 else sizes[0] + Sum(sizes[1..])
  }

  predicate AllDivisible(sizes: seq<nat>, d: nat)
    requires d > 0
  {
    forall i :: 0 <= i < |sizes| ==> sizes[i] % d == 0
  }

  /**
   However a sound is cut into buffers of even size, they hold the decoded sound followed
   by silence, or as much of the decoded sound as the buffers have room for.
   */
  lemma {:induction false} MonoIsStream(s: State, rest: seq<Byte>, sizes: seq<nat>)
    requires AllDivisible(sizes, 2) && sizes != []
    ensures
      var p := PlayMono(s, rest, sizes);
      && (p.done <==> Sum(sizes) >= 2 * |rest|)
      && if p.done
         then |p.words| >= 2 * |rest| && p.words == Stream(s, rest) + Zeros(|p.words| - 2 * |rest|)
         else |p.words| == Sum(sizes) && p.words == Stream(s, rest[..|p.words| / 2])
    decreases |sizes|
  {
    hide Stream, Nibbles, After, MonoChunk, Zeros;
    var chunk := MonoChunk(s, rest, sizes[0]);
    var n := Taken(rest, sizes[0] / 2);
    MonoChunkIs(s, rest, sizes[0], n);
    if chunk.done {
      assert rest[..n] == rest;
      ZerosLength(sizes[0] - 2 * n);
    } else if sizes[1..] == [] {
      assert chunk.words + [] == chunk.words;
    } else {
      MonoIsStream(chunk.state, chunk.rest, sizes[1..]);
      MonoLater(s, rest, n, PlayMono(chunk.state, chunk.rest, sizes[1..]));
    }
  }

  lemma ZerosLength(n: nat)
    ensures |Zeros(n)| == n
  {
  }

  lemma MonoLater(s: State, rest: seq<Byte>, n: nat, later: Played)
    requires n < |rest|
    requires
      var state := After(s, Nibbles(rest[..n]));
      if later.done
      then |later.words| >= 2 * (|rest| - n) &&
           later.words == Stream(state, rest[n..]) + Zeros(|later.words| - 2 * (|rest| - n))
      else |later.words| / 2 <= |rest| - n && later.words == Stream(state, rest[n..][..|later.words| / 2])
    ensures
      var words := Stream(s, rest[..n]) + later.words;
      if later.done then words == Stream(s, rest) + Zeros(|words| - 2 * |rest|)
      else words == Stream(s, rest[..n + |later.words| / 2])
  {
    hide Stream, Nibbles, After;
    if later.done {
      assert rest == rest[..n] + rest[n..];
      StreamSplit(s, rest[..n], rest[n..]);
    } else {
      var k := |later.words| / 2;
      assert rest[..n + k] == rest[..n] + rest[n..][..k];
      StreamSplit(s, rest[..n], rest[n..][..k]);
    }
  }

  function Halved(sizes: seq<nat>): (hs: seq<nat>)
    ensures |hs| == |sizes|
  {
    seq(|sizes|, i requires 0 <= i < |sizes| => sizes[i] / 2)
  }

  lemma StereoChunkDoubles(s: State, rest: seq<Byte>, size: nat)
    requires size % 4 == 0
    ensures
      var mono, stereo := MonoChunk(s, rest, size / 2), StereoChunk(s, rest, size);
      stereo == mono.(words := Doubled(mono.words))
  {
    hide Stream, Nibbles, After, Doubled;
    var n := Taken(rest, size / 4);
    assert size / 2 / 2 == size / 4;
    DoubledSplit(Stream(s, rest[..n]), Zeros(size / 2 - 2 * n));
    DoubledZeros(size / 2 - 2 * n);
  }

  lemma DoubledZeros(n: nat)
    ensures Doubled(Zeros(n)) == Zeros(2 * n)
  {
  }

  /** The stereo sound is the mono sound with every sample doubled. */
  lemma {:induction false} StereoIsDoubledMono(s: State, rest: seq<Byte>, sizes: seq<nat>)
    requires AllDivisible(sizes, 4)
    ensures
      var mono := PlayMono(s, rest, Halved(sizes));
      PlayStereo(s, rest, sizes) == Played(Doubled(mono.words), mono.done)
    decreases |sizes|
  {
    hide MonoChunk, StereoChunk, Doubled;
    DoubledTwo([]);
    if sizes != [] {
      assert Halved(sizes)[0] == sizes[0] / 2 && Halved(sizes)[1..] == Halved(sizes[1..]);
      StereoChunkDoubles(s, rest, sizes[0]);
      var mono := MonoChunk(s, rest, sizes[0] / 2);
      StereoIsDoubledMono(mono.state, mono.rest, sizes[1..]);
      DoubledSplit(mono.words, PlayMono(mono.state, mono.rest, Halved(sizes[1..])).words);
    }
  }
}
