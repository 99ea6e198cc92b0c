/**
 In-place substrings: a part of a string is made by overwriting one character with '\0', and
 clearing the part puts the character back. Parts are taken of parts, and given back last
 in, first out.
 */
module StringPart {

  /** `std::string::npos` for a 32-bit `size_t`. */
  const NPOS: nat := 0xFFFF_FFFF

  function Min(a: nat, b: nat): nat {
    if a < b then a else b
  }

  /** Whether a request ends before the end of a string of this length. */
  predicate Shortens(idx: nat, length: nat) {
    idx != NPOS && idx < length
  }

  /** What `substr(idx, off)` is asked for: the first `idx` characters without the first `off`. */
  function Slice(s: string, idx: nat, off: nat): string {
    var end := if Shortens(idx, |s|) then idx else |s|;
    s[Min(off, end)..end]
  }

  /** A view of a text: it starts at `offset` and ends before `index`; `saved` belongs at `index`. */
  datatype Part = Part(index: nat, offset: nat, saved: char)

  /** The part ends in the text at a '\0' of its own or its parent's, or where the text ends. */
  predicate Sits(text: string, p: Part) {
    && p.offset <= p.index <= |text|
    && (p.index < |text| ==> text[p.index] == '\0')
    && (p.index == |text| ==> p.saved == '\0')
  }

  function View(text: string, p: Part): string
    requires p.offset <= p.index <= |text|
  {
    text[p.offset..p.index]
  }

  /** The view of a whole string. */
  function Whole(text: string): Part {
    Part(|text|, 0, '\0')
  }

  function SubPart(text: string, p: Part, idx: nat, off: nat): Part
    requires p.offset <= p.index <= |text|
  {
    if Shortens(idx, p.index - p.offset)
    then Part(p.offset + idx, Min(p.offset + off, p.offset + idx), text[p.offset + idx])
    else Part(p.index, Min(p.offset + off, p.index), '\0')
  }

  /** The text once the part `SubPart(text, p, idx, off)` has been made. */
  function Cut(text: string, p: Part, idx: nat): (t: string)
    requires p.offset <= p.index <= |text|
    ensures |t| == |text|
  {
    if Shortens(idx, p.index - p.offset) then text[p.offset + idx := '\0'] else text
  }

  /** The text once the part has been cleared. */
  function Uncut(text: string, p: Part): (t: string)
    ensures |t| == |text|
  {
    if p.index < |text| then text[p.index := p.saved] else text
  }

  lemma SliceOfSlice(text: string, a: nat, b: nat, x: nat, y: nat)
    requires a <= b <= |text| && x <= y <= b - a
    ensures text[a..b][x..y] == text[a + x..a + y]
  {
    var inner := text[a..b];
    var outer := text[a + x..a + y];
    assert forall i :: 0 <= i < y - x ==> inner[x..y][i] == inner[x + i] == text[a + x + i];
    assert forall i :: 0 <= i < y - x ==> outer[i] == text[a + x + i];
  }

  /** A part of a part shows what was asked for, and clearing it restores the text exactly. */
  lemma SubPartFits(text: string, p: Part, idx: nat, off: nat)
    requires Sits(text, p)
    ensures var q, t := SubPart(text, p, idx, off), Cut(text, p, idx);
            && Sits(t, q)
            && Sits(t, p)
            && View(t, q) == Slice(View(text, p), idx, off)
            && Uncut(t, q) == text
  {
    SubPartShows(text, p, idx, off);
    var q, t := SubPart(text, p, idx, off), Cut(text, p, idx);
    assert Uncut(t, q) == text;
  }

  lemma SubPartShows(text: string, p: Part, idx: nat, off: nat)
    requires p.offset <= p.index <= |text|
    ensures
      var q, t := SubPart(text, p, idx, off), Cut(text, p, idx);
      q.offset <= q.index <= |t| && View(t, q) == Slice(View(text, p), idx, off)
  {
    var q, t := SubPart(text, p, idx, off), Cut(text, p, idx);
    var end := if Shortens(idx, p.index - p.offset) then idx else p.index - p.offset;
    var begin := Min(off, end);
    assert q.offset == p.offset + begin && q.index == p.offset + end;
    assert t[q.offset..q.index] == text[q.offset..q.index];
    SliceOfSlice(text, p.offset, p.index, begin, end);
  }

  // ---------- C strings ----------

  predicate NulFree(s: string) {
    forall i :: 0 <= i < |s| ==> s[i] != '\0'
  }

  /** The C string that begins at `from`; the text is followed by a terminator. */
  function CString(text: string, from: nat): string
    requires from <= |text|
    decreases |text| - from
  {
    if from == |text| || text[from] == '\0' then "" else [text[from]] + CString(text, from + 1)
  }

  /** `length()` is what `strlen(c_str())` would count. */
  lemma {:induction false} ViewIsCString(text: string, p: Part)
    requires Sits(text, p) && NulFree(View(text, p))
    ensures CString(text, p.offset) == View(text, p)
    decreases p.index - p.offset
  {
    if p.offset < p.index {
      var q := p.(offset := p.offset + 1);
      assert View(text, p) == [text[p.offset]] + View(text, q);
      assert NulFree(View(text, q)) by {
        assert forall i :: 0 <= i < |View(text, q)| ==> View(text, q)[i] == View(text, p)[i + 1];
      }
      assert View(text, p)[0] != '\0';
      ViewIsCString(text, q);
    }
  }

  // ---------- Nests ----------

  datatype Request = Request(idx: nat, off: nat)

  /** A string and the parts in use, the most recent last. */
  datatype Nest = Nest(text: string, parts: seq<Part>)

  datatype Op = Make(r: Request) | Clear

  /** The most recent part, or the string itself. */
  function Top(n: Nest): Part {
    if n.parts == [] then Whole(n.text) else n.parts[|n.parts| - 1]
  }

  predicate Showing(n: Nest) {
    Top(n).offset <= Top(n).index <= |n.text|
  }

  function Made(n: Nest, r: Request): Nest
    requires Showing(n)
  {
    Nest(Cut(n.text, Top(n), r.idx), n.parts + [SubPart(n.text, Top(n), r.idx, r.off)])
  }

  function Cleared(n: Nest): Nest
    requires n.parts != []
  {
    Nest(Uncut(n.text, Top(n)), n.parts[..|n.parts| - 1])
  }

  /** Parts are made of the most recent part, and only the most recent part is cleared. */
  function Run(n: Nest, ops: seq<Op>): Nest
    decreases |ops|
  {
    if ops == [] then n
    else if ops[0].Make? then if Showing(n) then Run(Made(n, ops[0].r), ops[1..]) else n
    else if n.parts != [] then Run(Cleared(n), ops[1..]) else n
  }

  /** The requests for the parts still in use after `ops`, when those in `requests` were in use before. */
  function InUse(requests: seq<Request>, ops: seq<Op>): seq<Request>
    decreases |ops|
  {
    if ops == [] then requests
    else if ops[0].Make? then InUse(requests + [ops[0].r], ops[1..])
    else if requests != [] then InUse(requests[..|requests| - 1], ops[1..])
    else requests
  }

  /** What a chain of requests asks for. */
  function Requested(base: string, requests: seq<Request>): string
    decreases |requests|
  {
    if requests == [] then base
    else
      var last := requests[|requests| - 1];
      Slice(Requested(base, requests[..|requests| - 1]), last.idx, last.off)
  }

  /** `n` is what making a part for each request in turn, and nothing else, leads to. */
  function Built(base: string, requests: seq<Request>): (n: Nest)
    ensures |n.parts| == |requests| && Sits(n.text, Top(n))
    ensures View(n.text, Top(n)) == Requested(base, requests)
    decreases |requests|
  {
    if requests == [] then Nest(base, [])
    else
      var before, last := Built(base, requests[..|requests| - 1]), requests[|requests| - 1];
      SubPartFits(before.text, Top(before), last.idx, last.off);
      Made(before, last)
  }

  lemma ClearedBuilt(base: string, requests: seq<Request>)
    requires requests != []
    ensures Cleared(Built(base, requests)) == Built(base, requests[..|requests| - 1])
  {
    var before, last := Built(base, requests[..|requests| - 1]), requests[|requests| - 1];
    SubPartFits(before.text, Top(before), last.idx, last.off);
    assert Made(before, last).parts[..|requests| - 1] == before.parts;
  }

  /** Whatever was made and cleared before, only the parts still in use matter. */
  lemma {:induction false} RunIsBuilt(base: string, requests: seq<Request>, ops: seq<Op>)
    ensures Run(Built(base, requests), ops) == Built(base, InUse(requests, ops))
    decreases |ops|
  {
    hide Built;
    if ops != [] {
      if ops[0].Make? {
        MadeBuilt(base, requests, ops[0].r);
        RunIsBuilt(base, requests + [ops[0].r], ops[1..]);
      } else if requests != [] {
        ClearedBuilt(base, requests);
        RunIsBuilt(base, requests[..|requests| - 1], ops[1..]);
      }
    }
  }

  lemma MadeBuilt(base: string, requests: seq<Request>, r: Request)
    ensures Made(Built(base, requests), r) == Built(base, requests + [r])
  {
    assert (requests + [r])[..|requests|] == requests;
  }

  lemma {:induction false} RequestedIsNulFree(base: string, requests: seq<Request>)
    requires NulFree(base)
    ensures NulFree(Requested(base, requests))
    decreases |requests|
  {
    if requests != [] {
      RequestedIsNulFree(base, requests[..|requests| - 1]);
    }
  }

  /**
   After any last-in-first-out use of parts, to any depth, the most recent part reads, as a C string,
   exactly what was asked for; and when none is in use the string is what it was.
   */
  lemma NestIsFaithful(base: string, ops: seq<Op>)
    requires NulFree(base)
    ensures var n := Run(Nest(base, []), ops);
            && Showing(n)
            && View(n.text, Top(n)) == Requested(base, InUse([], ops))
            && CString(n.text, Top(n).offset) == Requested(base, InUse([], ops))
    ensures InUse([], ops) == [] ==> Run(Nest(base, []), ops).text == base
  {
    RunIsBuilt(base, [], ops);
    RequestedIsNulFree(base, InUse([], ops));
    var n := Run(Nest(base, []), ops);
    ViewIsCString(n.text, Top(n));
  }

  /**
   Cleared in the wrong order, a part and the part it was made of leave the string as it was exactly
   when the inner part ends before the outer one, or nothing but '\0' was overwritten for the outer one.
   */
  lemma OutOfOrder(text: string, p: Part, idx: nat, off: nat)
    requires Sits(text, p)
    ensures var q, t := SubPart(text, p, idx, off), Cut(text, p, idx);
            Uncut(Uncut(t, p), q) == Uncut(text, p) <==> Shortens(idx, p.index - p.offset) || p.saved == '\0'
  {
    var q, t := SubPart(text, p, idx, off), Cut(text, p, idx);
    if Shortens(idx, p.index - p.offset) || p.saved == '\0' {
      assert Uncut(Uncut(t, p), q) == Uncut(text, p);
    } else {
      assert Uncut(Uncut(t, p), q)[p.index] == '\0' && Uncut(text, p)[p.index] == p.saved;
    }
  }

  lemma OutOfOrderSpoils()
    ensures var text := "/a/b";
            var p, t := SubPart(text, Whole(text), 2, 0), Cut(text, Whole(text), 2);
            var q := SubPart(t, p, NPOS, 1);
            Sits(t, p) && View(t, q) == "a" && Uncut(Uncut(Cut(t, p, NPOS), p), q) == "/a\0b"
  {
  }

  // ---------- Objects ----------

  /** A string object; the terminator that follows its characters is left implicit. */
  class Chars {
    var text: string

    constructor (text: string)
      ensures this.text == text
    {
      this.text := text;
    }
  }

  datatype Kind = CSTR | CCSTR | CPPSTR

  class StringPart {
    var chars: Chars?      // null when the part is empty and points to its own `saved`
    var index: nat
    var offset: nat
    var saved: char
    var owner: bool
    var kind: Kind

    function AsPart(): Part
      reads this
    {
      Part(index, offset, saved)
    }

    ghost predicate Valid()
      reads this, chars
    {
      && (chars == null ==> index == 0 && offset == 0 && saved == '\0' && !owner && kind == CSTR)
      && (chars != null ==> Sits(chars.text, AsPart()))
      && (kind == CCSTR ==> chars != null && offset == 0 && index == |chars.text|)
    }

    function Text(): string
      reads this, chars
      requires Valid()
    {
      if chars == null then "" else View(chars.text, AsPart())
    }

    constructor Empty()
      ensures Valid() && chars == null && Text() == ""
    {
      chars, index, offset, saved, owner, kind := null, 0, 0, '\0', false, CSTR;
    }

    constructor OfString(str: Chars, idx: nat, off: nat)
      modifies str
      ensures Valid() && chars == str && kind == CPPSTR
      ensures AsPart() == SubPart(old(str.text), Whole(old(str.text)), idx, off)
      ensures str.text == Cut(old(str.text), Whole(old(str.text)), idx)
      ensures Text() == Slice(old(str.text), idx, off)
    {
      SubPartFits(str.text, Whole(str.text), idx, off);
      assert View(str.text, Whole(str.text)) == str.text;
      chars, index, saved, owner, kind := str, idx, '\0', false, CPPSTR;
      if idx == NPOS || idx >= |str.text| {
        index := |str.text|;
        offset := Min(off, |str.text|);
      } else {
        saved := str.text[idx];
        offset := Min(off, idx);
        str.text := str.text[idx := '\0'];
      }
    }

    constructor OfConst(str: Chars)
      ensures Valid() && chars == str && kind == CCSTR && Text() == str.text
    {
      chars, index, offset, saved, owner, kind := str, |str.text|, 0, '\0', false, CCSTR;
    }

    method Clear()
      requires Valid()
      modifies this, chars
      ensures Valid() && chars == null && Text() == ""
      ensures old(chars) != null ==> old(chars).text == Uncut(old(chars.text), old(AsPart()))
    {
      if chars != null && kind != CCSTR && index < |chars.text| {
        chars.text := chars.text[index := saved];
      }
      chars, index, offset, saved, owner, kind := null, 0, 0, '\0', false, CSTR;
    }

    /** A deep copy into an empty part. */
    method Assign(rhs: StringPart)
      requires rhs.Valid() && rhs != this && chars == null
      modifies this
      ensures Valid() && Text() == rhs.Text() && chars != null && fresh(chars) && owner && kind == CSTR
      ensures AsPart() == Whole(rhs.Text()) && chars.text == rhs.Text()
    {
      chars := new Chars(rhs.Text());
      index, offset, saved, owner, kind := |rhs.Text()|, 0, '\0', true, CSTR;
    }

    /** The text of `s`, once a part that was made of it has been cleared. */
    static ghost function Without(s: Chars, part: StringPart): string
      reads s, part
    {
      if part.chars == s then Uncut(s.text, part.AsPart()) else s.text
    }

    /** The last lines of `substr`: this part already shares the characters of `p`. */
    method TakeOf(p: Part, idx: nat, off: nat)
      requires chars != null && Sits(chars.text, p) && saved == '\0' && kind != CCSTR
      modifies this`index, this`offset, this`saved, chars
      ensures Valid() && AsPart() == SubPart(old(chars.text), p, idx, off)
      ensures chars.text == Cut(old(chars.text), p, idx)
      ensures Text() == Slice(View(old(chars.text), p), idx, off)
    {
      SubPartFits(chars.text, p, idx, off);
      if idx != NPOS && idx < p.index - p.offset {
        index := p.offset + idx;
        saved := chars.text[index];
        chars.text := chars.text[index := '\0'];
      } else {
        index := p.index;
      }
      offset := Min(p.offset + off, index);
    }

    /** Clears `target`, then makes it a part of this one; a constant string is copied first. */
    method Substr(target: StringPart, idx: nat, off: nat)
      requires Valid() && target.Valid() && target != this
      requires chars != null ==> Sits(Without(chars, target), AsPart())
      requires kind == CCSTR ==> target.chars != chars
      modifies target, target.chars, chars
      ensures Valid() && target.Valid()
      ensures chars != null ==> target.Text() == Slice(View(old(Without(chars, target)), AsPart()), idx, off)
      ensures chars == null ==> target.Text() == ""
      ensures chars != null && kind != CCSTR ==>
                && target.chars == chars
                && target.AsPart() == SubPart(old(Without(chars, target)), AsPart(), idx, off)
                && chars.text == Cut(old(Without(chars, target)), AsPart(), idx)
      ensures kind == CCSTR ==> chars.text == old(chars.text) && (target.chars != null ==> fresh(target.chars))
      ensures old(target.chars) != null && old(target.chars) != chars ==>
                old(target.chars).text == old(Without(target.chars, target))
    {
      hide SubPart, Cut, Uncut;
      target.Clear();
      if chars == null {
        return;
      }
      if kind != CCSTR {
        target.chars, target.kind := chars, kind;
        SubPartFits(chars.text, AsPart(), idx, off);
        target.TakeOf(AsPart(), idx, off);
      } else if index != offset {
        target.Assign(this);
        target.TakeOf(AsPart(), idx, off);
      }
    }

    /** `memchr` on the part, from `pos`. */
    method FindFirstOf(c: char, pos: nat) returns (k: nat)
      requires Valid() && |Text()| < NPOS
      ensures k != NPOS ==> pos <= k < |Text()| && Text()[k] == c
      ensures forall i :: pos <= i < |Text()| && i < k ==> Text()[i] != c
    {
      if pos >= index - offset {
        return NPOS;
      }
      k := pos;
      while k < index - offset
        invariant pos <= k <= |Text()|
        invariant forall i :: pos <= i < k ==> Text()[i] != c
      {
        if chars.text[offset + k] == c {
          return;
        }
        k := k + 1;
      }
      k := NPOS;
    }

    /** `memcmp` of the first characters. */
    method StartsWith(rhs: StringPart) returns (r: bool)
      requires Valid() && rhs.Valid()
      ensures r <==> rhs.Text() <= Text()
    {
      var mine, other := Text(), rhs.Text();
      if |mine| < |other| {
        return false;
      }
      var i := 0;
      while i < |other|
        invariant i <= |other|
        invariant forall k :: 0 <= k < i ==> mine[k] == other[k]
      {
        if mine[i] != other[i] {
          return false;
        }
        i := i + 1;
      }
      r := true;
    }
  }
}
