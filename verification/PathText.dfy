/**
 The text of paths: splitting at '/', rendering a component stack, and the two
 std::string searches that the path resolver uses.
 */
module PathText {

  predicate SlashFree(s: string) {
    forall i :: 0 <= i < |s| ==> s[i] != '/'
  }

  predicate AllSlashFree(parts: seq<string>) {
    forall i :: 0 <= i < |parts| ==> SlashFree(parts[i])
  }

  /** A component that stays in a resolved path. */
  predicate Normal(c: string) {
    SlashFree(c) && c != "" && c != "." && c != ".."
  }

  predicate AllNormal(stack: seq<string>) {
    forall i :: 0 <= i < |stack| ==> Normal(stack[i])
  }

  /** `find_first_of('/', from)`, with the length of the string in place of `npos`. */
  function FirstSlash(s: string, from: nat): (k: nat)
    requires from <= |s|
    ensures from <= k <= |s|
    decreases |s| - from
  {
    if from == |s| || s[from] == '/' then from else FirstSlash(s, from + 1)
  }

  /** `find_last_of('/', pos)`: the last slash at or before `pos`, or -1 for `npos`. */
  function LastSlash(s: string, pos: nat): (k: int)
    ensures -1 <= k < |s| && k <= pos
    decreases pos
  {
    if pos < |s| && s[pos] == '/' then pos
    else if pos == 0 then -1
    else LastSlash(s, pos - 1)
  }

  lemma {:induction false} FirstSlashFinds(s: string, from: nat)
    requires from <= |s|
    ensures FirstSlash(s, from) < |s| ==> s[FirstSlash(s, from)] == '/'
    ensures forall i :: from <= i < FirstSlash(s, from) ==> s[i] != '/'
    decreases |s| - from
  {
    if from < |s| && s[from] != '/' {
      FirstSlashFinds(s, from + 1);
    }
  }

  lemma {:induction false} LastSlashFinds(s: string, pos: nat)
    ensures LastSlash(s, pos) >= 0 ==> s[LastSlash(s, pos)] == '/'
    ensures forall i :: LastSlash(s, pos) < i <= pos && i < |s| ==> s[i] != '/'
    decreases pos
  {
    if !(pos < |s| && s[pos] == '/') && pos > 0 {
      LastSlashFinds(s, pos - 1);
    }
  }

  /** The pieces of `s` between slashes; `Split("a//b/") == ["a", "", "b", ""]`. */
  function Split(s: string): (parts: seq<string>)
    ensures |parts| >= 1
    decreases |s|
  {
    var k := FirstSlash(s, 0);
    if k == |s| then [s] else [s[..k]] + Split(s[k + 1..])
  }

  lemma {:induction false} SplitIsSlashFree(s: string)
    ensures AllSlashFree(Split(s))
    decreases |s|
  {
    FirstSlashFinds(s, 0);
    var k := FirstSlash(s, 0);
    if k < |s| {
      SplitIsSlashFree(s[k + 1..]);
    }
  }

  function Join(parts: seq<string>): string {
    if |parts| == 0 then ""
    else if |parts| == 1 then parts[0]
    else parts[0] + "/" + Join(parts[1..])
  }

  /** The absolute path of a component stack; the empty stack renders as the empty string. */
  function Render(stack: seq<string>): string {
    if |stack| == 0 then ""
    else Render(stack[..|stack| - 1]) + "/" + stack[|stack| - 1]
  }

  lemma FirstSlashUnique(s: string, from: nat, k: nat)
    requires from <= k <= |s|
    requires k < |s| ==> s[k] == '/'
    requires forall i :: from <= i < k ==> s[i] != '/'
    ensures FirstSlash(s, from) == k
  {
    FirstSlashFinds(s, from);
  }

  lemma LastSlashUnique(s: string, pos: nat, k: nat)
    requires k < |s| && k <= pos && s[k] == '/'
    requires forall i :: k < i <= pos && i < |s| ==> s[i] != '/'
    ensures LastSlash(s, pos) == k
  {
    LastSlashFinds(s, pos);
  }

  lemma {:induction false} JoinSplit(s: string)
    ensures Join(Split(s)) == s
    decreases |s|
  {
    var k := FirstSlash(s, 0);
    FirstSlashFinds(s, 0);
    if k < |s| {
      var rest := s[k + 1..];
      JoinSplit(rest);
      var parts := [s[..k]] + Split(rest);
      assert parts[1..] == Split(rest);
      assert s == s[..k] + "/" + rest;
    }
  }

  lemma SplitCut(s: string, k: nat)
    requires k < |s| && s[k] == '/'
    requires forall i :: 0 <= i < k ==> s[i] != '/'
    ensures Split(s) == [s[..k]] + Split(s[k + 1..])
  {
    FirstSlashUnique(s, 0, k);
  }

  /** Splitting distributes over a slash. */
  lemma {:induction false} SplitAtSlash(a: string, b: string)
    ensures Split(a + "/" + b) == Split(a) + Split(b)
    decreases |a|
  {
    var s := a + "/" + b;
    var k := FirstSlash(a, 0);
    FirstSlashFinds(a, 0);
    assert forall i :: 0 <= i < k ==> s[i] == a[i];
    assert s[..k] == a[..k];
    SplitCut(s, k);
    if k == |a| {
      assert s[k + 1..] == b && a[..k] == a;
    } else {
      var rest := a[k + 1..];
      SplitAtSlash(rest, b);
      assert s[k + 1..] == rest + "/" + b;
      assert [a[..k]] + (Split(rest) + Split(b)) == ([a[..k]] + Split(rest)) + Split(b);
    }
  }

  lemma SplitSlashFree(c: string)
    requires SlashFree(c)
    ensures Split(c) == [c]
  {
    FirstSlashUnique(c, 0, |c|);
  }

  lemma {:induction false} SplitJoin(parts: seq<string>)
    requires |parts| >= 1 && AllSlashFree(parts)
    ensures Split(Join(parts)) == parts
  {
    SplitSlashFree(parts[0]);
    if |parts| > 1 {
      SplitJoin(parts[1..]);
      SplitAtSlash(parts[0], Join(parts[1..]));
      assert parts == [parts[0]] + parts[1..];
    } else {
      assert parts == [parts[0]];
    }
  }

  lemma {:induction false} JoinAppend(a: seq<string>, b: seq<string>)
    requires |a| >= 1 && |b| >= 1
    ensures Join(a + b) == Join(a) + "/" + Join(b)
  {
    if |a| == 1 {
      assert (a + b)[1..] == b;
    } else {
      JoinAppend(a[1..], b);
      assert (a + b)[1..] == a[1..] + b;
    }
  }

  lemma RenderPush(stack: seq<string>, c: string)
    ensures Render(stack + [c]) == Render(stack) + "/" + c
  {
    assert (stack + [c])[..|stack|] == stack;
  }

  /** Rendering a stack is a slash followed by the joined components. */
  lemma {:induction false} RenderIsJoin(stack: seq<string>)
    requires |stack| >= 1
    ensures Render(stack) == "/" + Join(stack)
  {
    var init, c := stack[..|stack| - 1], stack[|stack| - 1];
    assert stack == init + [c];
    if init != [] {
      RenderIsJoin(init);
      JoinAppend(init, [c]);
    }
  }

  lemma {:induction false} RenderAppend(a: seq<string>, b: seq<string>)
    ensures Render(a + b) == Render(a) + Render(b)
  {
    if b == [] {
      assert a + b == a;
    } else {
      var init, c := b[..|b| - 1], b[|b| - 1];
      assert (a + b)[..|a + b| - 1] == a + init;
      RenderAppend(a, init);
    }
  }

  /** A mountpoint's text is a prefix of everything below it. */
  lemma RenderPrefix(stack: seq<string>, m: nat)
    requires m <= |stack|
    ensures |Render(stack[..m])| <= |Render(stack)|
    ensures Render(stack)[..|Render(stack[..m])|] == Render(stack[..m])
    ensures m < |stack| ==> |Render(stack[..m])| + 1 <= |Render(stack)|
    ensures m < |stack| ==> Render(stack)[|Render(stack[..m])| + 1..] == Join(stack[m..])
  {
    assert stack == stack[..m] + stack[m..];
    RenderAppend(stack[..m], stack[m..]);
    if m < |stack| {
      RenderIsJoin(stack[m..]);
    }
  }

  /** Splitting a rendered stack gives the stack back. */
  lemma SplitRender(stack: seq<string>)
    requires |stack| >= 1 && AllSlashFree(stack)
    ensures Render(stack)[0] == '/'
    ensures Split(Render(stack)[1..]) == stack
  {
    RenderIsJoin(stack);
    SplitJoin(stack);
    assert Render(stack)[1..] == Join(stack);
  }

  lemma RenderNone(stack: seq<string>)
    ensures Render(stack[..0]) == ""
  {
  }

  /** A rendered stack of normal components ends with a character of the last one. */
  lemma RenderEnd(stack: seq<string>)
    requires |stack| >= 1 && AllNormal(stack)
    ensures
      var up, c := stack[..|stack| - 1], stack[|stack| - 1];
      Render(stack) == Render(up) + "/" + c && SlashFree(c) && c != ""
    ensures Render(stack) != "" && Render(stack)[|Render(stack)| - 1] != '/'
  {
    var up, c := Render(stack[..|stack| - 1]), stack[|stack| - 1];
    assert Normal(c);
    assert (up + "/" + c)[|up| + |c|] == c[|c| - 1];
  }

  /** Where the last component of a rendered stack starts. */
  lemma LastSlashOfRender(stack: seq<string>, s: string, pos: nat)
    requires |stack| >= 1 && SlashFree(stack[|stack| - 1])
    requires Render(stack) <= s
    requires pos == |Render(stack)| - 1 || (pos == |Render(stack)| && |s| == pos)
    ensures LastSlash(s, pos) == |Render(stack[..|stack| - 1])|
  {
    var up := Render(stack[..|stack| - 1]);
    var c := stack[|stack| - 1];
    var full := Render(stack);
    assert full == up + "/" + c;
    assert forall i :: 0 <= i < |full| ==> s[i] == full[i];
    assert forall i :: |up| < i < |full| ==> full[i] == c[i - |up| - 1];
    LastSlashUnique(s, pos, |up|);
  }

  /** A path without one trailing slash. */
  function WithoutLastSlash(path: string): string {
    if path != "" && path[|path| - 1] == '/' then path[..|path| - 1] else path
  }
}
