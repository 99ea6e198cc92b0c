/**
 What the resolver's string edits do to the text of a path, in terms of the stack
 of components before a position and the components after it.
 */
module PathEdits {
  import opened PathText
  import opened PathSpec

  /** `StringPart(path, idx, off)`: the characters from `off` up to `idx`, both clipped. */
  function Clip(path: string, idx: nat, off: nat): string {
    var end := if idx >= |path| then |path| else idx;
    path[if off <= end then off else end..end]
  }

  /** `s.erase(pos, len)`. */
  function Erase(s: string, pos: nat, len: nat): string
    requires pos <= |s|
  {
    s[..pos] + (if pos + len <= |s| then s[pos + len..] else "")
  }

  lemma TailHead(todo: seq<string>)
    requires todo != []
    ensures Tail(todo) == "/" + todo[0] + Tail(todo[1..])
  {
  }

  lemma EraseMiddle(a: string, b: string, c: string)
    ensures Erase(a + b + c, |a|, |b|) == a + c
  {
    assert (a + b + c)[..|a|] == a && (a + b + c)[|a| + |b|..] == c;
  }

  lemma TextUp(stack: seq<string>, todo: seq<string>)
    requires stack != [] && todo != []
    ensures Text(stack, todo) ==
            Render(stack[..|stack| - 1]) + ("/" + stack[|stack| - 1] + "/" + todo[0]) + Tail(todo[1..])
  {
    TailHead(todo);
  }

  /** Cutting a ".." and the component before it out of the text. */
  lemma EraseUp(stack: seq<string>, todo: seq<string>, from: nat, slash: nat)
    requires stack != [] && todo != []
    requires from == |Render(stack[..|stack| - 1])|
    requires slash == |Render(stack)| + 1 + |todo[0]|
    ensures from <= slash && from <= |Text(stack, todo)|
    ensures Erase(Text(stack, todo), from, slash - from) == Text(stack[..|stack| - 1], todo[1..])
  {
    TextUp(stack, todo);
    EraseMiddle(Render(stack[..|stack| - 1]), "/" + stack[|stack| - 1] + "/" + todo[0], Tail(todo[1..]));
  }

  /** What is left to do after a ".."; a path that became empty turns into "/". */
  function AfterUp(up: seq<string>, rest: seq<string>): seq<string> {
    if rest == [] && up == [] then [""] else rest
  }

  lemma UpTextNonempty(up: seq<string>, rest: seq<string>)
    ensures (if Text(up, rest) == "" then "/" else Text(up, rest)) == Text(up, AfterUp(up, rest))
  {
    hide Join;
    if up == [] && rest == [] {
      assert Join([""]) == "" by { JoinOne(""); }
    } else if up != [] {
      RenderNonempty(up);
    }
  }

  lemma JoinOne(c: string)
    ensures Join([c]) == c
  {
  }

  lemma RenderNonempty(stack: seq<string>)
    requires stack != []
    ensures Render(stack) != ""
  {
  }

  /** Components that take up room in the text and have no slash. */
  predicate AllSolid(stack: seq<string>) {
    forall i :: 0 <= i < |stack| ==> stack[i] != "" && SlashFree(stack[i])
  }

  /** A path and a position in it that stand for `stack` handled and `todo` unhandled. */
  ghost predicate Shape(path: string, index: nat, stack: seq<string>, todo: seq<string>) {
    && AllSolid(stack)
    && AllSlashFree(todo)
    && path == Text(stack, todo)
    && index == |Render(stack)| + 1
    && |path| <= PATH_MAX
  }

  /** What `path` becomes when a ".." and the component before it, from `from` on, go. */
  function Shorten(path: string, from: nat, slash: nat): string
    requires from <= slash && from <= |path|
  {
    var cut := Erase(path, from, slash - from);
    if cut == "" then "/" else cut
  }

  lemma ShortenText(stack: seq<string>, todo: seq<string>, from: nat, slash: nat)
    requires stack != [] && todo != []
    requires from == |Render(stack[..|stack| - 1])|
    requires slash == |Render(stack)| + 1 + |todo[0]|
    ensures from <= slash && from <= |Text(stack, todo)|
    ensures
      var up := stack[..|stack| - 1];
      Shorten(Text(stack, todo), from, slash) == Text(up, AfterUp(up, todo[1..]))
  {
    hide Render, Join, Erase;
    EraseUp(stack, todo, from, slash);
    UpTextNonempty(stack[..|stack| - 1], todo[1..]);
  }

  lemma ShortenLength(path: string, from: nat, slash: nat)
    requires from <= slash <= |path| && path != ""
    ensures |Shorten(path, from, slash)| <= |path|
  {
  }

  /** The text after a "..", whose start in `path` is the last slash before the component. */
  lemma UpShape(path: string, index: nat, stack: seq<string>, todo: seq<string>, from: nat)
    requires stack != [] && todo != [] && Shape(path, index, stack, todo)
    requires from == |Render(stack[..|stack| - 1])|
    ensures from <= index + |todo[0]| <= |path|
    ensures Shape(Shorten(path, from, index + |todo[0]|), from + 1,
                  stack[..|stack| - 1], AfterUp(stack[..|stack| - 1], todo[1..]))
  {
    hide Render, Shorten;
    var slash := index + |todo[0]|;
    TailHead(todo);
    assert slash <= |path|;
    ShortenText(stack, todo, from, slash);
    ShortenLength(path, from, slash);
  }

  lemma JoinTail(parts: seq<string>, rest: seq<string>)
    requires parts != []
    ensures Join(parts + rest) == Join(parts) + Tail(rest)
  {
    if rest == [] {
      assert parts + rest == parts;
    } else {
      JoinAppend(parts, rest);
    }
  }

  /** The text that replaces a link by its target. */
  lemma SplicedText(stack: seq<string>, text: string, rest: seq<string>)
    ensures Text(stack, Split(text) + rest) == Render(stack) + "/" + text + Tail(rest)
  {
    JoinSplit(text);
    JoinTail(Split(text), rest);
  }

  /** Splitting the text of a state at its position. */
  lemma TextAt(path: string, index: nat, stack: seq<string>, todo: seq<string>)
    requires Shape(path, index, stack, todo)
    ensures index - 1 <= |path| && path[..index - 1] == Render(stack) && path[index - 1..] == Tail(todo)
    ensures todo == [] <==> index > |path|
  {
  }

  lemma TextOf(path: string, index: nat, stack: seq<string>, todo: seq<string>)
    requires Shape(path, index, stack, todo)
    ensures path == Text(stack, todo)
  {
  }

  lemma SlashBeforeLast(path: string, index: nat, stack: seq<string>, todo: seq<string>)
    requires stack != [] && Shape(path, index, stack, todo)
    ensures index >= 2 && LastSlash(path, index - 2) == |Render(stack[..|stack| - 1])|
  {
    LastSlashOfRender(stack, path, index - 2);
  }

  lemma ShapeOf(path: string, index: nat, stack: seq<string>, todo: seq<string>)
    requires AllSolid(stack) && AllSlashFree(todo)
    requires path == Text(stack, todo) && index == |Render(stack)| + 1 && |path| <= PATH_MAX
    ensures Shape(path, index, stack, todo)
  {
  }

  lemma PartsOf(path: string, index: nat, stack: seq<string>, todo: seq<string>)
    requires Shape(path, index, stack, todo)
    ensures AllSolid(stack) && AllSlashFree(todo) && |path| <= PATH_MAX
  {
  }

  lemma SplicedSlashFree(text: string, rest: seq<string>)
    requires AllSlashFree(rest)
    ensures AllSlashFree(Split(text) + rest)
  {
    SplitIsSlashFree(text);
  }

  lemma IndexAtRoot(path: string, index: nat, stack: seq<string>, todo: seq<string>)
    requires Shape(path, index, stack, todo)
    ensures index >= 1 && (index <= 1 <==> stack == [])
  {
  }

  /** The name of `down` relative to a filesystem mounted above it. */
  lemma RelativeName(path: string, index: nat, down: seq<string>, rest: seq<string>, m: nat)
    requires Shape(path, index, down, rest) && m < |down|
    ensures Clip(path, index - 1, |Render(down[..m])| + 1) == Join(down[m..])
  {
    RenderPrefix(down, m);
    TextAt(path, index, down, rest);
    assert Clip(path, index - 1, |Render(down[..m])| + 1) == path[..index - 1][|Render(down[..m])| + 1..];
  }

  /** The unhandled rest of the text, as both kinds of link keep it. */
  function Remainder(path: string, index: nat): string
    requires 1 <= index
  {
    if index <= |path| then path[index - 1..] else ""
  }

  lemma RemainderIsTail(path: string, index: nat, down: seq<string>, rest: seq<string>)
    requires Shape(path, index, down, rest)
    ensures Remainder(path, index) == Tail(rest)
    ensures |path| == index - 1 + |Tail(rest)|
  {
    TextAt(path, index, down, rest);
  }

  /** An absolute link: the precomputed length and the new text are exact. */
  lemma AbsoluteSplice(path: string, index: nat, down: seq<string>, rest: seq<string>, target: string)
    requires Shape(path, index, down, rest) && target != "" && target[0] == '/'
    ensures target + Remainder(path, index) == Text([], Split(target[1..]) + rest)
    ensures |target| + |path| - index + 1 == |Text([], Split(target[1..]) + rest)|
  {
    RemainderIsTail(path, index, down, rest);
    SplicedText([], target[1..], rest);
    assert target == "/" + target[1..];
  }

  /** A relative link: the precomputed length and the new text are exact. */
  lemma RelativeSplice(path: string, index: nat, down: seq<string>, rest: seq<string>,
                       target: string, from: nat)
    requires down != [] && Shape(path, index, down, rest)
    requires from == |Render(down[..|down| - 1])|
    ensures from + 1 <= |path|
    ensures path[..from + 1] + target + Remainder(path, index) ==
            Text(down[..|down| - 1], Split(target) + rest)
    ensures |path| - (index - from - 2) + |target| == |Text(down[..|down| - 1], Split(target) + rest)|
  {
    var up := Render(down[..|down| - 1]);
    RemainderIsTail(path, index, down, rest);
    SplicedText(down[..|down| - 1], target, rest);
    assert Render(down) == up + "/" + down[|down| - 1];
    assert path[..from + 1] == up + "/";
  }

  /** A `find_last_of` from just before the position. */
  lemma FirstBackStep(path: string, index: nat, stack: seq<string>, todo: seq<string>)
    requires Shape(path, index, stack, todo) && (todo == [] ==> stack != [])
    ensures LastSlash(path, index - 1) ==
            |Render(stack[..if todo == [] then |stack| - 1 else |stack|])|
  {
    if todo == [] {
      LastSlashOfRender(stack, path, index - 1);
    } else {
      assert stack[..|stack|] == stack;
      LastSlashUnique(path, index - 1, |Render(stack)|);
    }
  }

  /** The text starts with the rendering of the first `k` components. */
  lemma PrefixText(path: string, index: nat, stack: seq<string>, todo: seq<string>, k: nat)
    requires Shape(path, index, stack, todo) && k <= |stack|
    ensures Render(stack[..k]) <= path
    ensures Clip(path, |Render(stack[..k])|, 0) == Render(stack[..k])
  {
    RenderPrefix(stack, k);
    assert path[..|Render(stack[..k])|] == Render(stack[..k]);
  }

  /** A `find_last_of` from just before the slash that ends the first `k` components. */
  lemma NextBackStep(path: string, index: nat, stack: seq<string>, todo: seq<string>, k: nat)
    requires Shape(path, index, stack, todo) && 0 < k <= |stack|
    ensures |Render(stack[..k])| > 0
    ensures LastSlash(path, |Render(stack[..k])| - 1) == |Render(stack[..k - 1])|
  {
    hide LastSlash, Text, Clip;
    PrefixText(path, index, stack, todo, k);
    LastSlashOfRender(stack[..k], path, |Render(stack[..k])| - 1);
    assert stack[..k][..k - 1] == stack[..k - 1];
  }

  /** Where the component at the position ends. */
  lemma ComponentEnd(path: string, index: nat, stack: seq<string>, todo: seq<string>)
    requires todo != [] && Shape(path, index, stack, todo)
    ensures index + |todo[0]| <= |path|
    ensures FirstSlash(path, index) == index + |todo[0]|
    ensures path[index..index + |todo[0]|] == todo[0]
    ensures path[index + |todo[0]|..] == Tail(todo[1..])
  {
    hide Render, FirstSlash;
    TailHead(todo);
    assert path == (Render(stack) + "/") + todo[0] + Tail(todo[1..]);
    assert forall i :: 0 <= i < |todo[0]| ==> path[index + i] == todo[0][i];
    assert forall i :: index <= i < index + |todo[0]| ==> path[i] == todo[0][i - index];
    FirstSlashUnique(path, index, index + |todo[0]|);
  }

  /** What is left after erasing a component; a slash at the end of the text stays. */
  function AfterSkip(rest: seq<string>): seq<string> {
    if rest == [] then [""] else rest
  }

  lemma EraseToEnd(a: string, c: string)
    ensures Erase(a + c, |a|, |c| + 1) == a
  {
    assert (a + c)[..|a|] == a;
  }

  lemma EraseHeadText(stack: seq<string>, todo: seq<string>)
    requires todo != []
    ensures Erase(Text(stack, todo), |Render(stack)| + 1, |todo[0]| + 1) == Text(stack, AfterSkip(todo[1..]))
  {
    hide Render, Join, Erase;
    var a, c, rest := Render(stack) + "/", todo[0], todo[1..];
    TailHead(todo);
    if rest == [] {
      assert Text(stack, todo) == a + c;
      EraseToEnd(a, c);
      assert Text(stack, [""]) == a by { TailHead([""]); }
    } else {
      assert Text(stack, todo) == a + (c + "/") + Join(rest);
      EraseMiddle(a, c + "/", Join(rest));
    }
  }

  /** Erasing an empty component or a "." together with the slash after it. */
  lemma SkipShape(path: string, index: nat, stack: seq<string>, todo: seq<string>)
    requires todo != [] && Shape(path, index, stack, todo)
    ensures index <= |path|
    ensures Shape(Erase(path, index, |todo[0]| + 1), index, stack, AfterSkip(todo[1..]))
    ensures |Erase(path, index, |todo[0]| + 1)| < |path| || index >= |Erase(path, index, |todo[0]| + 1)|
  {
    TailHead(todo);
    EraseHeadText(stack, todo);
  }

  lemma PushTail(rest: seq<string>)
    ensures Tail(rest) == "" <==> rest == []
  {
  }

  /** Moving the position past a component. */
  lemma PushShape(path: string, index: nat, stack: seq<string>, todo: seq<string>)
    requires todo != [] && todo[0] != "" && Shape(path, index, stack, todo)
    ensures Shape(path, index + |todo[0]| + 1, stack + [todo[0]], todo[1..])
    ensures todo[1..] == [] <==> index + |todo[0]| + 1 > |path|
  {
    hide Render, Tail;
    RenderPush(stack, todo[0]);
    TailHead(todo);
    PushTail(todo[1..]);
    assert Text(stack, todo) == Text(stack + [todo[0]], todo[1..]);
  }

  lemma HandledIff(path: string, index: nat, stack: seq<string>, todo: seq<string>)
    requires Shape(path, index, stack, todo)
    ensures index >= |path| <==> todo == [] || todo == [""]
    ensures todo != [] ==> index <= |path|
    ensures path != ""  <==> stack != [] || todo != []
  {
    if todo != [] { TailHead(todo); }
  }

  /** What the text ends with once it is handled. */
  lemma LastChar(path: string, index: nat, stack: seq<string>, todo: seq<string>)
    requires Shape(path, index, stack, todo) && path != ""
    requires todo == [] || todo == [""]
    ensures path[|path| - 1] == '/' <==> todo == [""]
    ensures path[|path| - 1] == '/' ==> Erase(path, |path| - 1, 1) == Render(stack)
    ensures |Render(stack)| <= |path|
    ensures path[|path| - 1] != '/' ==> path == Render(stack)
  {
    if todo == [] {
      var c := stack[|stack| - 1];
      assert path[|path| - 1] == c[|c| - 1];
    } else {
      assert path == Render(stack) + "/";
    }
  }

  /** How much text is left. */
  lemma RoomLeft(path: string, index: nat, stack: seq<string>, todo: seq<string>)
    requires Shape(path, index, stack, todo)
    ensures |path| - index == |Tail(todo)| - 1
  {
  }

  lemma UpRoom(up: seq<string>, todo: seq<string>)
    requires todo != [] && todo[0] != ""
    ensures |Tail(AfterUp(up, todo[1..]))| < |Tail(todo)|
  {
    TailHead(todo);
    TailHead([""]);
  }

  /** What the character tests of the resolver say about the component at the position. */
  lemma ComponentKind(path: string, index: nat, slash: nat, c: string)
    requires index <= slash <= |path| && path[index..slash] == c
    ensures slash == index <==> c == ""
    ensures slash - index == 1 && path[index] == '.' <==> c == "."
    ensures slash - index == 2 && path[index] == '.' && path[index + 1] == '.' <==> c == ".."
  {
    assert |c| == slash - index;
    assert forall i :: 0 <= i < |c| ==> c[i] == path[index + i];
  }

  lemma StartShape(absolute: string)
    requires absolute != "" && absolute[0] == '/' && |absolute| <= PATH_MAX
    ensures Shape(absolute, 1, [], Split(absolute[1..]))
  {
    SplitIsSlashFree(absolute[1..]);
    JoinSplit(absolute[1..]);
  }
}
