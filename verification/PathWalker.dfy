/** Walking through the elements of a path, each shown as an in-place part of it. */
module PathWalker {
  import opened Common
  import opened PathText
  import opened StringPart

  /** Where the first character that is not a leading slash is. */
  function Leading(path: string): (k: nat)
    ensures k <= |path| && (k < |path| ==> path[k] != '/')
    ensures forall i :: 0 <= i < k ==> path[i] == '/'
    decreases |path|
  {
    if path == "" || path[0] != '/' then 0 else 1 + Leading(path[1..])
  }

  /** What successive calls of `next` show of the rest of a path. */
  function Elements(rest: string): seq<string>
    decreases |rest|
  {
    if rest == "" then []
    else
      var k := FirstSlash(rest, 0);
      if k == |rest| then [rest] else [rest[..k]] + Elements(rest[k + 1..])
  }

  /** The path from where the walk begins. */
  function Body(path: string): string {
    path[Leading(path)..]
  }

  /** The first element ends at the first slash. */
  lemma FirstElement(rest: string, k: nat)
    requires rest != "" && k <= |rest| && SlashFree(rest[..k]) && (k < |rest| ==> rest[k] == '/')
    ensures Elements(rest) == if k == |rest| then [rest] else [rest[..k]] + Elements(rest[k + 1..])
  {
    hide FirstSlash;
    assert forall i :: 0 <= i < k ==> rest[i] == rest[..k][i];
    FirstSlashUnique(rest, 0, k);
  }

  lemma LastSlashBehind(rest: string, k: nat)
    requires k + 1 < |rest|
    ensures
      var w := WithoutLastSlash(rest);
      k < |w| && w[..k] == rest[..k] && w[k] == rest[k] && w[k + 1..] == WithoutLastSlash(rest[k + 1..])
  {
  }

  /** The elements are the pieces between the slashes, but for an empty one after the last slash. */
  lemma {:induction false} ElementsAreSplit(rest: string)
    requires rest != ""
    ensures Elements(rest) == Split(WithoutLastSlash(rest))
    decreases |rest|
  {
    hide Split, FirstSlash, Elements, WithoutLastSlash;
    var k, w := FirstSlash(rest, 0), WithoutLastSlash(rest);
    FirstSlashFinds(rest, 0);
    if k >= |rest| - 1 {
      LastElement(rest, k);
    } else {
      FirstElement(rest, k);
      ElementsAreSplit(rest[k + 1..]);
      LastSlashBehind(rest, k);
      SplitFirst(w, k);
    }
  }

  lemma LastElement(rest: string, k: nat)
    requires k <= |rest| <= k + 1 && rest != "" && SlashFree(rest[..k]) && (k < |rest| ==> rest[k] == '/')
    ensures Elements(rest) == Split(WithoutLastSlash(rest))
  {
    hide Split, FirstSlash, Elements, SlashFree;
    FirstElement(rest, k);
    SplitSlashFree(rest[..k]);
    if k == |rest| {
      assert rest[..k] == rest;
      EndsInElement(rest);
    } else {
      assert rest[k + 1..] == "";
      NoElement();
    }
  }

  lemma EndsInElement(rest: string)
    requires SlashFree(rest)
    ensures WithoutLastSlash(rest) == rest
  {
  }

  lemma NoElement()
    ensures Elements("") == []
  {
  }

  lemma SplitFirst(w: string, k: nat)
    requires k < |w| && SlashFree(w[..k]) && w[k] == '/'
    ensures Split(w) == [w[..k]] + Split(w[k + 1..])
  {
    hide Split;
    assert forall i :: 0 <= i < k ==> w[i] == w[..k][i];
    SplitCut(w, k);
  }

  /** Joined again, the elements give the path without its leading slashes and without one slash at its end. */
  lemma ElementsJoin(path: string)
    ensures Join(Elements(Body(path))) == WithoutLastSlash(Body(path))
    ensures AllSlashFree(Elements(Body(path)))
  {
    if Body(path) != "" {
      ElementsAreSplit(Body(path));
      JoinSplit(WithoutLastSlash(Body(path)));
      SplitIsSlashFree(WithoutLastSlash(Body(path)));
    }
  }

  predicate SlashesAt(s: string, i: nat) {
    i + 1 < |s| && s[i] == '/' && s[i + 1] == '/'
  }

  predicate DoubleSlash(s: string) {
    exists i: nat :: i < |s| && SlashesAt(s, i)
  }

  lemma {:induction false} EmptyElementIffDouble(rest: string)
    ensures "" in Elements(rest) <==> (rest != "" && rest[0] == '/') || DoubleSlash(rest)
    decreases |rest|
  {
    hide FirstSlash;
    var k := FirstSlash(rest, 0);
    FirstSlashFinds(rest, 0);
    if k < |rest| {
      var tail := rest[k + 1..];
      EmptyElementIffDouble(tail);
      if DoubleSlash(tail) {
        var i: nat :| i < |tail| && SlashesAt(tail, i);
        assert SlashesAt(rest, i + k + 1);
      }
      if tail != "" && tail[0] == '/' {
        assert SlashesAt(rest, k);
      }
      if DoubleSlash(rest) {
        var i: nat :| i < |rest| && SlashesAt(rest, i);
        assert i >= k;
        if i > k { assert SlashesAt(tail, i - k - 1); }
      }
    }
  }

  /** An element is empty exactly when the path, after its leading slashes, has two slashes in a row. */
  lemma EmptyElementIff(path: string)
    ensures "" in Elements(Body(path)) <==> DoubleSlash(Body(path))
  {
    EmptyElementIffDouble(Body(path));
  }

  /** On a resolved path, absolute or relative to a mountpoint, the elements are the components. */
  lemma ElementsOfRender(stack: seq<string>)
    requires AllNormal(stack)
    ensures Elements(Body(Render(stack))) == stack
    ensures Elements(Body(Join(stack))) == stack
  {
    if stack != [] {
      RenderIsJoin(stack);
      JoinEnds(stack);
      var path, joined := Render(stack), Join(stack);
      assert path[1..] == joined;
      assert Body(joined) == joined && Body(path) == joined;
      ElementsAreSplit(joined);
      SplitJoin(stack);
    }
  }

  /** A joined path begins and ends with a character of a component. */
  lemma {:induction false} JoinEnds(stack: seq<string>)
    requires stack != [] && AllNormal(stack)
    ensures Join(stack) != "" && Join(stack)[0] != '/' && Join(stack)[|Join(stack)| - 1] != '/'
    decreases |stack|
  {
    assert Normal(stack[0]);
    if |stack| > 1 {
      var rest := stack[1..];
      assert AllNormal(rest);
      JoinEnds(rest);
      assert Join(stack) == stack[0] + "/" + Join(rest);
      assert Join(stack)[0] == stack[0][0];
    }
  }

  /** The elements still to come when `index` is `i`. */
  function Left(path: string, i: nat): seq<string> {
    if i >= |path| then [] else Elements(path[i..])
  }

  lemma LeftIsBody(path: string)
    ensures Left(path, Leading(path)) == Elements(Body(path))
  {
  }

  /** Whether `find_first_of('/', i)` may return `k`. */
  predicate Found(path: string, i: nat, k: nat) {
    && (k != NPOS ==> i <= k < |path| && path[k] == '/')
    && (forall j :: i <= j < |path| && j < k ==> path[j] != '/')
  }

  /** The part from `i` to the slash found is the first element of the rest of the path. */
  lemma SearchFrom(path: string, i: nat, k: nat)
    requires i < |path| < NPOS && Found(path, i, k)
    ensures Left(path, i) == [Slice(path, k, i)] + Left(path, if k == NPOS then NPOS else k + 1)
  {
    hide FirstSlash, Elements;
    var rest, end := path[i..], if k == NPOS then |path| else k;
    SliceOfSlice(path, i, |path|, 0, end - i);
    assert rest[..end - i] == path[i..end] == Slice(path, k, i);
    FirstElement(rest, end - i);
    if k != NPOS {
      assert rest[k - i + 1..] == path[k + 1..];
      LeftFrom(path, k + 1);
    } else {
      assert |rest| == end - i && rest[..end - i] == rest;
    }
  }

  lemma LeftFrom(path: string, i: nat)
    requires i <= |path|
    ensures Left(path, i) == Elements(path[i..])
  {
  }

  class NormalizedPathWalker {
    const path: StringPart
    var index: nat
    const element: StringPart
    ghost const original: string   // the characters of the path's string when the walk began

    /** Nothing but the element shown last keeps the path from being what it was. */
    ghost predicate Valid()
      reads this, path, element, path.chars, element.chars
    {
      && path != element
      && path.Valid() && element.Valid()
      && (element.chars == null || (if path.kind == CCSTR then element.chars != path.chars else element.chars == path.chars))
      && (path.chars != null ==> StringPart.Without(path.chars, element) == original)
      && path.offset <= path.index <= |original| < NPOS
      && (path.chars != null ==> Sits(original, path.AsPart()))
    }

    /** The path that is walked. */
    ghost function Walked(): string
      reads this, path
      requires path.offset <= path.index <= |original|
    {
      View(original, path.AsPart())
    }

    constructor (path: StringPart)
      requires path.Valid() && (path.chars != null ==> |path.chars.text| < NPOS)
      ensures Valid() && fresh(element) && this.path == path && element.chars == null
      ensures path.chars != null ==> original == path.chars.text
      ensures Walked() == path.Text()
      ensures index == Leading(Walked())
    {
      this.path := path;
      original := if path.chars == null then "" else path.chars.text;
      index := 0;
      element := new StringPart.Empty();
      new;
      while index < |path.Text()| && path.Text()[index] == '/'
        invariant index <= |path.Text()|
        invariant Leading(path.Text()) == index + Leading(path.Text()[index..])
        invariant Valid() && fresh(element) && this.path == path && element.chars == null
        invariant path.chars != null ==> original == path.chars.text
      {
        assert path.Text()[index..][1..] == path.Text()[index + 1..];
        index := index + 1;
      }
    }

    /** Shows the next element, or restores the path and returns null at the end. */
    method Next() returns (r: StringPart?)
      requires Valid()
      modifies this`index, element, path.chars, element.chars
      ensures Valid() && (element.chars == null || element.chars == path.chars || fresh(element.chars))
      ensures old(index) >= |Walked()| ==>
                && r == null && index == old(index)
                && element.chars == null && path.Text() == Walked()
                && (path.chars != null ==> path.chars.text == original)
      ensures old(index) < |Walked()| ==>
                && r == element
                && index > old(index)
                && Left(Walked(), old(index)) == [element.Text()] + Left(Walked(), index)
    {
      hide Left, Sits, Uncut;
      element.Clear();
      if index >= |path.Text()| {
        return null;
      }
      var next := path.FindFirstOf('/', index);
      assert path.Text() == Walked() && Found(path.Text(), index, next);
      Show(next);
      r := element;
    }

    /** Makes the element of what lies between the index and the slash found. */
    method Show(next: nat)
      requires Valid() && element.chars == null && index < |Walked()| && Found(Walked(), index, next)
      modifies this`index, element, path.chars
      ensures Valid() && (element.chars == null || element.chars == path.chars || fresh(element.chars))
      ensures index > old(index)
      ensures Left(Walked(), old(index)) == [element.Text()] + Left(Walked(), index)
    {
      hide Cut, SubPart, Uncut, Slice, Left;
      SearchFrom(Walked(), index, next);
      SubPartFits(path.chars.text, path.AsPart(), next, index);
      path.Substr(element, next, index);
      index := if next == NPOS then next else next + 1;
    }

    /** The destructor: whatever element was shown last, the path is what it was. */
    method Destroy()
      requires Valid()
      modifies element, element.chars
      ensures Valid() && element.chars == null && path.Text() == Walked()
      ensures path.chars != null ==> path.chars.text == original
    {
      element.Clear();
    }
  }

  type Entry = nat

  /** Going down from a directory by names; `lookup` fails in what is no directory or has no such name. */
  function Descend(lookup: (Entry, string) -> Option<Entry>, entry: Entry, names: seq<string>): Option<Entry>
    decreases |names|
  {
    if names == [] then Some(entry)
    else match lookup(entry, names[0])
      case None => None
      case Some(next) => Descend(lookup, next, names[1..])
  }

  /** Finding the entry of a name: the elements in turn, from the root, giving up at the first that fails. */
  method FindEntry(name: StringPart, root: Entry, lookup: (Entry, string) -> Option<Entry>)
    returns (r: Option<Entry>)
    requires name.Valid() && (name.chars != null ==> |name.chars.text| < NPOS)
    modifies name.chars
    ensures r == Descend(lookup, root, Elements(Body(old(name.Text()))))
    ensures name.chars != null ==> name.chars.text == old(name.chars.text)
    ensures name.Valid() && name.Text() == old(name.Text())
  {
    hide Elements, Leading, Uncut, Sits;
    if |name.Text()| == 0 {
      NoElement();
      return Some(root);
    }
    var walker := new NormalizedPathWalker(name);
    var entry := root;
    ghost var w := walker.Walked();
    ghost var goal := Descend(lookup, root, Elements(Body(w)));
    LeftIsBody(w);
    var e := walker.Next();
    while e != null
      invariant walker.Valid() && walker.path == name && fresh(walker) && fresh(walker.element)
      invariant name.chars != null ==> walker.original == old(name.chars.text)
      invariant walker.element.chars == null || walker.element.chars == name.chars || fresh(walker.element.chars)
      invariant walker.Walked() == w
      invariant e == null ==> walker.element.chars == null && goal == Some(entry)
      invariant e != null ==>
        e == walker.element && goal == Descend(lookup, entry, [e.Text()] + Left(w, walker.index))
      decreases |w| - walker.index, e != null
    {
      DescendOne(lookup, entry, e.Text(), Left(w, walker.index));
      var next := lookup(entry, e.Text());
      if next.None? {
        walker.Destroy();
        return None;
      }
      entry := next.value;
      e := walker.Next();
    }
    walker.Destroy();
    r := Some(entry);
  }

  lemma DescendOne(lookup: (Entry, string) -> Option<Entry>, entry: Entry, name: string, rest: seq<string>)
    ensures Descend(lookup, entry, [name] + rest) ==
            match lookup(entry, name) case None => None case Some(next) => Descend(lookup, next, rest)
  {
    assert ([name] + rest)[1..] == rest;
  }
}
