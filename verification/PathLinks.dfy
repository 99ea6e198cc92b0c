/**
 What symbolic links do to a resolution, told by what is on the disk: a path that meets a link is
 the path with the text of the link in its place, and every error has its exact reason.
 */
module PathLinks {
  import opened PathText
  import opened PathSpec
  import opened PathEdits
  import opened PathTheorems

  // ---------- The first obstacle ----------

  /** A component that is no obstacle in the directory `stack`. */
  predicate Plain(env: Env, stack: seq<string>, c: string, last: bool)
    requires env.Rooted()
  {
    if c == "" || c == "." then true
    else if c == ".." then stack != []
    else Settled(env, stack + [c], last)
  }

  function Past(stack: seq<string>, c: string): seq<string>
    requires c == ".." ==> stack != []
  {
    if c == "" || c == "." then stack else if c == ".." then stack[..|stack| - 1] else stack + [c]
  }

  /** A directory, and the components still to walk from there. */
  datatype Route = Route(stack: seq<string>, todo: seq<string>)

  /** Up to the first obstacle, or to the end. */
  function Advance(env: Env, stack: seq<string>, todo: seq<string>): Route
    requires env.Rooted()
    decreases |todo|
  {
    if todo == [] || !Plain(env, stack, todo[0], |todo| == 1) then Route(stack, todo)
    else Advance(env, Past(stack, todo[0]), todo[1..])
  }

  function FirstObstacle(env: Env, absolute: string): Route
    requires env.Rooted() && absolute != "" && absolute[0] == '/'
  {
    Advance(env, [], Split(absolute[1..]))
  }

  /** Without obstacles a walk is a fold; otherwise it goes on from the first one. */
  lemma {:induction false} AdvanceWalk(env: Env, stack: seq<string>, todo: seq<string>, links: nat)
    requires env.Rooted() && links <= MAX_LINK_TO_FOLLOW
    ensures
      var at := Advance(env, stack, todo);
      if at.todo == [] then
        && Fold(stack, todo) == Folds(at.stack)
        && Walk(env, stack, todo, links) == Done(at.stack, EndsLeavingMount(env.mounts, stack, todo))
      else Walk(env, stack, todo, links) == Walk(env, at.stack, at.todo, links)
    decreases |todo|
  {
    hide Settled, Overshoots, Enter;
    if todo != [] && Plain(env, stack, todo[0], |todo| == 1) {
      var c, rest := todo[0], todo[1..];
      if |todo| > 1 {
        LeavingTail(env.mounts, stack, todo);
      } else {
        assert todo[..0] == [] && rest == [];
      }
      if c != "" && c != "." && c != ".." { SettledPasses(env, stack + [c], rest, links); }
      AdvanceWalk(env, Past(stack, c), rest, links);
    }
  }

  lemma {:induction false} AdvanceKeeps(env: Env, stack: seq<string>, todo: seq<string>)
    requires env.Rooted() && AllNormal(stack) && AllSettled(env, stack) && AllSlashFree(todo)
    ensures
      var at := Advance(env, stack, todo);
      at.todo != [] ==>
        && AllNormal(at.stack) && AllSettled(env, at.stack) && AllSlashFree(at.todo)
        && !Plain(env, at.stack, at.todo[0], |at.todo| == 1)
    decreases |todo|
  {
    hide Settled, AllNormal, AllSettled, AllSlashFree, SlashFree;
    if todo != [] && Plain(env, stack, todo[0], |todo| == 1) && |todo| > 1 {
      var c := todo[0];
      FirstSlashFree(todo);
      if c == ".." {
        NormalPop(stack);
        PopSettled(env, stack);
      } else if c != "" && c != "." {
        NormalPush(stack, c);
        PushSettled(env, stack, c);
      }
      AdvanceKeeps(env, Past(stack, c), todo[1..]);
    }
  }

  /** A settled directory is walked down without obstacles. */
  lemma {:induction false} AdvanceDown(env: Env, stack: seq<string>, todo: seq<string>, k: nat)
    requires env.Rooted() && k <= |stack| && AllNormal(stack) && AllSettled(env, stack) && todo != []
    ensures Advance(env, stack[..k], stack[k..] + todo) == Advance(env, stack, todo)
    decreases |stack| - k
  {
    hide Settled;
    if k == |stack| {
      assert stack[..k] == stack && stack[k..] + todo == todo;
    } else {
      var all := stack[k..] + todo;
      assert all[0] == stack[k] && all[1..] == stack[k + 1..] + todo && |all| > 1;
      assert stack[..k] + [stack[k]] == stack[..k + 1];
      AdvanceDown(env, stack, todo, k + 1);
    }
  }

  // ---------- What an obstacle is ----------

  function LinkAt(env: Env, down: seq<string>): LinkText
    requires env.Rooted()
  {
    var m := MountDepth(env.mounts, down);
    env.disk.readlink(MountAt(env.mounts, down, m), Join(down[m..]))
  }

  predicate IsLink(env: Env, at: Route)
    requires env.Rooted()
  {
    at.todo != [] && at.todo[0] != ".." && Entry(env, at.stack + [at.todo[0]]) == Symlink
  }

  /** An obstacle other than a link refuses with `code`. */
  predicate RefusesPlainly(env: Env, at: Route, code: Errno)
    requires env.Rooted()
  {
    && at.todo != []
    && if at.todo[0] == ".." then code == ENOENT
       else match Entry(env, at.stack + [at.todo[0]])
         case StatError(e) => code == e
         case OtherFile => code == ENOTDIR
         case _ => false
  }

  /** The path in which the text of a link found in `stack` takes the place of the link. */
  function Spliced(stack: seq<string>, text: string, rest: seq<string>): (path: string)
    requires text != ""
    ensures path != "" && path[0] == '/'
  {
    RenderStarts(stack);
    (if text[0] == '/' then text else Render(stack) + "/" + text) + Tail(rest)
  }

  lemma {:induction false} RenderStarts(stack: seq<string>)
    ensures Render(stack) == "" || Render(stack)[0] == '/'
  {
    if stack != [] { RenderStarts(stack[..|stack| - 1]); }
  }

  lemma PlainRefusal(env: Env, at: Route, links: nat, code: Errno)
    requires env.Rooted() && links <= MAX_LINK_TO_FOLLOW && at.todo != [] && !IsLink(env, at)
    requires !Plain(env, at.stack, at.todo[0], |at.todo| == 1)
    ensures Walk(env, at.stack, at.todo, links) == Fail(code) <==> RefusesPlainly(env, at, code)
    ensures Walk(env, at.stack, at.todo, links).Fail?
  {
  }

  /** Where the first link of a walk leads. */
  function BeyondLink(env: Env, at: Route): Outcome
    requires env.Rooted() && IsLink(env, at)
  {
    var stack, rest := at.stack, at.todo[1..];
    match LinkAt(env, stack + [at.todo[0]])
    case LinkError(e) => Fail(e)
    case Target(text) =>
      if text == "" then Fail(ENOENT)
      else if |Spliced(stack, text, rest)| > PATH_MAX then Fail(ENAMETOOLONG)
      else if text[0] == '/' then Walk(env, [], Split(text[1..]) + rest, 1)
      else Walk(env, stack, Split(text) + rest, 1)
  }

  /** The first link is replaced by its text, and a second one is refused. */
  lemma LinkWalk(env: Env, at: Route)
    requires env.Rooted() && IsLink(env, at)
    requires !Plain(env, at.stack, at.todo[0], |at.todo| == 1)
    ensures Walk(env, at.stack, at.todo, 0) == BeyondLink(env, at)
    ensures Walk(env, at.stack, at.todo, 1) == Fail(ELOOP)
  {
    hide MountDepth, Split, Join, Render;
    var stack, rest := at.stack, at.todo[1..];
    var down := stack + [at.todo[0]];
    assert down[..|down| - 1] == stack;
    match LinkAt(env, down) {
      case LinkError(_) =>
      case Target(text) =>
        if text != "" {
          SplicedText(stack, text, rest);
          SplicedText([], text[1..], rest);
          RenderNone([]);
          assert text[0] == '/' ==> "" + "/" + text[1..] == text;
        }
    }
  }

  lemma SplicedParts(stack: seq<string>, text: string, rest: seq<string>)
    requires text != "" && AllNormal(stack) && AllSlashFree(rest)
    ensures Split(Spliced(stack, text, rest)[1..]) ==
            (if text[0] == '/' then Split(text[1..]) else stack + Split(text)) + rest
  {
    hide Split, Render, Join, AllNormal, AllSlashFree;
    var path := Spliced(stack, text, rest);
    if text[0] == '/' {
      TailParts(text[1..], rest);
      assert path[1..] == text[1..] + Tail(rest);
    } else {
      DownParts(stack, text);
      TailParts((Render(stack) + "/" + text)[1..], rest);
      assert path[1..] == (Render(stack) + "/" + text)[1..] + Tail(rest);
    }
  }

  lemma DownParts(stack: seq<string>, text: string)
    requires AllNormal(stack)
    ensures Split((Render(stack) + "/" + text)[1..]) == stack + Split(text)
  {
    hide Split, Join;
    if stack == [] {
      assert (Render(stack) + "/" + text)[1..] == text && stack + Split(text) == Split(text);
    } else {
      RenderIsJoin(stack);
      SplitJoin(stack);
      SplitAtSlash(Join(stack), text);
      assert (Render(stack) + "/" + text)[1..] == Join(stack) + "/" + text;
    }
  }

  lemma TailParts(text: string, rest: seq<string>)
    requires AllSlashFree(rest)
    ensures Split(text + Tail(rest)) == Split(text) + rest
  {
    hide Split, Join;
    if rest == [] {
      assert text + Tail(rest) == text && Split(text) + rest == Split(text);
    } else {
      SplitJoin(rest);
      SplitAtSlash(text, Join(rest));
      assert text + Tail(rest) == text + "/" + Join(rest);
    }
  }

  // ---------- Links are replaced by their text ----------

  lemma ObstacleIs(env: Env, absolute: string)
    requires env.Rooted() && absolute != "" && absolute[0] == '/'
    ensures
      var at := FirstObstacle(env, absolute);
      at.todo != [] ==>
        && AllNormal(at.stack) && AllSettled(env, at.stack) && AllSlashFree(at.todo)
        && !Plain(env, at.stack, at.todo[0], |at.todo| == 1)
  {
    SplitIsSlashFree(absolute[1..]);
    AdvanceKeeps(env, [], Split(absolute[1..]));
  }

  /** A walk that has followed a link already goes like any other, unless it meets a second one. */
  lemma SecondLink(env: Env, absolute: string)
    requires env.Rooted() && absolute != "" && absolute[0] == '/'
    ensures Walk(env, [], Split(absolute[1..]), 1) ==
            if IsLink(env, FirstObstacle(env, absolute)) then Fail(ELOOP)
            else Walk(env, [], Split(absolute[1..]), 0)
  {
    hide Walk, Split, Plain, Entry, AllNormal, AllSettled, AllSlashFree;
    var at := FirstObstacle(env, absolute);
    AdvanceWalk(env, [], Split(absolute[1..]), 0);
    AdvanceWalk(env, [], Split(absolute[1..]), 1);
    ObstacleIs(env, absolute);
    if at.todo != [] {
      if IsLink(env, at) {
        LinkWalk(env, at);
      } else {
        var code := SameRefusal(env, at);
      }
    }
  }

  lemma SameRefusal(env: Env, at: Route) returns (code: Errno)
    requires env.Rooted() && at.todo != [] && !IsLink(env, at)
    requires !Plain(env, at.stack, at.todo[0], |at.todo| == 1)
    ensures Walk(env, at.stack, at.todo, 0) == Walk(env, at.stack, at.todo, 1) == Fail(code)
    ensures RefusesPlainly(env, at, code)
  {
    hide Walk, Plain, IsLink, RefusesPlainly;
    PlainRefusal(env, at, 0, ENOENT);
    code := Walk(env, at.stack, at.todo, 0).code;
    PlainRefusal(env, at, 0, code);
    PlainRefusal(env, at, 1, code);
  }

  /** What resolving comes to at a first link. */
  function Replaced(env: Env, at: Route): Resolution
    requires env.Rooted() && IsLink(env, at)
  {
    match LinkAt(env, at.stack + [at.todo[0]])
    case LinkError(e) => Refused(e)
    case Target(text) =>
      if text == "" then Refused(ENOENT)
      else
        var path := Spliced(at.stack, text, at.todo[1..]);
        if |path| > PATH_MAX then Refused(ENAMETOOLONG)
        else if IsLink(env, FirstObstacle(env, path)) then Refused(ELOOP)
        else Resolve(env, path)
  }

  /**
   A path that meets a link resolves like the path in which the text of the link takes its place, in the
   link's directory or, if it is absolute, from the root; unless that is too long or meets another link.
   */
  lemma LinkIsReplaced(env: Env, absolute: string)
    requires env.Rooted() && absolute != "" && absolute[0] == '/'
    requires IsLink(env, FirstObstacle(env, absolute))
    ensures Resolve(env, absolute) == Replaced(env, FirstObstacle(env, absolute))
  {
    hide Walk, Split, Plain, Entry, LinkAt, Render, FirstObstacle, Spliced;
    var at := FirstObstacle(env, absolute);
    ObstacleIs(env, absolute);
    FirstWalk(env, absolute);
    LinkWalk(env, at);
    match LinkAt(env, at.stack + [at.todo[0]]) {
      case LinkError(_) =>
      case Target(text) =>
        if text != "" {
          SplicedWalk(env, at, text);
          SecondLink(env, Spliced(at.stack, text, at.todo[1..]));
        }
    }
  }

  lemma FirstWalk(env: Env, absolute: string)
    requires env.Rooted() && absolute != "" && absolute[0] == '/'
    requires FirstObstacle(env, absolute).todo != []
    ensures
      var at := FirstObstacle(env, absolute);
      Walk(env, [], Split(absolute[1..]), 0) == Walk(env, at.stack, at.todo, 0)
  {
    AdvanceWalk(env, [], Split(absolute[1..]), 0);
  }

  /** Walking on from the directory of a link is walking the replaced path from the root. */
  lemma SplicedWalk(env: Env, at: Route, text: string)
    requires env.Rooted() && text != "" && at.todo != []
    requires AllNormal(at.stack) && AllSettled(env, at.stack) && AllSlashFree(at.todo)
    ensures
      var rest := at.todo[1..];
      Walk(env, [], Split(Spliced(at.stack, text, rest)[1..]), 1) ==
      if text[0] == '/' then Walk(env, [], Split(text[1..]) + rest, 1) else Walk(env, at.stack, Split(text) + rest, 1)
  {
    hide Walk, Split, Render, Advance, Spliced, AllNormal, AllSettled, AllSlashFree;
    FirstSlashFree(at.todo);
    SplicedParts(at.stack, text, at.todo[1..]);
    if text[0] != '/' {
      WalkFrom(env, at.stack, Split(text) + at.todo[1..], 1);
      assert at.stack + (Split(text) + at.todo[1..]) == at.stack + Split(text) + at.todo[1..];
    }
  }

  lemma WalkFrom(env: Env, stack: seq<string>, todo: seq<string>, links: nat)
    requires env.Rooted() && links <= MAX_LINK_TO_FOLLOW
    requires AllNormal(stack) && AllSettled(env, stack) && todo != []
    ensures Walk(env, [], stack + todo, links) == Walk(env, stack, todo, links)
  {
    hide Walk, Advance, Fold, AllNormal, AllSettled, EndsLeavingMount;
    AdvanceDown(env, stack, todo, 0);
    assert stack[..0] == [] && stack[0..] == stack;
    AdvanceWalk(env, [], stack + todo, links);
    AdvanceWalk(env, stack, todo, links);
    if Advance(env, stack, todo).todo == [] {
      LeavingFrom(env.mounts, stack, todo, 0);
    }
  }

  /** How a path ends does not depend on how its directory was reached. */
  lemma {:induction false} LeavingFrom(mounts: map<string, FsId>, stack: seq<string>, todo: seq<string>, k: nat)
    requires AllNormal(stack) && todo != [] && k <= |stack|
    ensures EndsLeavingMount(mounts, stack[..k], stack[k..] + todo) == EndsLeavingMount(mounts, stack, todo)
    decreases |stack| - k
  {
    hide EndsLeavingMount;
    if k == |stack| {
      assert stack[..k] == stack && stack[k..] + todo == todo;
    } else {
      var all := stack[k..] + todo;
      assert all[0] == stack[k] && all[1..] == stack[k + 1..] + todo && |all| > 1;
      assert stack[..k] + [stack[k]] == stack[..k + 1];
      LeavingTail(mounts, stack[..k], all);
      LeavingFrom(mounts, stack, todo, k + 1);
    }
  }

  // ---------- Every error has its reason ----------

  /** The reason for which a first link makes a resolution fail. */
  predicate LinkRefuses(env: Env, at: Route, code: Errno)
    requires env.Rooted() && IsLink(env, at)
  {
    match LinkAt(env, at.stack + [at.todo[0]])
    case LinkError(e) => code == e
    case Target(text) =>
      if text == "" then code == ENOENT
      else
        var path := Spliced(at.stack, text, at.todo[1..]);
        if |path| > PATH_MAX then code == ENAMETOOLONG
        else
          var next := FirstObstacle(env, path);
          if IsLink(env, next) then code == ELOOP else RefusesPlainly(env, next, code)
  }

  lemma PlainlyRefused(env: Env, absolute: string, code: Errno)
    requires env.Rooted() && absolute != "" && absolute[0] == '/'
    requires !IsLink(env, FirstObstacle(env, absolute))
    ensures Resolve(env, absolute) == Refused(code) <==> RefusesPlainly(env, FirstObstacle(env, absolute), code)
  {
    hide Walk, Split, Plain, IsLink, RefusesPlainly, Advance, Fold, EndsLeavingMount;
    var at := FirstObstacle(env, absolute);
    ObstacleIs(env, absolute);
    AdvanceWalk(env, [], Split(absolute[1..]), 0);
    if at.todo != [] {
      PlainRefusal(env, at, 0, code);
    } else {
      NoObstacle(env, at, code);
    }
  }

  lemma NoObstacle(env: Env, at: Route, code: Errno)
    requires env.Rooted() && at.todo == []
    ensures !RefusesPlainly(env, at, code) && !IsLink(env, at)
  {
  }

  /**
   A resolution fails with a code if and only if the first obstacle on the way, or that of the path with
   the link replaced, is the reason for it: ".." at the root, a failing `lstat` or `readlink`, a file that
   is no directory, an empty link, a path too long, or a second link.
   */
  lemma RefusedIff(env: Env, absolute: string, code: Errno)
    requires env.Rooted() && absolute != "" && absolute[0] == '/'
    ensures
      var at := FirstObstacle(env, absolute);
      Resolve(env, absolute) == Refused(code) <==>
        if IsLink(env, at) then LinkRefuses(env, at, code) else RefusesPlainly(env, at, code)
  {
    hide Resolve, Entry, RefusesPlainly, FirstObstacle, LinkAt, Spliced;
    var at := FirstObstacle(env, absolute);
    if IsLink(env, at) {
      LinkIsReplaced(env, absolute);
      match LinkAt(env, at.stack + [at.todo[0]]) {
        case LinkError(_) =>
        case Target(text) =>
          if text != "" {
            var path := Spliced(at.stack, text, at.todo[1..]);
            if !IsLink(env, FirstObstacle(env, path)) { PlainlyRefused(env, path, code); }
          }
      }
    } else {
      PlainlyRefused(env, absolute, code);
    }
  }

  // ---------- The longest mounted prefix ----------

  /** The path with its first link, if it meets one, replaced by the text of the link. */
  function WithoutLink(env: Env, absolute: string): (path: string)
    requires env.Rooted() && absolute != "" && absolute[0] == '/'
    ensures path != "" && path[0] == '/'
  {
    var at := FirstObstacle(env, absolute);
    if !IsLink(env, at) then absolute
    else match LinkAt(env, at.stack + [at.todo[0]])
      case LinkError(_) => absolute
      case Target(text) => if text == "" then absolute else Spliced(at.stack, text, at.todo[1..])
  }

  /** What succeeds meets no obstacle once its link has been replaced. */
  lemma SuccessIsClear(env: Env, absolute: string)
    requires env.Rooted() && absolute != "" && absolute[0] == '/'
    requires Resolve(env, absolute).Located?
    ensures Resolve(env, absolute) == Resolve(env, WithoutLink(env, absolute))
    ensures FirstObstacle(env, WithoutLink(env, absolute)).todo == []
  {
    hide Walk, Split, Render, LinkAt, Entry, Plain, Spliced, FirstObstacle;
    var path := WithoutLink(env, absolute);
    if IsLink(env, FirstObstacle(env, absolute)) { LinkIsReplaced(env, absolute); }
    var at := FirstObstacle(env, path);
    if at.todo != [] {
      ObstacleIs(env, path);
      FirstWalk(env, path);
      PlainRefusal(env, at, 0, ENOENT);
      assert false;
    }
  }

  /**
   Every success is the fold of the path with its link replaced by the link's text, and reports the
   filesystem of the longest mounted prefix and the exact path relative to it if and only if that path
   does not end by going up from one mountpoint into another; then it reports what the directory above has.
   */
  lemma LongestPrefixIff(env: Env, absolute: string)
    requires env.Rooted() && absolute != "" && absolute[0] == '/'
    requires Resolve(env, absolute).Located?
    ensures
      var todo := Split(WithoutLink(env, absolute)[1..]);
      var end := Fold([], todo);
      && end.Folds? && Resolve(env, absolute).text == Render(end.stack)
      && (Reports(env, Resolve(env, absolute), end.stack, MountDepth(env.mounts, end.stack))
          <==> !EndsLeavingMount(env.mounts, [], todo))
      && Reports(env, Resolve(env, absolute), end.stack,
                 ReportedDepth(env.mounts, end.stack, EndsLeavingMount(env.mounts, [], todo)))
  {
    hide Walk, Split, Render, MountDepth, Advance;
    var path := WithoutLink(env, absolute);
    SuccessIsClear(env, absolute);
    AdvanceWalk(env, [], Split(path[1..]), 0);
    LongestUnlessMissed(env, path);
    var r := Walk(env, [], Split(path[1..]), 0);
    OffsetIsRelative(r.stack, ReportedDepth(env.mounts, r.stack, r.missed));
  }

  /** A path that meets no link shows itself how it ends. */
  lemma LongestPrefixIffInput(env: Env, absolute: string)
    requires env.Rooted() && absolute != "" && absolute[0] == '/'
    requires Resolve(env, absolute).Located? && !IsLink(env, FirstObstacle(env, absolute))
    ensures
      var todo := Split(absolute[1..]);
      var end := Fold([], todo);
      && end.Folds?
      && (Reports(env, Resolve(env, absolute), end.stack, MountDepth(env.mounts, end.stack))
          <==> !EndsLeavingMount(env.mounts, [], todo))
  {
    LongestPrefixIff(env, absolute);
  }
}
