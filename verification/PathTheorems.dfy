/**
 What the component walk, and so the in-place resolver, guarantees: normal results,
 a plain fold when there are no links, stability under a second resolution, and
 exactly when the longest mounted prefix is reported.
 */
module PathTheorems {
  import opened PathText
  import opened PathSpec

  // ---------- Results are normal ----------

  lemma NormalPush(stack: seq<string>, c: string)
    requires AllNormal(stack) && SlashFree(c) && c != "" && c != "." && c != ".."
    ensures AllNormal(stack + [c])
  {
  }

  lemma NormalPop(stack: seq<string>)
    requires stack != [] && AllNormal(stack)
    ensures AllNormal(stack[..|stack| - 1])
  {
  }

  lemma FirstSlashFree(todo: seq<string>)
    requires todo != [] && AllSlashFree(todo)
    ensures SlashFree(todo[0]) && AllSlashFree(todo[1..])
  {
  }

  lemma {:induction false} WalkKeepsNormal(env: Env, stack: seq<string>, todo: seq<string>, links: nat)
    requires env.Rooted() && links <= MAX_LINK_TO_FOLLOW
    requires AllNormal(stack) && AllSlashFree(todo)
    ensures
      var r := Walk(env, stack, todo, links);
      r.Done? ==> AllNormal(r.stack)
    decreases MAX_LINK_TO_FOLLOW - links, |todo|
  {
    hide Enter, Overshoots, AllNormal, AllSlashFree, SlashFree;
    if todo != [] {
      var c, rest := todo[0], todo[1..];
      FirstSlashFree(todo);
      if c == "" || c == "." {
        WalkKeepsNormal(env, stack, rest, links);
      } else if c == ".." {
        if stack != [] {
          NormalPop(stack);
          WalkKeepsNormal(env, stack[..|stack| - 1], rest, links);
        }
      } else {
        var v := Enter(env, stack + [c], rest, links);
        if v.Pass? {
          NormalPush(stack, c);
          WalkKeepsNormal(env, stack + [c], rest, links);
        } else if v.Jump? {
          JumpKeepsNormal(env, stack, c, rest, links);
          WalkKeepsNormal(env, v.stack, v.todo, links + 1);
        }
      }
    }
  }

  lemma JumpKeepsNormal(env: Env, stack: seq<string>, c: string, rest: seq<string>, links: nat)
    requires env.Rooted() && AllNormal(stack) && AllSlashFree(rest)
    requires Enter(env, stack + [c], rest, links).Jump?
    ensures
      var v := Enter(env, stack + [c], rest, links);
      AllNormal(v.stack) && AllSlashFree(v.todo)
  {
    var down := stack + [c];
    assert down[..|down| - 1] == stack;
    var m := MountDepth(env.mounts, down);
    var text := env.disk.readlink(MountAt(env.mounts, down, m), Join(down[m..])).text;
    SplitIsSlashFree(text);
    SplitIsSlashFree(text[1..]);
  }

  /** A resolved path is empty, or an absolute path whose components are all normal. */
  lemma ResolvedIsNormal(env: Env, absolute: string)
    requires env.Rooted() && absolute != "" && absolute[0] == '/'
    requires Resolve(env, absolute).Located?
    ensures
      var text := Resolve(env, absolute).text;
      text == "" || (text[0] == '/' && AllNormal(Split(text[1..])))
  {
    SplitIsSlashFree(absolute[1..]);
    WalkKeepsNormal(env, [], Split(absolute[1..]), 0);
    var stack := Walk(env, [], Split(absolute[1..]), 0).stack;
    if stack != [] {
      SplitRender(stack);
    }
  }

  // ---------- Without links the walk is a fold ----------

  datatype Folded = Escapes | Folds(stack: seq<string>)

  /** Skip empty components and ".", pop on "..", push the rest. */
  function Fold(stack: seq<string>, todo: seq<string>): Folded
    decreases |todo|
  {
    if todo == [] then Folds(stack)
    else
      var c := todo[0];
      if c == "" || c == "." then Fold(stack, todo[1..])
      else if c == ".." then
        if stack == [] then Escapes else Fold(stack[..|stack| - 1], todo[1..])
      else Fold(stack + [c], todo[1..])
  }

  /** The last component is a ".." that leaves a mountpoint for another one. */
  predicate EndsLeavingMount(mounts: map<string, FsId>, stack: seq<string>, todo: seq<string>) {
    && todo != [] && todo[|todo| - 1] == ".."
    && var before := Fold(stack, todo[..|todo| - 1]);
       before.Folds? && Overshoots(mounts, before.stack)
  }

  ghost predicate NoLinks(env: Env) {
    forall key :: key in env.mounts ==> !env.disk.symlinks(env.mounts[key])
  }

  lemma NoLinksPass(env: Env, down: seq<string>, rest: seq<string>, links: nat)
    requires env.Rooted() && NoLinks(env) && down != []
    ensures Enter(env, down, rest, links) == Pass
  {
  }

  lemma {:induction false} WalkIsFold(env: Env, stack: seq<string>, todo: seq<string>, links: nat)
    requires env.Rooted() && NoLinks(env) && links <= MAX_LINK_TO_FOLLOW
    ensures Walk(env, stack, todo, links) ==
            match Fold(stack, todo)
            case Escapes => Fail(ENOENT)
            case Folds(final) => Done(final, EndsLeavingMount(env.mounts, stack, todo))
    decreases |todo|
  {
    if todo != [] {
      var c, rest := todo[0], todo[1..];
      if |todo| > 1 {
        assert rest[|rest| - 1] == todo[|todo| - 1];
        assert todo[..|todo| - 1][1..] == rest[..|rest| - 1] && todo[..|todo| - 1][0] == c;
      } else {
        assert todo[..|todo| - 1] == [] && rest == [];
      }
      if c == "" || c == "." {
        WalkIsFold(env, stack, rest, links);
      } else if c == ".." {
        if stack != [] {
          WalkIsFold(env, stack[..|stack| - 1], rest, links);
        }
      } else {
        NoLinksPass(env, stack + [c], rest, links);
        WalkIsFold(env, stack + [c], rest, links);
      }
    }
  }

  /** With no link-capable filesystem mounted, resolving is the plain fold of the components. */
  lemma ResolveIsFold(env: Env, absolute: string)
    requires env.Rooted() && NoLinks(env) && absolute != "" && absolute[0] == '/'
    ensures
      match Fold([], Split(absolute[1..]))
      case Escapes => Resolve(env, absolute) == Refused(ENOENT)
      case Folds(stack) => Resolve(env, absolute).Located? && Resolve(env, absolute).text == Render(stack)
  {
    WalkIsFold(env, [], Split(absolute[1..]), 0);
  }

  lemma LeavingTail(mounts: map<string, FsId>, stack: seq<string>, todo: seq<string>)
    requires |todo| > 1
    ensures
      var c, rest := todo[0], todo[1..];
      if c == "" || c == "." then
        EndsLeavingMount(mounts, stack, todo) == EndsLeavingMount(mounts, stack, rest)
      else if c == ".." then
        stack != [] ==>
          EndsLeavingMount(mounts, stack, todo) == EndsLeavingMount(mounts, stack[..|stack| - 1], rest)
      else EndsLeavingMount(mounts, stack, todo) == EndsLeavingMount(mounts, stack + [c], rest)
  {
    var rest := todo[1..];
    assert rest[|rest| - 1] == todo[|todo| - 1];
    assert todo[..|todo| - 1][1..] == rest[..|rest| - 1] && todo[..|todo| - 1][0] == todo[0];
  }

  // ---------- Resolving a result again ----------

  /** What the filesystem that holds the entry `down` says about it. */
  function Entry(env: Env, down: seq<string>): Stat
    requires env.Rooted()
  {
    var m := MountDepth(env.mounts, down);
    env.disk.lstat(MountAt(env.mounts, down, m), Join(down[m..]))
  }

  /** The resolver asks what `down` is; `last` says that nothing follows. */
  predicate Examined(env: Env, down: seq<string>, last: bool)
    requires env.Rooted()
  {
    && Render(down) !in env.mounts && (last ==> env.followLast)
    && env.disk.symlinks(MountAt(env.mounts, down, MountDepth(env.mounts, down)))
  }

  /** Entering `down` goes straight on. */
  predicate Settled(env: Env, down: seq<string>, last: bool)
    requires env.Rooted()
  {
    Examined(env, down, last) ==> Entry(env, down) == Directory || (last && Entry(env, down) == OtherFile)
  }

  lemma SettledPasses(env: Env, down: seq<string>, rest: seq<string>, links: nat)
    requires env.Rooted() && down != []
    ensures Enter(env, down, rest, links).Pass? <==> Settled(env, down, rest == [])
  {
  }

  predicate AllSettled(env: Env, stack: seq<string>)
    requires env.Rooted()
  {
    forall j :: 1 <= j <= |stack| ==> Settled(env, stack[..j], false)
  }

  /** Every directory on the way to the last component is settled. */
  predicate WaySettled(env: Env, stack: seq<string>)
    requires env.Rooted()
  {
    && (stack != [] ==> Settled(env, stack, true))
    && forall j :: 1 <= j < |stack| ==> Settled(env, stack[..j], false)
  }

  lemma PushSettled(env: Env, stack: seq<string>, c: string)
    requires env.Rooted() && AllSettled(env, stack) && Settled(env, stack + [c], false)
    ensures AllSettled(env, stack + [c])
  {
    var down := stack + [c];
    forall j | 1 <= j <= |down|
      ensures Settled(env, down[..j], false)
    {
      if j == |down| {
        assert down[..j] == down;
      } else {
        assert down[..j] == stack[..j];
      }
    }
  }

  lemma PopSettled(env: Env, stack: seq<string>)
    requires env.Rooted() && AllSettled(env, stack) && stack != []
    ensures AllSettled(env, stack[..|stack| - 1])
  {
    var up := stack[..|stack| - 1];
    forall j | 1 <= j <= |up|
      ensures Settled(env, up[..j], false)
    {
      assert up[..j] == stack[..j];
    }
  }

  lemma AllIsWay(env: Env, stack: seq<string>)
    requires env.Rooted() && AllSettled(env, stack)
    ensures WaySettled(env, stack)
  {
    if stack != [] {
      assert stack[..|stack|] == stack;
      assert Settled(env, stack[..|stack|], false);
    }
  }

  lemma LastPushSettled(env: Env, stack: seq<string>, c: string)
    requires env.Rooted() && AllSettled(env, stack) && Settled(env, stack + [c], true)
    ensures WaySettled(env, stack + [c])
  {
    var down := stack + [c];
    forall j | 1 <= j < |down|
      ensures Settled(env, down[..j], false)
    {
      assert down[..j] == stack[..j];
    }
  }

  /** Whatever links a walk followed, it ends on a path whose way is settled. */
  lemma {:induction false} WalkSettles(env: Env, stack: seq<string>, todo: seq<string>, links: nat)
    requires env.Rooted() && links <= MAX_LINK_TO_FOLLOW && AllSettled(env, stack)
    ensures
      var r := Walk(env, stack, todo, links);
      r.Done? ==> WaySettled(env, r.stack)
    decreases MAX_LINK_TO_FOLLOW - links, |todo|, 1
  {
    hide Settled, MountDepth;
    if todo == [] {
      AllIsWay(env, stack);
    } else {
      var c, rest := todo[0], todo[1..];
      if c == "" || c == "." {
        WalkSettles(env, stack, rest, links);
      } else if c == ".." {
        if stack != [] {
          PopSettled(env, stack);
          AllIsWay(env, stack[..|stack| - 1]);
          WalkSettles(env, stack[..|stack| - 1], rest, links);
        }
      } else {
        assert todo == [c] + rest;
        WalkSettlesDown(env, stack, c, rest, links);
      }
    }
  }

  lemma WalkSettlesDown(env: Env, stack: seq<string>, c: string, rest: seq<string>, links: nat)
    requires env.Rooted() && links <= MAX_LINK_TO_FOLLOW && AllSettled(env, stack)
    requires c != "" && c != "." && c != ".."
    ensures
      var r := Walk(env, stack, [c] + rest, links);
      r.Done? ==> WaySettled(env, r.stack)
    decreases MAX_LINK_TO_FOLLOW - links, |rest| + 1, 0
  {
    hide Settled, MountDepth;
    var down := stack + [c];
    assert ([c] + rest)[1..] == rest;
    SettledPasses(env, down, rest, links);
    var v := Enter(env, down, rest, links);
    if v.Pass? {
      if rest == [] {
        LastPushSettled(env, stack, c);
      } else {
        PushSettled(env, stack, c);
        WalkSettles(env, down, rest, links);
      }
    } else if v.Jump? {
      JumpIsAbove(env, stack, c, rest, links);
      WalkSettles(env, v.stack, v.todo, links + 1);
    }
  }

  /** Following a link restarts at the root or in the directory of the link. */
  lemma JumpIsAbove(env: Env, stack: seq<string>, c: string, rest: seq<string>, links: nat)
    requires env.Rooted() && AllSettled(env, stack)
    requires Enter(env, stack + [c], rest, links).Jump?
    ensures AllSettled(env, Enter(env, stack + [c], rest, links).stack)
  {
    assert (stack + [c])[..|stack|] == stack;
  }

  lemma {:induction false} SettledWalk(env: Env, stack: seq<string>, k: nat)
    requires env.Rooted() && k <= |stack| && AllNormal(stack) && WaySettled(env, stack)
    ensures Walk(env, stack[..k], stack[k..], 0) == Done(stack, false)
    decreases |stack| - k
  {
    if k < |stack| {
      var down, rest := stack[..k + 1], stack[k + 1..];
      assert stack[..k] + [stack[k]] == down && stack[k..][0] == stack[k] && stack[k..][1..] == rest;
      assert Settled(env, down, rest == []) by {
        if rest == [] { assert down == stack; }
      }
      SettledPasses(env, down, rest, 0);
      SettledWalk(env, stack, k + 1);
    } else {
      assert stack[..k] == stack && stack[k..] == [];
    }
  }

  /**
   Resolving a non-root result again, with the same links on disk, changes nothing in
   the text, and the second answer is always the longest mounted prefix.
   */
  lemma ResolveTwice(env: Env, absolute: string)
    requires env.Rooted() && absolute != "" && absolute[0] == '/'
    requires Resolve(env, absolute).Located? && Resolve(env, absolute).text != ""
    ensures
      var first := Resolve(env, absolute);
      var stack := Split(first.text[1..]);
      var m := MountDepth(env.mounts, stack);
      && first.text == Render(stack) && first.text[0] == '/'
      && Resolve(env, first.text) ==
         Located(first.text, MountAt(env.mounts, stack, m), OffsetAt(stack, m))
  {
    var todo := Split(absolute[1..]);
    SplitIsSlashFree(absolute[1..]);
    WalkKeepsNormal(env, [], todo, 0);
    WalkSettles(env, [], todo, 0);
    var stack := Walk(env, [], todo, 0).stack;
    assert stack != [];
    SplitRender(stack);
    SettledWalk(env, stack, 0);
    assert stack[..0] == [] && stack[0..] == stack;
  }

  // ---------- The longest mounted prefix ----------

  lemma {:induction false} MissedIsMount(env: Env, stack: seq<string>, todo: seq<string>, links: nat)
    requires env.Rooted() && links <= MAX_LINK_TO_FOLLOW
    ensures
      var r := Walk(env, stack, todo, links);
      r.Done? && r.missed ==> r.stack != [] && Render(r.stack) in env.mounts
    decreases MAX_LINK_TO_FOLLOW - links, |todo|
  {
    if todo != [] {
      var c, rest := todo[0], todo[1..];
      if c == "" || c == "." {
        MissedIsMount(env, stack, rest, links);
      } else if c == ".." {
        if stack != [] {
          MissedIsMount(env, stack[..|stack| - 1], rest, links);
        }
      } else {
        var v := Enter(env, stack + [c], rest, links);
        if v.Pass? {
          MissedIsMount(env, stack + [c], rest, links);
        } else if v.Jump? {
          MissedIsMount(env, v.stack, v.todo, links + 1);
        }
      }
    }
  }

  /** A mount prefix is reported exactly: its filesystem and the path relative to it. */
  ghost predicate Reports(env: Env, r: Resolution, stack: seq<string>, m: nat)
    requires env.Rooted() && m <= |stack| && (m == 0 || Render(stack[..m]) in env.mounts)
  {
    && r.Located? && r.fs == MountAt(env.mounts, stack, m)
    && r.off <= |r.text| && r.text[r.off..] == Join(stack[m..])
  }

  lemma OffsetIsRelative(stack: seq<string>, m: nat)
    requires m <= |stack|
    ensures OffsetAt(stack, m) <= |Render(stack)|
    ensures Render(stack)[OffsetAt(stack, m)..] == Join(stack[m..])
  {
    RenderPrefix(stack, m);
    if m == |stack| {
      assert stack[..m] == stack && stack[m..] == [];
      assert Render(stack)[|Render(stack)|..] == "";
    }
  }

  lemma RelativeNonempty(stack: seq<string>, m: nat)
    requires m < |stack| && AllNormal(stack)
    ensures Join(stack[m..]) != ""
  {
    assert stack[m..][0] == stack[m];
  }

  lemma {:induction false} LongestUnlessMissed(env: Env, absolute: string)
    requires env.Rooted() && absolute != "" && absolute[0] == '/'
    requires Walk(env, [], Split(absolute[1..]), 0).Done?
    ensures
      var r := Walk(env, [], Split(absolute[1..]), 0);
      Reports(env, Resolve(env, absolute), r.stack, MountDepth(env.mounts, r.stack)) <==> !r.missed
  {
    var todo := Split(absolute[1..]);
    var r := Walk(env, [], todo, 0);
    var stack, m := r.stack, MountDepth(env.mounts, r.stack);
    OffsetIsRelative(stack, ReportedDepth(env.mounts, stack, r.missed));
    if r.missed {
      MissedIsMount(env, [], todo, 0);
      SplitIsSlashFree(absolute[1..]);
      WalkKeepsNormal(env, [], todo, 0);
      assert stack[..|stack|] == stack && stack[|stack|..] == [];
      RelativeNonempty(stack, ReportedDepth(env.mounts, stack, true));
    }
  }

  /** Going up from the nested mountpoint "/a/b": without a trailing slash "/a" is missed. */
  lemma NestedMountMissed(env: Env, a: string, b: string)
    requires env.Rooted() && NoLinks(env) && Normal(a) && Normal(b)
    requires Render([a]) in env.mounts && Render([a, b]) in env.mounts
    ensures
      var path := "/" + Join([a, b, ".."]);
      && Resolve(env, path) == Located(Render([a]), env.mounts["/"], 1)
      && Resolve(env, path + "/") == Located(Render([a]), env.mounts[Render([a])], |Render([a])|)
  {
    var path := "/" + Join([a, b, ".."]);
    NestedParts(a, b);
    WalkIsFold(env, [], [a, b, ".."], 0);
    WalkIsFold(env, [], [a, b, "..", ""], 0);
    NestedFolds(env.mounts, a, b);
    assert [a][..1] == [a] && [a][..0] == [];
    RenderPrefix([a], 0);
  }

  lemma NestedParts(a: string, b: string)
    requires Normal(a) && Normal(b)
    ensures
      var path := "/" + Join([a, b, ".."]);
      Split(path[1..]) == [a, b, ".."] && Split((path + "/")[1..]) == [a, b, "..", ""]
  {
    var parts := [a, b, ".."];
    var path := "/" + Join(parts);
    SplitJoin(parts);
    SplitJoin(parts + [""]);
    JoinAppend(parts, [""]);
    assert path[1..] == Join(parts) && (path + "/")[1..] == Join(parts) + "/" + Join([""]);
  }

  lemma NestedFolds(mounts: map<string, FsId>, a: string, b: string)
    requires Normal(a) && Normal(b)
    requires Render([a]) in mounts && Render([a, b]) in mounts
    ensures Fold([], [a, b, ".."]) == Fold([], [a, b, "..", ""]) == Folds([a])
    ensures EndsLeavingMount(mounts, [], [a, b, ".."])
    ensures !EndsLeavingMount(mounts, [], [a, b, "..", ""])
  {
    hide Render;
    assert [a, b][..1] == [a];
    FoldPush([], a, [b, ".."]);
    FoldPush([a], b, [".."]);
    FoldPush([], a, [b, "..", ""]);
    FoldPush([a], b, ["..", ""]);
    FoldPush([], a, [b]);
    FoldPush([a], b, []);
    assert [".."][1..] == [] && ["..", ""][1..] == [""] && [""][1..] == [];
    assert [a, b, ".."][..2] == [a, b] == [a] + [b];
    assert [] + [a] == [a];
    assert Fold([], [a, b]) == Folds([a, b]);
  }

  lemma FoldPush(stack: seq<string>, c: string, rest: seq<string>)
    requires Normal(c)
    ensures Fold(stack, [c] + rest) == Fold(stack + [c], rest)
  {
    assert ([c] + rest)[1..] == rest;
  }

  lemma NestedNames()
    ensures Render(["a"]) == "/a" && Render(["a", "b"]) == "/a/b"
    ensures "/" + Join(["a", "b", ".."]) == "/a/b/.."
  {
    assert ["a", "b"][..1] == ["a"] && ["a"][..0] == [];
    assert ["a", "b", ".."][1..] == ["b", ".."] && ["b", ".."][1..] == [".."];
  }

  /** The resolver does not always report the longest mounted prefix. */
  lemma LongestPrefixMissed(disk: Disk)
    requires forall fs :: !disk.symlinks(fs)
    ensures
      var env := Env(map["/" := 0, "/a" := 1, "/a/b" := 2], disk, true);
      Resolve(env, "/a/b/..") == Located("/a", 0, 1)
  {
    hide Resolve, Render, Join;
    NestedNames();
    NestedMountMissed(Env(map["/" := 0, "/a" := 1, "/a/b" := 2], disk, true), "a", "b");
  }
}
