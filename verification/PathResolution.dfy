/**
 The in-place path resolver. It erases and inserts characters of one string while
 tracking positions into it; each method is proved against the component walk of
 PathSpec. Ghost parameters name the stack and the components a state stands for.
 */
module PathResolution {
  import opened PathText
  import opened PathSpec
  import opened PathEdits

  /** The filesystem a path is in, and where and how deep inside it the path is. */
  datatype Seat = Seat(fs: FsId, syms: bool, into: nat, depth: int)

  /** The seat of `stack` in the filesystem mounted at its first `m` components. */
  function SeatAt(env: Env, stack: seq<string>, m: nat): Seat
    requires env.Rooted() && m <= |stack| && (m == 0 || Render(stack[..m]) in env.mounts)
  {
    var fs := MountAt(env.mounts, stack, m);
    Seat(fs, env.disk.symlinks(fs), |Render(stack[..m])| + 1, |stack| - m + 1)
  }

  /** The seat of `stack` in the filesystem of its longest mounted prefix. */
  function SeatOf(env: Env, stack: seq<string>): Seat
    requires env.Rooted()
  {
    SeatAt(env, stack, MountDepth(env.mounts, stack))
  }

  /** Dropping the last component of a stack that is not a mountpoint. */
  lemma SeatUp(env: Env, down: seq<string>)
    requires env.Rooted() && down != [] && Render(down) !in env.mounts
    ensures SeatOf(env, down) ==
            SeatOf(env, down[..|down| - 1]).(depth := SeatOf(env, down[..|down| - 1]).depth + 1)
    ensures SeatOf(env, down).depth > 1
  {
    hide Render;
    var up := down[..|down| - 1];
    var m := MountDepth(env.mounts, up);
    assert up[..m] == down[..m];
    assert MountDepth(env.mounts, down) == m;
    assert MountKey(up, m) == MountKey(down, m);
  }

  lemma SeatMounted(env: Env, down: seq<string>)
    requires env.Rooted() && down != [] && Render(down) in env.mounts
    ensures SeatOf(env, down) ==
            Seat(env.mounts[Render(down)], env.disk.symlinks(env.mounts[Render(down)]), |Render(down)| + 1, 1)
  {
    assert down[..|down|] == down;
  }

  lemma DepthOneIsMounted(env: Env, stack: seq<string>)
    requires env.Rooted() && stack != []
    ensures SeatOf(env, stack).depth >= 1
    ensures SeatOf(env, stack).depth == 1 <==> Render(stack) in env.mounts
  {
    assert stack[..|stack|] == stack;
  }

  /** A search that starts above a final component without a trailing slash. */
  lemma OffsetFound(env: Env, stack: seq<string>, k: nat)
    requires env.Rooted() && stack != [] && k == MountDepth(env.mounts, stack[..|stack| - 1])
    ensures k < |stack| && k == ReportedDepth(env.mounts, stack, true)
    ensures OffsetAt(stack, k) == |Render(stack[..k])| + 1
  {
    RenderPrefix(stack, k);
  }

  /** Clipping the offset after a ".." that stays in the filesystem. */
  lemma SeatClipped(env: Env, stack: seq<string>, todo: seq<string>)
    requires env.Rooted() && stack != [] && Render(stack) !in env.mounts
    ensures
      var up := stack[..|stack| - 1];
      var seat := SeatOf(env, stack);
      var len := |Text(up, todo)|;
      var clipped := if seat.into > len then len else seat.into;
      && seat.fs == MountAt(env.mounts, up, MountDepth(env.mounts, up))
      && (todo != [] ==> seat.(into := clipped, depth := seat.depth - 1) == SeatOf(env, up))
      && (todo == [] ==> clipped == OffsetAt(up, MountDepth(env.mounts, up)))
  {
    SeatUp(env, stack);
    RenderPrefix(stack[..|stack| - 1], MountDepth(env.mounts, stack[..|stack| - 1]));
  }

  /** Which filesystem a final ".." ends up in. */
  lemma ReportedUp(mounts: map<string, FsId>, stack: seq<string>)
    requires stack != []
    ensures
      var up := stack[..|stack| - 1];
      ReportedDepth(mounts, up, Overshoots(mounts, stack)) ==
      if Render(stack) in mounts then ReportedDepth(mounts, up, true) else MountDepth(mounts, up)
  {
  }

  /** The end of a path whose last component is not a mountpoint. */
  lemma SeatEnds(env: Env, down: seq<string>)
    requires env.Rooted() && down != [] && Render(down) !in env.mounts
    ensures SeatOf(env, down).into == OffsetAt(down, MountDepth(env.mounts, down))
  {
    RenderPrefix(down, MountDepth(env.mounts, down));
  }

  /** One step of the walk for each kind of component. */
  lemma WalkSkip(env: Env, stack: seq<string>, todo: seq<string>, links: nat)
    requires env.Rooted() && links <= MAX_LINK_TO_FOLLOW
    requires todo != [] && (todo[0] == "" || todo[0] == ".")
    ensures Walk(env, stack, todo, links) == Walk(env, stack, AfterSkip(todo[1..]), links)
  {
    if todo[1..] == [] {
      assert [""][1..] == [];
    }
  }

  lemma WalkUp(env: Env, stack: seq<string>, todo: seq<string>, links: nat)
    requires env.Rooted() && links <= MAX_LINK_TO_FOLLOW
    requires todo != [] && todo[0] == ".."
    ensures stack == [] ==> Walk(env, stack, todo, links) == Fail(ENOENT)
    ensures stack != [] ==>
      var up := stack[..|stack| - 1];
      var todo' := AfterUp(up, todo[1..]);
      Walk(env, stack, todo, links) ==
      if todo' == [] then Done(up, Overshoots(env.mounts, stack)) else Walk(env, up, todo', links)
  {
    assert [""][1..] == [];
  }

  lemma WalkDown(env: Env, stack: seq<string>, todo: seq<string>, links: nat)
    requires env.Rooted() && links <= MAX_LINK_TO_FOLLOW
    requires todo != [] && todo[0] != "" && todo[0] != "." && todo[0] != ".."
    ensures
      var down, rest := stack + [todo[0]], todo[1..];
      Walk(env, stack, todo, links) ==
      match Enter(env, down, rest, links)
      case Pass => if rest == [] then Done(down, false) else Walk(env, down, rest, links)
      case Refuse(code) => Fail(code)
      case Jump(from, todo') => Walk(env, from, todo', links + 1)
  {
  }

  lemma WalkEnd(env: Env, stack: seq<string>, links: nat)
    requires env.Rooted() && links <= MAX_LINK_TO_FOLLOW
    ensures Walk(env, stack, [""], links) == Done(stack, false)
  {
    assert [""][1..] == [];
  }

  lemma MountedEnds(env: Env, down: seq<string>)
    requires env.Rooted() && down != [] && Render(down) in env.mounts
    ensures MountDepth(env.mounts, down) == |down|
    ensures MountAt(env.mounts, down, |down|) == env.mounts[Render(down)]
    ensures OffsetAt(down, |down|) == |Render(down)|
  {
    assert down[..|down|] == down;
  }

  lemma SeatIsAtDepth(env: Env, down: seq<string>)
    requires env.Rooted() && down != [] && Render(down) !in env.mounts
    ensures
      var m := MountDepth(env.mounts, down);
      m < |down| && SeatOf(env, down) == SeatAt(env, down, m)
  {
    assert down[..|down|] == down;
  }

  /** A final offset: stripping the slash after a mountpoint clips the position. */
  lemma OffsetClipped(env: Env, stack: seq<string>)
    requires env.Rooted()
    ensures
      var into := SeatOf(env, stack).into;
      OffsetAt(stack, MountDepth(env.mounts, stack)) ==
      if into > |Render(stack)| then |Render(stack)| else into
  {
    RenderPrefix(stack, MountDepth(env.mounts, stack));
  }

  lemma SeatAtRoot(env: Env)
    requires env.Rooted()
    ensures SeatOf(env, []) == Seat(env.mounts["/"], env.disk.symlinks(env.mounts["/"]), 1, 1)
  {
  }

  lemma SeatPlace(env: Env, stack: seq<string>)
    requires env.Rooted()
    ensures SeatOf(env, stack).fs == MountAt(env.mounts, stack, MountDepth(env.mounts, stack))
  {
  }

  class PathResolution {
    const filesystems: map<string, FsId>
    const disk: Disk
    const followLast: bool

    var path: string
    var root: FsId
    var fs: FsId
    var syms: bool
    var index: nat         // path[index] is the first unhandled character
    var indexIntoFs: nat   // path[indexIntoFs..] is relative to fs
    var depthIntoFs: int   // components of that relative path, plus one
    var linksFollowed: nat

    constructor (filesystems: map<string, FsId>, disk: Disk, followLast: bool)
      ensures this.filesystems == filesystems && this.disk == disk && this.followLast == followLast
    {
      this.filesystems, this.disk, this.followLast := filesystems, disk, followLast;
      path, root, fs, syms := "", 0, 0, false;
      index, indexIntoFs, depthIntoFs, linksFollowed := 1, 1, 1, 0;
    }

    function Environment(): Env {
      Env(filesystems, disk, followLast)
    }

    ghost predicate Ready()
      reads this`root
    {
      "/" in filesystems && root == filesystems["/"]
    }

    /** The string and the position in it stand for `stack` handled and `todo` unhandled. */
    ghost predicate At(stack: seq<string>, todo: seq<string>)
      reads this`path, this`index
    {
      Shape(path, index, stack, todo)
    }

    ghost function Seated(): Seat
      reads this`fs, this`syms, this`indexIntoFs, this`depthIntoFs
    {
      Seat(fs, syms, indexIntoFs, depthIntoFs)
    }

    /** The path is handled to its end: `fs` is mounted at depth `m` and the offset is final. */
    ghost predicate Ends(stack: seq<string>, m: nat)
      requires m <= |stack| && (m == 0 || Render(stack[..m]) in filesystems)
      requires "/" in filesystems
      reads this`fs, this`indexIntoFs
    {
      fs == MountAt(filesystems, stack, m) && indexIntoFs == OffsetAt(stack, m)
    }

    method RecursiveFindFs(ghost stack: seq<string>, ghost todo: seq<string>)
      requires Ready() && At(stack, todo) && (todo == [] ==> stack != [])
      modifies this`fs, this`syms, this`indexIntoFs, this`depthIntoFs
      ensures todo != [] ==> Seated() == SeatOf(Environment(), stack)
      ensures todo == [] ==> Ends(stack, ReportedDepth(filesystems, stack, true))
    {
      hide Shape, LastSlash, Clip, Render, MountDepth;
      ghost var top := if todo == [] then |stack| - 1 else |stack|;
      assert todo != [] ==> stack[..top] == stack;
      ghost var k := top;
      depthIntoFs := 1;
      var backIndex := index;
      FirstBackStep(path, index, stack, todo);
      RenderNone(stack);
      while true
        invariant 0 <= k <= top && 1 <= backIndex
        invariant LastSlash(path, backIndex - 1) == |Render(stack[..k])|
        invariant depthIntoFs == top - k + 1
        invariant MountDepth(filesystems, stack[..top]) == MountDepth(filesystems, stack[..k])
        decreases k
      {
        backIndex := LastSlash(path, backIndex - 1);
        if k > 0 { NextBackStep(path, index, stack, todo, k); }
        if backIndex == 0 {
          fs := root;
          indexIntoFs := 1;
          break;
        }
        MountDepthPeel(filesystems, stack, k);
        PrefixText(path, index, stack, todo, k);
        if Clip(path, backIndex, 0) in filesystems {
          fs := filesystems[Clip(path, backIndex, 0)];
          indexIntoFs := backIndex + 1;
          break;
        }
        depthIntoFs := depthIntoFs + 1;
        k := k - 1;
      }
      syms := disk.symlinks(fs);
      if todo == [] {
        OffsetFound(Environment(), stack, k);
      }
    }

    /** The editing half of a "..": erase it together with the component before it. */
    method EraseComponent(slash: nat, ghost stack: seq<string>, ghost todo: seq<string>)
      requires stack != [] && todo != [] && slash == index + |todo[0]|
      requires At(stack, todo)
      modifies this`path, this`index, this`indexIntoFs
      ensures At(stack[..|stack| - 1], AfterUp(stack[..|stack| - 1], todo[1..]))
      ensures indexIntoFs == if old(indexIntoFs) > |path| then |path| else old(indexIntoFs)
    {
      hide Shape, LastSlash, Shorten;
      SlashBeforeLast(path, index, stack, todo);
      var removeStart := LastSlash(path, index - 2);
      UpShape(path, index, stack, todo, removeStart);
      path := Shorten(path, removeStart, slash);
      index := removeStart + 1;
      if indexIntoFs > |path| { indexIntoFs := |path|; }
    }

    method UpPathComponent(slash: nat, ghost stack: seq<string>, ghost todo: seq<string>)
      returns (result: int)
      requires todo != [] && todo[0] == ".." && slash == index + 2
      requires Ready() && At(stack, todo) && Seated() == SeatOf(Environment(), stack)
      modifies this`path, this`index, this`fs, this`syms, this`indexIntoFs, this`depthIntoFs
      ensures result < 0 ==> path == old(path)
      ensures result == if stack == [] then ENOENT else 0
      ensures stack != [] ==>
        var up := stack[..|stack| - 1];
        var todo' := AfterUp(up, todo[1..]);
        && At(up, todo')
        && (todo' != [] ==> Seated() == SeatOf(Environment(), up))
        && (todo' == [] ==> Ends(up, ReportedDepth(filesystems, up, Overshoots(filesystems, stack))))
    {
      hide Shape, SeatOf, MountDepth, ReportedDepth, OffsetAt, Overshoots;
      IndexAtRoot(path, index, stack, todo);
      if index <= 1 { return ENOENT; }
      ghost var env := Environment();
      ghost var up := stack[..|stack| - 1];
      ghost var todo' := AfterUp(up, todo[1..]);
      DepthOneIsMounted(env, stack);
      ReportedUp(filesystems, stack);
      EraseComponent(slash, stack, todo);
      depthIntoFs := depthIntoFs - 1;
      if depthIntoFs > 0 {
        SeatClipped(env, stack, todo');
        TextOf(path, index, up, todo');
        return 0;
      }
      RecursiveFindFs(up, todo');
      return 0;
    }

    method JumpAbsolute(target: string, ghost down: seq<string>, ghost rest: seq<string>)
      returns (result: int)
      requires target != "" && target[0] == '/'
      requires Ready() && At(down, rest)
      modifies this`path, this`index, this`fs, this`syms, this`indexIntoFs, this`depthIntoFs
      ensures result < 0 ==> path == old(path)
      ensures
        var todo := Split(target[1..]) + rest;
        if |Text([], todo)| > PATH_MAX then result == ENAMETOOLONG
        else result == 0 && At([], todo) && Seated() == SeatOf(Environment(), [])
    {
      hide Shape, Split, Text, Remainder;
      AbsoluteSplice(path, index, down, rest, target);
      PartsOf(path, index, down, rest);
      var newPathLen := |target| + |path| - index + 1;
      if newPathLen > PATH_MAX { return ENAMETOOLONG; }
      IndexAtRoot(path, index, down, rest);
      path := target + Remainder(path, index);
      fs := root;
      syms := disk.symlinks(root);
      index := 1;
      indexIntoFs := 1;
      depthIntoFs := 1;
      SplicedSlashFree(target[1..], rest);
      ShapeOf(path, index, [], Split(target[1..]) + rest);
      return 0;
    }

    method JumpRelative(target: string, ghost down: seq<string>, ghost rest: seq<string>)
      returns (result: int)
      requires target != "" && down != [] && Render(down) !in filesystems
      requires Ready() && At(down, rest) && Seated() == SeatOf(Environment(), down)
      modifies this`path, this`index, this`depthIntoFs
      ensures result < 0 ==> path == old(path)
      ensures
        var todo := Split(target) + rest;
        var stack := down[..|down| - 1];
        if |Text(stack, todo)| > PATH_MAX then result == ENAMETOOLONG
        else result == 0 && At(stack, todo) && Seated() == SeatOf(Environment(), stack)
    {
      hide Shape, Split, Text, Remainder, LastSlash, Render, SeatOf;
      PartsOf(path, index, down, rest);
      SlashBeforeLast(path, index, down, rest);
      var removeStart := LastSlash(path, index - 2);
      RelativeSplice(path, index, down, rest, target, removeStart);
      var newPathLen := |path| - (index - removeStart - 2) + |target|;
      if newPathLen > PATH_MAX { return ENAMETOOLONG; }
      path := path[..removeStart + 1] + target + Remainder(path, index);
      index := removeStart + 1;
      depthIntoFs := depthIntoFs - 1;
      SeatUp(Environment(), down);
      SplicedSlashFree(target, rest);
      ShapeOf(path, index, down[..|down| - 1], Split(target) + rest);
      return 0;
    }

    method FollowSymlink(ghost down: seq<string>, ghost rest: seq<string>) returns (result: int)
      requires down != [] && Render(down) !in filesystems
      requires Ready() && At(down, rest) && Seated() == SeatOf(Environment(), down)
      modifies this`path, this`index, this`fs, this`syms, this`indexIntoFs, this`depthIntoFs,
               this`linksFollowed
      ensures result < 0 ==> path == old(path)
      ensures linksFollowed == old(linksFollowed) + 1
      ensures
        var v := AtLink(Environment(), down, rest, old(linksFollowed));
        && (v.Refuse? ==> result == v.code)
        && (v.Jump? ==> result == 0 && At(v.stack, v.todo) && Seated() == SeatOf(Environment(), v.stack))
        && !v.Pass?
    {
      hide Shape, Split, Text, Render, Join, MountDepth, Clip;
      linksFollowed := linksFollowed + 1;
      if linksFollowed >= MAX_LINK_TO_FOLLOW { return ELOOP; }
      DepthOneIsMounted(Environment(), down);
      RelativeName(path, index, down, rest, MountDepth(filesystems, down));
      IndexAtRoot(path, index, down, rest);
      var link := disk.readlink(fs, Clip(path, index - 1, indexIntoFs));
      if link.LinkError? { return link.code; }
      if link.text == "" { return ENOENT; }
      if link.text[0] == '/' {
        result := JumpAbsolute(link.text, down, rest);
      } else {
        result := JumpRelative(link.text, down, rest);
      }
    }

    method NormalPathComponent(followIfSymlink: bool, ghost down: seq<string>, ghost rest: seq<string>)
      returns (result: int)
      requires down != [] && followIfSymlink == (rest == [] ==> followLast)
      requires Ready() && At(down, rest)
      requires Seated() == SeatOf(Environment(), down[..|down| - 1])
      requires linksFollowed < MAX_LINK_TO_FOLLOW
      modifies this`path, this`index, this`fs, this`syms, this`indexIntoFs, this`depthIntoFs,
               this`linksFollowed
      ensures result < 0 ==> path == old(path)
      ensures linksFollowed >= old(linksFollowed)
      ensures
        var env := Environment();
        var v := Enter(env, down, rest, old(linksFollowed));
        && (v.Refuse? ==> result == v.code)
        && (v.Pass? ==>
              && result == 0 && path == old(path) && index == old(index)
              && linksFollowed == old(linksFollowed)
              && (if rest != [] then Seated() == SeatOf(env, down)
                  else Ends(down, ReportedDepth(filesystems, down, false))))
        && (v.Jump? ==>
              && result == 0 && linksFollowed == old(linksFollowed) + 1
              && At(v.stack, v.todo) && Seated() == SeatOf(env, v.stack))
    {
      hide Shape, Render, Join, Clip, SeatOf, MountDepth, OffsetAt, AtLink;
      ghost var env := Environment();
      DownLookup(down, rest);
      if Clip(path, index - 1, 0) in filesystems {
        SeatMounted(env, down);
        MountedEnds(env, down);
        fs := filesystems[Clip(path, index - 1, 0)];
        syms := disk.symlinks(fs);
        indexIntoFs := if index > |path| then index - 1 else index;
        depthIntoFs := 1;
        return 0;
      }
      SeatUp(env, down);
      SeatEnds(env, down);
      SeatIsAtDepth(env, down);
      depthIntoFs := depthIntoFs + 1;
      if syms && followIfSymlink {
        var st := disk.lstat(fs, Clip(path, index - 1, indexIntoFs));
        match st
        case StatError(code) => return code;
        case Symlink => result := FollowSymlink(down, rest); return;
        case OtherFile => if index <= |path| { return ENOTDIR; }
        case Directory =>
      }
      return 0;
    }

    /** The text that `normalPathComponent` looks up and hands to `lstat`. */
    lemma DownLookup(down: seq<string>, rest: seq<string>)
      requires down != [] && At(down, rest)
      ensures index >= 1 && index - 1 == |Render(down)|
      ensures index > |path| <==> rest == []
      ensures Clip(path, index - 1, 0) == Render(down)
      ensures forall m: nat | m < |down| ::
                Clip(path, index - 1, |Render(down[..m])| + 1) == Join(down[m..])
    {
      TextAt(path, index, down, rest);
      forall m: nat | m < |down|
        ensures Clip(path, index - 1, |Render(down[..m])| + 1) == Join(down[m..])
      {
        RelativeName(path, index, down, rest, m);
      }
    }

    /** The state stands for an outcome of the walk that started as `goal`. */
    ghost predicate Leads(goal: Outcome, stack: seq<string>, todo: seq<string>, missed: bool)
      reads this
    {
      && Ready() && linksFollowed < MAX_LINK_TO_FOLLOW && At(stack, todo)
      && if todo != []
         then Seated() == SeatOf(Environment(), stack) &&
              goal == Walk(Environment(), stack, todo, linksFollowed)
         else stack != [] && Ends(stack, ReportedDepth(filesystems, stack, missed)) &&
              goal == Done(stack, missed)
    }

    /** One more link, the end of the path, or fewer characters left than before. */
    static predicate Advanced(links: nat, left: int, linksBefore: nat, leftBefore: int) {
      links > linksBefore || left <= 0 || left < leftBefore
    }

    /** An empty component or "." is erased with the slash after it. */
    method SkipComponent(length: nat, ghost goal: Outcome, ghost stack: seq<string>, ghost todo: seq<string>)
      returns (ghost todo': seq<string>)
      requires todo != [] && Leads(goal, stack, todo, false)
      requires (todo[0] == "" || todo[0] == ".") && length == |todo[0]| + 1
      modifies this`path
      ensures Leads(goal, stack, todo', false)
      ensures Advanced(linksFollowed, |path| - index, linksFollowed, old(|path| - index))
    {
      hide Shape, Walk, SeatOf, Erase, ReportedDepth, OffsetAt, MountAt;
      todo' := AfterSkip(todo[1..]);
      SkipShape(path, index, stack, todo);
      WalkSkip(Environment(), stack, todo, linksFollowed);
      path := Erase(path, index, length);
    }

    method LeaveComponent(slash: nat, ghost goal: Outcome, ghost stack: seq<string>, ghost todo: seq<string>)
      returns (result: int, ghost stack': seq<string>, ghost todo': seq<string>, ghost missed: bool)
      requires todo != [] && Leads(goal, stack, todo, false)
      requires todo[0] == ".." && slash == index + 2
      modifies this`path, this`index, this`fs, this`syms, this`indexIntoFs, this`depthIntoFs
      ensures result < 0 ==> path == old(path) && goal == Fail(result)
      ensures result >= 0 ==> Leads(goal, stack', todo', missed)
      ensures linksFollowed >= old(linksFollowed)
      ensures result >= 0 ==> Advanced(linksFollowed, |path| - index, old(linksFollowed), old(|path| - index))
    {
      hide Shape, Walk, SeatOf, Overshoots, ReportedDepth, OffsetAt, MountAt;
      missed := false;
      WalkUp(Environment(), stack, todo, linksFollowed);
      RoomLeft(path, index, stack, todo);
      result := UpPathComponent(slash, stack, todo);
      if stack != [] {
        stack' := stack[..|stack| - 1];
        todo' := AfterUp(stack', todo[1..]);
        missed := Overshoots(filesystems, stack);
        RoomLeft(path, index, stack', todo');
        UpRoom(stack', todo);
      } else {
        stack', todo' := stack, todo;
      }
    }

    method EnterComponent(slash: nat, ghost goal: Outcome, ghost stack: seq<string>, ghost todo: seq<string>)
      returns (result: int, ghost stack': seq<string>, ghost todo': seq<string>, ghost missed: bool)
      requires todo != [] && Leads(goal, stack, todo, false)
      requires todo[0] != "" && todo[0] != "." && todo[0] != ".." && slash == index + |todo[0]|
      modifies this`path, this`index, this`fs, this`syms, this`indexIntoFs, this`depthIntoFs,
               this`linksFollowed
      ensures result < 0 ==> path == old(path) && goal == Fail(result)
      ensures result >= 0 ==> Leads(goal, stack', todo', missed)
      ensures linksFollowed >= old(linksFollowed)
      ensures result >= 0 ==> Advanced(linksFollowed, |path| - index, old(linksFollowed), old(|path| - index))
    {
      hide Shape, Walk, SeatOf, Enter, ReportedDepth, OffsetAt, MountAt;
      ghost var env, links := Environment(), linksFollowed;
      missed := false;
      stack', todo' := stack + [todo[0]], todo[1..];
      PushShape(path, index, stack, todo);
      WalkDown(env, stack, todo, links);
      index := slash + 1;
      var follow := if index > |path| then followLast else true;
      result := NormalPathComponent(follow, stack', todo');
      ghost var v := Enter(env, stack', todo', links);
      if v.Jump? {
        stack', todo' := v.stack, v.todo;
      }
    }

    /** One turn of the resolver's loop: the component at the position. */
    method HandleComponent(ghost goal: Outcome, ghost stack: seq<string>, ghost todo: seq<string>)
      returns (result: int, ghost stack': seq<string>, ghost todo': seq<string>, ghost missed: bool)
      requires todo != [] && Leads(goal, stack, todo, false)
      modifies this`path, this`index, this`fs, this`syms, this`indexIntoFs, this`depthIntoFs,
               this`linksFollowed
      ensures result < 0 ==> path == old(path) && goal == Fail(result)
      ensures result >= 0 ==> Leads(goal, stack', todo', missed)
      ensures linksFollowed >= old(linksFollowed)
      ensures result >= 0 ==> Advanced(linksFollowed, |path| - index, old(linksFollowed), old(|path| - index))
    {
      hide Shape, Walk, SeatOf, FirstSlash, Leads, Advanced;
      AtComponent(goal, stack, todo);
      var slash := FirstSlash(path, index);
      if slash == index {
        result, stack', missed := 0, stack, false;
        todo' := SkipComponent(1, goal, stack, todo);
      } else if slash - index == 1 && path[index] == '.' {
        result, stack', missed := 0, stack, false;
        todo' := SkipComponent(2, goal, stack, todo);
      } else if slash - index == 2 && path[index] == '.' && path[index + 1] == '.' {
        result, stack', todo', missed := LeaveComponent(slash, goal, stack, todo);
      } else {
        result, stack', todo', missed := EnterComponent(slash, goal, stack, todo);
      }
    }

    /** The first slash from the position ends the next component, which shows in its characters. */
    lemma AtComponent(goal: Outcome, stack: seq<string>, todo: seq<string>)
      requires todo != [] && Leads(goal, stack, todo, false)
      ensures
        var slash := FirstSlash(path, index);
        && slash == index + |todo[0]| && slash <= |path|
        && (todo[0] == "" <==> slash == index)
        && (todo[0] == "." <==> slash - index == 1 && path[index] == '.')
        && (todo[0] == ".." <==> slash - index == 2 && path[index] == '.' && path[index + 1] == '.')
    {
      hide Shape, Walk, SeatOf, FirstSlash;
      ComponentEnd(path, index, stack, todo);
      ComponentKind(path, index, FirstSlash(path, index), todo[0]);
    }

    /** Removing the slash that may be left at the end of a handled path. */
    method StripTrailingSlash(ghost goal: Outcome, ghost stack: seq<string>, ghost todo: seq<string>,
                              ghost missed: bool)
      requires Leads(goal, stack, todo, missed) && index >= |path|
      modifies this`path, this`indexIntoFs
      ensures goal == Done(stack, if todo == [] then missed else false)
      ensures path == Render(stack) && |path| <= old(|path|)
      ensures Ends(stack, ReportedDepth(filesystems, stack, goal.missed))
    {
      hide Shape, Walk, Render, SeatOf, Erase, OffsetAt;
      ghost var env := Environment();
      HandledIff(path, index, stack, todo);
      if todo != [] {
        WalkEnd(env, stack, linksFollowed);
        SeatPlace(env, stack);
        OffsetClipped(env, stack);
      }
      LastChar(path, index, stack, todo);
      var last := |path| - 1;
      if path[last] == '/' {
        path := Erase(path, last, 1);
        if indexIntoFs > |path| { indexIntoFs := |path|; }
      }
    }

    /** The resolver: its result and the new text are what the component walk says. */
    method ResolvePath(absolute: string) returns (r: Resolved)
      requires absolute != "" && absolute[0] == '/' && |absolute| <= PATH_MAX
      modifies this
      ensures "/" !in filesystems ==> r == Error(ENOENT)
      ensures "/" in filesystems ==>
        match Resolve(Environment(), absolute)
        case Refused(code) => r == Error(code)
        case Located(text, fs, off) => path == text && r == Found(fs, off) && linksFollowed <= 1
      ensures |path| <= PATH_MAX
    {
      hide Shape, Walk, Split, Render, SeatOf, ReportedDepth, OffsetAt;
      path := absolute;
      if "/" !in filesystems { return Error(ENOENT); }
      root, fs := filesystems["/"], filesystems["/"];
      syms := disk.symlinks(fs);
      index, indexIntoFs, depthIntoFs, linksFollowed := 1, 1, 1, 0;
      ghost var stack, todo, missed := [], Split(absolute[1..]), false;
      ghost var goal := Walk(Environment(), stack, todo, 0);
      StartShape(absolute);
      SeatAtRoot(Environment());
      while true
        invariant Leads(goal, stack, todo, missed) && todo != []
        invariant |path| <= PATH_MAX
        invariant goal == Walk(Environment(), [], Split(absolute[1..]), 0)
        decreases MAX_LINK_TO_FOLLOW - linksFollowed, |path| - index
      {
        var result;
        result, stack, todo, missed := HandleComponent(goal, stack, todo);
        if result < 0 { return Error(result); }
        PartsOf(path, index, stack, todo);
        HandledIff(path, index, stack, todo);
        if index >= |path| {
          StripTrailingSlash(goal, stack, todo, missed);
          return Found(fs, indexIntoFs);
        }
      }
    }
  }
}
