/**
 What mounting is for: a mounted filesystem answers for its mountpoint until it is unmounted,
 and then the filesystem around it answers again.
 */
module MountTheorems {
  import opened PathText
  import opened PathSpec
  import opened PathEdits
  import opened PathTheorems
  import opened MountTable
  import PathLinks

  // ---------- Results fit ----------

  lemma TextStep(stack: seq<string>, todo: seq<string>)
    requires todo != []
    ensures Text(stack + [todo[0]], todo[1..]) == Text(stack, todo)
    ensures |Text(stack, todo[1..])| <= |Text(stack, todo)|
    ensures stack != [] ==> |Text(stack[..|stack| - 1], todo[1..])| <= |Text(stack, todo)|
  {
    hide Join, Render, Tail;
    var top, c, rest := Render(stack), todo[0], Tail(todo[1..]);
    TailHead(todo);
    RenderPush(stack, c);
    assert top + ("/" + c + rest) == (top + "/" + c) + rest;
    if stack != [] { RenderPrefix(stack, |stack| - 1); }
  }

  /** A walk that starts with a text that fits ends with one. */
  lemma {:induction false} WalkFits(env: Env, stack: seq<string>, todo: seq<string>, links: nat)
    requires env.Rooted() && links <= MAX_LINK_TO_FOLLOW && |Text(stack, todo)| <= PATH_MAX
    ensures
      var r := Walk(env, stack, todo, links);
      r.Done? ==> |Render(r.stack)| <= PATH_MAX
    decreases MAX_LINK_TO_FOLLOW - links, |todo|
  {
    hide Enter, Overshoots, Text, Render;
    if todo == [] {
      TextDone(stack);
    } else {
      var c, rest := todo[0], todo[1..];
      TextStep(stack, todo);
      if c == "" || c == "." {
        WalkFits(env, stack, rest, links);
      } else if c == ".." {
        if stack != [] {
          TextDone(stack[..|stack| - 1]);
          WalkFits(env, stack[..|stack| - 1], rest, links);
        }
      } else {
        var v := Enter(env, stack + [c], rest, links);
        if v.Pass? {
          WalkFits(env, stack + [c], rest, links);
        } else if v.Jump? {
          JumpFits(env, stack + [c], rest, links);
          WalkFits(env, v.stack, v.todo, links + 1);
        }
      }
    }
  }

  lemma TextDone(stack: seq<string>)
    ensures Text(stack, []) == Render(stack)
  {
  }

  lemma JumpFits(env: Env, down: seq<string>, rest: seq<string>, links: nat)
    requires env.Rooted() && down != [] && Enter(env, down, rest, links).Jump?
    ensures var v := Enter(env, down, rest, links); |Text(v.stack, v.todo)| <= PATH_MAX
  {
    hide Text;
  }

  lemma LookupFits(mounts: Mounts, disk: Disk, path: string, followLast: bool)
    requires Lookup(mounts, disk, path, followLast).Located?
    ensures |Lookup(mounts, disk, path, followLast).text| <= PATH_MAX
  {
    hide Walk, Render, Split, Join;
    JoinSplit(path[1..]);
    RenderNone([]);
    assert Text([], Split(path[1..])) == path;
    WalkFits(Env(mounts, disk, followLast), [], Split(path[1..]), 0);
  }

  // ---------- Tables that agree along a path ----------

  /** The same filesystems are mounted on every directory down to `stack`. */
  predicate Agree(mounts: Mounts, mounts': Mounts, stack: seq<string>) {
    && "/" in mounts && "/" in mounts' && mounts["/"] == mounts'["/"]
    && forall j :: 1 <= j <= |stack| ==>
         var key := Render(stack[..j]);
         (key in mounts <==> key in mounts') && (key in mounts ==> mounts[key] == mounts'[key])
  }

  lemma AgreeAbove(mounts: Mounts, mounts': Mounts, stack: seq<string>, k: nat)
    requires Agree(mounts, mounts', stack) && k <= |stack|
    ensures Agree(mounts, mounts', stack[..k])
  {
    assert forall j :: 1 <= j <= k ==> stack[..k][..j] == stack[..j];
  }

  lemma {:induction false} DepthAgrees(mounts: Mounts, mounts': Mounts, stack: seq<string>)
    requires Agree(mounts, mounts', stack)
    ensures MountDepth(mounts, stack) == MountDepth(mounts', stack)
    ensures
      var m := MountDepth(mounts, stack);
      MountAt(mounts, stack, m) == MountAt(mounts', stack, m)
  {
    hide Render;
    if stack != [] {
      assert stack[..|stack|] == stack;
      AgreeAbove(mounts, mounts', stack, |stack| - 1);
      DepthAgrees(mounts, mounts', stack[..|stack| - 1]);
      var m := MountDepth(mounts, stack);
      assert m < |stack| ==> stack[..|stack| - 1][..m] == stack[..m];
    }
  }

  /** Directories on the way stay settled, whether or not a last link would be followed. */
  lemma SettledAgrees(mounts: Mounts, mounts': Mounts, disk: Disk, followLast: bool, stack: seq<string>, last: bool)
    requires Agree(mounts, mounts', stack) && Settled(Env(mounts, disk, false), stack, last) && stack != []
    requires last && followLast ==> Entry(Env(mounts, disk, false), stack) == Directory
    ensures Entry(Env(mounts', disk, followLast), stack) == Entry(Env(mounts, disk, false), stack)
    ensures Settled(Env(mounts', disk, followLast), stack, last)
  {
    hide Render, MountDepth, Join;
    DepthAgrees(mounts, mounts', stack);
    assert stack[..|stack|] == stack;
  }

  // ---------- What resolving a path to be mounted found ----------

  /** The directories above `stack`, with their text, as a lookup that does not follow a last link left them. */
  ghost predicate Way(mounts: Mounts, disk: Disk, stack: seq<string>) {
    && "/" in mounts && AllNormal(stack) && stack != [] && |Render(stack)| <= PATH_MAX
    && WaySettled(Env(mounts, disk, false), stack)
  }

  lemma LookupWay(mounts: Mounts, disk: Disk, path: string)
    requires Lookup(mounts, disk, path, false).Located? && Lookup(mounts, disk, path, false).text != ""
    ensures
      var text := Lookup(mounts, disk, path, false).text;
      var stack := Split(text[1..]);
      Way(mounts, disk, stack) && text == Render(stack) && text[0] == '/'
  {
    hide Walk, Render, Split, WaySettled, AllNormal;
    var env := Env(mounts, disk, false);
    var todo := Split(path[1..]);
    LookupFits(mounts, disk, path, false);
    LookupStack(mounts, disk, path);
    NothingSettled(env);
    WalkSettles(env, [], todo, 0);
    SplitIsSlashFree(path[1..]);
    NoneNormal();
    WalkKeepsNormal(env, [], todo, 0);
    var stack := Walk(env, [], todo, 0).stack;
    NormalIsSlashFree(stack);
    SplitRender(stack);
  }

  lemma NormalIsSlashFree(stack: seq<string>)
    requires AllNormal(stack)
    ensures AllSlashFree(stack)
  {
  }

  lemma NothingSettled(env: Env)
    requires env.Rooted()
    ensures AllSettled(env, [])
  {
  }

  lemma NoneNormal()
    ensures AllNormal([])
  {
  }

  /** Looking up a settled path reports the longest mounted prefix. */
  lemma LookupSettled(mounts: Mounts, disk: Disk, followLast: bool, stack: seq<string>)
    requires "/" in mounts && AllNormal(stack) && stack != [] && |Render(stack)| <= PATH_MAX
    requires WaySettled(Env(mounts, disk, followLast), stack)
    ensures
      var m := MountDepth(mounts, stack);
      Lookup(mounts, disk, Render(stack), followLast) ==
      Located(Render(stack), MountAt(mounts, stack, m), OffsetAt(stack, m))
  {
    hide Walk, Render, Split, WaySettled, MountDepth;
    SplitRender(stack);
    RenderEnd(stack);
    SettledWalk(Env(mounts, disk, followLast), stack, 0);
    assert stack[..0] == [] && stack[0..] == stack;
  }

  // ---------- After mounting ----------

  lemma MountAgrees(mounts: Mounts, stack: seq<string>, fs: FsId)
    requires "/" in mounts && stack != [] && AllNormal(stack)
    ensures Agree(mounts, mounts[Render(stack) := fs], stack[..|stack| - 1])
  {
    hide Render;
    var up := stack[..|stack| - 1];
    ShorterThan(stack, 0);
    forall j | 1 <= j <= |up| ensures up[..j] == stack[..j] && Render(up[..j]) != Render(stack) {
      assert up[..j] == stack[..j];
      ShorterThan(stack, j);
    }
  }

  lemma ShorterThan(stack: seq<string>, j: nat)
    requires j < |stack| && AllNormal(stack)
    ensures |Render(stack[..j])| < |Render(stack)| && |Render(stack)| >= 2
  {
    RenderPrefix(stack, j);
    RenderEnd(stack);
  }

  lemma WayAbove(mounts: Mounts, disk: Disk, mounts': Mounts, followLast: bool, stack: seq<string>)
    requires Way(mounts, disk, stack) && Agree(mounts, mounts', stack[..|stack| - 1])
    ensures "/" in mounts'
    ensures forall j :: 1 <= j < |stack| ==> Settled(Env(mounts', disk, followLast), stack[..j], false)
  {
    hide Render, Settled, AllNormal, Agree;
    var up := stack[..|stack| - 1];
    RootStays(mounts, mounts', up);
    forall j | 1 <= j < |stack| ensures Settled(Env(mounts', disk, followLast), stack[..j], false) {
      assert up[..j] == stack[..j];
      AgreeAbove(mounts, mounts', up, j);
      SettledAgrees(mounts, mounts', disk, followLast, stack[..j], false);
    }
  }

  /** What is mounted at the end of a way answers for it. */
  lemma MountAnswers(mounts: Mounts, disk: Disk, stack: seq<string>, fs: FsId, followLast: bool)
    requires Way(mounts, disk, stack)
    ensures
      var text := Render(stack);
      Lookup(mounts[text := fs], disk, text, followLast) == Located(text, fs, |text|)
  {
    hide Render, Lookup, AllNormal;
    var text := Render(stack);
    var mounts' := mounts[text := fs];
    MountAgrees(mounts, stack, fs);
    WayAbove(mounts, disk, mounts', followLast, stack);
    LookupSettled(mounts', disk, followLast, stack);
    assert stack[..|stack|] == stack;
  }

  /** What a successful mount found, unless it was the first. */
  lemma MountFound(mounts: Mounts, disk: Disk, path: string, fs: FsId)
    requires Mounting(mounts, disk, path, fs).code == 0 && !(path == "/" && mounts == map[])
    ensures Lookup(mounts, disk, path, false).Located? && StatOf(mounts, disk, path) == Directory
    ensures Lookup(mounts, disk, path, false).text !in mounts
    ensures Mounting(mounts, disk, path, fs).mounts == mounts[Lookup(mounts, disk, path, false).text := fs]
  {
    hide Lookup, ParentText;
    StatLocates(mounts, disk, path);
  }

  /**
   After a mount that succeeded, the keys are the old ones, with their filesystems, and the text the path
   resolved to; and looking that text up, following a last link or not, finds the new filesystem's root.
   */
  lemma MountedIsFound(mounts: Mounts, disk: Disk, path: string, fs: FsId, followLast: bool)
    requires Mounting(mounts, disk, path, fs).code == 0 && !(path == "/" && mounts == map[])
    requires Lookup(mounts, disk, path, false).Located? && Lookup(mounts, disk, path, false).text != ""
    ensures
      var text, after := Lookup(mounts, disk, path, false).text, Mounting(mounts, disk, path, fs).mounts;
      && text !in mounts && after.Keys == mounts.Keys + {text}
      && (forall key :: key in mounts ==> after[key] == mounts[key])
      && Lookup(after, disk, text, followLast) == Located(text, fs, |text|)
  {
    hide Lookup, Mounting, Split, Render;
    MountFound(mounts, disk, path, fs);
    LookupWay(mounts, disk, path);
    MountAnswers(mounts, disk, Split(Lookup(mounts, disk, path, false).text[1..]), fs, followLast);
  }

  /** The first mount makes every root lookup find its filesystem. */
  lemma RootIsFound(disk: Disk, fs: FsId, followLast: bool)
    ensures
      var after := Mounting(map[], disk, "/", fs);
      after.code == 0 && after.mounts.Keys == {"/"} && Lookup(after.mounts, disk, "/", followLast) == Located("", fs, 0)
  {
    var env := Env(map["/" := fs], disk, followLast);
    assert "/"[1..] == "";
    SplitSlashFree("");
    assert [""][1..] == [];
    assert Walk(env, [], [""], 0) == Walk(env, [], [], 0) == Done([], false);
  }

  // ---------- After unmounting again ----------

  lemma UnmountAgrees(mounts: Mounts, stack: seq<string>, fs: FsId)
    requires "/" in mounts && stack != [] && AllNormal(stack) && Render(stack) !in mounts
    requires |Render(stack)| <= PATH_MAX
    ensures
      var after := Unmounting(mounts[Render(stack) := fs], Render(stack), false);
      after.code == 0 && Agree(mounts, after.mounts, stack)
  {
    hide Render, AllNormal;
    var text := Render(stack);
    var after := Unmounting(mounts[text := fs], text, false).mounts;
    ShorterThan(stack, 0);
    forall j | 1 <= j <= |stack| ensures Render(stack[..j]) in mounts <==> Render(stack[..j]) in after
      ensures Render(stack[..j]) in mounts ==> mounts[Render(stack[..j])] == after[Render(stack[..j])] {
      if j == |stack| {
        assert stack[..j] == stack;
      } else {
        ShorterThan(stack, j);
      }
    }
  }

  /**
   Unmounting it again succeeds, the filesystem that hosted the mountpoint answers for it as before, and the
   table is what it was if and only if no key of it has the mountpoint's text as a prefix.
   */
  lemma UnmountUndoes(mounts: Mounts, disk: Disk, path: string, fs: FsId, followLast: bool)
    requires Mounting(mounts, disk, path, fs).code == 0 && !(path == "/" && mounts == map[])
    requires Lookup(mounts, disk, path, false).Located? && Lookup(mounts, disk, path, false).text != ""
    ensures
      var before := Lookup(mounts, disk, path, false);
      var after := Unmounting(Mounting(mounts, disk, path, fs).mounts, before.text, false);
      && after.code == 0 && Lookup(after.mounts, disk, before.text, followLast) == before
      && (after.mounts == mounts <==> forall key :: key in mounts ==> !(before.text <= key))
  {
    hide Lookup, Mounting, Split, Render, MountDepth, Unmounting, Way, StatOf;
    var before := Lookup(mounts, disk, path, false);
    var stack := Split(before.text[1..]);
    MountFound(mounts, disk, path, fs);
    LookupWay(mounts, disk, path);
    HostIsAbove(mounts, disk, path);
    HostOffset(mounts, disk, path);
    HostAnswers(mounts, disk, stack, fs, followLast);
    LookupFits(mounts, disk, path, false);
    UnmountRestores(mounts, before.text, fs);
  }

  lemma HostAnswers(mounts: Mounts, disk: Disk, stack: seq<string>, fs: FsId, followLast: bool)
    requires Way(mounts, disk, stack) && Render(stack) !in mounts
    requires Entry(Env(mounts, disk, false), stack) == Directory
    ensures
      var m := MountDepth(mounts, stack);
      var after := Unmounting(mounts[Render(stack) := fs], Render(stack), false);
      && after.code == 0
      && Lookup(after.mounts, disk, Render(stack), followLast) ==
         Located(Render(stack), MountAt(mounts, stack, m), OffsetAt(stack, m))
  {
    hide Render, MountDepth, Unmounting, Lookup, AllNormal, Entry, Settled, OffsetAt, MountAt, Agree;
    var after := Unmounting(mounts[Render(stack) := fs], Render(stack), false).mounts;
    UnmountAgrees(mounts, stack, fs);
    DepthAgrees(mounts, after, stack);
    SettledAgrees(mounts, after, disk, followLast, stack, true);
    AgreeAbove(mounts, after, stack, |stack| - 1);
    WayAbove(mounts, disk, after, followLast, stack);
    RootStays(mounts, after, stack);
    LookupSettled(after, disk, followLast, stack);
  }

  lemma RootStays(mounts: Mounts, mounts': Mounts, stack: seq<string>)
    requires Agree(mounts, mounts', stack)
    ensures "/" in mounts'
  {
  }

  lemma HostOffset(mounts: Mounts, disk: Disk, path: string)
    requires Lookup(mounts, disk, path, false).Located?
    requires
      var text := Lookup(mounts, disk, path, false).text;
      text != "" && text !in mounts
    ensures
      var r := Lookup(mounts, disk, path, false);
      var stack := Split(r.text[1..]);
      r.off == OffsetAt(stack, MountDepth(mounts, stack))
  {
    hide Walk, Split, Render, MountDepth, OffsetAt;
    LookupStack(mounts, disk, path);
  }

  lemma UnmountRestores(mounts: Mounts, text: string, fs: FsId)
    requires text !in mounts && text != "" && |text| <= PATH_MAX
    ensures Unmounting(mounts[text := fs], text, false).mounts == mounts <==>
            forall key :: key in mounts ==> !(text <= key)
  {
    var after := Unmounting(mounts[text := fs], text, false).mounts;
    if key :| key in mounts && text <= key {
      assert key !in after;
    } else {
      assert after == mounts;
    }
  }

  // ---------- When mounting succeeds ----------

  /** Looking up a settled directory, with a trailing slash, gives its own status. */
  lemma DirectoryStatus(mounts: Mounts, disk: Disk, up: seq<string>)
    requires "/" in mounts && AllNormal(up) && AllSettled(Env(mounts, disk, false), up)
    requires |Render(up)| < PATH_MAX
    ensures StatOf(mounts, disk, Render(up) + "/") == Entry(Env(mounts, disk, false), up)
  {
    hide Walk, Render, Split, Settled, MountDepth, OffsetAt, AllNormal, AllSettled;
    DirectoryWalk(Env(mounts, disk, false), up);
    PathLinks.RenderStarts(up);
    assert (Render(up) + "/")[0] == '/';
    LocatedStatus(mounts, disk, up);
  }

  lemma DirectoryWalk(env: Env, up: seq<string>)
    requires env.Rooted() && AllNormal(up) && AllSettled(env, up)
    ensures Walk(env, [], Split((Render(up) + "/")[1..]), 0) == Done(up, false)
  {
    hide Walk, Render, Split, Settled, AllNormal, AllSettled;
    PathLinks.DownParts(up, "");
    SplitSlashFree("");
    assert Render(up) + "/" + "" == Render(up) + "/";
    PathLinks.WalkFrom(env, up, [""], 0);
    WalkEmpty(env, up);
  }

  lemma LocatedStatus(mounts: Mounts, disk: Disk, up: seq<string>)
    requires "/" in mounts
    ensures
      var m := MountDepth(mounts, up);
      disk.lstat(MountAt(mounts, up, m), Clip(Render(up), |Render(up)|, OffsetAt(up, m))) ==
      Entry(Env(mounts, disk, false), up)
  {
    hide Render, MountDepth, OffsetAt, Join;
    var m := MountDepth(mounts, up);
    OffsetIsRelative(up, m);
    var text, off := Render(up), OffsetAt(up, m);
    assert Clip(text, |text|, off) == text[off..];
  }

  /** The directory above a way has its status looked up where it is. */
  lemma ParentStatus(mounts: Mounts, disk: Disk, stack: seq<string>)
    requires Way(mounts, disk, stack)
    ensures StatOf(mounts, disk, ParentText(Render(stack))) ==
            Entry(Env(mounts, disk, false), stack[..|stack| - 1])
  {
    hide Render, ParentText, StatOf, Entry, AllNormal, AllSettled, WaySettled;
    ParentOfRender(stack);
    NormalPop(stack);
    UpSettled(Env(mounts, disk, false), stack);
    ShorterThan(stack, |stack| - 1);
    DirectoryStatus(mounts, disk, stack[..|stack| - 1]);
  }

  lemma UpSettled(env: Env, stack: seq<string>)
    requires env.Rooted() && stack != [] && WaySettled(env, stack)
    ensures AllSettled(env, stack[..|stack| - 1])
  {
    hide Settled;
    var up := stack[..|stack| - 1];
    forall j | 1 <= j <= |up| ensures Settled(env, up[..j], false) {
      assert up[..j] == stack[..j];
    }
  }

  lemma WalkEmpty(env: Env, stack: seq<string>)
    requires env.Rooted()
    ensures Walk(env, stack, [""], 0) == Done(stack, false)
  {
    assert [""][1..] == [];
    assert Walk(env, stack, [], 0) == Done(stack, false);
  }

  /** What the disk must say of the place a path leads to, for a filesystem to be mounted there. */
  predicate Mountable(mounts: Mounts, disk: Disk, path: string) {
    var r := Lookup(mounts, disk, path, false);
    && r.Located? && r.text !in mounts && "/" in mounts
    && var env := Env(mounts, disk, false);
       if r.text == "" then Entry(env, []) == Directory
       else
         var stack := Split(r.text[1..]);
         Entry(env, stack) == Directory && !Entry(env, stack[..|stack| - 1]).StatError?
  }

  /**
   Mounting succeeds if and only if it is the first mount of the root, or the path leads to a directory that
   is no mountpoint, in a directory that has a status.
   */
  lemma MountSucceedsIff(mounts: Mounts, disk: Disk, path: string, fs: FsId)
    ensures Mounting(mounts, disk, path, fs).code == 0 <==>
            (path == "/" && mounts == map[]) || Mountable(mounts, disk, path)
  {
    hide Lookup, StatOf, ParentText, Entry, Split;
    var r := Lookup(mounts, disk, path, false);
    if r.Located? {
      LookupKind(mounts, disk, path);
      if r.text !in mounts { PlaceStatus(mounts, disk, path); }
    } else {
      NoStatus(mounts, disk, path);
    }
  }

  lemma LookupKind(mounts: Mounts, disk: Disk, path: string)
    requires Lookup(mounts, disk, path, false).Located?
    ensures path != "" && |path| <= PATH_MAX && "/" in mounts
  {
  }

  lemma NoStatus(mounts: Mounts, disk: Disk, path: string)
    requires Lookup(mounts, disk, path, false).Refused?
    ensures StatOf(mounts, disk, path).StatError?
  {
  }

  /** The status of an unmounted place, and of the directory above it. */
  lemma PlaceStatus(mounts: Mounts, disk: Disk, path: string)
    requires Lookup(mounts, disk, path, false).Located? && "/" in mounts
    requires Lookup(mounts, disk, path, false).text !in mounts
    ensures
      var env, text := Env(mounts, disk, false), Lookup(mounts, disk, path, false).text;
      if text == "" then
        StatOf(mounts, disk, path) == StatOf(mounts, disk, ParentText(text)) == Entry(env, [])
      else
        var stack := Split(text[1..]);
        && StatOf(mounts, disk, path) == Entry(env, stack)
        && StatOf(mounts, disk, ParentText(text)) == Entry(env, stack[..|stack| - 1])
  {
    hide Walk, Lookup, ParentText, Split, StatOf, Render, MountDepth, Way;
    var text := Lookup(mounts, disk, path, false).text;
    if text == "" {
      RootParent(mounts, disk, path);
      RootStatus(mounts, disk);
    } else {
      HostIsAbove(mounts, disk, path);
      LookupWay(mounts, disk, path);
      ParentStatus(mounts, disk, Split(text[1..]));
    }
  }

  lemma RootStatus(mounts: Mounts, disk: Disk)
    requires "/" in mounts
    ensures StatOf(mounts, disk, ParentText("")) == Entry(Env(mounts, disk, false), [])
  {
    var env := Env(mounts, disk, false);
    assert "/"[1..] == "";
    SplitSlashFree("");
    WalkEmpty(env, []);
    assert Lookup(mounts, disk, "/", false) == Located("", mounts["/"], 0);
  }

  // ---------- Busy filesystems ----------

  /** Every unmount of the run that would take the key finds it busy. */
  predicate BusyThroughout(ops: seq<Op>, key: string) {
    forall i :: 0 <= i < |ops| && ops[i].Unmount? && ops[i].path <= key ==> ops[i].busy
  }

  /** In every run, a filesystem stays mounted where it is as long as every unmount finds it busy. */
  lemma {:induction false} BusyStaysMounted(t: Table, ops: seq<Op>, key: string)
    requires key in t.mounts && BusyThroughout(ops, key)
    ensures key in Run(t, ops).mounts && Run(t, ops).mounts[key] == t.mounts[key]
    decreases |ops|
  {
    hide StatOf, Lookup, ParentText, HostKey;
    if ops != [] {
      assert forall i :: 0 <= i < |ops[1..]| ==> ops[1..][i] == ops[i + 1];
      BusyStaysMounted(Apply(t, ops[0]), ops[1..], key);
    }
  }
}
