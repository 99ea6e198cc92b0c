/**
 The table of mounted filesystems: mounting, unmounting and resolving through it.
 */
module MountTable {
  import opened PathText
  import opened PathSpec
  import opened PathEdits
  import PathResolution
  import PathTheorems

  const EFAULT: Errno := -14
  const EBUSY: Errno := -16
  const EINVAL: Errno := -22

  type Mounts = map<string, FsId>

  // ---------- What the operations compute ----------

  function Lookup(mounts: Mounts, disk: Disk, path: string, followLast: bool): Resolution {
    if |path| > PATH_MAX then Refused(ENAMETOOLONG)
    else if path == "" || path[0] != '/' || "/" !in mounts then Refused(ENOENT)
    else Resolve(Env(mounts, disk, followLast), path)
  }

  /** The `lstat` of what a path resolves to. */
  function StatOf(mounts: Mounts, disk: Disk, path: string): Stat {
    match Lookup(mounts, disk, path, false)
    case Refused(code) => StatError(code)
    case Located(text, fs, off) => disk.lstat(fs, Clip(text, |text|, off))
  }

  /** The text of a path without its last component, with a trailing slash. */
  function ParentText(path: string): string {
    var p := WithoutLastSlash(path);
    if p == "" then "/" else p[..LastSlash(p, |p| - 1) + 1]
  }

  datatype Change = Change(code: int, mounts: Mounts)

  function Mounting(mounts: Mounts, disk: Disk, path: string, fs: FsId): Change {
    if path == "" then Change(EFAULT, mounts)
    else if |path| > PATH_MAX then Change(ENAMETOOLONG, mounts)
    else if path == "/" && mounts == map[] then Change(0, map["/" := fs])
    else match StatOf(mounts, disk, path)
      case StatError(code) => Change(code, mounts)
      case Symlink => Change(ENOTDIR, mounts)
      case OtherFile => Change(ENOTDIR, mounts)
      case Directory =>
        var text := Lookup(mounts, disk, path, false).text;
        var parent := StatOf(mounts, disk, ParentText(text));
        if parent.StatError? then Change(parent.code, mounts)
        else if text in mounts then Change(EBUSY, mounts)
        else Change(0, mounts[text := fs])
  }

  /** `busy` is the verdict of the search for files that are still open. */
  function Unmounting(mounts: Mounts, path: string, busy: bool): Change {
    if path == "" then Change(ENOENT, mounts)
    else if |path| > PATH_MAX then Change(ENAMETOOLONG, mounts)
    else if path !in mounts then Change(EINVAL, mounts)
    else if busy then Change(EBUSY, mounts)
    else Change(0, map key | key in mounts && !(path <= key) :: mounts[key])
  }

  /** The parent of a resolved path is its directory, with a trailing slash. */
  lemma ParentOfRender(stack: seq<string>)
    requires stack != [] && AllNormal(stack)
    ensures ParentText(Render(stack)) == Render(stack[..|stack| - 1]) + "/"
  {
    hide Render, LastSlash, SlashFree, AllNormal;
    var dir, c, text := Render(stack[..|stack| - 1]) + "/", stack[|stack| - 1], Render(stack);
    RenderEnd(stack);
    LastSlashOfRender(stack, text, |text| - 1);
    assert text == dir + c;
    assert WithoutLastSlash(text) == text;
    assert ParentText(text) == (dir + c)[..|dir|];
  }

  /** A resolved path has no trailing slash. */
  lemma LookupStripped(mounts: Mounts, disk: Disk, path: string)
    requires Lookup(mounts, disk, path, false).Located?
    ensures WithoutLastSlash(Lookup(mounts, disk, path, false).text) == Lookup(mounts, disk, path, false).text
  {
    hide Resolve;
    var env := Env(mounts, disk, false);
    PathTheorems.ResolvedIsNormal(env, path);
    var text := Resolve(env, path).text;
    if text != "" {
      NormalEnd(text);
    }
  }

  lemma NormalEnd(text: string)
    requires text != "" && text[0] == '/' && AllNormal(Split(text[1..]))
    ensures text == Render(Split(text[1..])) && text[|text| - 1] != '/'
  {
    hide Render, Split, Join;
    var stack := Split(text[1..]);
    JoinSplit(text[1..]);
    RenderIsJoin(stack);
    assert "/" + text[1..] == text;
    RenderEnd(stack);
  }

  // ---------- The operations ----------

  class FilesystemManager {
    var filesystems: Mounts

    constructor ()
      ensures filesystems == map[]
    {
      filesystems := map[];
    }

    method ResolvePath(path: string, disk: Disk, followLast: bool) returns (r: Resolved, text: string)
      ensures match Lookup(filesystems, disk, path, followLast)
              case Refused(code) => r == Error(code)
              case Located(final, fs, off) => text == final && r == Found(fs, off)
    {
      text := path;
      if |path| > PATH_MAX { return Error(ENAMETOOLONG), text; }
      if path == "" || path[0] != '/' { return Error(ENOENT), text; }
      var pr := new PathResolution.PathResolution(filesystems, disk, followLast);
      r := pr.ResolvePath(path);
      text := pr.path;
    }

    method StatHelper(path: string, disk: Disk) returns (st: Stat, text: string)
      ensures st == StatOf(filesystems, disk, path)
      ensures !st.StatError? ==> Lookup(filesystems, disk, path, false).Located? &&
                                 text == Lookup(filesystems, disk, path, false).text
    {
      var r;
      r, text := ResolvePath(path, disk, false);
      match r
      case Error(code) => return StatError(code), text;
      case Found(fs, off) =>
        return disk.lstat(fs, Clip(text, |text|, off)), text;
    }

    /** Also strips a trailing slash from `path`. */
    method GetParentPath(path: string) returns (parent: string, stripped: string)
      ensures parent == ParentText(path) && stripped == WithoutLastSlash(path)
      ensures Canonical(path) && path != "/" ==>
                var stack := Split(path[1..]);
                path == Render(stack) && parent == Render(stack[..|stack| - 1]) + "/"
    {
      hide Render, Split, LastSlash;
      if Canonical(path) && path != "/" {
        NormalEnd(path);
        ParentOfRender(Split(path[1..]));
      }
      stripped := path;
      if path != "" && path[|path| - 1] == '/' { stripped := path[..|path| - 1]; }
      if stripped == "" { return "/", stripped; }
      return stripped[..LastSlash(stripped, |stripped| - 1) + 1], stripped;
    }

    method Kmount(path: string, fs: FsId, disk: Disk) returns (code: int)
      modifies this
      ensures Change(code, filesystems) == Mounting(old(filesystems), disk, path, fs)
    {
      if path == "" { return EFAULT; }
      if |path| > PATH_MAX { return ENAMETOOLONG; }
      var temp := path;
      if !(temp == "/" && filesystems == map[]) {
        var st, text := StatHelper(temp, disk);
        if st.StatError? { return st.code; }
        temp := text;
        if st != Directory { return ENOTDIR; }
        var parent;
        LookupStripped(filesystems, disk, path);
        parent, temp := GetParentPath(temp);
        st, text := StatHelper(parent, disk);
        if st.StatError? { return st.code; }
      }
      if temp in filesystems { return EBUSY; }
      filesystems := filesystems[temp := fs];
      return 0;
    }

    method Umount(path: string, busy: bool) returns (code: int)
      modifies this
      ensures Change(code, filesystems) == Unmounting(old(filesystems), path, busy)
    {
      if path == "" { return ENOENT; }
      if |path| > PATH_MAX { return ENAMETOOLONG; }
      if path !in filesystems { return EINVAL; }
      var rest, toUmount := filesystems.Keys, {};
      while rest != {}
        invariant rest <= filesystems.Keys
        invariant toUmount == set key | key in filesystems.Keys - rest && path <= key
        decreases rest
      {
        var key :| key in rest;
        rest := rest - {key};
        if path <= key { toUmount := toUmount + {key}; }
      }
      if busy { return EBUSY; }
      ghost var before := filesystems;
      while toUmount != {}
        invariant toUmount <= filesystems.Keys
        invariant filesystems.Keys == (set key | key in before && !(path <= key)) + toUmount
        invariant forall key :: key in filesystems ==> key in before && filesystems[key] == before[key]
        invariant forall key :: key in toUmount ==> path <= key
        decreases toUmount
      {
        var key :| key in toUmount;
        toUmount := toUmount - {key};
        filesystems := filesystems - {key};
      }
      assert filesystems == Unmounting(before, path, busy).mounts;
      return 0;
    }
  }

  // ---------- What every operation keeps ----------

  predicate Canonical(key: string) {
    key == "/" || (key != "" && key[0] == '/' && AllNormal(Split(key[1..])))
  }

  /** Every key is a resolved path, and the root is mounted whenever anything is. */
  predicate Good(mounts: Mounts) {
    && (forall key :: key in mounts ==> Canonical(key))
    && (mounts != map[] ==> "/" in mounts)
  }

  /** The path leads back to the root of a table that already has one. */
  predicate RemountsRoot(mounts: Mounts, disk: Disk, path: string) {
    && mounts != map[] && path != "" && |path| <= PATH_MAX
    && Lookup(mounts, disk, path, false).Located?
    && Lookup(mounts, disk, path, false).text == ""
    && "" !in mounts
    && StatOf(mounts, disk, path) == Directory
  }

  lemma LookupCanonical(mounts: Mounts, disk: Disk, path: string)
    requires Lookup(mounts, disk, path, false).Located?
    ensures var text := Lookup(mounts, disk, path, false).text; text == "" || Canonical(text)
  {
    PathTheorems.ResolvedIsNormal(Env(mounts, disk, false), path);
  }

  /** The root's parent is the root, so both checks of a root mount look at the same entry. */
  lemma RootParent(mounts: Mounts, disk: Disk, path: string)
    requires "/" in mounts
    requires Lookup(mounts, disk, path, false).Located? && Lookup(mounts, disk, path, false).text == ""
    ensures StatOf(mounts, disk, ParentText("")) == StatOf(mounts, disk, path)
  {
    var env := Env(mounts, disk, false);
    var todo := Split(path[1..]);
    var r := Walk(env, [], todo, 0);
    assert r.stack == [];
    assert "/"[1..] == "";
    SplitSlashFree("");
    assert Walk(env, [], [""], 0) == Walk(env, [], [], 0) by { assert [""][1..] == []; }
    PathTheorems.MissedIsMount(env, [], todo, 0);
    assert Resolve(env, "/") == Resolve(env, path);
  }

  /** Mounting keeps the table good if and only if it does not mount the root again. */
  lemma MountKeepsGoodIff(mounts: Mounts, disk: Disk, path: string, fs: FsId)
    requires Good(mounts)
    ensures Good(Mounting(mounts, disk, path, fs).mounts) <==> !RemountsRoot(mounts, disk, path)
  {
    hide Lookup, StatOf, ParentText;
    if mounts == map[] && path == "/" {
      assert Canonical("/");
    } else if StatOf(mounts, disk, path) == Directory && path != "" && |path| <= PATH_MAX {
      StatLocates(mounts, disk, path);
      var text := Lookup(mounts, disk, path, false).text;
      LookupCanonical(mounts, disk, path);
      if text == "" {
        RootParent(mounts, disk, path);
        assert !Canonical("");
        assert "" in mounts[text := fs];
      }
    }
  }

  lemma StatLocates(mounts: Mounts, disk: Disk, path: string)
    requires !StatOf(mounts, disk, path).StatError?
    ensures Lookup(mounts, disk, path, false).Located? && "/" in mounts
  {
  }

  lemma CanonicalIsAbsolute(key: string)
    requires Canonical(key)
    ensures "/" <= key
  {
    assert key[..1] == "/";
  }

  lemma UnmountKeepsGood(mounts: Mounts, path: string, busy: bool)
    requires Good(mounts)
    ensures Good(Unmounting(mounts, path, busy).mounts)
  {
    var after := Unmounting(mounts, path, busy).mounts;
    if after != mounts && "/" !in after {
      assert path <= "/" && path != "";
      assert path == "/";
      forall key | key in mounts ensures path <= key {
        CanonicalIsAbsolute(key);
      }
      assert after == map[];
    }
  }

  // ---------- Unmounting by prefix ----------

  /** `key` is `top` itself or lies below it. */
  predicate Below(top: string, key: string) {
    key == top || top == "/" || top + "/" <= key
  }

  /** A key whose text merely starts with the text of `top`, like "/sd2" for "/sd". */
  predicate Lookalike(top: string, key: string) {
    top <= key && !Below(top, key)
  }

  /** A successful unmount takes exactly the mounts below the path iff there is no lookalike. */
  lemma UnmountTakesSubtreeIff(mounts: Mounts, path: string)
    requires Good(mounts) && path in mounts && |path| <= PATH_MAX
    ensures
      var after := Unmounting(mounts, path, false).mounts;
      (after == map key | key in mounts && !Below(path, key) :: mounts[key])
      <==> !exists key :: key in mounts && Lookalike(path, key)
  {
    var after := Unmounting(mounts, path, false).mounts;
    var kept := map key | key in mounts && !Below(path, key) :: mounts[key];
    assert path != "" by { assert Canonical(path); }
    forall key | key in mounts
      ensures Below(path, key) ==> path <= key
    {
      CanonicalIsAbsolute(key);
    }
    if key :| key in mounts && Lookalike(path, key) {
      assert key in kept && key !in after;
    } else {
      assert forall key :: key in mounts ==> (path <= key <==> Below(path, key));
      assert after == kept;
    }
  }

  lemma SiblingGoesToo()
    ensures
      var mounts: Mounts := map["/" := 0, "/sd" := 1, "/sd2" := 2];
      Unmounting(mounts, "/sd", false) == Change(0, map["/" := 0])
  {
    var mounts: Mounts := map["/" := 0, "/sd" := 1, "/sd2" := 2];
    assert "/sd" <= "/sd2" && !("/sd" <= "/");
  }

  // ---------- Mounting the root twice ----------

  /** The table that a second root mount leaves once the first one is unmounted. */
  predicate Wedged(mounts: Mounts) {
    mounts.Keys == {""}
  }

  /** "/" leads back to the root of a table that has one, if the root is a directory. */
  lemma RootMountsAgain(disk: Disk)
    requires disk.lstat(0, "") == Directory
    ensures Good(map["/" := 0]) && RemountsRoot(map["/" := 0], disk, "/")
  {
    var mounts: Mounts := map["/" := 0];
    var env := Env(mounts, disk, false);
    assert "/"[1..] == "";
    SplitSlashFree("");
    assert [""][1..] == [];
    assert Walk(env, [], [""], 0) == Walk(env, [], [], 0) == Done([], false);
    assert Lookup(mounts, disk, "/", false) == Located("", 0, 0);
  }

  lemma RootTwiceWedges(mounts: Mounts, disk: Disk, path: string, fs: FsId)
    requires Good(mounts) && RemountsRoot(mounts, disk, path)
    ensures
      var twice := Mounting(mounts, disk, path, fs);
      var after := Unmounting(twice.mounts, "/", false);
      twice.code == 0 && after.code == 0 && Wedged(after.mounts)
  {
    hide StatOf, ParentText;
    RootParent(mounts, disk, path);
    var twice := mounts["" := fs];
    assert Mounting(mounts, disk, path, fs).mounts == twice;
    forall key | key in mounts ensures "/" <= key {
      CanonicalIsAbsolute(key);
    }
    assert !("/" <= "");
  }

  /** From then on no mount and no unmount ever succeeds again. */
  lemma WedgedForever(mounts: Mounts, disk: Disk, path: string, fs: FsId, busy: bool)
    requires Wedged(mounts)
    ensures Mounting(mounts, disk, path, fs).code < 0 && Mounting(mounts, disk, path, fs).mounts == mounts
    ensures Unmounting(mounts, path, busy).code < 0 && Unmounting(mounts, path, busy).mounts == mounts
  {
    assert "" in mounts && mounts != map[];
  }

  // ---------- Hosts ----------

  /** The filesystem that a mountpoint was a directory of, and where that was mounted. */
  datatype Host = Host(key: string, fs: FsId)

  /** The mount table, and the host that each mountpoint had when it was mounted. */
  datatype Table = Table(mounts: Mounts, hosts: map<string, Host>)

  /** That very filesystem is still mounted in the same place, above the mountpoint. */
  predicate IsHost(mounts: Mounts, host: Host, key: string) {
    host.key in mounts && mounts[host.key] == host.fs && Below(host.key, key) && host.key != key
  }

  predicate Hosted(t: Table) {
    forall key :: key in t.mounts && key != "/" ==> key in t.hosts && IsHost(t.mounts, t.hosts[key], key)
  }

  /** The key of the filesystem that a path resolves into. */
  function HostKey(mounts: Mounts, disk: Disk, path: string): string
    requires Lookup(mounts, disk, path, false).Located?
  {
    var r := Walk(Env(mounts, disk, false), [], Split(path[1..]), 0);
    MountKey(r.stack, ReportedDepth(mounts, r.stack, r.missed))
  }

  datatype Op =
    | Mount(path: string, fs: FsId, disk: Disk)
    | Unmount(path: string, busy: bool)

  function Apply(t: Table, op: Op): Table {
    match op
    case Unmount(path, busy) => t.(mounts := Unmounting(t.mounts, path, busy).mounts)
    case Mount(path, fs, disk) =>
      var c := Mounting(t.mounts, disk, path, fs);
      var found := Lookup(t.mounts, disk, path, false);
      if c.code == 0 && found.Located?
      then Table(c.mounts, t.hosts[found.text := Host(HostKey(t.mounts, disk, path), found.fs)])
      else t.(mounts := c.mounts)
  }

  /** A new mountpoint is a directory of the longest filesystem mounted above it. */
  lemma HostIsAbove(mounts: Mounts, disk: Disk, path: string)
    requires Lookup(mounts, disk, path, false).Located?
    requires
      var text := Lookup(mounts, disk, path, false).text;
      text != "" && text !in mounts
    ensures
      var text := Lookup(mounts, disk, path, false).text;
      var stack := Split(text[1..]);
      var m := MountDepth(mounts, stack);
      && m < |stack|
      && HostKey(mounts, disk, path) == MountKey(stack, m)
      && Lookup(mounts, disk, path, false).fs == MountAt(mounts, stack, m)
      && StatOf(mounts, disk, path) == disk.lstat(MountAt(mounts, stack, m), Join(stack[m..]))
  {
    hide Walk, Render, Split, Join, MountDepth, OffsetAt;
    LookupStack(mounts, disk, path);
    var stack := Walk(Env(mounts, disk, false), [], Split(path[1..]), 0).stack;
    MountDepthPeel(mounts, stack, |stack|);
    assert stack[..|stack|] == stack;
    PathTheorems.OffsetIsRelative(stack, MountDepth(mounts, stack));
    var text, off := Render(stack), OffsetAt(stack, MountDepth(mounts, stack));
    assert Clip(text, |text|, off) == text[off..];
  }

  /** The walk behind a lookup. */
  lemma LookupStack(mounts: Mounts, disk: Disk, path: string)
    requires Lookup(mounts, disk, path, false).Located?
    ensures
      var text := Lookup(mounts, disk, path, false).text;
      var r := Walk(Env(mounts, disk, false), [], Split(path[1..]), 0);
      && r.Done? && text == Render(r.stack)
      && (text != "" ==> r.stack != [] && r.stack == Split(text[1..]))
      && (text !in mounts ==> !r.missed)
  {
    hide Walk, Split;
    var env := Env(mounts, disk, false);
    var todo := Split(path[1..]);
    var r := Walk(env, [], todo, 0);
    SplitIsSlashFree(path[1..]);
    PathTheorems.WalkKeepsNormal(env, [], todo, 0);
    PathTheorems.MissedIsMount(env, [], todo, 0);
    if r.stack != [] {
      SplitRender(r.stack);
    }
  }

  lemma KeyIsBelow(stack: seq<string>, m: nat)
    requires m < |stack|
    ensures Below(MountKey(stack, m), Render(stack))
    ensures AllNormal(stack) ==> MountKey(stack, m) != Render(stack)
  {
    assert stack == stack[..m] + stack[m..];
    RenderAppend(stack[..m], stack[m..]);
    RenderIsJoin(stack[m..]);
    if AllNormal(stack) && m == 0 {
      assert Normal(stack[0]);
      assert stack[m..][0] == stack[0];
    }
  }

  lemma HostedInsert(t: Table, key: string, fs: FsId, host: Host)
    requires Hosted(t) && key !in t.mounts && IsHost(t.mounts, host, key)
    ensures Hosted(Table(t.mounts[key := fs], t.hosts[key := host]))
  {
  }

  lemma MountKeepsHosted(t: Table, path: string, fs: FsId, disk: Disk)
    requires Good(t.mounts) && Hosted(t) && !RemountsRoot(t.mounts, disk, path)
    ensures Hosted(Apply(t, Mount(path, fs, disk)))
  {
    hide Lookup, StatOf, ParentText, HostKey, Render, Split, MountDepth, Below;
    var c := Mounting(t.mounts, disk, path, fs);
    if c.code == 0 && !(path == "/" && t.mounts == map[]) {
      StatLocates(t.mounts, disk, path);
      var text := Lookup(t.mounts, disk, path, false).text;
      if text == "" {
        RootParent(t.mounts, disk, path);
      } else {
        LookupCanonical(t.mounts, disk, path);
        HostIsAbove(t.mounts, disk, path);
        NormalEnd(text);
        var stack := Split(text[1..]);
        KeyIsBelow(stack, MountDepth(t.mounts, stack));
        HostedInsert(t, text, fs, Host(HostKey(t.mounts, disk, path), Lookup(t.mounts, disk, path, false).fs));
      }
    }
  }

  lemma UnmountKeepsHosted(t: Table, path: string, busy: bool)
    requires Good(t.mounts) && Hosted(t)
    ensures Hosted(Apply(t, Unmount(path, busy)))
  {
    var after := Apply(t, Unmount(path, busy)).mounts;
    forall key | key in after && key != "/"
      ensures t.hosts[key].key in after
    {
      if path <= t.hosts[key].key {
        CanonicalIsAbsolute(key);
      }
    }
  }

  function Run(t: Table, ops: seq<Op>): Table
    decreases |ops|
  {
    if ops == [] then t else Run(Apply(t, ops[0]), ops[1..])
  }

  /** No operation of the run mounts the root a second time. */
  predicate MountsRootOnce(t: Table, ops: seq<Op>)
    decreases |ops|
  {
    ops != [] ==>
      && (ops[0].Mount? ==> !RemountsRoot(t.mounts, ops[0].disk, ops[0].path))
      && MountsRootOnce(Apply(t, ops[0]), ops[1..])
  }

  /** In every run the table stays good and the filesystem that hosts a mount stays as long as the mount. */
  lemma {:induction false} RunKeepsTable(t: Table, ops: seq<Op>)
    requires Good(t.mounts) && Hosted(t) && MountsRootOnce(t, ops)
    ensures Good(Run(t, ops).mounts) && Hosted(Run(t, ops))
    decreases |ops|
  {
    hide RemountsRoot, Mounting, Unmounting, Good, Hosted, Lookup, HostKey;
    if ops != [] {
      match ops[0]
      case Mount(path, fs, disk) =>
        MountKeepsGoodIff(t.mounts, disk, path, fs);
        MountKeepsHosted(t, path, fs, disk);
        RunKeepsTable(Apply(t, ops[0]), ops[1..]);
      case Unmount(path, busy) =>
        UnmountKeepsGood(t.mounts, path, busy);
        UnmountKeepsHosted(t, path, busy);
        RunKeepsTable(Apply(t, ops[0]), ops[1..]);
    }
  }
}
