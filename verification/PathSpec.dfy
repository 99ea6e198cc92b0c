/**
 What resolving a path means: a machine that walks the components of a path with
 a stack of accepted components, the mounted filesystems and symbolic links.
 It never looks at character positions.
 */
module PathSpec {
  import opened PathText

  type FsId = nat
  type Errno = e: int | e < 0 witness -1

  const ENOENT: Errno := -2
  const ENOTDIR: Errno := -20
  const ELOOP: Errno := -92
  const ENAMETOOLONG: Errno := -91
  const PATH_MAX: nat := 512
  const MAX_LINK_TO_FOLLOW: nat := 2

  /** The result of `lstat`: an error, or what kind of entry the name denotes. */
  datatype Stat = StatError(code: Errno) | Directory | Symlink | OtherFile

  datatype LinkText = LinkError(code: Errno) | Target(text: string)

  /** The contents of all filesystems, as an arbitrary oracle. */
  datatype Disk = Disk(
    symlinks: FsId -> bool,
    lstat: (FsId, string) -> Stat,
    readlink: (FsId, string) -> LinkText)

  datatype Env = Env(mounts: map<string, FsId>, disk: Disk, followLast: bool) {
    ghost predicate Rooted() { "/" in mounts }
  }

  /** How many leading components of `stack` make up the longest mounted prefix. */
  function MountDepth(mounts: map<string, FsId>, stack: seq<string>): (m: nat)
    ensures m <= |stack|
    ensures m == 0 || Render(stack[..m]) in mounts
  {
    if stack == [] then 0
    else if Render(stack) in mounts then assert stack[..|stack|] == stack; |stack|
    else
      var up := stack[..|stack| - 1];
      var m := MountDepth(mounts, up);
      assert up[..m] == stack[..m];
      m
  }

  lemma {:induction false} MountDepthLongest(mounts: map<string, FsId>, stack: seq<string>, j: nat)
    requires MountDepth(mounts, stack) < j <= |stack|
    ensures Render(stack[..j]) !in mounts
  {
    if j == |stack| {
      assert stack[..j] == stack;
    } else {
      var up := stack[..|stack| - 1];
      MountDepthLongest(mounts, up, j);
      assert up[..j] == stack[..j];
    }
  }

  lemma MountDepthPeel(mounts: map<string, FsId>, stack: seq<string>, k: nat)
    requires 0 < k <= |stack|
    ensures Render(stack[..k]) in mounts ==> MountDepth(mounts, stack[..k]) == k
    ensures Render(stack[..k]) !in mounts ==>
              MountDepth(mounts, stack[..k]) == MountDepth(mounts, stack[..k - 1])
  {
    assert stack[..k][..k - 1] == stack[..k - 1];
  }

  function MountKey(stack: seq<string>, m: nat): string
    requires m <= |stack|
  {
    if m == 0 then "/" else Render(stack[..m])
  }

  /** The filesystem mounted at the first `m` components. */
  function MountAt(mounts: map<string, FsId>, stack: seq<string>, m: nat): FsId
    requires "/" in mounts && m <= |stack| && (m == 0 || Render(stack[..m]) in mounts)
  {
    mounts[MountKey(stack, m)]
  }

  /** Where the path relative to the filesystem mounted at depth `m` starts. */
  function OffsetAt(stack: seq<string>, m: nat): nat
    requires m <= |stack|
  {
    var past := |Render(stack[..m])| + 1;
    if past <= |Render(stack)| then past else |Render(stack)|
  }

  /** The text of a stack of accepted components followed by the unhandled ones. */
  function Text(stack: seq<string>, todo: seq<string>): string {
    Render(stack) + Tail(todo)
  }

  function Tail(todo: seq<string>): string {
    if todo == [] then "" else "/" + Join(todo)
  }

  datatype Verdict =
    | Pass
    | Refuse(code: Errno)
    | Jump(stack: seq<string>, todo: seq<string>)

  /** What reading a link in the directory `stack`, with `rest` still to do, leads to. */
  function Follow(stack: seq<string>, text: string, rest: seq<string>): (v: Verdict)
    ensures v.Jump? ==> v.todo != []
  {
    if text == "" then Refuse(ENOENT)
    else
      var from := if text[0] == '/' then [] else stack;
      var todo := Split(if text[0] == '/' then text[1..] else text) + rest;
      if |Text(from, todo)| > PATH_MAX then Refuse(ENAMETOOLONG) else Jump(from, todo)
  }

  /** What the link `down`, found with `rest` still to do, leads to. */
  function AtLink(env: Env, down: seq<string>, rest: seq<string>, links: nat): (v: Verdict)
    requires env.Rooted() && down != []
    ensures v.Jump? ==> v.todo != [] && links + 1 < MAX_LINK_TO_FOLLOW
  {
    var m := MountDepth(env.mounts, down);
    if links + 1 >= MAX_LINK_TO_FOLLOW then Refuse(ELOOP)
    else match env.disk.readlink(MountAt(env.mounts, down, m), Join(down[m..]))
      case LinkError(code) => Refuse(code)
      case Target(text) => Follow(down[..|down| - 1], text, rest)
  }

  /** Entering the component `down[|down| - 1]`; `rest` is what follows it. */
  function Enter(env: Env, down: seq<string>, rest: seq<string>, links: nat): (v: Verdict)
    requires env.Rooted() && down != []
    ensures v.Jump? ==> v.todo != [] && links + 1 < MAX_LINK_TO_FOLLOW
  {
    if Render(down) in env.mounts then Pass
    else
      var m := MountDepth(env.mounts, down);
      var fs := MountAt(env.mounts, down, m);
      if !env.disk.symlinks(fs) || (rest == [] && !env.followLast) then Pass
      else match env.disk.lstat(fs, Join(down[m..]))
        case StatError(code) => Refuse(code)
        case Directory => Pass
        case OtherFile => if rest == [] then Pass else Refuse(ENOTDIR)
        case Symlink => AtLink(env, down, rest, links)
  }

  /** Leaving the mountpoint `stack` upwards lands on a directory that is a mountpoint too. */
  predicate Overshoots(mounts: map<string, FsId>, stack: seq<string>) {
    |stack| >= 2 && Render(stack) in mounts && Render(stack[..|stack| - 1]) in mounts
  }

  /**
   The outcome of a walk. `missed` records that the walk ended with a ".." that
   left a mountpoint for a directory that is itself a mountpoint, in which case
   the resolver reports the filesystem around that directory instead of its own.
   */
  datatype Outcome = Fail(code: Errno) | Done(stack: seq<string>, missed: bool)

  function Walk(env: Env, stack: seq<string>, todo: seq<string>, links: nat): Outcome
    requires env.Rooted() && links <= MAX_LINK_TO_FOLLOW
    decreases MAX_LINK_TO_FOLLOW - links, |todo|
  {
    if todo == [] then Done(stack, false)
    else
      var c, rest := todo[0], todo[1..];
      if c == "" || c == "." then Walk(env, stack, rest, links)
      else if c == ".." then
        if stack == [] then Fail(ENOENT)
        else if rest == [] then Done(stack[..|stack| - 1], Overshoots(env.mounts, stack))
        else Walk(env, stack[..|stack| - 1], rest, links)
      else match Enter(env, stack + [c], rest, links)
        case Pass => Walk(env, stack + [c], rest, links)
        case Refuse(code) => Fail(code)
        case Jump(from, todo') => Walk(env, from, todo', links + 1)
  }

  /** The mount depth that the resolver reports for an outcome. */
  function ReportedDepth(mounts: map<string, FsId>, stack: seq<string>, missed: bool): (m: nat)
    ensures m <= |stack| && (m == 0 || Render(stack[..m]) in mounts)
  {
    if missed && stack != [] then
      var up := stack[..|stack| - 1];
      var m := MountDepth(mounts, up);
      assert up[..m] == stack[..m];
      m
    else MountDepth(mounts, stack)
  }

  /** What the resolver returns. */
  datatype Resolved = Error(code: int) | Found(fs: FsId, off: nat)

  /** What a path resolves to: its final text, the filesystem and the offset into the text. */
  datatype Resolution = Refused(code: Errno) | Located(text: string, fs: FsId, off: nat)

  function Resolve(env: Env, absolute: string): Resolution
    requires env.Rooted() && absolute != "" && absolute[0] == '/'
  {
    match Walk(env, [], Split(absolute[1..]), 0)
    case Fail(code) => Refused(code)
    case Done(stack, missed) =>
      var m := ReportedDepth(env.mounts, stack, missed);
      Located(Render(stack), MountAt(env.mounts, stack, m), OffsetAt(stack, m))
  }
}
