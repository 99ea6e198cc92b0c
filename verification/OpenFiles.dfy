/**
 Reference-counted open files. Every pointer to a file sits in a place: a slot of a
 descriptor table or a local variable of a thread. A file dies when its count reaches zero,
 and each filesystem counts the files that are open on it.

 A plain assignment to a pointer first writes it and then raises the count, so a place may
 hold a pointer that is not counted yet. Pointers that are loaded, swapped or dropped
 atomically are always counted.
 */
module OpenFiles {
  import opened Common

  type Tid = nat
  type TableId = nat
  type FileId = nat
  type FsId = nat

  datatype Place =
    | Slot(table: TableId, fd: nat)
    | Hand(tid: Tid, n: nat)

  /** The pointers, the live files with their reference counts, and the open-file counters. */
  datatype Heap = Heap(
    holder: map<Place, FileId>,
    half: set<Place>,                  // written, but not counted yet
    refs: map<FileId, nat>,
    parent: map<FileId, Option<FsId>>,
    openCount: map<FsId, int>)

  ghost function CountedIn(holder: map<Place, FileId>, half: set<Place>, f: FileId): set<Place> {
    set p | p in holder && p !in half && holder[p] == f
  }

  ghost function Counted(h: Heap, f: FileId): set<Place> {
    CountedIn(h.holder, h.half, f)
  }

  function OpenFileCount(h: Heap, fs: FsId): int {
    if fs in h.openCount then h.openCount[fs] else 0
  }

  ghost function FilesOf(h: Heap, fs: FsId): set<FileId> {
    set f | f in h.refs && f in h.parent && h.parent[f] == Some(fs)
  }

  /** No pointer dangles, and every file's count is the number of pointers that are counted. */
  ghost predicate RefsExact(h: Heap) {
    && (forall p :: p in h.holder ==> h.holder[p] in h.refs)
    && (forall f :: f in h.refs ==> f in h.parent && h.refs[f] >= 1 && h.refs[f] == |Counted(h, f)|)
  }

  ghost predicate CountsExact(h: Heap) {
    forall fs: FsId :: OpenFileCount(h, fs) == |FilesOf(h, fs)|
  }

  ghost predicate Exact(h: Heap) {
    RefsExact(h) && CountsExact(h)
  }

  // ---------- The operations on pointers ----------

  /** Raising the count of a file; of a file that was deleted there is nothing left to raise. */
  function Raised(h: Heap, f: FileId): map<FileId, nat> {
    if f in h.refs then h.refs[f := h.refs[f] + 1] else h.refs
  }

  /** Loading a pointer into an empty place, or storing it there, together with its count. */
  function Copy(h: Heap, from: Place, to: Place): Heap {
    if from !in h.holder then h
    else h.(holder := h.holder[to := h.holder[from]], half := h.half - {to}, refs := Raised(h, h.holder[from]))
  }

  /** The first half of a plain assignment to an empty place. */
  function Write(h: Heap, from: Place, to: Place): Heap {
    if from !in h.holder then h
    else h.(holder := h.holder[to := h.holder[from]], half := h.half + {to})
  }

  /** The second half, which raises the count of `f`, if there is anything to raise. */
  function Raise(h: Heap, p: Place, f: Option<FileId>): Heap {
    h.(half := h.half - {p}, refs := if f.Some? then Raised(h, f.value) else h.refs)
  }

  /** Swapping a pointer out of a place into an empty one, with its count. */
  function Move(h: Heap, from: Place, to: Place): Heap {
    if from !in h.holder then h
    else h.(holder := (h.holder - {from})[to := h.holder[from]], half := h.half - {from, to})
  }

  /** The counter of a filesystem changes by `d`, as its files come and go. */
  function Count(h: Heap, parent: Option<FsId>, d: int): map<FsId, int> {
    if parent.None? then h.openCount
    else h.openCount[parent.value := OpenFileCount(h, parent.value) + d]
  }

  /** Constructing a file on `parent`, with its first pointer in an empty place. */
  function Create(h: Heap, p: Place, f: FileId, parent: Option<FsId>): Heap {
    Heap(h.holder[p := f], h.half - {p}, h.refs[f := 1], h.parent[f := parent], Count(h, parent, 1))
  }

  /** Lowering the count of a file; at zero the file is deleted. */
  function Lowered(h: Heap, f: FileId): Heap {
    if f !in h.refs then h
    else if h.refs[f] > 1 then h.(refs := h.refs[f := h.refs[f] - 1])
    else h.(refs := h.refs - {f}, openCount := Count(h, if f in h.parent then h.parent[f] else None, -1))
  }

  /** Dropping a pointer. */
  function Drop(h: Heap, p: Place): Heap {
    if p !in h.holder then h
    else Lowered(h, h.holder[p]).(holder := h.holder - {p}, half := h.half - {p})
  }

  // ---------- Exactness is kept ----------

  lemma CountedAdd(holder: map<Place, FileId>, half: set<Place>, p: Place, f: FileId, g: FileId)
    requires p !in holder
    ensures CountedIn(holder[p := f], half - {p}, g) ==
            if g == f then CountedIn(holder, half, g) + {p} else CountedIn(holder, half, g)
    ensures CountedIn(holder[p := f], half + {p}, g) == CountedIn(holder, half, g)
    ensures p !in CountedIn(holder, half, g)
  {
  }

  lemma CountedRaise(holder: map<Place, FileId>, half: set<Place>, p: Place, g: FileId)
    requires p in holder && p in half
    ensures CountedIn(holder, half - {p}, g) ==
            if g == holder[p] then CountedIn(holder, half, g) + {p} else CountedIn(holder, half, g)
    ensures p !in CountedIn(holder, half, g)
  {
  }

  lemma CountedRemove(holder: map<Place, FileId>, half: set<Place>, p: Place, g: FileId)
    requires p in holder
    ensures CountedIn(holder - {p}, half - {p}, g) == CountedIn(holder, half, g) - {p}
    ensures p in CountedIn(holder, half, g) <==> holder[p] == g && p !in half
  {
  }

  lemma NoneCounted(holder: map<Place, FileId>, half: set<Place>, f: FileId)
    requires forall p :: p in holder ==> holder[p] != f
    ensures CountedIn(holder, half, f) == {}
  {
  }

  /** The same files of the same filesystems are open. */
  lemma SameFiles(h: Heap, h': Heap)
    requires CountsExact(h) && h'.openCount == h.openCount
    requires (forall f :: f in h'.refs <==> f in h.refs) && h'.parent == h.parent
    ensures CountsExact(h')
  {
    forall fs: FsId ensures OpenFileCount(h', fs) == |FilesOf(h', fs)| {
      assert FilesOf(h', fs) == FilesOf(h, fs);
    }
  }

  lemma CopyExact(h: Heap, from: Place, to: Place)
    requires Exact(h) && from in h.holder && to !in h.holder
    ensures Exact(Copy(h, from, to))
  {
    hide CountsExact, CountedIn;
    var h' := Copy(h, from, to);
    forall g | g in h'.refs ensures h'.refs[g] == |Counted(h', g)| {
      CountedAdd(h.holder, h.half, to, h.holder[from], g);
    }
    SameFiles(h, h');
  }

  lemma WriteExact(h: Heap, from: Place, to: Place)
    requires Exact(h) && from in h.holder && to !in h.holder
    ensures Exact(Write(h, from, to))
  {
    hide CountsExact, CountedIn;
    var h' := Write(h, from, to);
    forall g | g in h'.refs ensures h'.refs[g] == |Counted(h', g)| {
      CountedAdd(h.holder, h.half, to, h.holder[from], g);
    }
    SameFiles(h, h');
  }

  /** Both halves together are a counted store. */
  lemma RaiseExact(h: Heap, p: Place)
    requires Exact(h) && p in h.holder && p in h.half
    ensures Exact(Raise(h, p, Some(h.holder[p])))
  {
    hide CountsExact, CountedIn;
    var h' := Raise(h, p, Some(h.holder[p]));
    forall g | g in h'.refs ensures h'.refs[g] == |Counted(h', g)| {
      CountedRaise(h.holder, h.half, p, g);
    }
    SameFiles(h, h');
  }

  lemma CreateExact(h: Heap, p: Place, f: FileId, parent: Option<FsId>)
    requires Exact(h) && p !in h.holder && f !in h.refs
    ensures Exact(Create(h, p, f, parent))
  {
    hide CountsExact, CountedIn;
    var h' := Create(h, p, f, parent);
    forall g | g in h'.refs ensures h'.refs[g] == |Counted(h', g)| {
      CountedAdd(h.holder, h.half, p, f, g);
      if g == f {
        NoneCounted(h.holder, h.half, f);
      }
    }
    CreateCounts(h, p, f, parent);
  }

  lemma CreateFiles(h: Heap, p: Place, f: FileId, parent: Option<FsId>, fs: FsId)
    requires f !in h.refs
    ensures FilesOf(Create(h, p, f, parent), fs) ==
            if parent == Some(fs) then FilesOf(h, fs) + {f} else FilesOf(h, fs)
    ensures f !in FilesOf(h, fs)
  {
  }

  lemma CreateCounts(h: Heap, p: Place, f: FileId, parent: Option<FsId>)
    requires CountsExact(h) && f !in h.refs
    ensures CountsExact(Create(h, p, f, parent))
  {
    hide FilesOf;
    var h' := Create(h, p, f, parent);
    forall fs: FsId ensures OpenFileCount(h', fs) == |FilesOf(h', fs)| {
      CreateFiles(h, p, f, parent, fs);
    }
  }

  /** A pointer not counted yet leads to a file that some counted pointer, not at `p`, leads to. */
  ghost predicate Backed(h: Heap, p: Place) {
    forall q :: q in h.half && q in h.holder ==>
      exists r :: r != p && r in Counted(h, h.holder[q])
  }

  lemma DropRefs(h: Heap, p: Place)
    requires Exact(h) && p in h.holder && p !in h.half && Backed(h, p)
    ensures RefsExact(Drop(h, p))
  {
    hide CountsExact, CountedIn, Backed, Count;
    var f, h' := h.holder[p], Drop(h, p);
    CountedRemove(h.holder, h.half, p, f);
    forall g | g in h'.refs ensures h'.refs[g] == |Counted(h', g)| {
      CountedRemove(h.holder, h.half, p, g);
    }
    if h.refs[f] == 1 { OnlyPointer(h, p); }
  }

  lemma DropExact(h: Heap, p: Place)
    requires Exact(h) && p in h.holder && p !in h.half && Backed(h, p)
    ensures Exact(Drop(h, p))
  {
    hide CountsExact, CountedIn, Backed, Counted, Count;
    DropRefs(h, p);
    if h.refs[h.holder[p]] == 1 {
      DropCounts(h, p);
    } else {
      SameFiles(h, Drop(h, p));
    }
  }

  lemma DropCounts(h: Heap, p: Place)
    requires Exact(h) && p in h.holder && h.refs[h.holder[p]] == 1
    ensures CountsExact(Drop(h, p))
  {
    var f, h' := h.holder[p], Drop(h, p);
    forall fs: FsId ensures OpenFileCount(h', fs) == |FilesOf(h', fs)| {
      if h.parent[f] == Some(fs) {
        assert FilesOf(h', fs) == FilesOf(h, fs) - {f};
      } else {
        assert FilesOf(h', fs) == FilesOf(h, fs);
      }
    }
  }

  /** The place whose pointer is counted alone is the only one. */
  lemma OnlyPointer(h: Heap, p: Place)
    requires Exact(h) && p in h.holder && p !in h.half && Backed(h, p) && h.refs[h.holder[p]] == 1
    ensures forall q :: q in h.holder && h.holder[q] == h.holder[p] ==> q == p
  {
    var ps := Counted(h, h.holder[p]);
    assert p in ps && |ps - {p}| == 0;
    assert forall r :: r in ps ==> r in ps - {p} || r == p;
    assert forall q :: q in h.holder && h.holder[q] == h.holder[p] ==> q in h.half || q in ps;
  }

  /** Swapping a pointer out keeps the counts exact if and only if the pointer was counted already. */
  lemma MoveExactIff(h: Heap, from: Place, to: Place)
    requires Exact(h) && from in h.holder && to !in h.holder
    ensures Exact(Move(h, from, to)) <==> from !in h.half
  {
    hide CountedIn, CountsExact;
    var h', f := Move(h, from, to), h.holder[from];
    forall g ensures Counted(h', g) == if g == f then Counted(h, g) - {from} + {to} else Counted(h, g) {
      MovedCounted(h, from, to, g);
    }
    CountedRemove(h.holder, h.half, from, f);
    NotThere(h, to, f);
    if from in h.half {
      assert |Counted(h', f)| == |Counted(h, f)| + 1;
    }
    SameFiles(h, h');
  }

  lemma MovedCounted(h: Heap, from: Place, to: Place, g: FileId)
    requires from in h.holder && to !in h.holder
    ensures Counted(Move(h, from, to), g) ==
            if g == h.holder[from] then Counted(h, g) - {from} + {to} else Counted(h, g)
  {
  }

  lemma NotThere(h: Heap, p: Place, f: FileId)
    requires p !in h.holder
    ensures p !in Counted(h, f)
  {
  }

  /** A zero counter means that no pointer to a file of that filesystem exists anywhere. */
  lemma ZeroMeansNoPointer(h: Heap, fs: FsId)
    requires Exact(h)
    ensures OpenFileCount(h, fs) == 0 <==>
            forall p :: p in h.holder ==> h.parent[h.holder[p]] != Some(fs)
  {
    if OpenFileCount(h, fs) == 0 {
      forall p | p in h.holder ensures h.parent[h.holder[p]] != Some(fs) {
        assert h.holder[p] !in FilesOf(h, fs);
      }
    } else {
      var f :| f in FilesOf(h, fs);
      var p :| p in Counted(h, f);
      assert h.parent[h.holder[p]] == Some(fs);
    }
  }

  /** Only constructing a file raises a counter. */
  lemma CountersFall(h: Heap, p: Place, fs: FsId)
    requires Exact(h) && p in h.holder && p !in h.half && Backed(h, p)
    ensures 0 <= OpenFileCount(Drop(h, p), fs) <= OpenFileCount(h, fs)
  {
    DropExact(h, p);
  }
}
