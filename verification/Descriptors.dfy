/**
 Descriptor tables, in-flight file operations and unmounting, as interleaved atomic
 steps of any number of threads. Writers of a table hold its mutex, closing does not;
 opening and unmounting hold the mutex of the filesystem manager. The plain assignments
 that open, dup and pipe make to a slot are two steps each.
 */
module Descriptors {
  import opened Common
  import opened OpenFiles

  const MAX_OPEN_FILES: nat := 8
  const MAX_RETRY: nat := 3

  /** What an unmount found out when it started. */
  datatype Request = Request(path: string, keys: seq<string>, force: bool)

  /** Who assigns to a slot. */
  datatype Store = DupStore | OpenStore | PipeFirst(fd1: nat) | PipeSecond

  /** Where a thread is between two atomic steps. */
  datatype Pc =
    | Idle
    | Using                                              // a file operation, or the end of a close
    | DupLoaded(table: TableId)                          // dup: file loaded, mutex not yet taken
    | Dup2Loaded(table: TableId, newFd: nat)
    | Finding(table: TableId, next: nat, dup: bool)      // getAvailableFd, under the mutex
    | Found(table: TableId, fd: nat)                     // open: found a free slot
    | Opening(table: TableId, fd: nat)                   // open: the manager's mutex is held too
    | Ready(table: TableId, fd: nat, store: Store)       // has the pointer in hand, slot still empty
    | Storing(table: TableId, fd: nat, store: Store)     // slot written, count not yet raised
    | Stored(table: TableId, open: bool)                 // about to drop the pointer in hand
    | Dup2Locked(table: TableId, newFd: nat)
    | Dup2Swapped(table: TableId, replaced: bool)       // holds what was in the slot before, if anything
    | PipeFinding(table: TableId, next: nat, first: Option<nat>)
    | PipeFound(table: TableId, fd0: nat, fd1: nat)
    | Copying(table: TableId, dst: TableId, next: nat)   // table copy, under the source's mutex
    | Copied(dst: TableId)                               // copied, not yet registered
    | Destroying(dst: TableId, next: nat)
    | Scanning(req: Request)                             // unmount: looking at registered tables
    | Looking(req: Request, table: TableId, fd: nat)     // unmount: holds the file of a slot
    | Forcing(req: Request)                              // unmount: took a file out of its slot
    | Forced(req: Request)                               // unmount: dropped it, still holds the file
    | Checking(req: Request, i: nat, retry: nat)         // unmount: waiting for zero counters

  datatype State = State(
    heap: Heap,
    mounts: map<string, FsId>,
    tables: set<TableId>,          // registered descriptor tables
    known: set<TableId>,           // every table ever created
    tableLock: map<TableId, Tid>,
    fsLock: Option<Tid>,
    pc: map<Tid, Pc>)

  function At(s: State, t: Tid): Pc {
    if t in s.pc then s.pc[t] else Idle
  }

  /** The table whose mutex a thread holds. */
  function Locks(pc: Pc): Option<TableId> {
    match pc
    case Finding(table, _, _) => Some(table)
    case Found(table, _) => Some(table)
    case Opening(table, _) => Some(table)
    case Ready(table, _, _) => Some(table)
    case Storing(table, _, _) => Some(table)
    case Stored(table, _) => Some(table)
    case Dup2Locked(table, _) => Some(table)
    case Dup2Swapped(table, _) => Some(table)
    case PipeFinding(table, _, _) => Some(table)
    case PipeFound(table, _, _) => Some(table)
    case Copying(table, _, _) => Some(table)
    case _ => None
  }

  predicate Unmounting(pc: Pc) {
    pc.Scanning? || pc.Looking? || pc.Forcing? || pc.Forced? || pc.Checking?
  }

  /** Whether a thread holds the mutex of the filesystem manager. */
  predicate LocksFs(pc: Pc) {
    || pc.Opening?
    || (pc.Ready? && pc.store == OpenStore)
    || (pc.Storing? && pc.store == OpenStore)
    || (pc.Stored? && pc.open)
    || Unmounting(pc)
  }

  /** How many pointers a thread keeps in local variables. */
  function Hands(pc: Pc): nat {
    match pc
    case Using => 1
    case DupLoaded(_) => 1
    case Dup2Loaded(_, _) => 1
    case Finding(_, _, dup) => if dup then 1 else 0
    case Ready(_, _, _) => 1
    case Storing(_, _, _) => 1
    case Stored(_, _) => 1
    case Dup2Locked(_, _) => 1
    case Dup2Swapped(_, replaced) => if replaced then 2 else 1
    case Looking(_, _, _) => 1
    case Forcing(_) => 2
    case Forced(_) => 1
    case _ => 0
  }

  /** The slots that a thread has found empty and is about to fill. */
  function Reserved(pc: Pc): set<Place> {
    match pc
    case Found(table, fd) => {Slot(table, fd)}
    case Opening(table, fd) => {Slot(table, fd)}
    case Ready(table, fd, store) =>
      if store.PipeFirst? then {Slot(table, fd), Slot(table, store.fd1)} else {Slot(table, fd)}
    case Storing(table, fd, store) => if store.PipeFirst? then {Slot(table, store.fd1)} else {}
    case PipeFinding(table, _, first) => if first.Some? then {Slot(table, first.value)} else {}
    case PipeFound(table, fd0, fd1) => {Slot(table, fd0), Slot(table, fd1)}
    case _ => {}
  }

  /** The slot whose assignment a thread has half done. */
  function HalfDone(pc: Pc): Option<Place> {
    if pc.Storing? then Some(Slot(pc.table, pc.fd)) else None
  }

  /** A table that only this thread can reach. */
  function Private(pc: Pc): Option<TableId> {
    match pc
    case Copying(_, dst, _) => Some(dst)
    case Copied(dst) => Some(dst)
    case Destroying(dst, _) => Some(dst)
    case _ => None
  }

  predicate ToUnmount(mounts: map<string, FsId>, req: Request, parent: Option<FsId>) {
    exists i :: 0 <= i < |req.keys| && req.keys[i] in mounts && parent == Some(mounts[req.keys[i]])
  }

  // ---------- The steps ----------

  datatype Purpose = Use | ForDup | ForDup2(newFd: nat)

  datatype Step =
    | Load(t: Tid, table: TableId, fd: nat, purpose: Purpose)
    | Close(t: Tid, table: TableId, fd: nat)
    | Release(t: Tid)
    | OpenBegin(t: Tid, table: TableId)
    | DupLock(t: Tid)
    | Dup2Lock(t: Tid)
    | Find(t: Tid)
    | OpenAbort(t: Tid)
    | OpenLock(t: Tid)
    | OpenFail(t: Tid)
    | OpenCreate(t: Tid, file: FileId, parent: Option<FsId>)
    | PipeBegin(t: Tid, table: TableId)
    | PipeCreate(t: Tid, file: FileId)
    | StoreWrite(t: Tid)                   // the slot is written ...
    | StoreRaise(t: Tid, reread: bool)     // ... and the count raised, of what the slot holds now or held then
    | StoreDrop(t: Tid)
    | Dup2Swap(t: Tid)
    | Dup2Drop(t: Tid)
    | CopyBegin(t: Tid, table: TableId, dst: TableId)
    | CopySlot(t: Tid, keep: bool)
    | Register(t: Tid)
    | DestroyBegin(t: Tid, table: TableId)
    | DestroySlot(t: Tid)
    | Mount(t: Tid, key: string, fs: FsId)
    | UmountBegin(t: Tid, req: Request)
    | UmountLook(t: Tid, table: TableId, fd: nat)
    | UmountDecide(t: Tid)
    | UmountClose(t: Tid)
    | UmountLooked(t: Tid)
    | UmountScanned(t: Tid)
    | UmountCheck(t: Tid)
    | UmountErase(t: Tid)

  predicate Occupied(s: State, table: TableId, fd: nat) {
    table in s.tables && fd < MAX_OPEN_FILES && Slot(table, fd) in s.heap.holder
  }

  predicate CanLock(s: State, table: TableId) {
    table in s.tables && table !in s.tableLock
  }

  ghost predicate Enabled(s: State, step: Step) {
    var pc := At(s, step.t);
    match step
    case Load(t, table, fd, purpose) =>
      pc == Idle && Occupied(s, table, fd) &&
      (purpose.ForDup2? ==> purpose.newFd < MAX_OPEN_FILES && purpose.newFd != fd)
    case Close(t, table, fd) => pc == Idle && Occupied(s, table, fd)
    case Release(t) => pc == Using
    case OpenBegin(t, table) => pc == Idle && CanLock(s, table)
    case DupLock(t) => pc.DupLoaded? && CanLock(s, pc.table)
    case Dup2Lock(t) => pc.Dup2Loaded? && CanLock(s, pc.table)
    case Find(t) => pc.Finding? || pc.PipeFinding?
    case OpenAbort(t) => pc.Found?
    case OpenLock(t) => pc.Found? && s.fsLock.None?
    case OpenFail(t) => pc.Opening?
    case OpenCreate(t, file, parent) =>
      pc.Opening? && file !in s.heap.refs && (parent.Some? ==> parent.value in s.mounts.Values)
    case PipeBegin(t, table) => pc == Idle && CanLock(s, table)
    case PipeCreate(t, file) => pc.PipeFound? && file !in s.heap.refs
    case StoreWrite(t) => pc.Ready?
    case StoreRaise(t, _) => pc.Storing?
    case StoreDrop(t) => pc.Stored?
    case Dup2Swap(t) => pc.Dup2Locked?
    case Dup2Drop(t) => pc.Dup2Swapped?
    case CopyBegin(t, table, dst) => pc == Idle && CanLock(s, table) && dst !in s.known
    case CopySlot(t, keep) => pc.Copying?
    case Register(t) => pc.Copied? && s.fsLock.None?
    case DestroyBegin(t, table) => pc == Idle && CanLock(s, table) && s.fsLock.None?
    case DestroySlot(t) => pc.Destroying?
    case Mount(t, key, fs) => pc == Idle && s.fsLock.None? && key !in s.mounts
    case UmountBegin(t, req) =>
      && pc == Idle && s.fsLock.None? && req.path in s.mounts
      && forall key :: key in req.keys <==> key in s.mounts && req.path <= key
    case UmountLook(t, table, fd) => pc.Scanning? && Occupied(s, table, fd)
    case UmountDecide(t) => pc.Looking?
    case UmountClose(t) => pc.Forcing?
    case UmountLooked(t) => pc.Forced?
    case UmountScanned(t) => pc.Scanning?
    case UmountCheck(t) => pc.Checking? && pc.i < |pc.req.keys|
    case UmountErase(t) => pc.Checking? && pc.i == |pc.req.keys|
  }

  function FileAt(h: Heap, p: Place): Option<FileId> {
    if p in h.holder then Some(h.holder[p]) else None
  }

  /** The file an unmount is looking at belongs to a filesystem it takes. */
  predicate Concerned(s: State, t: Tid) {
    var f := FileAt(s.heap, Hand(t, 0));
    At(s, t).Looking? && f.Some? && f.value in s.heap.parent &&
    ToUnmount(s.mounts, At(s, t).req, s.heap.parent[f.value])
  }

  /** A forced unmount closes the descriptor it is looking at, unless somebody else has done so. */
  predicate Forces(s: State, t: Tid) {
    Concerned(s, t) && At(s, t).req.force && Slot(At(s, t).table, At(s, t).fd) in s.heap.holder
  }

  predicate StoreStep(step: Step) {
    step.StoreWrite? || step.StoreRaise? || step.StoreDrop? || step.Dup2Swap? || step.Dup2Drop?
  }

  predicate TableStep(step: Step) {
    step.CopySlot? || step.DestroySlot?
  }

  predicate UnmountStep(step: Step) {
    step.UmountLook? || step.UmountDecide? || step.UmountClose? || step.UmountLooked?
  }

  /** Assigning to a slot, and dup2's swap. */
  function StorePointers(h: Heap, pc: Pc, step: Step): Heap {
    var t := step.t;
    match (step, pc)
    case (StoreWrite(_), Ready(table, fd, _)) => Write(h, Hand(t, 0), Slot(table, fd))
    case (StoreRaise(_, reread), Storing(table, fd, _)) =>
      var p := Slot(table, fd);
      Raise(h, p, FileAt(h, if reread then p else Hand(t, 0)))
    case (StoreDrop(_), _) => Drop(h, Hand(t, 0))
    case (Dup2Swap(_), Dup2Locked(table, newFd)) =>
      var p := Slot(table, newFd);
      Copy(Move(h, p, Hand(t, 1)), Hand(t, 0), p)
    case (Dup2Drop(_), _) => Drop(h, Hand(t, 1))
    case _ => h
  }

  /** Copying and destroying a table. */
  function TablePointers(h: Heap, pc: Pc, step: Step): Heap {
    match (step, pc)
    case (CopySlot(_, keep), Copying(table, dst, next)) =>
      if next < MAX_OPEN_FILES && keep then Copy(h, Slot(table, next), Slot(dst, next)) else h
    case (DestroySlot(_), Destroying(dst, next)) =>
      if next < MAX_OPEN_FILES then Drop(h, Slot(dst, next)) else h
    case _ => h
  }

  function UnmountPointers(s: State, step: Step): Heap {
    var h, t, pc := s.heap, step.t, At(s, step.t);
    match step
    case UmountLook(_, table, fd) => Copy(h, Slot(table, fd), Hand(t, 0))
    case UmountDecide(_) =>
      if Forces(s, t) then Move(h, Slot(pc.table, pc.fd), Hand(t, 1)) else Drop(h, Hand(t, 0))
    case UmountClose(_) => Drop(h, Hand(t, 1))
    case UmountLooked(_) => Drop(h, Hand(t, 0))
    case _ => h
  }

  function CallPointers(h: Heap, step: Step): Heap {
    var t := step.t;
    match step
    case Load(_, table, fd, _) => Copy(h, Slot(table, fd), Hand(t, 0))
    case Close(_, table, fd) => Move(h, Slot(table, fd), Hand(t, 0))
    case Release(_) => Drop(h, Hand(t, 0))
    case OpenCreate(_, file, parent) => Create(h, Hand(t, 0), file, parent)
    case PipeCreate(_, file) => Create(h, Hand(t, 0), file, None)
    case _ => h
  }

  /** What a step does to the pointers and their counts. */
  function Pointers(s: State, step: Step): Heap {
    if StoreStep(step) then StorePointers(s.heap, At(s, step.t), step)
    else if TableStep(step) then TablePointers(s.heap, At(s, step.t), step)
    else if UnmountStep(step) then UnmountPointers(s, step)
    else CallPointers(s.heap, step)
  }

  function NextFind(h: Heap, pc: Pc): Pc {
    match pc
    case Finding(table, i, dup) =>
      if i >= MAX_OPEN_FILES then if dup then Using else Idle
      else if Slot(table, i) in h.holder then Finding(table, i + 1, dup)
      else if dup then Ready(table, i, DupStore) else Found(table, i)
    case PipeFinding(table, i, first) =>
      if i >= MAX_OPEN_FILES then Idle
      else if Slot(table, i) in h.holder then PipeFinding(table, i + 1, first)
      else if first.None? then PipeFinding(table, i + 1, Some(i))
      else PipeFound(table, first.value, i)
    case _ => pc
  }

  function NextStore(pc: Pc): Pc {
    match pc
    case Storing(table, fd, DupStore) => Using
    case Storing(table, fd, OpenStore) => Stored(table, true)
    case Storing(table, fd, PipeFirst(fd1)) => Ready(table, fd1, PipeSecond)
    case Storing(table, fd, PipeSecond) => Stored(table, false)
    case _ => pc
  }

  function NextCheck(s: State, pc: Pc): Pc {
    match pc
    case Checking(req, i, retry) =>
      if i >= |req.keys| then pc
      else
        var key := req.keys[i];
        if key in s.mounts && OpenFileCount(s.heap, s.mounts[key]) == 0 then Checking(req, i + 1, retry)
        else if !req.force || retry + 1 >= MAX_RETRY then Idle
        else Checking(req, 0, retry + 1)
    case _ => pc
  }

  function NextStoreStep(h: Heap, pc: Pc, step: Step): Pc {
    match (step, pc)
    case (StoreWrite(_), Ready(table, fd, store)) => Storing(table, fd, store)
    case (StoreRaise(_, _), _) => NextStore(pc)
    case (StoreDrop(_), _) => Idle
    case (Dup2Swap(_), Dup2Locked(table, newFd)) => Dup2Swapped(table, Slot(table, newFd) in h.holder)
    case (Dup2Drop(_), _) => Using
    case _ => pc
  }

  function NextTableStep(pc: Pc, step: Step): Pc {
    match (step, pc)
    case (CopySlot(_, _), Copying(table, dst, next)) =>
      if next < MAX_OPEN_FILES then Copying(table, dst, next + 1) else Copied(dst)
    case (DestroySlot(_), Destroying(dst, next)) =>
      if next < MAX_OPEN_FILES then Destroying(dst, next + 1) else Idle
    case _ => pc
  }

  function NextUnmount(s: State, step: Step): Pc {
    var t, pc := step.t, At(s, step.t);
    match (step, pc)
    case (UmountLook(_, table, fd), Scanning(req)) => Looking(req, table, fd)
    case (UmountDecide(_), Looking(req, _, _)) =>
      if Forces(s, t) then Forcing(req) else if Concerned(s, t) && !req.force then Idle else Scanning(req)
    case (UmountClose(_), Forcing(req)) => Forced(req)
    case (UmountLooked(_), Forced(req)) => Scanning(req)
    case _ => pc
  }

  function NextCall(s: State, step: Step): Pc {
    var t, pc := step.t, At(s, step.t);
    match step
    case Load(_, table, fd, Use) => Using
    case Load(_, table, fd, ForDup) => DupLoaded(table)
    case Load(_, table, fd, ForDup2(newFd)) => Dup2Loaded(table, newFd)
    case Close(_, _, _) => Using
    case Release(_) => Idle
    case OpenBegin(_, table) => Finding(table, 0, false)
    case DupLock(_) => if pc.DupLoaded? then Finding(pc.table, 0, true) else pc
    case Dup2Lock(_) => if pc.Dup2Loaded? then Dup2Locked(pc.table, pc.newFd) else pc
    case Find(_) => NextFind(s.heap, pc)
    case OpenAbort(_) => Idle
    case OpenLock(_) => if pc.Found? then Opening(pc.table, pc.fd) else pc
    case OpenFail(_) => Idle
    case OpenCreate(_, _, _) => if pc.Opening? then Ready(pc.table, pc.fd, OpenStore) else pc
    case PipeBegin(_, table) => PipeFinding(table, 0, None)
    case PipeCreate(_, _) => if pc.PipeFound? then Ready(pc.table, pc.fd0, PipeFirst(pc.fd1)) else pc
    case CopyBegin(_, table, dst) => Copying(table, dst, 0)
    case Register(_) => Idle
    case DestroyBegin(_, table) => Destroying(table, 0)
    case UmountBegin(_, req) => Scanning(req)
    case UmountScanned(_) => if pc.Scanning? then Checking(pc.req, 0, 0) else pc
    case UmountCheck(_) => NextCheck(s, pc)
    case UmountErase(_) => Idle
    case _ => pc
  }

  /** Where a step takes its thread. */
  function Next(s: State, step: Step): Pc {
    if StoreStep(step) then NextStoreStep(s.heap, At(s, step.t), step)
    else if TableStep(step) then NextTableStep(At(s, step.t), step)
    else if UnmountStep(step) then NextUnmount(s, step)
    else NextCall(s, step)
  }

  function Erase(mounts: map<string, FsId>, path: string): map<string, FsId> {
    map key | key in mounts && !(path <= key) :: mounts[key]
  }

  function NextMounts(s: State, step: Step): map<string, FsId> {
    match step
    case Mount(_, key, fs) => s.mounts[key := fs]
    case UmountErase(t) => if At(s, t).Checking? then Erase(s.mounts, At(s, t).req.path) else s.mounts
    case _ => s.mounts
  }

  /** A thread takes the mutexes of where it goes and gives back those of where it was. */
  function NextTableLock(locks: map<TableId, Tid>, t: Tid, pc: Pc, next: Pc): map<TableId, Tid> {
    match (Locks(pc), Locks(next))
    case (Some(table), None) => locks - {table}
    case (None, Some(table)) => locks[table := t]
    case _ => locks
  }

  function NextFsLock(lock: Option<Tid>, t: Tid, pc: Pc, next: Pc): Option<Tid> {
    if LocksFs(next) && !LocksFs(pc) then Some(t)
    else if LocksFs(pc) && !LocksFs(next) then None
    else lock
  }

  function NextTables(s: State, step: Step): set<TableId> {
    match step
    case Register(t) => if At(s, t).Copied? then s.tables + {At(s, t).dst} else s.tables
    case DestroyBegin(_, table) => s.tables - {table}
    case _ => s.tables
  }

  function Do(s: State, step: Step): State {
    var t, pc, next := step.t, At(s, step.t), Next(s, step);
    State(Pointers(s, step),
          NextMounts(s, step),
          NextTables(s, step),
          if step.CopyBegin? then s.known + {step.dst} else s.known,
          NextTableLock(s.tableLock, t, pc, next),
          NextFsLock(s.fsLock, t, pc, next),
          s.pc[t := next])
  }
}
