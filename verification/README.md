# Miosix: paths, descriptors, event queues, the logger and the ADPCM codec

A Dafny model of the parts of the Miosix kernel and its examples that carry the most state, with proofs of
what they promise over every input, every run and every interleaving.

* **Path resolution** (`PathText`, `PathSpec`, `PathEdits`, `PathResolution`, `PathTheorems`, `PathLinks`). The resolver
  edits one string in place while it walks along it, keeps an index, an offset into the current filesystem and
  a depth, follows at most one symbolic link and leaves a mountpoint when ".." takes it above. `PathSpec.Walk`
  is an independent meaning: a stack of components that never looks at character positions. The class
  `PathResolution` is the imperative resolver; it is proved to compute that meaning, and `PathTheorems` says
  what the meaning is worth: a fold of the components, normal results and a fixed point. `PathLinks` tells the
  whole answer by what is on the disk: a link is its text put in its place, every error has its exact reason, and
  the longest mounted prefix is reported exactly when it says so. `PATH_MAX` is the value 512 that the C library patch defines.
* **The mount table** (`MountTable`, `MountTheorems`). `kmount` and `umount` on a table of canonical keys, what
  every sequence of them keeps, the two cases in which they do not keep it, when exactly mounting succeeds, and
  that what is mounted is what lookups find until it is unmounted.
* **In-place substrings** (`StringPart`, `PathLookups`, `PathWalker`). Mount lookups and element walks overwrite a character
  of the path with `'\0'` and put it back. Any nest of such parts shows what was asked for and leaves the
  string intact, so the resolver's lookups are modelled as lookups of slices.
  `PathLookups` ties the two together.
* **Open files, descriptor tables and unmounting** (`OpenFiles`, `Descriptors`, `DescriptorTheorems`,
  `DescriptorCalls`, `UnmountCalls`, `UnmountSafety`, `UnmountRace`). Reference counts and open-file counters, and a transition system of any
  number of threads that open, close, dup, dup2, pipe, use files, copy and destroy tables, mount and unmount,
  with the mutexes the code holds and no others. A plain assignment to a slot is two steps, as in the code: the
  pointer is written, and then its count is raised. `DescriptorTheorems` says what holds in every run,
  `DescriptorCalls` which file ends up in which slot over whole calls, `UnmountCalls` what an unmount sees, closes
  and leaves, `UnmountSafety` exactly in which runs the counts can be trusted, and `UnmountRace` gives one in which they
  cannot.
* **The fixed event queue** (`EventRing`, `EventQueue`, `EventFates`, `EventLoops`). The ring of callbacks in
  memory, a transition system of posting and running threads and interrupts, spurious wakeups and functors that use
  the queue themselves included, what becomes of every functor handed to it, and how `run` and `runOne` end.
* **The data logger** (`Logger`, `LoggerTheorems`, `LoggerLedger`). Callers, the packing thread, the writing thread and
  `start`/`stop` as a transition system over fixed pools of records and buffers, for any pool sizes, against a ledger of what
  the callers' steps alone say they logged.
* **The ADPCM codec, converter and player** (`Adpcm`, `AdpcmTheorems`, `Player`, `Converter`). Encoder and decoder
  with their step table, streams of samples, the bytes a recording is converted to, and the buffers a sound is
  played from.

`Common` holds the two notions that several modules share.

Four things that one might expect of the code are false of it. Each has a concrete witness and an exact
condition: resolving `/a/b/..` can miss the filesystem mounted at `/a` (`LongestPrefixMissed`,
`LongestPrefixIff`), mounting the root again adds a key that no later call can reach
(`RootMountsAgain`, `RootTwiceWedges`, `WedgedForever`, `MountKeepsGoodIff`), unmounting `/sd` also takes `/sd2`
(`SiblingGoesToo`, `UnmountTakesSubtreeIff`), and a forced unmount can take a filesystem from under a `dup` in
flight, because closing takes no lock and may come between the two halves of the store to a slot
(`UnmountsUnderDup`, `SoundIffUndisturbed`). The comment above the search in `umount` speaks of filesystems
mounted below the path; the code compares characters, and the model follows the code.

## Model

| member | source | states |
|---|---|---|
| PathResolution.PathResolution.ResolvePath | miosix/filesystem/file_access.cpp:458-520 | for every path, mount table and disk content, the in-place resolver terminates and returns the text, filesystem, offset or error that the component walk defines; at most one link is followed on success and the working path never exceeds `PATH_MAX` |
| PathResolution.PathResolution.HandleComponent | miosix/filesystem/file_access.cpp:475-504 | one turn of the loop keeps the string in step with the walk and decreases (links left, characters left) |
| PathResolution.PathResolution.SkipComponent | miosix/filesystem/file_access.cpp:482-488 | an empty component or "." goes with its slash and the walk goes on from the rest |
| PathResolution.PathResolution.LeaveComponent | miosix/filesystem/file_access.cpp:489-492 | ".." leads where the walk says, or to its error, and leaves fewer characters |
| PathResolution.PathResolution.EnterComponent | miosix/filesystem/file_access.cpp:493-505 | any other component leads where the walk says: down, to a link's target, or to its error |
| PathResolution.PathResolution.UpPathComponent | miosix/filesystem/file_access.cpp:522-537 | ".." is `ENOENT` at the root; otherwise the last component is erased and filesystem, offset and depth are those of the parent, except after a final ".." out of a nested mount |
| PathResolution.PathResolution.NormalPathComponent | miosix/filesystem/file_access.cpp:539-586 | entering a component takes the verdict of the walk: a mountpoint, a link to follow, a refusal, or straight on |
| PathResolution.PathResolution.FollowSymlink | miosix/filesystem/file_access.cpp:588-630 | the link is counted before it is read; a second one is `ELOOP`, an empty one `ENOENT`, a too long result `ENAMETOOLONG` |
| PathResolution.PathResolution.JumpAbsolute | miosix/filesystem/file_access.cpp:598-613 | the length computed beforehand is the exact length of the spliced path, which restarts at the root |
| PathResolution.PathResolution.JumpRelative | miosix/filesystem/file_access.cpp:614-628 | the same for a relative target, which restarts in the link's directory |
| PathResolution.PathResolution.RecursiveFindFs | miosix/filesystem/file_access.cpp:632-658 | searching backwards finds the longest mounted prefix of the directory, and its depth; at the end of the path the component before is left out |
| PathResolution.PathResolution.StripTrailingSlash | miosix/filesystem/file_access.cpp:506-518 | a trailing slash goes and the offset stays within the text |
| PathSpec.MountDepthLongest | miosix/filesystem/file_access.cpp:632-658 | no longer prefix than the one found is mounted |
| PathTheorems.ResolvedIsNormal | miosix/filesystem/file_access.cpp:458-520 | a resolved path is empty or absolute, without empty, "." and ".." components and without a trailing slash, whatever the links |
| PathTheorems.WalkIsFold | miosix/filesystem/file_access.cpp:475-504 | without link-capable filesystems the walk is the plain fold (skip, pop, push), `ENOENT` exactly when the fold escapes the root |
| PathTheorems.ResolveIsFold | miosix/filesystem/file_access.cpp:458-520 | the text resolved to is the rendering of that fold |
| PathTheorems.WalkSettles | miosix/filesystem/file_access.cpp:539-586 | no directory on the way to a result is a link that would be followed |
| PathTheorems.ResolveTwice | miosix/filesystem/file_access.cpp:458-520 | resolving a result other than the root again, with the same links on disk, changes nothing in its text and always reports the longest mounted prefix |
| PathTheorems.OffsetIsRelative | miosix/filesystem/file_access.cpp:632-658 | the text from the reported offset is the path relative to the mountpoint |
| PathLinks.AdvanceWalk | miosix/filesystem/file_access.cpp:475-504 | up to the first obstacle (".." at the root, a link, a file in the way, a failing `lstat`) a walk is a fold, and without one it succeeds |
| PathLinks.LinkWalk | miosix/filesystem/file_access.cpp:588-630 | told by the disk alone: the first link goes on with the components of its text, in the link's directory or from the root, and a second one is `ELOOP` |
| PathLinks.LinkIsReplaced | miosix/filesystem/file_access.cpp:588-630 | a path that meets a link resolves like the path with the link's text spliced in; that path decides between `ENAMETOOLONG`, `ELOOP` and its own resolution |
| PathLinks.RefusedIff | miosix/filesystem/file_access.cpp:458-586 | for every code: a resolution fails with it if and only if the first obstacle, or that of the path with the link replaced, is the reason for it on the disk |
| PathLinks.LongestPrefixIff | miosix/filesystem/file_access.cpp:522-537 | every success is the fold of the path with its link's text in place, and reports the longest mounted prefix and the exact relative path if and only if that path does not end with a ".." from one mountpoint into another, and then what the directory above has |
| PathLinks.LongestPrefixIffInput | miosix/filesystem/file_access.cpp:522-537 | the same condition on the input itself whenever it meets no link |
| PathTheorems.NestedMountMissed | miosix/filesystem/file_access.cpp:530-536 | for all names, `/a/b/..` with both mounted reports the root filesystem, and with a trailing slash it does not |
| PathTheorems.LongestPrefixMissed | miosix/filesystem/file_access.cpp:530-536 | a concrete table on which the property fails |
| MountTable.FilesystemManager.ResolvePath | miosix/filesystem/file_access.cpp:821-831 | too long and relative paths, and all paths without a root filesystem, are refused; for all others the answer is that of the resolver |
| MountTable.FilesystemManager.StatHelper | miosix/filesystem/file_access.cpp:874-881 | the status of what the path resolves to, in the filesystem it resolves to |
| MountTable.FilesystemManager.GetParentPath | miosix/filesystem/file_access.cpp:833-845 | strips a trailing slash; of a resolved path other than the root, the result is the directory that holds it, with a trailing slash |
| MountTable.ParentOfRender | miosix/filesystem/file_access.cpp:833-845 | the text before the last component of a stack renders the stack without it |
| MountTable.FilesystemManager.Kmount | miosix/filesystem/file_access.cpp:670-700 | every error code and its branch; success adds the resolved path as the key and changes nothing else |
| MountTable.FilesystemManager.Umount | miosix/filesystem/file_access.cpp:702-798 | every error code; success removes exactly the keys that have the path as a character prefix |
| MountTable.LookupStripped | miosix/filesystem/file_access.cpp:833-845 | what resolution returns has no trailing slash left to strip |
| MountTable.MountKeepsGoodIff | miosix/filesystem/file_access.cpp:670-700 | `kmount` keeps all keys canonical and the root mounted if and only if it does not mount the root again |
| MountTable.UnmountKeepsGood | miosix/filesystem/file_access.cpp:719-728 | `umount` always keeps them |
| MountTable.UnmountTakesSubtreeIff | miosix/filesystem/file_access.cpp:723-728 | a successful unmount takes exactly the mounts at and below the path if and only if no other key merely begins with the same characters |
| MountTable.SiblingGoesToo | miosix/filesystem/file_access.cpp:726-728 | unmounting `/sd` takes `/sd2` |
| MountTable.RootMountsAgain | miosix/filesystem/file_access.cpp:682-699 | a concrete table and path that mount the root again |
| MountTable.RootTwiceWedges | miosix/filesystem/file_access.cpp:682-699 | mounting the root again succeeds, and unmounting the root then leaves only the key "" |
| MountTable.WedgedForever | miosix/filesystem/file_access.cpp:670-721 | from then on every mount and every unmount fails |
| MountTable.HostIsAbove | miosix/filesystem/file_access.cpp:684-692 | a new mountpoint is checked in the filesystem of the longest mounted prefix above it |
| MountTable.RunKeepsTable | miosix/filesystem/file_access.cpp:670-798 | over all runs of `kmount` and `umount` that mount the root once, keys stay canonical, the root stays mounted while anything is, and the very filesystem that hosts a mountpoint stays mounted, in the same place, as long as the mount |
| MountTheorems.MountSucceedsIff | miosix/filesystem/file_access.cpp:670-700 | `kmount` succeeds if and only if it is the first mount of the root, or the disk says that the path leads to a directory that is no mountpoint and lies in one that has a status |
| MountTheorems.MountedIsFound | miosix/filesystem/file_access.cpp:670-700 | after a success the keys are the old ones, with their filesystems, and the resolved text, and looking that text up finds the root of the new filesystem |
| MountTheorems.RootIsFound | miosix/filesystem/file_access.cpp:687-699 | the first mount of the root is found by every lookup of the root |
| MountTheorems.UnmountUndoes | miosix/filesystem/file_access.cpp:702-728 | unmounting it again makes lookups report the host as before, and restores the table if and only if no other key begins with the mountpoint's text |
| MountTheorems.BusyStaysMounted | miosix/filesystem/file_access.cpp:739-753 | in every run, a filesystem stays mounted where it is as long as every unmount finds it busy |
| StringPart.SubPartFits | miosix/filesystem/stringpart.cpp:88-118 | a part of a part is the requested slice, and clearing it restores the text |
| StringPart.ViewIsCString | miosix/filesystem/stringpart.cpp:161-169 | `length()` is the length of `c_str()` |
| StringPart.RunIsBuilt | miosix/filesystem/stringpart.cpp:49-118 | after any last-in-first-out use, text and parts are those that making only the parts in use would give |
| StringPart.NestIsFaithful | miosix/filesystem/stringpart.cpp:181-196 | at any depth the most recent part reads, as a C string, what was asked for; with no part in use the string is the original |
| StringPart.OutOfOrder | miosix/filesystem/stringpart.cpp:111-117 | cleared in the wrong order, two parts restore the string if and only if the inner one made a cut of its own or the outer one made none |
| StringPart.OutOfOrderSpoils | miosix/filesystem/stringpart.cpp:181-196 | a concrete string spoiled by the wrong order |
| PathLookups.ClipIsSlice | miosix/filesystem/file_access.cpp:541-561 | the slices by which the resolver looks paths up are those that its parts show |
| PathLookups.LookupKeepsPath | miosix/filesystem/file_access.cpp:639-650 | making a part of the path, reading it as a C string and clearing it reads that slice and leaves the path as it was |
| StringPart.StringPart.OfString | miosix/filesystem/stringpart.cpp:49-59 | the constructor shows the slice and overwrites at most the character at `idx` |
| StringPart.StringPart.OfConst | miosix/filesystem/stringpart.cpp:75-80 | a constant string is shown whole and never written |
| StringPart.StringPart.Substr | miosix/filesystem/stringpart.cpp:88-118 | the target lets go of its old string, restored, and shows the slice; a constant string is copied, any other is shared |
| StringPart.StringPart.Clear | miosix/filesystem/stringpart.cpp:181-196 | the saved character is back and the part is empty |
| StringPart.StringPart.Assign | miosix/filesystem/stringpart.cpp:198-205 | a deep copy with the same text in new memory |
| StringPart.StringPart.FindFirstOf | miosix/filesystem/stringpart.cpp:142-150 | the first occurrence from `pos`, or `npos` and there is none |
| StringPart.StringPart.StartsWith | miosix/filesystem/stringpart.cpp:136-140 | true exactly for prefixes |
| PathWalker.NormalizedPathWalker.constructor | miosix/filesystem/path.cpp:32-35 | the walk begins after all leading slashes |
| PathWalker.NormalizedPathWalker.Next | miosix/filesystem/path.cpp:37-48 | each call shows the next element; the call that returns null leaves the path's string as it was |
| PathWalker.NormalizedPathWalker.Destroy | miosix/filesystem/path.h:47-48 | wherever the walk was given up, the path's string is what it was |
| PathWalker.FindEntry | miosix/filesystem/romfs/romfs.cpp:376-395 | looking a name up goes down by exactly the elements, gives up at the first that fails, terminates and always leaves the name as it was |
| PathWalker.ElementsJoin | miosix/filesystem/path.cpp:32-48 | joined by "/", the elements of any path give it without leading slashes and without one trailing slash |
| PathWalker.EmptyElementIff | miosix/filesystem/path.h:35-44 | an element is empty if and only if two slashes follow one another after the leading ones |
| PathWalker.ElementsOfRender | miosix/filesystem/path.h:35-44 | on a resolved path, absolute or relative, the elements are its components |
| OpenFiles.CopyExact | miosix/kernel/intrusive.h:361-392 | loading a pointer and raising its count in one keeps reference counts and open-file counters exact |
| OpenFiles.WriteExact | miosix/kernel/intrusive.h:330 | so does the first half of a plain assignment, which is not counted yet |
| OpenFiles.RaiseExact | miosix/kernel/intrusive.h:331 | so does the second half, if the place still holds the file whose count it raises |
| OpenFiles.MoveExactIff | miosix/kernel/intrusive.h:394-415 | swapping a pointer out of its place keeps the counts exact if and only if the pointer was counted already |
| OpenFiles.CreateExact | miosix/filesystem/file.cpp:77-81 | creating a file, which its filesystem counts, keeps all counts exact |
| OpenFiles.DropExact | miosix/filesystem/file.cpp:83-86 | so does dropping a pointer; only the last one takes the file and its count |
| OpenFiles.ZeroMeansNoPointer | miosix/filesystem/file.cpp:254-261 | a counter is zero if and only if no pointer anywhere leads to a file of that filesystem |
| OpenFiles.CountersFall | miosix/filesystem/file.cpp:256-261 | dropping a pointer never raises a counter and never makes it negative |
| DescriptorTheorems.StepKeepsInv | miosix/filesystem/file_access.cpp:88-125 | every step of every operation keeps the locking discipline, the pointers in hand, the slots found empty, the stores half done and the tables apart |
| DescriptorTheorems.RunKeepsInv | miosix/filesystem/file_access.cpp:293-372 | so does every run of any number of threads |
| DescriptorTheorems.OnlyDup2Overwrites | miosix/filesystem/file_access.cpp:293-340 | in every run, no step but the swap of `dup2` replaces an occupied slot, though closing takes no lock |
| DescriptorTheorems.NewDescriptorWasFree | miosix/filesystem/file_access.cpp:368-372 | in every run, a descriptor that open, dup or pipe hands out was free until the very step that writes it, so no two open descriptors share an index |
| DescriptorTheorems.NoDeadlock | miosix/filesystem/file_access.cpp:103-116 | in every run, whenever a mutex is held, some holder can take its next step: the manager's mutex is taken after a table's and never before |
| DescriptorCalls.SlotsArePlain | miosix/filesystem/file_access.cpp:88-125 | in every run and for every step, each slot holds what plain variables would: emptied by its close, by force or with its table, written only by the calls that say so |
| DescriptorCalls.Dup2Swaps | miosix/filesystem/file_access.cpp:306-318 | `dup2` puts the file in hand into the slot and takes what was there, in one swap |
| DescriptorCalls.DupStoresLoaded | miosix/filesystem/file_access.cpp:293-304 | over a whole `dup`, whatever others do meanwhile, the one slot written gets the file that the given descriptor held when it was loaded |
| DescriptorCalls.Dup2StoresLoaded | miosix/filesystem/file_access.cpp:306-318 | the same for `dup2` and the slot it was given |
| DescriptorCalls.OpenStoresMade | miosix/filesystem/file_access.cpp:103-116 | over a whole `open`, the one slot written is the one found, and gets the file made |
| DescriptorCalls.PipeStoresMade | miosix/filesystem/file_access.cpp:320-340 | over a whole `pipe`, two different slots are written and get one and the same new file |
| DescriptorCalls.SearchBegins | miosix/filesystem/file_access.cpp:368-372 | searches for a free slot begin with the first |
| DescriptorCalls.SearchSees | miosix/filesystem/file_access.cpp:325-332 | every slot below the one found, or all of them if the search failed, was in use at some moment of the search, but for the one a pipe keeps |
| UnmountCalls.DescriptorsInSight | miosix/filesystem/file_access.cpp:739-743 | in every run, an unmount can look at every open descriptor whose table is not just being copied or destroyed |
| UnmountCalls.UnmountCloses | miosix/filesystem/file_access.cpp:745-751 | an unmount closes a descriptor if and only if it is forced and the file is on a filesystem it takes; unforced it gives up there; it leaves all others alone |
| UnmountCalls.UnmountEnds | miosix/filesystem/file_access.cpp:777-792 | whatever others do, an unmount looks at no more counters than it has filesystems, three times that by force |
| UnmountCalls.EraseIsUnmounting | miosix/filesystem/file_access.cpp:794-797 | in every run, an unmount that succeeds leaves the mounts that `MountTable.Unmounting` says |
| UnmountCalls.MountsChange | miosix/filesystem/file_access.cpp:696-699 | no other step changes the mounts but a mount, which adds one key |
| UnmountSafety.DisturbedIsInexact | miosix/kernel/intrusive.h:325-333 | closing a slot between the two halves of a store leaves counts that are wrong |
| UnmountSafety.StepIsSafeIff | miosix/filesystem/file_access.cpp:118-125 | where all counts are exact, live files mounted and checked counters still zero, a step keeps this if and only if it does not take the pointer out of a slot that a thread is halfway through storing to |
| UnmountSafety.SoundIffUndisturbed | miosix/filesystem/file_access.cpp:702-798 | for every run: counts stay exact, every pointer leads to a live file of a mounted filesystem and no unmount erases one in use, all along the run, if and only if no close, by a call or by a forced unmount, comes between the two halves of a store to that slot |
| UnmountSafety.LiveFilesAreMounted | miosix/filesystem/file_access.cpp:702-798 | in every such run, whatever still points to a file, in a table or in an operation in flight, its filesystem is mounted |
| UnmountSafety.ErasedAreIdle | miosix/filesystem/file_access.cpp:777-797 | counters seen at zero one after the other are all still zero when the filesystems are erased |
| UnmountSafety.UnmountIsSafe | miosix/filesystem/file_access.cpp:730-797 | in every such run, a successful unmount, forced or not, takes only filesystems without any live file |
| UnmountRace.UnmountsUnderDup | miosix/filesystem/file_access.cpp:293-304 | a run, step by step, in which a forced unmount deletes the file a `dup` has in hand and succeeds, before `dup` raises the count |
| EventRing.PutAppends | miosix/e20/e20.h:204-211 | adding overwrites an empty slot and appends to the contents |
| EventRing.TakeRemoves | miosix/e20/e20.h:235-237 | taking removes the oldest of the contents |
| EventRing.Callback.MoveFrom | miosix/e20/callback.h:229-238 | a move destroys what was held, leaves the source empty, and does nothing to itself |
| EventRing.Callback.Clear | miosix/e20/callback.h:177-181 | the callback is empty and its functor destroyed |
| EventRing.FixedEventQueue.IRQpostImpl | miosix/e20/e20.h:204-220 | fails exactly when full, and then changes nothing and leaves the event with its caller; otherwise appends it, empty or not, and wakes the first getter |
| EventRing.FixedEventQueue.IRQpost | miosix/e20/e20.h:335-362 | the functor is appended, or destroyed with the temporary that holds it, exactly when the ring is full |
| EventRing.FixedEventQueue.TakeEvent | miosix/e20/e20.h:235-243 | moves the oldest event out, leaves its slot empty and wakes the first poster |
| EventQueue.StepKeepsInv | miosix/e20/e20.h:190-271 | every step of posters, runners, interrupts and functors, which may post and run the queue themselves, keeps the queue in order, the waiting lists, the wakeups and the ownership of events |
| EventQueue.NeverAllAsleep | miosix/e20/e20.h:190-271 | in every run, while threads wait, every event or free slot is matched by a woken thread; posters and runners never all sleep |
| EventQueue.TakenInOrder | miosix/e20/e20.h:204-243 | in every run, events leave in the order they entered and the ring indices agree with the count |
| EventFates.StepPlaced | miosix/e20/e20.h:190-271 | no step loses a functor: it leaves the thread that holds it only into the ring, and what was accepted or destroyed stays so |
| EventFates.CalledOnce | miosix/e20/e20.h:222-271 | in every run, every functor handed to a post is held by the one thread waiting to post it, destroyed, in the ring, in exactly one call of one thread however deeply nested, or called once, and never two of these |
| EventFates.PostIsNeverDropped | miosix/e20/e20.h:190-202 | after a blocking post, whatever happens, its thread holds the functor until it is accepted, so that the post ends only with the functor accepted |
| EventFates.IrqPostDropsIffFull | miosix/e20/e20.h:335-362 | a post from an interrupt or without blocking loses its functor for good if and only if it finds the ring full, and otherwise it is accepted for good |
| EventLoops.RunNeverReturns | miosix/e20/e20.h:222-249 | from any call of `run`, in every continuation in which no functor of that very `run` throws, its thread is never back in its own code |
| EventLoops.ThrowEndsRun | miosix/e20/e20.h:244-247 | the first such exception ends that `run`, however deeply nested, and no other |
| EventLoops.OldestIsCalled | miosix/e20/e20.h:251-271 | with an event in the ring `runOne` and `run` start one call, of the oldest; with none `runOne` changes nothing and `run` waits |
| EventLoops.RunOneReturns | miosix/e20/e20.h:251-271 | once the call that `runOne` made has ended, its thread is back in its own code |
| Logger.BuiltIsSensible | examples/datalogger/Logger.h:162-165 | the sizes the logger is built with meet what the theorems ask of them |
| Logger.Buffer.Append | examples/datalogger/Logger.cpp:229-230 | the record's bytes follow those already in the buffer |
| Logger.Buffer.Pack | examples/datalogger/Logger.cpp:213-232 | the packing loop leaves the first records, in order, and ends at the first moment a largest record might not fit, though the room is an unsigned difference |
| LoggerTheorems.StepKeepsInv | examples/datalogger/Logger.cpp:119-301 | every step of callers, packer, writer, start and stop keeps placement, sizes, order, stop signals and sleepers |
| LoggerTheorems.RunKeepsInv | examples/datalogger/Logger.cpp:119-301 | so does every run |
| LoggerLedger.QueuedIsLogged | examples/datalogger/Logger.cpp:155-182 | in every run, what was queued is, record by record, what each thread serialised last before each of its puts, as the steps alone tell |
| LoggerLedger.FileIsLogged | examples/datalogger/Logger.cpp:155-301 | as long as no write of the session fell short, its file, the bytes on their way and the waiting records are together exactly what callers logged since the session began, in order |
| LoggerLedger.StopWritesLogged | examples/datalogger/Logger.cpp:119-129 | when `stop` returns, the file of the session is exactly what callers logged since it began and before the stop signal, and all buffers are in the empty list |
| LoggerLedger.CallsAccounted | examples/datalogger/Logger.cpp:155-182 | in every run, every call that saw the logger started was queued, refused as too large, dropped on finding the empty queue empty, or is under way |
| LoggerLedger.DroppedIff | examples/datalogger/Logger.cpp:162-169 | a call is dropped, and changes nothing else, if and only if all records are queued or in somebody's hands |
| LoggerTheorems.SessionsAbut | examples/datalogger/Logger.cpp:53-117 | a new session writes to a file of its own and begins with the records that came too late for the session before, so none is lost or written twice |
| LoggerTheorems.StopCannotHang | examples/datalogger/Logger.cpp:119-129 | until `stop` has returned, packer, writer or `stop` itself can always take a step |
| LoggerTheorems.StopIsBounded | examples/datalogger/Logger.cpp:119-129 | once its signal is queued, `stop` returns within a number of steps of packer, writer and `stop` that is fixed then, plus one for each spurious wakeup, whatever the callers do |
| LoggerTheorems.StopGetsCloser | examples/datalogger/Logger.cpp:192-294 | each such step shortens the distance, no step of a caller changes it, and a spurious wakeup lengthens it by one |
| LoggerTheorems.RecordsConserved | examples/datalogger/Logger.cpp:131-138 | records in both queues and in hand always total `numRecords` |
| LoggerTheorems.BuffersConserved | examples/datalogger/Logger.cpp:131-138 | buffers in both lists and in hand always total `numBuffers` |
| LoggerTheorems.EmptyPutNeverBlocks | examples/datalogger/Logger.cpp:171-176 | giving a record back never waits |
| LoggerTheorems.FullPutNeverBlocks | examples/datalogger/Logger.cpp:178-182 | queueing a record never waits while no stop signal is queued, and exactly when it does otherwise |
| LoggerTheorems.NeverBothAsleep | examples/datalogger/Logger.cpp:202-212 | packer and writer never both sleep |
| LoggerTheorems.PackingFits | examples/datalogger/Logger.cpp:229-232 | copying a record stays within the buffer, the unsigned difference never wraps, and unless it stops a buffer goes to the writer only when a largest record might not fit |
| Adpcm.StepSizeFollows | examples/sad_trombone/adpcm.c:27-34 | each step is a tenth larger than the one before, rounded, up to the largest sample; an eighth of a step, and two, stays below the step before it |
| Adpcm.Quantize | examples/sad_trombone/adpcm.c:70-97 | bit by bit, the magnitude is the highest level not above the difference |
| Adpcm.CodeUnique | examples/sad_trombone/adpcm.c:50-133 | the sign and that magnitude determine the code |
| Adpcm.Encoder.Encode | examples/sad_trombone/adpcm.c:50-133 | the code is that one, and the encoder's state becomes what a receiver of the code computes |
| Adpcm.Decoder.Decode | examples/sad_trombone/adpcm.c:142-205 | the decoder's state becomes what receiving the code means, within the limits of index and sample |
| AdpcmTheorems.Transmit | examples/sad_trombone/adpcm.c:50-205 | encoder and decoder stay in the same state over any stream, and the decoder puts out the encoder's predictions |
| AdpcmTheorems.QuantisationError | examples/sad_trombone/adpcm.c:70-117 | near the sample the error drops to an eighth of the step plus two; far from it it falls by the whole range without overshoot |
| AdpcmTheorems.IndexFollowsDifference | examples/sad_trombone/adpcm.c:35-37 | the index falls by one when the difference is below the step, and else rises by two, and two more for each quarter level the difference reaches, within the table |
| AdpcmTheorems.TightConverges | examples/sad_trombone/adpcm.c:99-129 | once the error is below the step, a constant input brings the smallest step and the exact value in three samples more than the index |
| AdpcmTheorems.FarClimbs | examples/sad_trombone/adpcm.c:35-37 | while the error is large the step grows as fast as it can |
| AdpcmTheorems.ConstantInputConverges | examples/sad_trombone/adpcm.c:27-133 | from any state, a constant input is predicted exactly from the 103rd sample on, for ever |
| AdpcmTheorems.SendManyIsAfter | examples/sad_trombone/adpcm.c:50-205 | that prediction is where the codes of the constant lead a decoder |
| AdpcmTheorems.ConstantIsHeard | examples/sad_trombone/adpcm.c:142-205 | decoding the codes of a constant puts out exactly the constant from the 103rd sample on |
| Player.ADPCMSound.FillMonoBuffer | examples/sad_trombone/player.cpp:203-217 | an odd size is refused untouched; otherwise the buffer holds the next decoded nibbles, low then high, and zeros after the end |
| Player.ADPCMSound.FillStereoBuffer | examples/sad_trombone/player.cpp:219-233 | the same with sizes divisible by four and every sample twice |
| Player.ADPCMSound.Rewind | examples/sad_trombone/player.cpp:235 | the sound starts over; the decoder keeps its state |
| Player.StreamSplit | examples/sad_trombone/player.cpp:203-217 | decoding in two parts is decoding the whole |
| Player.StreamIsHeard | examples/sad_trombone/player.cpp:211-212 | read as signed shorts, the words of a buffer are the decoder's samples |
| Player.MonoIsStream | examples/sad_trombone/player.cpp:203-217 | however a sound is cut into buffers of even size, they concatenate to the decoded sound and then zeros, and the end is reported exactly when it is reached |
| Player.StereoIsDoubledMono | examples/sad_trombone/player.cpp:219-233 | the stereo sound is the mono sound with every sample doubled |
| Converter.Convert | examples/sad_trombone/convert.cpp:47-54 | the bytes hold the codes of the recording, without an odd last sample, in the order the player takes them out |
| Converter.ConvertedIsHeard | examples/sad_trombone/convert.cpp:47-65 | played from the encoder's first state, they sound like the encoder's own predictions, sample by sample |
| Converter.ConstantIsPlayed | examples/sad_trombone/convert.cpp:47-65 | a constant recording is played exactly from its 103rd sample on |

## Left out

- Permission checks (`WITH_POSIX_PERMISSIONS`): configuration.
- The concrete filesystems, device files and the inside of pipes: what is on a disk is an arbitrary oracle (`Disk`), and a pipe is a file without a filesystem.
- The comparison order of mount keys: paths, keys and the texts of links are taken to be free of `'\0'`, so comparing them with `strcmp` is comparing them for equality, and the table is a map.
- `umountAll`, `chdir`, `getcwd` and the calls that resolve a path and hand it to a filesystem: they add easy members.
- The inside of `Thread`, mutexes, condition variables, `Queue` and the interrupt lock: a critical section is one atomic step, a `Queue` is a bounded first-in-first-out queue.
- Thread loops of the event queue, the logger and the descriptor calls are steps of a transition system on values rather than methods, because their properties are about interleavings; the ring, the callbacks, the logger's buffers and their packing loop, the resolver, the mount table, the string parts and the codec are classes.
- UnmountSafety.LiveFilesAreMounted: stated of undisturbed runs, because `UnmountSafety.SoundIffUndisturbed` shows that what it rests on fails in all others.
- UnmountSafety.UnmountIsSafe: stated of undisturbed runs for the same reason; `UnmountRace.UnmountsUnderDup` is a run in which it fails.
- Descriptors: once a file has been deleted under a pointer, what the code does next is undefined, and the model just goes on without the file; raising the count of a slot may use the pointer read before or read it again, as compilers may do either.
- Descriptors: a store into a table that no other thread can reach yet, and the destruction of one that none can reach any more, is one step.
- Descriptors: an unmount may look at the slots of registered tables in any order and stop at any time, and copying a table keeps or skips each slot freely in place of the close-on-exec flag; both allow more runs than the code has.
- MountTable.FilesystemManager.Umount: the outcome of the search for open files is the parameter `busy`; `Descriptors` models that search, step by step.
- Logger: file names, so that a session which appends to an existing file is described by what it appends; failing thread creation, exceptions, timing and statistics; `serializeImpl` is an arbitrary function that fails or yields at most `maxRecordSize` bytes; `start` and `stop` are called by one thread at a time.
- EventQueue: every functor handed over counts as a new one; the unbounded queue of `miosix/e20/e20.cpp` is an easier version; running destructors of functors is recorded as the functor a move or `clear` destroys.
- StringPart: a part made of an empty part points to that part's own character in the code and is simply empty in the model; `offset + off` does not wrap.
- PathWalker: a path has fewer characters than `npos`, as every string has.
- Player: the audio hardware and its double buffering; a negative buffer size.
- Integer widths where the values are bounded by proof: the codec's `int` and `short` arithmetic stays in range, and path lengths stay below `PATH_MAX` and the length of one link.
- `examples/streamwriter/streamwriter.cpp`: a weaker pipeline that documents losing data on stop.
