# Verified models of the xv6 kernel and its programs

Dafny models of the parts of this repository where correctness is hardest: the crash-safe log over the buffer
cache, address spaces and physical pages, the K&R allocator, files over blocks, sleep and wakeup with what is built
on them, the disk driver's rings, the shell's parser, the pattern matcher of grep, and the two parallel word
counters. Each model takes the branches, constants and error returns of the code it cites and proves what that code
is for. `dafny verify dfyconfig.toml` checks everything.

## How the models are built

- **Code that runs alone** under a lock is a class whose methods are the C functions, with their loops
  (`LogCode.Log`, `BufferCache.Cache`, `Umalloc.Heap`, `Vm.Memory`, `Processes.Machine`, `Files.Fs`, `VirtioDisk.Disk`,
  `ShellParser.Cursor`), or methods over such an object (`UserCopy`, `Exec`), or over strings (`Grep`, `WordCount`). A contract says
  what the function means in terms of an abstract value: the coalesced free list, the flat map of an address space, the
  bytes of a file, the contents of a block as any reader sees it. Ghost fields hold that value.
- **Protocols** are state machines. `Enabled` and `Step` spell out one step; a run is any sequence of enabled steps by
  any number of processes or threads; an invariant is proved for each step and then for every run, and the theorems
  speak of all reachable states. `LogRuns` has the log with the cache, crashes and recovery, one disk write a step;
  `SleepWakeup` has sleep and wakeup of `kernel/proc.c` down to the steps of `p->lock`, and `SleepLock`, `Pipe`,
  `ExitWait` and `VirtioWait` run the code of `kernel/sleeplock.c`, `kernel/pipe.c`, of fork, exit and wait, and the
  sleeps of `kernel/virtio_disk.c` on top of it;
  `Pipeline` has the producer and the consumers of `wc_mt_overlap.c`.
- **Failures** have causes. What may fail says in terms of its input and the free pages, blocks or copies when it
  does: exec, fork, growproc and the page operations under them succeed exactly when the free list is long enough
  (`PagePrice`) and their input is in order; malloc, filewrite, pipe reads and writes, wait and the sleeps of the
  drivers come back early only for the reasons that the code gives.
- **The shell's parser** is compared with a grammar over tokens (`ShellSyntax`) that says which lines are sentences
  and what each means; the parser takes exactly the sentences.
- **Panics** are preconditions, assertions or results that the theorems show unreachable, or the exact condition
  under which they are reached.

| modules | code |
|---|---|
| `LogFormat`, `LogCode`, `LogRuns`, `LogAtomicity` | `kernel/log.c` |
| `LruRing`, `BufferCache` | `kernel/bio.c` |
| `Sv39`, `Vm`, `PagePrice`, `UserCopy`, `ProgramImage`, `Exec`, `Processes` | `kernel/vm.c`, `kernel/kalloc.c`, `kernel/exec.c`, `kernel/proc.c` |
| `FreeList`, `Umalloc` | `user/umalloc.c` |
| `FileBlocks`, `FileBytes`, `Files` | `kernel/fs.c`, `kernel/file.c` |
| `SleepWakeup`, `SleepLock`, `Pipe`, `ExitWait` | `kernel/proc.c`, `kernel/sleeplock.c`, `kernel/pipe.c` |
| `VirtioRings`, `VirtioDisk`, `VirtioWait` | `kernel/virtio_disk.c` (VIRTIO 1.1, sections 2.6 and 5.2) |
| `ShellGrammar`, `ShellSyntax`, `ShellRoundTrip`, `ShellSentences`, `ShellPrinting`, `ShellParser`, `ShellStrings` | `user/sh.c` |
| `Grep`, `GrepLines` | `user/grep.c` |
| `WordCount`, `Pipeline` | `lab8-lyjae/wc_mt.c`, `lab8-lyjae/wc_mt_overlap.c` |
| `Basics` | facts that several modules share |

## Where the code does not do what it seems to

Each of these is a lemma with the exact condition, and most have one at a concrete input.

- `Umalloc.SbrkExact`, `Umalloc.RequestExact`: `morecore` passes a byte count to `sbrk`, which takes an int. It asks
  for what it means if and only if the count fits an int, which for `malloc(nbytes)` is up to 2^31 - 32 bytes; the malloc
  contracts hold below that. For 2^32 - 1 bytes it asks for 16.
- `Pipeline.FitsIff`: the chunk buffer of the producer has 256 spare bytes. They suffice in every run if and only if at no
  chunk boundary a word goes on for 257 characters from the last byte that `fread` got (`Pipeline.FileFits`); a
  file of one word of 65793 characters overruns the buffer. The model has no step for a read that does.
- `GrepLines.PrintsIff`, `GrepLines.PrintsAllIff`: `grep` stops without a word at a line of 1023 or more characters and
  at a line with a NUL, and it never prints a last line without a newline. It prints all matching lines, whatever the
  pattern, if and only if none of these occurs.
- `Exec.NullInsideIff`: with exactly 32 arguments `exec` would store the null behind them one past the end of `ustack`;
  with 33 it fails, with fewer it stays inside. `sys_exec` hands over at most 31 (`kernel/sysfile.c:446-456`), so the
  contracts of exec exclude 32.
- `ShellSentences.BackThenCommand`: `a & b` is a syntax error to the shell, because `parseline` takes no command behind
  `&`; the line for it is `a & ; b`. `ShellSentences.ParsesIff` has all the lines that are taken.
- `LogCode.Log.LogWrite`: the capacity test comes before absorption, so `log_write` panics on a full log even for a
  block that is already logged. What keeps operations safe is that each call is made while the operation has added
  fewer than ten blocks (`LogAtomicity.NoPanic`); `Files.Fs.Filewrite` shows that the chunks of `filewrite` are such
  operations.

## Model

| member | source | states |
|---|---|---|
| LogFormat.DecodeEncode | lab3-lyjae/xv6-riscv/kernel/log.c:87-114 | What write_head puts into the header block, read_head reads back. |
| LogFormat.RecoversToIff | lab3-lyjae/xv6-riscv/kernel/log.c:67-123 | A disk stands for contents m, in terms of its header, log blocks and home blocks, if and only if a completed recovery leaves every home block as in m. |
| LogFormat.WriteUnusedLogBlock | lab3-lyjae/xv6-riscv/kernel/log.c:178-191 | With an empty header, a write into the log region does not change what recovery yields. |
| LogFormat.WriteHeader | lab3-lyjae/xv6-riscv/kernel/log.c:99-114 | Over a complete log, the one header write switches what recovery yields from the old contents to the new ones. |
| LogFormat.InstallOne | lab3-lyjae/xv6-riscv/kernel/log.c:67-83 | Installing one logged block leaves what recovery yields as it is and one block fewer to install. |
| LogFormat.ClearHeader | lab3-lyjae/xv6-riscv/kernel/log.c:193-203 | Once all is installed, erasing the header changes nothing that recovery yields. |
| LogFormat.EmptyHeader | lab3-lyjae/xv6-riscv/kernel/log.c:116-123 | With an empty header recovery leaves the home blocks alone. |
| LogCode.Log.constructor | lab3-lyjae/xv6-riscv/kernel/log.c:54-65 | Over whatever disk a crash has left, the log is recovered and empty, and each disk write on the way recovers to the same contents. |
| LogCode.Log.Bread | lab3-lyjae/xv6-riscv/kernel/bio.c:91-103 | The cached block if there is one, else the disk's; nothing else changes. |
| LogCode.Log.ReadHead | lab3-lyjae/xv6-riscv/kernel/log.c:85-97 | log.lh is what the header block encodes. |
| LogCode.Log.WriteHead | lab3-lyjae/xv6-riscv/kernel/log.c:99-114 | The header block encodes log.lh; one disk write. |
| LogCode.Log.WriteLog | lab3-lyjae/xv6-riscv/kernel/log.c:177-191 | Every modified block is in the log; a crash after any of the writes recovers to the old contents. |
| LogCode.Log.InstallTrans | lab3-lyjae/xv6-riscv/kernel/log.c:67-83 | All home blocks are up to date and unpinned; a crash after any of the writes recovers to the same contents. |
| LogCode.Log.EraseHead | lab3-lyjae/xv6-riscv/kernel/log.c:193-203 | The empty header, without a change of meaning. |
| LogCode.Log.Commit | lab3-lyjae/xv6-riscv/kernel/log.c:193-203 | Crash atomicity write by write: a crash after any write before the header write recovers to the old contents, after it to the new ones; at the end the home blocks are the new contents and the log is empty. |
| LogCode.Log.RecoverFromLog | lab3-lyjae/xv6-riscv/kernel/log.c:116-123 | From any state a crash can leave, and interrupted after any of its own writes, recovery yields the same contents. |
| LogCode.Log.LogWrite | lab3-lyjae/xv6-riscv/kernel/log.c:205-235 | It panics exactly when the log is at capacity or no operation is running (the capacity test comes before absorption); a block already logged is absorbed; a new one is appended and pinned. |
| LogCode.Log.BeginOp | lab3-lyjae/xv6-riscv/kernel/log.c:125-142 | Who goes on has ten blocks reserved within LOGSIZE; who sleeps has a commit or another operation to wait for, or a log in use. |
| LogCode.Log.EndOp | lab3-lyjae/xv6-riscv/kernel/log.c:144-175 | The last operation out leaves the disk with all that was logged, crash-atomically, and an empty log; any other leaves disk and log alone; it panics exactly if a commit is running. |
| LogRuns.InvStep | lab3-lyjae/xv6-riscv/kernel/log.c:126-235 | Every step of begin_op, log_write, end_op, commit, a crash or recovery keeps the invariant that ties disk, cache, log and the two abstract disk images together. |
| LogRuns.InvBegin | lab3-lyjae/xv6-riscv/kernel/log.c:125-142 | begin_op keeps the invariant, the reservation of log space included. |
| LogRuns.InvLogWrite | lab3-lyjae/xv6-riscv/kernel/log.c:205-235 | log_write keeps it: the log lists each modified block once, pinned, in the reserved space. |
| LogRuns.InvEndOp | lab3-lyjae/xv6-riscv/kernel/log.c:144-175 | end_op keeps it: the last operation out starts the commit. |
| LogRuns.InvCrash | lab3-lyjae/xv6-riscv/kernel/log.c:116-123 | A crash keeps it, with the contents as of the last committed batch. |
| LogAtomicity.RunInv | lab3-lyjae/xv6-riscv/kernel/log.c:116-235 | Every reachable state satisfies the invariant, with the images that the history of log_writes and header writes describes. |
| LogAtomicity.CrashSafe | lab3-lyjae/xv6-riscv/kernel/log.c:67-203 | After any run, crashes included, recovery yields exactly the committed batches on top of what was there at boot. |
| LogAtomicity.RecoveryInstalls | lab3-lyjae/xv6-riscv/kernel/log.c:116-123 | After recovery, and until the next commit, the home blocks hold exactly the committed batches. |
| LogAtomicity.ReadsLatest | lab3-lyjae/xv6-riscv/kernel/log.c:205-235 | bread returns the latest logged contents of any block that nobody is modifying, whether cached, evicted, pinned or being installed. |
| LogAtomicity.OpsAreAtomic | lab3-lyjae/xv6-riscv/kernel/log.c:125-175 | In any run each operation's writes are durable all or none; none while it is still running. |
| LogAtomicity.CommitIsDurable | lab3-lyjae/xv6-riscv/kernel/log.c:144-175 | When the commit of end_op is over, every log_write so far is durable. |
| LogAtomicity.NoPanic | lab3-lyjae/xv6-riscv/kernel/log.c:205-235 | An operation that has added fewer than MAXOPBLOCKS blocks never makes log_write panic, and end_op never finds a commit running. |
| LogAtomicity.NoLostWakeup | lab3-lyjae/xv6-riscv/kernel/log.c:125-175 | Whoever sleeps in begin_op has a reason to, and someone who will wake it: a commit is running, or the log has no room for ten more blocks and an operation is running. |
| LogAtomicity.BeginSleepsIff | lab3-lyjae/xv6-riscv/kernel/log.c:125-142 | begin_op sleeps if and only if a commit is running or ten blocks for every operation under way and for this one would not fit behind those in the log; on a log without commit or operation it never does. |
| LogAtomicity.InternalProgress | lab3-lyjae/xv6-riscv/kernel/log.c:177-203 | A commit or recovery under way can always make its next step and is one step nearer its end. |
| LruRing.Unlink | lab3-lyjae/xv6-riscv/kernel/bio.c:125-129 | Taking a node out keeps the prev/next arrays one cycle, without it. |
| LruRing.PushFront | lab3-lyjae/xv6-riscv/kernel/bio.c:130-133 | Putting it in behind the head keeps them one cycle, with it in front. |
| BufferCache.Lookup | lab3-lyjae/xv6-riscv/kernel/bio.c:65-73 | The first buffer that caches the block. |
| BufferCache.UpdateBuf | lab3-lyjae/xv6-riscv/kernel/bio.c:91-151 | A change of one buffer changes at most what a reader of its own block sees. |
| BufferCache.Recycle | lab3-lyjae/xv6-riscv/kernel/bio.c:75-86 | Recycling an unused buffer for another block changes the contents of no block. |
| BufferCache.Cache.constructor | lab3-lyjae/xv6-riscv/kernel/bio.c:36-53 | binit: one ring of all buffers, none of which caches a block. |
| BufferCache.Cache.Bget | lab3-lyjae/xv6-riscv/kernel/bio.c:55-89 | A cached block gets one more reference; otherwise the least recently used unreferenced buffer is recycled; None only if all are referenced. No reader of any block sees a difference. |
| BufferCache.Cache.Bread | lab3-lyjae/xv6-riscv/kernel/bio.c:91-103 | The current contents of the block, in a referenced valid buffer; buffers in use are kept. |
| BufferCache.Cache.Bwrite | lab3-lyjae/xv6-riscv/kernel/bio.c:105-112 | The disk takes the buffer's data; no reader sees a difference. |
| BufferCache.Cache.Bpin | lab3-lyjae/xv6-riscv/kernel/bio.c:139-144 | One more reference. |
| BufferCache.Cache.Bunpin | lab3-lyjae/xv6-riscv/kernel/bio.c:146-151 | One less; no contents change when the buffer agrees with the disk or stays referenced. |
| BufferCache.Cache.Brelse | lab3-lyjae/xv6-riscv/kernel/bio.c:114-137 | One less; an unreferenced buffer becomes the most recently used, the others keep their order. |
| FreeList.Canonical | lab3-lyjae/xv6-riscv/user/umalloc.c:24-44 | A coalesced list in address order is determined by the units it covers. |
| FreeList.Ordered | lab3-lyjae/xv6-riscv/user/umalloc.c:24-44 | In a coalesced list each block ends below, and does not touch, any later one. |
| FreeList.InsertedCoalesced | lab3-lyjae/xv6-riscv/user/umalloc.c:30-42 | Putting a block back behind its place, merged with its neighbours, leaves the list coalesced. |
| FreeList.InsertedUnits | lab3-lyjae/xv6-riscv/user/umalloc.c:30-42 | The list then covers what it covered and the block. |
| FreeList.CarvedCoalesced | lab3-lyjae/xv6-riscv/user/umalloc.c:74-83 | Cutting units off a block's end, or unlinking it, leaves the list coalesced. |
| FreeList.CarvedUnits | lab3-lyjae/xv6-riscv/user/umalloc.c:74-83 | The list then covers exactly the other units. |
| FreeList.FitFound | lab3-lyjae/xv6-riscv/user/umalloc.c:73-85 | There is one next fit. |
| Umalloc.SbrkExact | lab3-lyjae/xv6-riscv/user/umalloc.c:46-61 | morecore asks sbrk for what it meant if and only if the byte count fits an int; from 2^27 units on it does not. |
| Umalloc.RequestExact | lab3-lyjae/xv6-riscv/user/umalloc.c:46-72 | malloc(nbytes) makes morecore ask for what it means if and only if nbytes is at most 2^31 - 32; one byte more and it asks to shrink the heap, at 2^32 - 1 it asks for 16 bytes. |
| Umalloc.Heap.constructor | lab3-lyjae/xv6-riscv/user/umalloc.c:15-22 | An empty heap. |
| Umalloc.Heap.FindPlace | lab3-lyjae/xv6-riscv/user/umalloc.c:29-32 | The search loop ends at the free block below the freed one, wherever it starts in the cycle. |
| Umalloc.Heap.Splice | lab3-lyjae/xv6-riscv/user/umalloc.c:33-42 | The pointer surgery in its four cases. |
| Umalloc.Heap.PutBack | lab3-lyjae/xv6-riscv/user/umalloc.c:24-44 | The freed units move from the live to the free side; the list stays a coalesced cycle. |
| Umalloc.Heap.Free | lab3-lyjae/xv6-riscv/user/umalloc.c:24-44 | free: the block's units join the free units, no other block is touched, freep lies below it. |
| Umalloc.Heap.Sbrk | lab3-lyjae/xv6-riscv/user/umalloc.c:55-56 | The kernel extends the heap, possibly behind a gap, or refuses. |
| Umalloc.Heap.GetCore | lab3-lyjae/xv6-riscv/user/umalloc.c:46-59 | Fresh core of at least 4096 units, clear of all blocks, entered as handed out. |
| Umalloc.Heap.Morecore | lab3-lyjae/xv6-riscv/user/umalloc.c:46-61 | The new core joins the free units, or nothing changes; 0 if and only if sbrk has refused. |
| Umalloc.Heap.Cut | lab3-lyjae/xv6-riscv/user/umalloc.c:74-83 | The header updates of the exact and the larger fit. |
| Umalloc.Heap.Take | lab3-lyjae/xv6-riscv/user/umalloc.c:74-83 | The block handed out was free and is not any more; freep is its predecessor. |
| Umalloc.Heap.InitBase | lab3-lyjae/xv6-riscv/user/umalloc.c:70-73 | The empty list is base alone. |
| Umalloc.Heap.Search | lab3-lyjae/xv6-riscv/user/umalloc.c:73-89 | The loop ends; it takes the next fit if there is one, and otherwise grows the heap once; 0 if and only if none fits and sbrk refuses. |
| Umalloc.Heap.Malloc | lab3-lyjae/xv6-riscv/user/umalloc.c:63-90 | malloc: a large enough block, disjoint from all live and free ones, out of the next fit; free plus live units stay what sbrk gave; sbrk is called once if no free block fits and not otherwise; 0 if and only if none fits and sbrk refuses. |
| Sv39.Digits | lab3-lyjae/xv6-riscv/kernel/riscv.h:374-376 | The three 9-bit indices of an address are the digits of its page number. |
| Sv39.IndicesDetermine | lab3-lyjae/xv6-riscv/kernel/riscv.h:374-376 | Two pages below MAXVA with the same three indices are the same page. |
| Sv39.AddMiddle | lab3-lyjae/xv6-riscv/kernel/vm.c:92-100 | A new middle table below the root keeps the tree well formed and the map as it is. |
| Sv39.AddBottom | lab3-lyjae/xv6-riscv/kernel/vm.c:92-100 | So does a new bottom table. |
| Sv39.SetEntry | lab3-lyjae/xv6-riscv/kernel/vm.c:153-172 | Writing one entry of a bottom table changes the map at that page and nowhere else. |
| Sv39.MissingJoin | lab3-lyjae/xv6-riscv/kernel/vm.c:85-103 | The table pages that a range of pages still needs are those that its first part needs and those that the rest needs after that. |
| Vm.Memory.Kalloc | lab3-lyjae/xv6-riscv/kernel/kalloc.c:65-82 | The head of the free list, or none if it is empty. |
| Vm.Memory.constructor | lab3-lyjae/xv6-riscv/kernel/kalloc.c:25-31 | After kinit exactly the pages of its range exist, and all are free. |
| Vm.Memory.Freerange | lab3-lyjae/xv6-riscv/kernel/kalloc.c:33-40 | Exactly the pages of the range join the free list, each once. |
| Vm.Memory.Kfree | lab3-lyjae/xv6-riscv/kernel/kalloc.c:42-63 | The page is on the free list and holds nothing any more. |
| Vm.Memory.Walk | lab3-lyjae/xv6-riscv/kernel/vm.c:85-103 | The entry of the page, with new tables on the way if asked for, exactly as many as were missing; none if and only if they are missing and not asked for, or the free list is too short for them; the map stays as it is. |
| Vm.Memory.Mappages | lab3-lyjae/xv6-riscv/kernel/vm.c:138-172 | Exactly the pages of the range are mapped, to consecutive frames, and the missing tables are what it costs; or a prefix of them, and the free list was shorter than that. |
| Vm.Memory.Uvmunmap | lab3-lyjae/xv6-riscv/kernel/vm.c:174-199 | Exactly the range is unmapped; with do_free exactly its frames are freed. |
| Vm.Memory.Uvmdealloc | lab3-lyjae/xv6-riscv/kernel/vm.c:258-274 | The pages above the new size go back; nothing else changes. |
| Vm.Memory.Uvmalloc | lab3-lyjae/xv6-riscv/kernel/vm.c:230-256 | The process has grown by distinct fresh zeroed pages and stays below TRAPFRAME, and those pages and the missing tables are what it costs; it fails if and only if the free list is shorter than that, and the map and all data pages are then as before. |
| Vm.Memory.Uvmcopy | lab3-lyjae/xv6-riscv/kernel/vm.c:306-340 | The child has copies of all the parent's pages in fresh frames, with the same permissions, and the parent is untouched; it fails if and only if the free list is too short for those pages and the child's tables, and then the child has what it had and every page taken is free again. |
| Vm.Memory.Freewalk | lab3-lyjae/xv6-riscv/kernel/vm.c:276-294 | On a tree without leaves, every table page is freed once. |
| Vm.Memory.Uvmfree | lab3-lyjae/xv6-riscv/kernel/vm.c:296-304 | Exactly the space's table pages and user frames are freed. |
| Vm.OwnsBound | lab3-lyjae/xv6-riscv/kernel/vm.c:230-256 | A space whose pages are distinct frames has no more pages than memory has, hence stays below TRAPFRAME. |
| PagePrice.PriceStep | lab3-lyjae/xv6-riscv/kernel/vm.c:85-103 | What growing from n to m user pages costs, pages and missing tables, is the difference of two prices, each a formula in the number of pages. |
| PagePrice.PricedGrown | lab3-lyjae/xv6-riscv/kernel/vm.c:230-256 | A space that has cost the price of its size still has when it has grown. |
| UserCopy.Walkaddr | lab3-lyjae/xv6-riscv/kernel/vm.c:105-126 | The frame if and only if the page is mapped for the user (and writable, where copyout asks for it). |
| UserCopy.Copyin | lab3-lyjae/xv6-riscv/kernel/vm.c:385-408 | 0 if and only if every byte is accessible; what it has copied is what translating byte by byte reads. |
| UserCopy.Copyout | lab3-lyjae/xv6-riscv/kernel/vm.c:355-383 | 0 if and only if every byte is accessible; memory is as after writing the copied bytes one at a time. |
| UserCopy.Copyinstr | lab3-lyjae/xv6-riscv/kernel/vm.c:410-451 | 0 if and only if a NUL lies within max accessible bytes; then exactly the string up to it; never more than max bytes. |
| UserCopy.WriteChunk | lab3-lyjae/xv6-riscv/kernel/vm.c:359-383 | A page-sized copy is the same as writing its bytes one at a time. |
| UserCopy.CopyRoundTrip | lab3-lyjae/xv6-riscv/kernel/vm.c:355-408 | What copyout has written, copyin reads back. |
| UserCopy.PutThenRead | lab3-lyjae/xv6-riscv/kernel/vm.c:355-408 | After it every byte elsewhere reads as before. |
| Exec.ProcPagetable | lab3-lyjae/xv6-riscv/kernel/proc.c:174-208 | A space with the kernel's two pages and no user page, if and only if three pages are free; on failure every page is where it was. |
| Exec.ProcFreepagetable | lab3-lyjae/xv6-riscv/kernel/proc.c:210-218 | Every page of the space is free again, and nothing else has changed. |
| Exec.Grow | lab3-lyjae/xv6-riscv/kernel/exec.c:64-67 | A step of uvmalloc in exec leaves everything outside the new space alone; inside it, what was loaded stays and zeros follow; it fails only if the free list was too short for a space of the new size. |
| ProgramImage.ImageLoaded | lab3-lyjae/xv6-riscv/kernel/exec.c:52-70 | Laying one more segment over the memory gives the image that the last segment covering each address decides. |
| ProgramImage.ShowsPage | lab3-lyjae/xv6-riscv/kernel/exec.c:150-163 | A chunk read into one frame changes exactly those bytes of what the user sees. |
| Exec.Loadseg | lab3-lyjae/xv6-riscv/kernel/exec.c:143-166 | 0 if and only if the file has all the bytes; then the memory is as before with the segment's bytes laid over it. The panic on a missing page is unreachable. |
| Exec.LoadSegments | lab3-lyjae/xv6-riscv/kernel/exec.c:52-70 | It succeeds if and only if every segment is well formed, has its bytes in the file and the free list is long enough; then each byte of the new space is that of the last segment with file contents there, or 0, and the size is the top of the highest segment; the rest of memory is untouched. |
| Exec.Uvmclear | lab3-lyjae/xv6-riscv/kernel/vm.c:342-353 | One user page is closed to the user, nothing else changes. |
| Exec.PushArgs | lab3-lyjae/xv6-riscv/kernel/exec.c:90-110 | It succeeds if and only if the strings and the pointers to them fit the stack page; then every string, and the array of pointers with its null, reads back from the new stack, and so does the program below it; sp is aligned and inside the stack page; ustack, an array of 32, is written inside its bounds. |
| Exec.NullInsideIff | lab3-lyjae/xv6-riscv/kernel/exec.c:90-102 | The null behind the pointers is stored inside ustack, whatever the strings, if and only if there are not exactly 32 of them. |
| Exec.NullBehind | lab3-lyjae/xv6-riscv/kernel/exec.c:90-102 | 32 empty strings make exec store it behind ustack; sys_exec hands over at most 31. |
| Exec.MakeStack | lab3-lyjae/xv6-riscv/kernel/exec.c:76-110 | The stack page lies above a page closed to the user, which lies above the program; it fails if and only if the free list is too short for the two pages or the arguments do not fit. |
| Exec.Exec | lab3-lyjae/xv6-riscv/kernel/exec.c:22-141 | It succeeds if and only if the header is good, the segments can be loaded, the arguments fit the stack page and the free list is long enough for the whole new space. Then the new space replaces the old one, all of whose pages are free again, and holds the program's image and, on its stack, the arguments; otherwise -1, and tables and data pages are exactly as before. |
| Exec.FirstExec | lab3-lyjae/xv6-riscv/kernel/exec.c:22-141 | From kinit on: a first process gets its space and runs a program, if and only if the header is good, the program and its arguments fit and there is enough memory. |
| Processes.Machine.constructor | lab3-lyjae/xv6-riscv/kernel/kalloc.c:25-40 | No process, no page taken. |
| Processes.Machine.Allocproc | lab3-lyjae/xv6-riscv/kernel/proc.c:109-150 | A new process with one trapframe page and its own tables, if and only if four pages are free, or nothing taken; no other process sees a difference. |
| Processes.Machine.Freeproc | lab3-lyjae/xv6-riscv/kernel/proc.c:152-172 | Exactly the pages of the process are free again. |
| Processes.Machine.Growproc | lab3-lyjae/xv6-riscv/kernel/proc.c:257-275 | The process has grown by zeroed pages of its own or shrunk from its end, and keeps the rest; it fails if and only if it is to grow and the free list is too short for the new pages and missing tables, and keeps all; no other process sees a difference. |
| Processes.Machine.CopyMemory | lab3-lyjae/xv6-riscv/kernel/vm.c:300-340 | The child has a copy of every page in a frame of its own; or none, if and only if the free list is too short for the copies and the child's tables. |
| Processes.Machine.Fork | lab3-lyjae/xv6-riscv/kernel/proc.c:277-298 | The child's memory is a copy of the parent's in frames of its own, if and only if the free list is long enough for a trapframe page and a space of the parent's size; or all is as before; no other process sees a difference. |
| Processes.Machine.Run | lab3-lyjae/xv6-riscv/kernel/exec.c:22-141 | exec changes the memory of its own process only, and succeeds exactly when Exec.Exec does. |
| Processes.Machine.OneOwner | lab3-lyjae/xv6-riscv/kernel/kalloc.c:33-82 | After any sequence of these operations every page of memory is free, or the kernel's, or a table or a page of exactly one process, in one way. |
| Processes.Replaced | lab3-lyjae/xv6-riscv/kernel/proc.c:257-298 | A process that changes within its own pages and free ones leaves every page with one owner and every other process with what it had. |
| SleepWakeup.InvStep | lab3-lyjae/xv6-riscv/kernel/proc.c:545-592 | Careful code keeps the invariant of sleep and wakeup at every step, kill included: a sleeper's channel is still blocked, or its wakeup is on the way. |
| SleepWakeup.NoLostWakeup | lab3-lyjae/xv6-riscv/kernel/proc.c:545-592 | With lk free, whoever sleeps on a channel, or is about to, sleeps on something still blocked. |
| SleepLock.IsCareful | lab3-lyjae/xv6-riscv/kernel/sleeplock.c:21-41 | acquiresleep and releasesleep use sleep and wakeup with care. |
| SleepLock.MutualExclusion | lab3-lyjae/xv6-riscv/kernel/sleeplock.c:21-41 | Between acquiresleep and releasesleep there is one process at a time, and pid names it. |
| SleepLock.CallsReturn | lab3-lyjae/xv6-riscv/kernel/sleeplock.c:21-41 | acquiresleep comes back only to the owner of the lock, after finding it free; only releasesleep ends that, and has freed the lock when it comes back. |
| SleepLock.WaiterMeansHeld | lab3-lyjae/xv6-riscv/kernel/sleeplock.c:21-41 | With the inner lock free, a waiter asleep means that another process owns the lock. |
| SleepLock.NoDeadlock | lab3-lyjae/xv6-riscv/kernel/sleeplock.c:21-41 | When no call can go on, whoever is in one waits for an owner outside any call. |
| Pipe.Counters | lab3-lyjae/xv6-riscv/kernel/pipe.c:88-95 | The 32-bit counters tell full from empty, and index the ring, although they wrap. |
| Pipe.IsCareful | lab3-lyjae/xv6-riscv/kernel/pipe.c:58-130 | pipewrite, piperead and pipeclose sleep only while they must and wake whomever they free. |
| Pipe.PipeInvStep | lab3-lyjae/xv6-riscv/kernel/pipe.c:58-130 | Every step of any interleaving keeps the pipe's invariant. |
| Pipe.Fifo | lab3-lyjae/xv6-riscv/kernel/pipe.c:76-130 | In every reachable state the bytes taken are a prefix of the bytes stored, at most 512 behind. |
| Pipe.CallsAreOrdered | lab3-lyjae/xv6-riscv/kernel/pipe.c:76-130 | A write has put exactly its first i bytes, in order, behind all its process wrote before; a read has got consecutive bytes of the stream. |
| Pipe.ReadReturns | lab3-lyjae/xv6-riscv/kernel/pipe.c:106-130 | A read that returns has got all it asked for or has left the ring empty; with nothing got, the write end is closed. |
| Pipe.WriteReturns | lab3-lyjae/xv6-riscv/kernel/pipe.c:76-104 | A write that returns has put all its bytes, unless the read end is closed or copyin has failed in this call. |
| Pipe.SleepersWait | lab3-lyjae/xv6-riscv/kernel/pipe.c:76-130 | With the pipe lock free, a reader asleep means an empty pipe with the write end open, a writer asleep a full pipe with the read end open. |
| Pipe.FreedIsDead | lab3-lyjae/xv6-riscv/kernel/pipe.c:58-74 | Once the last closer has freed the pipe no one can touch it. |
| Pipe.NoDeadlock | lab3-lyjae/xv6-riscv/kernel/pipe.c:58-130 | When no call can go on, all calls are readers of an empty pipe that still has writers, or all are writers of a full pipe that still has readers. |
| ExitWait.IsCareful | lab3-lyjae/xv6-riscv/kernel/proc.c:328-435 | fork, exit and wait use sleep and wakeup with care, although exit wakes the parent before it sets ZOMBIE. |
| ExitWait.TreeGo | lab3-lyjae/xv6-riscv/kernel/proc.c:317-435 | Every step under wait_lock keeps the process tree in order. |
| ExitWait.WaitInvStep | lab3-lyjae/xv6-riscv/kernel/proc.c:279-435 | Every step of any interleaving of fork, exit, wait and kill keeps the invariant. |
| ExitWait.FamilyTree | lab3-lyjae/xv6-riscv/kernel/proc.c:317-435 | In every reachable state each parent is neither UNUSED nor ZOMBIE, each started process but init has a parent, and no zombie has children. |
| ExitWait.NoSleepingParent | lab3-lyjae/xv6-riscv/kernel/proc.c:390-435 | With wait_lock free, whoever sleeps in wait has children, none of them a zombie. |
| ExitWait.ScanStep | lab3-lyjae/xv6-riscv/kernel/proc.c:401-434 | While a process scans in wait nobody else changes the tree; its own step takes the scan one slot further or ends it by what the tree holds. |
| ExitWait.WholeScan | lab3-lyjae/xv6-riscv/kernel/proc.c:399-434 | In any interleaving a scan of wait reaps a zombie child if there is one, sleeps if there are only other children, and returns -1 if there are none, unless the caller is killed while no child is a zombie or the copy of the status fails. |
| ExitWait.ScanGoesOn | lab3-lyjae/xv6-riscv/kernel/proc.c:401-434 | A scan never gets stuck: it goes on, or the child that it looks at has exited and leaves its stack. |
| ExitWait.WaitReturns | lab3-lyjae/xv6-riscv/kernel/proc.c:390-435 | wait comes back only with a result, or to a caller without children. |
| ExitWait.ForkReturns | lab3-lyjae/xv6-riscv/kernel/proc.c:277-325 | fork comes back with a child of its own that runs and has it as its parent, or with none. |
| ExitWait.ExitNeverReturns | lab3-lyjae/xv6-riscv/kernel/proc.c:344-388 | exit does not come back: its process becomes a zombie and stays one until its parent reaps it. |
| ExitWait.ReapedByParent | lab3-lyjae/xv6-riscv/kernel/proc.c:401-421 | wait reaps only a zombie child of the caller that is off its kernel stack, and empties its slot. |
| ExitWait.ReapedOnce | lab3-lyjae/xv6-riscv/kernel/proc.c:344-435 | In any run each exit of a slot is matched by one reaping, or the slot is still a zombie. |
| ExitWait.NoDeadlock | lab3-lyjae/xv6-riscv/kernel/proc.c:328-435 | When nothing can go on, whoever is in fork, exit or wait sleeps in wait with children none of which has exited. |
| VirtioRings.Front | lab3-lyjae/xv6-riscv/kernel/virtio_disk.c:312-324 | The reader of a ring sees it empty exactly when it is, and reads its oldest entry, although the 16-bit indices wrap. |
| VirtioRings.Push | lab3-lyjae/xv6-riscv/kernel/virtio_disk.c:271-277 | A new entry overwrites none that is still in the ring. |
| VirtioRings.RoomInAvail | lab3-lyjae/xv6-riscv/kernel/virtio_disk.c:271-277 | There is always room in the avail ring for a chain's head. |
| VirtioRings.Conservation | lab3-lyjae/xv6-riscv/kernel/virtio_disk.c:155-213 | The free descriptors and three for each request under way make up all eight. |
| VirtioDisk.Disk.constructor | lab3-lyjae/xv6-riscv/kernel/virtio_disk.c:61-153 | All descriptors free, both rings empty. |
| VirtioDisk.Disk.AllocDesc | lab3-lyjae/xv6-riscv/kernel/virtio_disk.c:155-166 | A free descriptor, now taken, or -1 if there is none. |
| VirtioDisk.Disk.FreeChain | lab3-lyjae/xv6-riscv/kernel/virtio_disk.c:184-197 | Exactly the three descriptors of the chain are freed; no panic. |
| VirtioDisk.Disk.Alloc3Desc | lab3-lyjae/xv6-riscv/kernel/virtio_disk.c:199-213 | Three distinct free descriptors if and only if there are three; otherwise all is as before. |
| VirtioDisk.Disk.Start | lab3-lyjae/xv6-riscv/kernel/virtio_disk.c:215-281 | The request is in the avail ring behind a chain of three formerly free descriptors that spell it; or fewer than three were free and nothing changes. |
| VirtioDisk.Disk.Finish | lab3-lyjae/xv6-riscv/kernel/virtio_disk.c:283-292 | Its descriptors, and no others, are free again. |
| VirtioDisk.Disk.Take | lab3-lyjae/xv6-riscv/kernel/virtio_disk.c:271-281 | The device gets the oldest head it has not taken. |
| VirtioDisk.Disk.Complete | lab3-lyjae/xv6-riscv/kernel/virtio_disk.c:235-265 | Following the descriptors, the device moves exactly the requested block between buffer and disk, whatever the order of completion. |
| VirtioDisk.Disk.Notice | lab3-lyjae/xv6-riscv/kernel/virtio_disk.c:312-324 | One completion clears the flag of exactly the buffer that was submitted and wakes it; the status panic is unreachable. |
| VirtioDisk.Disk.Intr | lab3-lyjae/xv6-riscv/kernel/virtio_disk.c:294-327 | All completions in the used ring are noticed, each wakes its own buffer, no other is touched. |
| VirtioWait.IsCareful | lab3-lyjae/xv6-riscv/kernel/virtio_disk.c:215-327 | virtio_disk_rw and virtio_disk_intr sleep only on what is blocked and give vdisk_lock up only once they have woken whoever they unblocked. |
| VirtioWait.GoStep | lab3-lyjae/xv6-riscv/kernel/virtio_disk.c:155-327 | Every step of any interleaving of requests, interrupts and the device keeps the invariant. |
| VirtioWait.SleepersWait | lab3-lyjae/xv6-riscv/kernel/virtio_disk.c:225-286 | With vdisk_lock free, whoever sleeps on free[0] finds fewer than three free descriptors, and whoever sleeps on a buffer has it with the device or in the used ring. |
| VirtioWait.DescriptorsKept | lab3-lyjae/xv6-riscv/kernel/virtio_disk.c:155-292 | In every reachable state the free descriptors and those held by requests make up all eight. |
| VirtioWait.RwReturns | lab3-lyjae/xv6-riscv/kernel/virtio_disk.c:215-292 | virtio_disk_rw goes on until it has submitted its request with three descriptors, waits until the device has completed it and the handler has seen that, and comes back when it has freed all three. |
| VirtioWait.IntrReturns | lab3-lyjae/xv6-riscv/kernel/virtio_disk.c:294-327 | virtio_disk_intr comes back only when it has found the used ring empty. |
| VirtioWait.NoDeadlock | lab3-lyjae/xv6-riscv/kernel/virtio_disk.c:215-327 | When no call can go on, the device has a request to serve or an interrupt to raise. |
| FileBlocks.WordSet | lab3-lyjae/xv6-riscv/kernel/fs.c:408-414 | Setting one entry of an indirect block changes that entry and no other. |
| FileBlocks.GrowDirect | lab3-lyjae/xv6-riscv/kernel/fs.c:388-396 | A zeroed block in an empty slot changes no other slot and no byte of any file. |
| FileBlocks.GrowEntry | lab3-lyjae/xv6-riscv/kernel/fs.c:399-418 | The same for an entry of the indirect block. |
| FileBytes.WroteChunk | lab3-lyjae/xv6-riscv/kernel/fs.c:516-528 | Bytes put into a file's data block change those bytes of that file and no others. |
| FileBytes.WroteContents | lab3-lyjae/xv6-riscv/kernel/fs.c:516-536 | The file's contents are then the old ones with the bytes spliced in, and those of the other files as before. |
| Files.Fs.constructor | lab3-lyjae/xv6-riscv/kernel/fs.h:7-25 | A disk with its metadata blocks marked and empty files satisfies the invariant. |
| Files.Fs.Balloc | lab3-lyjae/xv6-riscv/kernel/fs.c:63-88 | The lowest free block, marked and zeroed; 0 if and only if there is none. |
| Files.Fs.Bmap | lab3-lyjae/xv6-riscv/kernel/fs.c:379-421 | The block of the slot; a missing one is added without a change to any byte of any file; 0 only when the bitmap is full. |
| Files.Fs.Itrunc | lab3-lyjae/xv6-riscv/kernel/fs.c:423-453 | The file is empty, exactly its blocks are free again, the panic on a free block is unreachable, other files keep their contents. |
| Files.Fs.Readi | lab3-lyjae/xv6-riscv/kernel/fs.c:467-496 | Exactly the bytes of the file in the range; -1 if and only if the copy of one of its blocks fails; it allocates nothing. |
| Files.Fs.Writei | lab3-lyjae/xv6-riscv/kernel/fs.c:498-539 | The contents are the old ones with the bytes written spliced in, other files are as before; it stops short exactly at the copy that fails, or when the bitmap is full; the inode block is logged last, after at most nine blocks for 3072 bytes. |
| Files.Fs.Filewrite | lab3-lyjae/xv6-riscv/kernel/file.c:148-175 | The file has the written prefix spliced in, and each chunk is an operation that log_write accepts. It returns -1 if the range does not start within the file or goes beyond the largest one or a copy fails, and otherwise only if the bitmap is full at the end; where only the length is too large it stops less than a chunk before the largest file. |
| Files.Fs.WriteThenRead | lab3-lyjae/xv6-riscv/kernel/fs.c:467-539 | readi returns what writei has written, which is all of it unless a copy fails or the bitmap is full. |
| Files.FirstWrite | lab3-lyjae/xv6-riscv/kernel/fs.c:467-539 | From a fresh disk on: what is written first can be read back, all of it unless a copy fails or the disk is full. |
| Files.OpFits | lab3-lyjae/xv6-riscv/kernel/file.c:149-167 | Each log_write of a chunk is made while fewer than MAXOPBLOCKS blocks have been logged. |
| ShellGrammar.GetToken | lab3-lyjae/xv6-riscv/user/sh.c:266-309 | A token lies where the cursor finds it and moves the cursor on. |
| ShellRoundTrip.FirstToken | lab3-lyjae/xv6-riscv/user/sh.c:266-309 | Each token is a word, >> or one other symbol, and its kind follows from its text; the rest of the tokens is behind it. |
| ShellRoundTrip.ArgsParse | lab3-lyjae/xv6-riscv/user/sh.c:429-446 | The words of a simple command and the redirections between and behind them are collected, each in its order. |
| ShellRoundTrip.LineParse | lab3-lyjae/xv6-riscv/user/sh.c:345-447 | A sentence is parsed to the command it means inside any line that goes on with the end or a closing parenthesis. |
| ShellRoundTrip.SentenceParses | lab3-lyjae/xv6-riscv/user/sh.c:328-447 | Whatever the space between them, the tokens of a sentence are parsed to the command that it means: redirections wrap the command from left to right, pipes and lists associate to the right, & takes the pipeline before it. |
| ShellSentences.LineSound | lab3-lyjae/xv6-riscv/user/sh.c:345-447 | Whatever parseline takes is a sentence, and the result is what the sentence means. |
| ShellSentences.ParsesIff | lab3-lyjae/xv6-riscv/user/sh.c:328-447 | The parser takes a line if and only if its tokens are a sentence, and panics on all others. |
| ShellSentences.SimpleIff | lab3-lyjae/xv6-riscv/user/sh.c:416-447 | A simple command, with redirections wherever they stand, is taken if and only if it has at most nine arguments, and means those words in those redirections. |
| ShellSentences.PipeChain | lab3-lyjae/xv6-riscv/user/sh.c:362-373 | a | b | c is a piped into the pipeline of b and c. |
| ShellSentences.ListChain | lab3-lyjae/xv6-riscv/user/sh.c:345-360 | a ; b ; c is a followed by the list of b and c. |
| ShellSentences.BackChain | lab3-lyjae/xv6-riscv/user/sh.c:345-360 | In a | b & ; c the whole pipeline is in the background and c is not. |
| ShellSentences.BackThenCommand | lab3-lyjae/xv6-riscv/user/sh.c:345-360 | A line in which & is followed by anything but &, ; or ) makes the parser panic. |
| ShellPrinting.SpacedTokens | lab3-lyjae/xv6-riscv/user/sh.c:266-309 | The tokens of a line with a blank before each token are those tokens. |
| ShellPrinting.SentenceRoundTrip | lab3-lyjae/xv6-riscv/user/sh.c:328-447 | Every sentence, written with a blank before each token, is parsed to what it means. |
| ShellPrinting.PrintThenParse | lab3-lyjae/xv6-riscv/user/sh.c:328-447 | Every command with at most nine arguments each has a printing, and parsing that gives it back. |
| ShellParser.Cursor.Gettoken | lab3-lyjae/xv6-riscv/user/sh.c:266-309 | The next token, skipped with the space around it. |
| ShellParser.Cursor.Peek | lab3-lyjae/xv6-riscv/user/sh.c:311-321 | Whether the next character is one of toks. |
| ShellParser.Cursor.Parseredirs | lab3-lyjae/xv6-riscv/user/sh.c:375-398 | The redirections there, in order, or a panic. |
| ShellParser.Cursor.Parseexec | lab3-lyjae/xv6-riscv/user/sh.c:416-447 | A simple command or a block as ShellGrammar.ExecOf has it, the redirections behind each word included, or a panic; it ends on every input. |
| ShellParser.Cursor.Parseblock | lab3-lyjae/xv6-riscv/user/sh.c:400-414 | The command in parentheses with its redirections, or a panic. |
| ShellParser.Cursor.Parsepipe | lab3-lyjae/xv6-riscv/user/sh.c:362-373 | The pipeline there, or a panic. |
| ShellParser.Cursor.Parseline | lab3-lyjae/xv6-riscv/user/sh.c:345-360 | The list there, or a panic. |
| ShellParser.Parsecmd | lab3-lyjae/xv6-riscv/user/sh.c:328-343 | The command of the whole line, or a panic for anything left over. |
| ShellStrings.LineOfOk | lab3-lyjae/xv6-riscv/user/sh.c:345-447 | Every argument and file name of a parsed command is a whole token, followed by no word character. |
| ShellStrings.Nulterminate | lab3-lyjae/xv6-riscv/user/sh.c:449-494 | Exactly the positions behind the tokens become NUL. |
| ShellStrings.TokensRead | lab3-lyjae/xv6-riscv/user/sh.c:449-494 | No terminator falls inside a token: each then reads as exactly what was typed. |
| ShellStrings.TerminateLine | lab3-lyjae/xv6-riscv/user/sh.c:328-343 | In place, on the input buffer. |
| Grep.Match | lab3-lyjae/xv6-riscv/user/grep.c:72-82 | 1 if and only if some substring of the text, from its front for ^ and to its end for a final $, is in the language of the pattern. |
| Grep.MatchHere | lab3-lyjae/xv6-riscv/user/grep.c:84-96 | 1 if and only if some prefix of the text is in the language; the recursion ends. |
| Grep.MatchStar | lab3-lyjae/xv6-riscv/user/grep.c:98-106 | The same for c* and the rest of the pattern. |
| Grep.PrefixUncons | lab3-lyjae/xv6-riscv/user/grep.c:84-106 | The language of a pattern is that of its first atom followed by that of the rest. |
| GrepLines.Grep | lab3-lyjae/xv6-riscv/user/grep.c:11-35 | For reads of any sizes, the output is the matching complete lines up to the first one that does not fit the buffer or holds a NUL. |
| GrepLines.PrintLines | lab3-lyjae/xv6-riscv/user/grep.c:21-29 | The same for the lines in the buffer. |
| GrepLines.PrintsIff | lab3-lyjae/xv6-riscv/user/grep.c:11-35 | Every matching line that ends in a newline is printed, whatever the pattern, if and only if each line of the input is shorter than 1023 characters and has no NUL. |
| GrepLines.PrintsAllIff | lab3-lyjae/xv6-riscv/user/grep.c:11-35 | Every matching line, the last one included, is printed, whatever the pattern, if and only if besides the input is empty or ends in a newline. |
| GrepLines.LongLineLost | lab3-lyjae/xv6-riscv/user/grep.c:18-29 | A matching line of 1023 characters is not printed. |
| GrepLines.NulLost | lab3-lyjae/xv6-riscv/user/grep.c:18-29 | Nor is a matching line with a NUL. |
| GrepLines.LastLineLost | lab3-lyjae/xv6-riscv/user/grep.c:18-34 | Nor is a matching last line without a newline. |
| WordCount.WordsAreStarts | lab8-lyjae/wc_mt.c:21-39 | The count is the number of positions at which a word starts. |
| WordCount.CountWords | lab8-lyjae/wc_mt.c:21-39 | The words of the range, counted on its own. |
| WordCount.CutIff | lab8-lyjae/wc_mt.c:88-108 | Counting in two parts is right if and only if no word crosses the cut. |
| WordCount.SplitRanges | lab8-lyjae/wc_mt.c:88-108 | For every buffer and thread count the ranges are ordered, contiguous, cover the buffer, and none but the first starts at a word character. |
| WordCount.SumIsWords | lab8-lyjae/wc_mt.c:110-114 | The sum over such ranges is the sequential count. |
| WordCount.CountInThreads | lab8-lyjae/wc_mt.c:88-114 | The total is the sequential count. |
| WordCount.CountWordsInChunk | lab8-lyjae/wc_mt_overlap.c:32-50 | The words of the chunk without the rest of a word begun before. |
| WordCount.SkipLeading | lab8-lyjae/wc_mt_overlap.c:32-50 | Skipping that rest puts right what counting apart gets wrong. |
| Pipeline.PipelineStep | lab8-lyjae/wc_mt_overlap.c:52-120 | Every step of any interleaving keeps the invariant. |
| Pipeline.TotalIsWords | lab8-lyjae/wc_mt_overlap.c:52-120 | When all threads are gone the total is the word count of the file, for any consumers and interleaving, and no read has overrun its buffer. |
| Pipeline.ChunksInOrder | lab8-lyjae/wc_mt_overlap.c:52-120 | Each chunk is taken once, in order, and none is marked as starting inside a word. |
| Pipeline.NoDeadlock | lab8-lyjae/wc_mt_overlap.c:52-120 | On a file whose chunks fit, unless all threads are gone, one that is not waiting can go on. |
| Pipeline.RunsEnd | lab8-lyjae/wc_mt_overlap.c:52-120 | Every run ends, within a bound that the file size, the consumers and the spurious wakeups give. |
| Pipeline.ReadFitsIff | lab8-lyjae/wc_mt_overlap.c:60-73 | A chunk fits its buffer of CHUNK_SIZE + 256 bytes if and only if no word covers the last byte of the fread and the 256 spare bytes and goes on. |
| Pipeline.FitsIff | lab8-lyjae/wc_mt_overlap.c:59-77 | In every run every read stays inside its buffer if and only if that holds at each chunk boundary of the file. |
| Pipeline.OverrunReached | lab8-lyjae/wc_mt_overlap.c:59-77 | On any other file some run comes to a read that does not. |
| Pipeline.LongWordOverruns | lab8-lyjae/wc_mt_overlap.c:60-73 | A file of one word of 65793 characters is such a file. |
| Pipeline.CountChunk | lab8-lyjae/wc_mt_overlap.c:113-116 | What a consumer adds is what its chunk counts for. |

## Left out

- Spinlocks are atomic primitives, without a memory-order model; interrupts, context switches and the scheduler's choice are the arbitrary interleaving of steps.
- mkfs: a disk is assumed to be well formed at boot, with an empty or replayable log of at least LOGSIZE data blocks and metadata marked as used in the bitmap.
- Block contents are sequences of words in the log and of bytes in the file layer; there is one device.
- The buffers' sleep locks: `BufferCache` runs each function of bio.c alone, and `LogRuns` lets one operation at a time hold a block; `SleepLock` has the lock itself.
- NBUF equals LOGSIZE, so bget may run out of buffers: `BufferCache.Cache.Bget` returns None there and `LogRuns`, whose cache is a map, does not panic for it.
- LogRuns.InvStep: an operation does its own reads and writes of whole blocks; what the file system computes between them is any value.
- Umalloc.Heap.Malloc: requests of 2^27 units or more are excluded, because sbrk's int cannot express them; `base` lies below the heap.
- Umalloc.Heap.Search: the same bound.
- Umalloc.Heap.Morecore: the same bound.
- Vm.Memory.Kalloc: the free list is a sequence of page numbers, not a chain of pointers through the free pages, and the junk fill is left out.
- The kernel's own page table, uvmfirst and 64-bit wrap-around of user addresses near 2^64.
- Vm.Memory.Kfree: its panics on an address that is unaligned or outside physical memory; pages are numbers in the range.
- Processes.Machine.Fork: the saved registers, open files and the scheduling of the child; allocproc's search for a free slot is a parameter.
- Exec.Exec: namei, the log operation and the inode around it are left out; the program headers and the bytes of the file are parameters.
- Exec.Loadseg: the program file is a sequence of bytes that does not change during exec, and a read of it fails only at its end.
- UserCopy.Copyout: like the code it ignores that a page may be read-only for the kernel; TLBs are left out.
- SleepWakeup.InvStep: a process waits for at most one lock and its p->lock; p->lock sections that change no state are part of the neighbouring step.
- Pipe.IsCareful: without kill, as the other members of `Pipe`.
- Pipe.SleepersWait: without kill.
- Pipe.NoDeadlock: without kill.
- Pipe.ReadReturns: without kill.
- Pipe.WriteReturns: without kill.
- Pipe.PipeInvStep: without kill, because a killed writer returns without waking readers after it has stored bytes; user buffers are valid, because piperead takes a byte before copyout can fail.
- ExitWait.WaitInvStep: the resources of a process (files, memory, pid, exit status) and the scheduler are left out; slots are reused without a limit, allocation picks any free slot.
- VirtioDisk.Disk.Start: the caller holds the sleep lock of the buffer, and the device has each sector it is asked for; memory barriers and the interrupt acknowledgement are left out, and the steps between two sleeps are one method; the sleeps themselves are in `VirtioWait`.
- VirtioDisk.Disk.Complete: the device serves every submitted head once, in any order, with success.
- Files.Fs.Readi: a sum of offset and length that wraps is an empty read, as in the code; the file layer runs without concurrency, under the inode's lock.
- Files.Fs.Writei: a copy that fails changes nothing. The real either_copyin may have changed part of an unlogged buffer by then.
- Directories, path lookup, link counts, inode allocation and reference counts, and the system calls above them.
- ShellParser.Parsecmd: a panic is the result None; memory for the commands never runs out, and running the commands is left out.
- GrepLines.Grep: read errors; input is a sequence that read hands out in pieces of any size.
- WordCount.CountInThreads: the threads share nothing but the buffer they read, so they are joined in order; counters are unbounded.
- Pipeline.PipelineStep: a section of the mutex is one step; counters are unbounded, malloc and fopen succeed.
- console.c and the queue of webserver-mt.c: the ring patterns of pipe.c and wc_mt_overlap.c again, with easier claims.
- printf, string routines, the added system calls and the labs about terminals, curses, signals and sockets: they would only add easy members.
