# Verification of the memory-leak monitor

This project models ebpf-memleak in Dafny and proves when its reports are true.

The monitor has two halves. In the kernel, small programs attached to allocation
functions keep four bounded maps: `sizes` (a pending size per process), `memptrs`
(a pending result pointer per process), `allocs` (one entry per live address) and
`combined_allocs` (one 64-bit word per stack: 40 bits of bytes under 24 bits of count,
changed by one atomic add or subtract). In user space a reader decodes these words,
keeps the N largest stacks in a min-heap, and groups the entries of `allocs` under them.

`combined_allocs` is an index over `allocs` that is maintained step by step and never
recomputed. The central question is when it agrees with the plain sum over `allocs`,
although bit fields carry, full maps refuse inserts, entries are overwritten without
being subtracted, and programs overlap on many CPUs.

## Layout

| file | content |
|---|---|
| `Words.dfy`, `BpfMaps.dfy`, `Sums.dfy` | machine integers and the packed word, the contract of the kernel maps, sums over maps |
| `Accounting.dfy` | what each operation and each handler does to the maps, as functions on values |
| `Effects.dfy` | the same, entry by entry with the filters and numbers written out, for operations, handlers and map operations |
| `Tracer.dfy` | the programs as methods of a class over the four maps, proved to compute those functions |
| `Interleaving.dfy` | one program counter per CPU, one map operation per step |
| `Conservation.dfy` | what the words hold in any interleaving at all, and exactly which steps spoil them |
| `Exclusion.dfy` | programs that never share an address never take such a step |
| `Simulation.dfy` | sequential handlers are one of the interleavings |
| `Totals.dfy`, `Ledgers.dfy` | the index where nothing is pending, saturation, losses, carries, balanced runs |
| `Races.dfy` | no increment is lost; runs that do spoil the index |
| `Handover.dfy`, `Claims.dfy` | which exit goes on with the size of which enter when programs overlap, and when none is recorded twice |
| `Filters.dfy`, `Pairing.dfy`, `KernelRuns.dfy`, `TracedHeap.dfy` | filters, enter/exit pairing, kernel runs, the heap of the traced process |
| `Workaround.dfy` | the slab handlers on many CPUs, with the missing-free workaround |
| `Info.dfy` | the byte decoder |
| `HeapOrder.dfy`, `MinHeap.dfy`, `Selection.dfy`, `Report.dfy` | the array min-heap, the selection, drain and grouping loops |
| `EndToEnd.dfy` | the report against `allocs` |

A "loss" is an allocation that was added to the statistics without an entry in `allocs`:
its entry was overwritten by a later one, or refused because `allocs` was full. The
ledger of losses is specification only; the programs do not keep it.

Assumptions about the kernel maps, stated in `BpfMaps.UpdateElem` and `DeleteElem`: a
present key can always be updated (unless `BPF_NOEXIST` forbids it), a new key fails
exactly when the map is at `max_entries`, deleting an absent key changes nothing. Clock
values, stack ids, call results and the outcome of reading user memory are arbitrary
inputs; a stack id is any signed 32-bit value. A thread group id is non-negative, so its
signed and unsigned readings agree. `gen_free_enter` and `posix_memalign_exit` read
their entry after deleting it (bpf/memleak.bpf.c:167-168, 262-264); the model uses the
value seen at the lookup. What `bpf_probe_read_user` finds is a map from the readable
addresses to their contents.

## Findings

- Two map operations, and no others, can spoil the index: a delete that does not remove
  an entry counting like the one its lookup saw, and a subtraction that looks for a stack
  neither tracked nor refused for good. A run without such steps is called clean. Every
  state of a run is balanced if and only if the run is clean so far; in any run at all a
  word is off by exactly the sum of these slips.
- Programs that never work on the same address at once take no such step. Without that
  they can: two racing frees subtract twice, and a free between the two updates of an exit
  leaves a word that counts nothing. Not every overlap is harmful.
- After a clean run, where nothing is pending, the reported bytes and number of a stack
  are both exact if and only if less than 2^40 bytes are outstanding there and the words of
  its losses add up to nothing modulo 2^64. With fewer than 2^23 losses at the stack, this
  means no loss there. The bytes alone are exact if and only if less than 2^40 are
  outstanding and the bytes lost are a multiple of 2^40. Losses at other stacks do not
  matter.
- An overwritten or refused entry is counted for good: a second allocation of 8 bytes at
  an address whose free was missed shows 16 bytes. With the missing-free workaround
  nothing is ever overwritten, not even when handlers of different addresses overlap.
- A stack that a full index refused is never tracked later.
- The maps follow the heap of the traced process if and only if no realloc of a live
  block to a non-zero size fails: the probe drops the block before the call is made.
- No enter is ever claimed by two exits if and only if no lookup finds an enter that an
  exit in flight has already read; then each enter is recorded at most once. Once two
  exits whose calls succeeded have read one enter, they record it twice by going on. No lookup is of this
  kind when no two programs of one process store, look up or delete a size at once.
- The pointer of posix_memalign excludes nobody either: two overlapping exits of a process
  that have looked it up both record their addresses.
- An enter can also be dropped: one that is stored after an exit of its process has read
  an older size, and before that exit deletes it.
- Sizes are keyed by the process, so its threads share them, even in a sequential run: of
  two overlapping calls the first to return is recorded with the size of the second.
- The documentation says that sampling takes every Nth allocation (README.md:120). The
  code takes an allocation when the clock is a multiple of the rate
  (bpf/memleak.bpf.c:102-106). The model follows the code; see `Filters.SampledOut` and
  `Filters.SampledIn`.

## Model

| member | source | states |
|---|---|---|
| `Words.TruncateStackKey` | bpf/memleak.bpf.c:138-142 | sign-extending a 32-bit stack id to the 64-bit key and truncating the key again gives the id as the reader sees it |
| `Words.StackIdentity` | internal/probe/probe.go:504-506 | a key and an allocation's id name the same stack exactly when the truncated key equals the id read as unsigned |
| `Words.StackKeysDistinct` | internal/probe/probe.go:476 | truncating keys never merges two stacks |
| `Effects.EnterEffect` | bpf/memleak.bpf.c:97-113 | for every configuration a size is stored exactly when it is within both limits, the rate is at most 1 or divides the time, no target or this one is set, and the process is in the map or there are fewer than 10240; nothing else changes |
| `Effects.ExitEffect` | bpf/memleak.bpf.c:121-143 | without a pending size nothing changes; otherwise it is taken, and with an address the size, the time and the stack are stored there unless the address is new and a million are, and the weight is added to the word of the sign-extended stack unless that is new and 10240 are |
| `Effects.FreeEffect` | bpf/memleak.bpf.c:159-168 | an untracked address changes nothing; otherwise the entry goes, and its weight is subtracted from the word of its stack if that is tracked |
| `Effects.PointerEffect` | bpf/memleak.bpf.c:246-248 | the pointer given is stored for the process when this is in the map or there are fewer than 10240, whatever the configuration |
| `Effects.MemalignExitEffect` | bpf/memleak.bpf.c:260-271 | the pointer is taken, and the exit is at what user memory holds there, if that can be read |
| `Effects.AllocsEdge` | bpf/memleak.h:4 | a new address is recorded at 999,999 entries, and refused and counted as lost at 1,000,000 |
| `Effects.WordsEdge` | bpf/memleak.h:5 | a new stack is tracked at 10,239 stacks and refused at 10,240 |
| `Effects.ProcessEdge` | bpf/memleak.bpf.c:20-50 | a new process gets a pending size, and a pending pointer, at 10,239 and neither at 10,240 |
| `Effects.HandlerEffect` | bpf/memleak.bpf.c:179-545 | under every configuration, which operations each handler performs with which arguments |
| `Effects.AllocationEffect` | bpf/memleak.bpf.c:97-143 | under every configuration, an enter and its exit with nothing pending record the size exactly when it passes the filters, the call succeeds and there is room; nothing is left pending |
| `Effects.NextEffect` | bpf/memleak.bpf.c:61-272 | every map operation, whatever other CPUs did in between: what it does to each map and to the losses, and where its program goes on; a deleted pointer does not stop an exit that has looked it up |
| `Effects.FirstEffect` | bpf/memleak.bpf.c:97-272 | where each operation starts; an enter that the filters reject does not start |
| `BpfMaps.UpdateElem` | bpf/maps.bpf.h:19-21 | the map contract: success stores the pair, EEXIST and E2BIG leave the map alone and occur exactly when the key is present under BPF_NOEXIST, or new and the map full |
| `Tracer.Memleak.LookupOrTryInit` | bpf/maps.bpf.h:9-24 | returns a value exactly when the key was present or there was room; keeps every existing word; a new word is 0 |
| `Tracer.Memleak.UpdateStatisticsAdd` | bpf/memleak.bpf.c:61-75 | computes `AddStat`, the function that conservation is proved about |
| `Tracer.Memleak.UpdateStatisticsDel` | bpf/memleak.bpf.c:77-95 | computes `SubStat`, the function that conservation is proved about |
| `Tracer.Memleak.GenAllocEnter` | bpf/memleak.bpf.c:97-119 | the whole new state after an enter, filters and full map included |
| `Tracer.Memleak.GenAllocExit2` | bpf/memleak.bpf.c:121-152 | the whole new state after an exit, including what is lost by overwriting or by a full map |
| `Tracer.Memleak.GenFreeEnter` | bpf/memleak.bpf.c:159-177 | the whole new state after a free of a tracked or untracked address |
| `Tracer.Memleak.AllocEnter` | bpf/memleak.bpf.c:179-183 | the enter of malloc and its relatives is one enter with the size |
| `Tracer.Memleak.AllocExit` | bpf/memleak.bpf.c:185-190 | the return probe is one exit at the result |
| `Tracer.Memleak.FreeEnter` | bpf/memleak.bpf.c:192-196 | the free probe is one free of the address |
| `Tracer.Memleak.CallocEnter` | bpf/memleak.bpf.c:199-203 | an enter with the product of the arguments, wrapped to 64 bits |
| `Tracer.Memleak.ReallocEnter` | bpf/memleak.bpf.c:211-217 | a free of the old pointer followed by an enter with the new size |
| `Tracer.Memleak.PosixMemalignEnter` | bpf/memleak.bpf.c:243-251 | stores the result pointer, then enters |
| `Tracer.Memleak.PosixMemalignExit` | bpf/memleak.bpf.c:253-272 | takes the result pointer and exits with the address found in user memory, or stops when it cannot be read |
| `Tracer.Memleak.SlabAlloc` | bpf/memleak.bpf.c:375-400 | optional free, enter and exit of kmalloc and its relatives as one sequence of operations |
| `Tracer.Memleak.PageAlloc` | bpf/memleak.bpf.c:519-525 | enter with the page size shifted by the order, exit at the page frame |
| `Tracer.Memleak.PercpuAlloc` | bpf/memleak.bpf.c:533-539 | enter and exit of a per-CPU allocation |
| `Conservation.NextRecorded` | bpf/memleak.bpf.c:121-177 | at every map operation, what is recorded for a stack changes by what the program comes to owe its word, up to the slip of that operation |
| `Conservation.NextSettles` | bpf/memleak.bpf.c:61-95 | at every map operation a tracked word changes by exactly the debt that is settled, and an addition is dropped only when the index is full |
| `Conservation.StepExact` | bpf/memleak.bpf.c:61-177 | from a balanced state a map operation keeps every stack balanced if and only if it passes the guard: a delete removes an entry counting like the one its lookup saw (bpf/memleak.bpf.c:163-167), a subtraction looks for a tracked or for-good refused stack (bpf/memleak.bpf.c:81-87) |
| `Conservation.RunExact` | bpf/memleak.bpf.c:61-177 | with no exclusion assumed, every state of a run is balanced if and only if every step passes the guard |
| `Conservation.DriftLaw` | bpf/memleak.bpf.c:61-177 | over any interleaving a word strays from what its stack is owed by exactly the slips of the run |
| `Conservation.ConservedExactly` | bpf/memleak.bpf.c:61-177 | in every reachable state of any interleaving a tracked word is live plus lost, less pending additions, plus pending subtractions, plus the drift; it is conserved if and only if the drift is a multiple of 2^64 |
| `Exclusion.FoundIsKnown` | bpf/memleak.bpf.c:163-168 | what a free finds belongs to a tracked or for-good refused stack, because nobody else in flight works on the address |
| `Exclusion.AdvanceInv` | bpf/memleak.bpf.c:61-177 | every map operation of every CPU keeps the invariant of exclusive runs |
| `Exclusion.ExclusiveIsClean` | bpf/memleak.bpf.c:61-177 | every step of an exclusive run passes the guard |
| `Exclusion.ExclusiveConserves` | bpf/memleak.bpf.c:61-177 | in every reachable state of an exclusive run each tracked word is live plus lost, less pending additions, plus pending subtractions, modulo 2^64 |
| `Exclusion.HarmlessOverlap` | bpf/memleak.bpf.c:163-165 | exclusion is not necessary: two overlapping frees of an untracked address pass the guard |
| `Simulation.SoloFinishes` | bpf/memleak.bpf.c:97-177 | a program that runs undisturbed comes to its end |
| `Simulation.FinishIsStep` | bpf/memleak.bpf.c:97-177 | its map operations one by one have the effect of the sequential operation |
| `Simulation.RunIsInterleaving` | bpf/memleak.bpf.c:97-177 | every sequential run is an exclusive interleaving |
| `Accounting.RunHandlersIsRun` | bpf/memleak.bpf.c:179-545 | a run of whole handlers is the run of their operations in order |
| `Ledgers.SettledStack` | bpf/memleak.bpf.c:61-177 | a balanced stack with nothing pending has the sum of its live and lost entries as its word, and with an entry is tracked or refused for good, whatever else is in flight |
| `Ledgers.AtRest` | bpf/memleak.bpf.c:61-177 | with nothing in flight every tracked word is the sum of live and lost entries, and any entry of an untracked stack means the index is full |
| `Ledgers.ConcurrentLedger` | bpf/memleak.bpf.c:61-177 | so it is for every clean interleaving that has come to rest |
| `Ledgers.SequentialLedger` | bpf/memleak.bpf.c:61-177 | so it is after every sequential run of handlers, whatever frees are missed, entries overwritten or maps full |
| `Ledgers.InterleaveExtends` | bpf/memleak.bpf.c:134-143 | in any interleaving losses are never forgotten, keys never disappear, a full index admits no key |
| `Ledgers.RunExtends` | bpf/memleak.bpf.c:134-143 | the same over sequential runs |
| `Ledgers.RefusedForGood` | bpf/memleak.bpf.c:65-87 | after any clean interleaving, a stack with an uncounted entry that nobody is about to count is never tracked later, whatever follows, so its entries are never subtracted |
| `Ledgers.RefusedInSequence` | bpf/memleak.bpf.c:65-87 | the same over sequential runs |
| `Ledgers.FreshStackIsClean` | bpf/maps.bpf.h:15-23 | when a step of an interleaving makes a stack tracked, all that is recorded of it is what the programs in flight are still to add, less what they are still to subtract |
| `Ledgers.FreshInSequence` | bpf/maps.bpf.h:15-23 | in a sequential run a stack that becomes tracked had nothing outstanding and nothing lost |
| `Ledgers.LossOverCounts` | bpf/memleak.bpf.c:134-143 | while neither field overflows, the decoded fields are the live amounts plus the lost ones, hence never below the live ones |
| `Ledgers.WordNeverWraps` | bpf/memleak.h:4-20 | with nothing lost at the stack the word is the exact sum, below 2^61, and at most ALLOCS_MAX_ENTRIES are counted |
| `Ledgers.FieldsExact` | bpf/memleak.h:14-20 | the decoder shows the recorded bytes modulo 2^40, and the recorded count with their carry modulo 2^24; both are what was recorded, live and lost, if and only if neither field overflows |
| `Ledgers.TotalExact` | internal/info/info.go:50-66 | the decoded total is the outstanding bytes if and only if these are below 2^40 and the bytes lost at the stack are a multiple of 2^40 |
| `Ledgers.BothExact` | internal/info/info.go:50-66 | both decoded fields are what is outstanding if and only if this is less than 2^40 bytes and the words lost at the stack add up to 0 modulo 2^64 |
| `Ledgers.ExactUnlessLost` | bpf/memleak.bpf.c:140-142 | with fewer than 2^23 losses at the stack, both fields are exact if and only if less than 2^40 bytes are outstanding and nothing was lost there |
| `Ledgers.LiveWasRecorded` | bpf/memleak.bpf.c:134-167 | a live entry was recorded by some operation and its address not freed since |
| `Ledgers.BalancedRunEndsAtZero` | bpf/memleak.bpf.c:69-94 | if every recorded address is freed later, `allocs` is empty and every word is the sum of its losses: exactly 0 for a stack that lost nothing |
| `Ledgers.EmptyAtRest` | bpf/memleak.bpf.c:69-94 | when a clean interleaving comes to rest with `allocs` empty, every word is the sum of its losses: exactly 0 for a stack that lost nothing |
| `Races.NoIncrementLost` | bpf/maps.bpf.h:15-23 | over any interleaving from any sound state, unless its stack is refused, a word changes by what was on its way to it plus what came in, less what is still on its way |
| `Races.CreationRace` | bpf/maps.bpf.h:15-23 | however many CPUs start counting for one untracked stack, amid any other traffic that leaves room for its key, the final word is the sum of their increments |
| `Races.RacingFreesSubtractTwice` | bpf/memleak.bpf.c:163-168 | two frees of one address that both look it up first delete one entry and subtract twice: the whole state they leave |
| `Races.RaceBreaksConservation` | bpf/memleak.bpf.c:163-168 | so for every entry of a tracked, exactly indexed stack this run is not conserved |
| `Races.RaceFromStart` | bpf/memleak.bpf.c:163-168 | such a run from empty maps, for every accepted size |
| `Races.EarlyFreeLeavesGhost` | bpf/memleak.bpf.c:140-142 | a free between the two updates of an exit leaves a word for an entry that is gone: the whole state it leaves |
| `Races.GhostFromStart` | bpf/memleak.bpf.c:140-142 | such a run from empty maps, for every accepted size, which is not conserved |
| `Handover.RecordStemsFromEnter` | bpf/memleak.bpf.c:126-140 | in any interleaving what is about to be recorded is the size of a stored enter of the same process |
| `Claims.ClaimExact` | bpf/memleak.bpf.c:126-132 | with no enter claimed twice (read by an exit in flight, or taken), a map operation keeps it so if and only if it is not a lookup of an enter that an exit in flight has already read |
| `Claims.ClaimRunExact` | bpf/memleak.bpf.c:126-132 | throughout a run no enter is claimed twice if and only if no step is such a lookup |
| `Claims.EnterRecordedOnce` | bpf/memleak.bpf.c:126-140 | in a run without such a lookup each stored enter is taken and recorded at most once |
| `Claims.TwoReadersRecordTwice` | bpf/memleak.bpf.c:126-140 | once two exits with an address have read one enter, the next two steps of each record it twice |
| `Claims.OneProgramAtATime` | bpf/memleak.bpf.c:113-132 | when no two programs of a process store, look up or delete a size at once, there is no such lookup, every enter whose size is deleted has been taken, and an exit about to delete finds exactly the size it read |
| `Claims.OneEnterTwoExits` | bpf/memleak.bpf.c:126-132 | from empty maps, two exits of one process on two CPUs can both record the one enter |
| `Claims.OnePointerTwoExits` | bpf/memleak.bpf.c:253-272 | from empty maps, two overlapping posix_memalign exits of one process both record their addresses, although the second finds the pointer already deleted |
| `Claims.EnterDropped` | bpf/memleak.bpf.c:126-132 | from empty maps, an enter stored between the lookup and the delete of an exit is never recorded and leaves nothing pending |
| `Filters.FiltersHold` | bpf/memleak.bpf.c:99-142 | in every interleaving pending and recorded sizes are within the limits, address 0 is never tracked, and with a target pid only that process ever stores or records |
| `Filters.SequentialFiltersHold` | bpf/memleak.bpf.c:99-142 | the same for the maps of every sequential run |
| `Filters.SampledOut` | bpf/memleak.bpf.c:102-106 | a run whose enters all miss the sampling times records nothing |
| `Filters.SampledIn` | bpf/memleak.bpf.c:99-140 | in any interleaving every size that is pending, recorded or lost is that of an enter that passed the filters, so of one whose time is a multiple of the rate; a pending one is of the same process |
| `Pairing.PendingSize` | bpf/memleak.bpf.c:97-132 | over whole traces, a size is pending exactly when some stored enter of the process has had no later stored enter and no exit, and it is the size of that enter |
| `Pairing.ConsumedOnce` | bpf/memleak.bpf.c:126-132 | of two exits of a process the second finds a size pending only if an enter was stored strictly between them, and it is that enter's size, which it takes away |
| `Pairing.ExitTakesItsEnter` | bpf/memleak.bpf.c:121-143 | an exit records the size of the enter it consumes, at its own address; without one it changes nothing |
| `Pairing.PendingPointer` | bpf/memleak.bpf.c:243-262 | over whole traces, a posix_memalign exit finds a pointer exactly when the process has stored one and not yet taken it, and it is the last one stored |
| `Pairing.MemalignTakesItsEnter` | bpf/memleak.bpf.c:253-272 | such an exit records the size of the enter it consumes at what user memory holds at that pointer; if that cannot be read it only takes the pointer, and without a pointer it changes nothing |
| `Pairing.TakesOwnEnter` | bpf/memleak.bpf.c:111-132 | an exit takes the enter of its own call if and only if nothing of the process has stored or taken a size in between, and otherwise a later enter or none |
| `Pairing.OverlappingCalls` | bpf/memleak.bpf.c:111-132 | of two overlapping calls of a process the first to return is recorded with the size of the second, which is not recorded |
| `Pairing.LeavesAreRecorded` | bpf/memleak.bpf.c:97-143 | in a well-nested call tree exactly the innermost calls are recorded, each with its own size |
| `Pairing.MemalignRecords` | bpf/memleak.bpf.c:243-272 | a posix_memalign call records its size at what user memory holds at its own pointer; if that cannot be read, the size stays pending |
| `KernelRuns.EnterExitPair` | bpf/memleak.bpf.c:97-143 | with nothing pending, a rejected size records nothing and an accepted one is taken by its own exit |
| `KernelRuns.NoResidue` | bpf/memleak.bpf.c:394-399 | no size is pending at any boundary of a run of kernel programs |
| `KernelRuns.RecordsItsOwn` | bpf/memleak.bpf.c:519-539 | after any kernel run the next program records its own size at its own address, or nothing when filtered out |
| `KernelRuns.WorkaroundNeverOverwrites` | bpf/memleak.bpf.c:466-471 | with the workaround no entry is ever overwritten, whichever frees were missed |
| `KernelRuns.WorkaroundIsExact` | bpf/memleak.bpf.c:394-399 | as long as `allocs` never fills, every tracked word is the exact sum of its live entries |
| `KernelRuns.MissedFreeIsLost` | bpf/memleak.bpf.c:394-399 | without the workaround every accepted allocation at a still tracked address loses the old entry |
| `KernelRuns.MissedFreeShowsTwice` | bpf/memleak.bpf.c:394-399 | two allocations of 8 bytes at one address, the free between them missed, show 16 bytes while 8 are outstanding |
| `Workaround.TurnsInterleave` | bpf/memleak.bpf.c:394-399 | slab handlers on many CPUs, one call after another on each, are one of the interleavings |
| `Workaround.ApartIsExclusive` | bpf/memleak.bpf.c:394-399 | if no two handlers at work share an address, no two of their programs do |
| `Workaround.OverlapNeverOverwrites` | bpf/memleak.bpf.c:394-399 | with the workaround, handlers of different addresses never overwrite an entry however they overlap, whichever frees were missed |
| `Workaround.OverlapIsExact` | bpf/memleak.bpf.c:466-471 | and as long as `allocs` has room nothing is lost, and every tracked word with nothing pending is the exact sum of its live entries |
| `TracedHeap.CallRefines` | bpf/memleak.bpf.c:179-223 | from agreement of maps and heap, a call keeps it if and only if it is not a failed realloc of a live block |
| `TracedHeap.HeapIsTraced` | bpf/memleak.bpf.c:97-223 | over whole runs of malloc, calloc, realloc and free, `allocs` holds exactly the outstanding addresses with their requested sizes at every boundary, if and only if no such realloc occurs |
| `TracedHeap.HeapIsGrouped` | internal/probe/probe.go:236-304 | and `combined_allocs` is that heap grouped by stack, exact while a stack has less than 2^40 bytes |
| `TracedHeap.FailedReallocExample` | bpf/memleak.bpf.c:211-217 | a concrete run in which the failed realloc breaks the agreement |
| `TracedHeap.CarryExample` | bpf/memleak.h:14-20 | two blocks that reach 2^40 bytes together are decoded as three blocks of no bytes |
| `Info.DecodeSplits` | internal/info/info.go:50-66 | the shifts and ors split any eight bytes exactly at bit 40 |
| `Info.DecodeWord` | internal/info/info.go:50-66 | decoding the bytes of a word gives its two bit fields |
| `Info.DecodePack` | bpf/memleak.h:14-20 | packing two fields and decoding the bytes gives the fields back, truncated to their widths |
| `Info.ToFromBytes` | internal/info/info.go:22-24 | bytes to word to bytes is the identity |
| `HeapOrder.UpStep` | internal/probe/probe.go:36-37 | a swap with the parent moves the only violation of the order one level up |
| `HeapOrder.DownStep` | internal/probe/probe.go:36-37 | a swap with the smaller child moves the only violation one level down |
| `HeapOrder.RootIsLeast` | internal/probe/probe.go:484 | the root of a heap is a minimum |
| `MinHeaps.MinHeap.Swap` | internal/probe/probe.go:37 | exchanges two elements and nothing else |
| `MinHeaps.MinHeap.Append` | internal/probe/probe.go:39-41 | appends, moving to a larger array when full |
| `MinHeaps.MinHeap.RemoveLast` | internal/probe/probe.go:43-49 | cuts off and returns the last element |
| `MinHeaps.MinHeap.Up` | internal/probe/probe.go:483 | restores the heap order above one element and keeps the multiset |
| `MinHeaps.MinHeap.Down` | internal/probe/probe.go:485 | restores the order below one element, keeps the multiset and everything from `n` on |
| `MinHeaps.MinHeap.Init` | internal/probe/probe.go:472 | makes any slice a heap of the same multiset |
| `MinHeaps.MinHeap.Push` | internal/probe/probe.go:483 | keeps the heap order and adds exactly the element |
| `MinHeaps.MinHeap.Pop` | internal/probe/probe.go:485 | removes and returns a minimum, keeps the heap order |
| `Selection.TotalsAreDetermined` | internal/probe/probe.go:475-499 | any two descending selections of the same entries list the same totals |
| `Report.Offer` | internal/probe/probe.go:482-487 | one entry more keeps the heap a selection of the N largest, and displaces no entry that it does not exceed |
| `Report.SelectTop` | internal/probe/probe.go:470-489 | the heap holds a selection of the N largest decoded entries with positive total |
| `Report.Drain` | internal/probe/probe.go:494-499 | the drained array is the same multiset in descending order, with an empty group for each of its stacks and no other |
| `Report.Group` | internal/probe/probe.go:501-508 | each group is the records of its stack in iteration order; no group is added |
| `Report.Read` | internal/probe/probe.go:470-508 | one whole round of the reader |
| `EndToEnd.RecordAt` | internal/info/info.go:33-40 | a group lists the entries of its stack in iteration order, each with its own address, size, time and stack |
| `EndToEnd.GroupsPartition` | internal/probe/probe.go:494-508 | the groups are those of the selected stacks, and each holds every entry of `allocs` of its stack once and nothing else, with its address, size, time and stack |
| `EndToEnd.GroupBytes` | internal/probe/probe.go:501-508 | the sizes listed in a group add up to the outstanding bytes of its stack |
| `EndToEnd.RowsAreExact` | internal/probe/probe.go:475-508 | in any snapshot, a row whose word is settled shows its stack's outstanding bytes if and only if these are below 2^40 and the bytes lost there are a multiple of 2^40; it equals the sum and the number of the sizes listed in its group if and only if, further, the words lost there add up to 0 modulo 2^64 |
| `EndToEnd.RowsAreDistinct` | internal/probe/probe.go:475-499 | in any snapshot no stack is reported twice |
| `EndToEnd.MostShownAreReported` | internal/probe/probe.go:475-499 | in any snapshot no unreported tracked stack shows more than a reported one, and rows are left empty only when nothing else shows anything |
| `EndToEnd.WorstAreReported` | internal/probe/probe.go:475-499 | of two stacks that show what is outstanding there, an unreported one never has more outstanding than a reported one |
| `EndToEnd.BalancedRunReportsLosses` | internal/probe/probe.go:481 | after a run in which everything recorded was freed, only stacks with losses are reported, so none if nothing was lost |
| `EndToEnd.RestReportsLosses` | internal/probe/probe.go:481 | the same after a clean interleaving that has come to rest with `allocs` empty |
| `EndToEnd.OrderDoesNotMatter` | internal/probe/probe.go:470-499 | two iteration orders of the same maps give the same list of totals |
| `EndToEnd.ReportIsTrue` | internal/probe/probe.go:470-508 | for any clean interleaving, even with programs in flight, a row whose stack has nothing pending is the sum and the number of the sizes in its group, which is what `allocs` holds, if and only if this is less than 2^40 bytes and the words lost at the stack add up to 0 modulo 2^64 |

## Left out

- Loading, attaching, limits, signals, process liveness, sleeping and printing: input and output around the modelled code.
- The generated bindings and the big-endian layout: the reader decodes a little-endian word.
- `UnmarshalBinaryAllocInfo`: a library read of a fixed layout, which the reading loop does not call.
- The symbolizers, stack capture and the choice of tracepoint layout (`has_*`): they produce inputs of the model.
- The kernel's map internals: freelists, reuse of a deleted element while a pointer to it is held, and iteration under concurrent change. The reader's theorems are about a snapshot.
- A program that interrupts another on the same CPU: it is covered as a program on a CPU of its own.
- In the interleaved model a handler made of several gen_* calls is several programs in a row on one CPU, which may overlap more freely than the handler does; only the slab handlers are also kept whole, in `Workaround`.
- A page order of 64 or more, for which the C shift is undefined.
- N below 1 in the selection loop, for which the reader indexes an empty heap.
- The distinct attach points of programs with the same body (mmap, aligned_alloc, valloc, memalign, pvalloc, kmem_cache_alloc and others): they share an operation of the model.
