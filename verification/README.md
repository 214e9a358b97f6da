# Verified models of M3-gpt, klib, the x86-qemu and native machines, libco and fsrecov

A Dafny 4.11 project that models the most intricate parts of the repository and proves what they are
for. `dafny verify dfyconfig.toml` verifies everything; no part of it is executed.

## What is modelled

* **The matmul thread pool of M3-gpt** (`Matmul`, `Ring`, `Pool`, `PoolInvariant`, `PoolSafety`,
  `PoolWork`, `PoolTheorems`, `PoolLiveness`). One producer and N >= 1 workers share a ring of K >= 1
  jobs, a counter, a flag, one mutex and one condition variable. Each statement between two points at
  which the lock changes hands, and each multiply-add outside the lock, is one step of a relation over
  program counters, lock owner, wait set, ring and memory; wakeups may be spurious
  (POSIX.1-2017, `pthread_cond_wait`). The program is any sequence of `matmul_forward` calls and other
  single-threaded work.
* **The GPT-2 forward pass** (`GptRows`, `GptFormulas`, `GptLayers`, `GptTensors`, `GptAttention`, `GptMatmul`,
  `GptBlock`, `GptLayout`, `GptForward`, `GptPool`, `GptProgram`, `GptNetwork`, `GptMain`). The layer
  functions work in place on slices of one array of reals and are proved against functions on rows. `exp`,
  `sqrt` and `tanh` are parameters. `GptFormulas` says in closed form what these functions are. On top:
  where every tensor lies, the whole pass, the pass as a program of the thread pool under every schedule,
  causality, and what that means for the generation loop of `main`.
* **64-bit division from 32-bit halves** (`Bits`, `BitScan`, `Int64`, `UDivMod`, `SignedDivision`).
  Words are naturals, shifts and bitwise operators are defined bit by bit and wrap where C does.
  Division by zero, undefined in C, is an explicit outcome.
* **x86 page tables** (`PageEntry`, `Mmu`, `MmuTables`, `PageTree`, `AddrSpaces`, `Translation`,
  `Spaces`, `Rights`, `Subtree`, `BootTables`, `Vme`, `Boot`). Pages are a map from addresses to words; the
  model is parametric in the `mmu` table and is started with both configurations of the source. A machine
  with any number of address spaces is related to one plain map from virtual page to entry per space; what
  user mode may do is the conjunction of the rights along the walk (Intel SDM Vol. 3A, section 4.6).
* **The coroutine scheduler** (`CoList`, `Coroutine`, `CoSteps`). The linked list is relinked in place; the
  scheduler is a state machine in which `rand` is an arbitrary choice and `setjmp`/`longjmp` are saved
  program points; the functions on the list are shown to be the steps of that machine.
* **FAT directory recovery** (`FatEntry`, `FatTests`, `FatChecksum`, `FatScan`, `FatLayout`, `FatRecover`,
  `FatStream`, `FatCalls`, `FatDirectory`, `FatOnce`, `FatCrowded`, `LongName`). Clusters are runs of
  32-byte entries, and a call of `handle` is recorded with the runs it gets. A volume holds any number of
  directories: the entries of its groups (section 7 of the Microsoft FAT Specification, 2005) one after the
  other, cut where a cluster is full, with the clusters anywhere on the disk. What the scan makes of it is
  counted and matched with what was written.
* **Traps** (`Trap32`, `Trap64`): the instructions of `trap` and `__am_iret`, the part of
  `__am_irq_handle` that completes the context, and `kcontext`, over a word memory and a register file.
* **Address spaces of the native machine** (`NativeVme`): lists, hash tables and the host's mappings.

`Arith` has the facts about products and quotients that the address computations share.

## How to read the model

* All pointers are offsets or addresses; a tensor is a slice `[at, at + len)` of one flat memory, with the
  parameters first and the activations of one call after them.
* A method is the source's procedure: it changes fields or array cells in place, and its `ensures`
  equates the new state with a specification function. The lemmas are about those functions.
* `hide F;` in a proof keeps the solver from unfolding F there; nothing is assumed.
* Where code and comment disagree the code is followed: the mask test of `__udivmoddi4` is modelled as
  written, the inner loop of `match_entries` goes on after a match, and `co_wait` marks its caller as
  waiting before it looks at the target.

## What turned out to be conditional

* `GptRows.CoveredIff`: if NH does not divide C, the last channels of the attention output are never
  written, and the output depends on what `malloc` returned. Causality asks for `C % NH == 0`.
* `FatEntry.KindsExclusive`: a directory entry can be taken for both kinds exactly from 65535 clusters on.
* `FatOnce.EachOnceIff`: every group is handed to `handle` exactly once if and only if no cluster lies
  within a group, beginning after its first entry and ending before its last. Such a cluster becomes a
  tail of its own, and `match_entries`, which goes on after a match, hands the same group out again. A
  group has at most 21 entries, so this cannot happen from 20 entries per cluster on
  (`FatCrowded.AlwaysOnceIff`); it does happen with 16, that is with 512 bytes per cluster
  (`FatCrowded.CalledTwice`).
* `Coroutine.WaitReturns`: waiting on a coroutine that is already dead leaves the caller marked as
  waiting; `DeadWaitSticks` is a run in which nobody can be chosen any more.
* `Trap32.CopyWorksIff`: the frame copy of the kernel return is right for every memory exactly when the
  target does not overlap the source from below; a trap always produces such a frame.
* `LongName.ShortNameIs`: `strncpy(long_name, short_name, 13)` reads past the 11 bytes of the name.
* `NativeVme.Native.Map`: mapping an address twice in one space links a page that is already in the list
  and closes a cycle, so the loops of `__am_switch` no longer end.

## Model

| member | source | states |
|---|---|---|
| Ring.Ring.Push | M3-gpt/gpt.c:112-116 | the queued jobs gain exactly the new one, at the end |
| Ring.Ring.Pop | M3-gpt/gpt.c:118-122 | the oldest queued job comes out and the others stay, in order |
| Ring.Ring.TailIsRemainder | M3-gpt/gpt.c:98-122 | `tail` is `(head + buf_count)` modulo the size in every state of the ring |
| Ring.JobRing.BufferPush | M3-gpt/gpt.c:112-116 | the fields changed in place are the ring with the job appended |
| Ring.JobRing.BufferPop | M3-gpt/gpt.c:118-122 | the fields changed in place are the ring without the job that is returned |
| Matmul.Calc | M3-gpt/gpt.c:125-141 | each output cell of the row holds bias plus products summed in the order of the loop, and no other cell changes |
| Matmul.ArgsAtIsArgs | M3-gpt/gpt.c:181-185 | the pointers built for (b, t) are those of row `b*T + t` |
| Matmul.RowsDisjoint | M3-gpt/gpt.c:181-185 | output cells of different rows are different cells |
| Matmul.DotFrame | M3-gpt/gpt.c:125-141 | a sum depends on nothing in the output slice, so rows may be computed in any order |
| PoolSafety.ApplyEffect | M3-gpt/gpt.c:143-204 | every statement of either kind of thread takes and gives back the lock properly, and broadcasts whenever a sleeper's condition may have become false |
| PoolTheorems.StepKeepsInv | M3-gpt/gpt.c:143-204 | the invariant (lock ownership, ring, flag, counters, where each job is, contents of memory) survives every statement and every spurious wakeup |
| PoolTheorems.RunKeepsInv | M3-gpt/gpt.c:143-204 | it holds in every state of every run, for every number of workers, ring size and program of calls |
| PoolTheorems.NoFault | M3-gpt/gpt.c:151-152 | no assert fails, the ring is never popped when empty or pushed when full, and `calc` stays inside memory, in every reachable state |
| PoolTheorems.SequentialResult | M3-gpt/gpt.c:173-204 | whenever the main thread is between two calls memory equals that of the single-threaded program |
| PoolTheorems.CallResult | M3-gpt/gpt.c:173-204 | when `matmul_forward` returns, `out[b,t,o]` is the sequential sum for all B*T rows, and nothing else was written |
| PoolTheorems.RunningJobsAreIndependent | M3-gpt/gpt.c:161-162 | jobs computing at the same time have disjoint outputs and read nothing that is being written |
| PoolTheorems.RemainingAccounts | M3-gpt/gpt.c:187-191 | with the lock free, `remaining` is buffered plus popped-but-uncounted jobs, plus 1 while the producer sleeps on a full ring; and `tail == (head + buf_count) % K` |
| PoolTheorems.EveryJobHasOnePlace | M3-gpt/gpt.c:112-122 | each row's job is in exactly one of not pushed, buffered, in flight, done |
| PoolTheorems.PopsInOrder | M3-gpt/gpt.c:157-157 | jobs are popped in the order in which they were made |
| PoolTheorems.NoLostWakeup | M3-gpt/gpt.c:147-149 | with the lock free, the wait condition of every thread in the wait set is true |
| PoolTheorems.NoDeadlock | M3-gpt/gpt.c:143-204 | until the main thread has returned some thread can execute a statement |
| PoolTheorems.ShutdownIsClean | M3-gpt/gpt.c:150-153 | once `finished` is set the ring is empty, `remaining` is 0 and no worker owes a job |
| PoolLiveness.StatementLowers | M3-gpt/gpt.c:143-204 | every executed statement lowers a natural-number rank |
| PoolLiveness.RunsAreBounded | M3-gpt/gpt.c:143-204 | the statements of any run, fair or not, are bounded by the initial rank plus two per spurious wakeup |
| PoolLiveness.WorkLeftFalls | M3-gpt/gpt.c:143-204 | `3*unpushed + 2*buffered + in flight` falls by one on each push, pop and completion, and at no other step |
| PoolLiveness.StuckMeansFinished | M3-gpt/gpt.c:700-705 | a run that cannot go on has finished: main has joined, every worker has exited, memory is the sequential result |
| GptTensors.EncoderForward | M3-gpt/gpt.c:19-42 | the rows of the output are token plus position embedding; nothing else is written |
| GptTensors.LayerNormForward | M3-gpt/gpt.c:44-84 | each row of the output is the normalised row, each cell of mean and rstd the mean and reciprocal deviation of its row; nothing else is written |
| GptTensors.SoftmaxForward | M3-gpt/gpt.c:297-323 | each row of the output is the softmax of the row of logits |
| GptLayers.AddInto | M3-gpt/gpt.c:291-295 | the output is the elementwise sum, the rest of memory is untouched |
| GptLayers.GeluInto | M3-gpt/gpt.c:281-289 | the output is the elementwise GELU, the rest of memory is untouched |
| GptLayers.NormInto | M3-gpt/gpt.c:55-81 | one position: the output row, and the mean and reciprocal deviation in their cells |
| GptLayers.SoftmaxInto | M3-gpt/gpt.c:303-320 | one position: maximum, exponentials and division, in place, give the softmax row |
| GptAttention.ScoresInto | M3-gpt/gpt.c:227-243 | pass 1 leaves the scores up to t and returns their maximum |
| GptAttention.HeadInto | M3-gpt/gpt.c:222-276 | the four passes over one head leave the weighted sum of values, the scores in `preatt` and the weights, with zeros after t, in `att`; they write only their own slices |
| GptAttention.AttentionForward | M3-gpt/gpt.c:206-279 | each output row is the functional attention row; in `preatt[b][h][t][t2]` stands query times key over the square root of the head size, and in `att[b][h][t][t2]` the exponential of that over the sum of the exponentials up to t, and 0 after t; channels beyond `NH * (C / NH)` keep their old contents |
| GptMatmul.CallIsRows | M3-gpt/gpt.c:173-204 | the memory that the thread pool leaves, read as rows, is the matrix product |
| GptMatmul.MatmulForward | M3-gpt/gpt.c:173-204 | taking the rows one after the other leaves the memory that the pool leaves |
| GptRows.AttentionPrefix | M3-gpt/gpt.c:229-275 | attention at position t depends on rows 0..t only |
| GptRows.CoveredIff | M3-gpt/gpt.c:217-217 | the attention output is independent of what memory held before if and only if NH divides C |
| GptFormulas.ScoreIsDot | M3-gpt/gpt.c:218-234 | a score times the square root of the head size is the dot product of the head's entries of the query and of the key |
| GptFormulas.AttentionIs | M3-gpt/gpt.c:217-275 | channel i of head h is the sum of the values of positions 0..t, each weighted with the exponential of its score, over the sum of these exponentials |
| GptFormulas.WeightIs | M3-gpt/gpt.c:245-267 | subtracting the maximum changes nothing: a weight is the exponential of its score over the sum of all |
| GptFormulas.SoftmaxIs | M3-gpt/gpt.c:297-323 | the same for the final softmax |
| GptFormulas.NormIs | M3-gpt/gpt.c:51-81 | an entry less its bias is its deviation from the mean over the root of the variance plus 1e-5, times its weight; mean and reciprocal deviation are those of the row |
| GptFormulas.MatmulIs | M3-gpt/gpt.c:125-141 | output o is row o of the weights times the input, plus the bias if there is one |
| GptFormulas.GeluIs | M3-gpt/gpt.c:281-289 | twice the output is `x + x * tanh(sqrt(2/pi) * (x + 0.044715 x^3))` |
| GptFormulas.MaxIs | M3-gpt/gpt.c:227-239 | the running maximum is the largest entry, or -10000 if all are below |
| GptBlock.LayerIs | M3-gpt/gpt.c:612-622 | whatever runs the ten calls of a layer, if each does what its specification says then each finds its input where an earlier one left it, and the last leaves the functional layer |
| GptBlock.Layer | M3-gpt/gpt.c:612-622 | the ten calls of a layer leave the functional layer in residual3 and write only that layer's activations |
| GptLayout.PointTensors | M3-gpt/gpt.c:359-368 | pointer i is the start plus the sizes of the tensors before it |
| GptLayout.Partition | M3-gpt/gpt.c:398-416 | every cell of an allocation belongs to exactly one tensor |
| GptLayout.ParamCount | M3-gpt/gpt.c:474-496 | `V*C + maxT*C + 12*L*C*C + 13*L*C + 2*C` parameters |
| GptLayout.CodePointers | M3-gpt/gpt.c:576-610 | all 28 per-layer pointer expressions, and the one for the residual stream, are base plus l times the size of one layer |
| GptLayout.SliceIn | M3-gpt/gpt.c:576-610 | every slice of every layer lies inside its tensor |
| GptLayout.LayersApart | M3-gpt/gpt.c:580-610 | slices of different layers of one tensor are disjoint |
| GptLayout.SlicesDoNotOverlap | M3-gpt/gpt.c:578-622 | within a layer no two slices overlap, so no call writes what it reads |
| GptLayout.LayersAreOk | M3-gpt/gpt.c:578-622 | for all L, B, T, C, NH the slices of every layer meet what the layer demands |
| GptForward.LayerParamsAre | M3-gpt/gpt.c:580-592 | the parameters a layer reads are the same for every B and T |
| GptForward.OneLayerIs | M3-gpt/gpt.c:576-623 | a layer advances the residual stream and keeps the parameters and what later layers find in memory |
| GptForward.OneLayer | M3-gpt/gpt.c:576-623 | one turn of the loop advances the residual stream by one layer and keeps parameters and later layers' memory |
| GptForward.Forward | M3-gpt/gpt.c:516-628 | `gpt2_forward` leaves in `probs` the rows of the functional network and never changes a parameter |
| GptPool.PassIsValid | M3-gpt/gpt.c:571-628 | the pass is a program that the thread pool can run: all its 4L+1 matrix products have disjoint slices inside memory |
| GptPool.LayersRun | M3-gpt/gpt.c:576-623 | on the pool, before every layer, memory is as the single-threaded pass has it |
| GptPool.EverySchedule | M3-gpt/gpt.c:173-204 | for every number of workers, ring size and schedule, once the main thread has run the pass `probs` holds the rows of the functional network and the parameters are unchanged |
| GptProgram.PassExists | M3-gpt/gpt.c:571-628 | there is such a program: the layers of the main thread as functions on memory meet their specifications |
| GptNetwork.AttentionSame | M3-gpt/gpt.c:206-279 | sequences that agree up to t have the same attention output at t |
| GptNetwork.BlockSame | M3-gpt/gpt.c:612-622 | the same for a whole layer |
| GptNetwork.StreamsAgree | M3-gpt/gpt.c:576-623 | the same for the residual stream after any number of layers |
| GptNetwork.Causality | M3-gpt/gpt.c:516-628 | two inputs, of any lengths and batches, whose tokens agree on 0..t give equal `probs` at t, whatever memory held before |
| GptNetwork.SumsToOne | M3-gpt/gpt.c:297-323 | for a positive exponential each row is positive and sums to 1 |
| GptMain.SampleMult | M3-gpt/gpt.c:646-657 | the index is the first at which the running sum exceeds the coin, or the last index |
| GptMain.SampleIsUnique | M3-gpt/gpt.c:646-657 | that determines the index |
| GptMain.SampledIff | M3-gpt/gpt.c:646-657 | the index in terms of partial sums from the first entry on, and of 0.5 |
| GptMain.CoinFallsInside | M3-gpt/gpt.c:656-656 | on a softmax row the last return is never the deciding one: it is for rounding errors only |
| GptMain.OnePass | M3-gpt/gpt.c:690-693 | the row that decides a token is the same in a pass over any longer sequence |
| GptMain.Generate | M3-gpt/gpt.c:690-698 | the prompt is kept, and every generated token is the one that a single forward pass over the finished sequence selects |
| BitScan.ClzSi2Correct | abstract-machine/klib/src/int64.c:640-669 | the branch-free count n is 32 minus the position of the highest set bit, 32 for the word 0: `2^(31-n) <= a < 2^(32-n)` |
| BitScan.CtzSi2Correct | abstract-machine/klib/src/int64.c:675-709 | the branch-free count n is the number of trailing zeros: 2^n divides a and the quotient is odd |
| BitScan.CtzDi2Correct | abstract-machine/klib/src/int64.c:716-723 | the same for 64 bits, from the two halves |
| BitScan.ClzDi2Correct | abstract-machine/klib/src/int64.c:724-731 | the number of leading zeros for 64 bits |
| Bits.PowerOfTwoTest | abstract-machine/klib/src/int64.c:491-491 | `x & (x - 1)` is 0 exactly for powers of two |
| Int64.AlignShort | abstract-machine/klib/src/int64.c:515-520 | for `sr` below 32 the word shifts put `n >> sr` in r and left-align the rest in q |
| Int64.AlignWord | abstract-machine/klib/src/int64.c:550-556 | for `sr` equal to 32 the same |
| Int64.AlignLong | abstract-machine/klib/src/int64.c:564-571 | for `sr` above 32 the same |
| Int64.ShiftPair | abstract-machine/klib/src/int64.c:615-618 | the four word shifts double r:q with carry, losing nothing |
| Int64.MaskCompares | abstract-machine/klib/src/int64.c:626-626 | the sign mask of `d - r - 1` is all ones exactly when `r >= d`, also for `d >= 2^63` |
| Int64.MaskedSubtract | abstract-machine/klib/src/int64.c:627-628 | with that mask the subtraction and the carry are those of the comparison |
| Int64.LoopStep | abstract-machine/klib/src/int64.c:612-629 | one round keeps `Q*d + r == a >> sr`, the unread bits in q, and all values within 64 bits |
| UDivMod.ClzDifference | abstract-machine/klib/src/int64.c:579-587 | the unsigned difference of the counts is large exactly when the true one is negative |
| UDivMod.ShiftSubtract | abstract-machine/klib/src/int64.c:611-633 | the loop ends with the quotient and the remainder |
| UDivMod.DivideSmall | abstract-machine/klib/src/int64.c:439-458 | the cases with a dividend of one word |
| UDivMod.DivideByHigh | abstract-machine/klib/src/int64.c:460-521 | the cases with a divisor whose low word is 0, division by zero included |
| UDivMod.DivideByLow | abstract-machine/klib/src/int64.c:524-572 | the cases with a divisor of one word |
| UDivMod.DivideByBoth | abstract-machine/klib/src/int64.c:573-603 | the case with a divisor of two words; on entry to the loop `sr` is in 1..63 and `a >> sr < d` |
| UDivMod.UDivModDi4 | abstract-machine/klib/src/int64.c:426-634 | for all 64-bit a and b: `a / b` is returned and `a % b` stored, and division by zero is an error that stores nothing |
| UDivMod.UDivDi3 | abstract-machine/klib/src/int64.c:408-412 | the unsigned quotient |
| UDivMod.UModDi3 | abstract-machine/klib/src/int64.c:416-422 | the unsigned remainder |
| SignedDivision.AbsByMask | abstract-machine/klib/src/int64.c:373-376 | `(x ^ s) - s` is the absolute value, of the minimum too |
| SignedDivision.TruncMeaning | abstract-machine/klib/src/int64.c:369-404 | the quotient and remainder of the specification are truncated toward zero (section 6.5.5 of ISO/IEC 9899:2011) |
| SignedDivision.TruncUnique | abstract-machine/klib/src/int64.c:369-404 | no other pair is |
| SignedDivision.OnlyOverflow | abstract-machine/klib/src/int64.c:369-379 | the quotient leaves 64 bits exactly for the minimum divided by -1 |
| SignedDivision.DivDi3 | abstract-machine/klib/src/int64.c:369-379 | the truncated quotient, and the minimum in that one case |
| SignedDivision.ModDi3 | abstract-machine/klib/src/int64.c:393-404 | the truncated remainder for all operands |
| SignedDivision.DivModDi4 | abstract-machine/klib/src/int64.c:383-389 | the same quotient, and the same remainder as `__moddi3` even when the quotient has wrapped |
| PageEntry.FlagBits | abstract-machine/am/src/x86/qemu/vme.c:66-80 | the bit tests on an entry are parities of its quotients |
| PageEntry.BaseBits | abstract-machine/am/src/x86/qemu/vme.c:53-55 | masking with `~(pgsize - 1)` drops the offset |
| PageEntry.EntryReads | abstract-machine/am/src/x86/qemu/vme.c:66-71 | an entry made from an aligned page and flags gives both back |
| PageEntry.AlignedBits | abstract-machine/am/src/x86/qemu/vme.c:143-144 | the test for a page boundary is that the low 12 bits are 0 |
| Mmu.IndexIsField | abstract-machine/am/src/x86/qemu/vme.c:49-51 | the index is a field of address bits |
| Mmu.PrefixDetermines | abstract-machine/am/src/x86/qemu/vme.c:57-75 | equal indices down to a level mean equal address bits down to it |
| Mmu.PathIsPage | abstract-machine/am/src/x86/qemu/vme.c:3-22 | two addresses take the same path exactly when they are in the same page |
| Mmu.LoopStep | abstract-machine/am/src/x86/qemu/vme.c:102-107 | a loop that compares with the wrapped end address visits exactly the area |
| MmuTables.ConfigsAreValid | abstract-machine/am/src/x86/qemu/vme.c:3-22 | the level masks of both configurations are contiguous fields |
| MmuTables.AreasAreValid64 | abstract-machine/am/src/x86/qemu/vme.c:24-34 | user and kernel areas differ at level 1 and are whole level-1 spans; which addresses lie in them |
| MmuTables.AreasAreValid32 | abstract-machine/am/src/x86/qemu/vme.c:24-34 | the same with 32 bits, where one area ends at the wrap |
| PageTree.PathsAreUnique | abstract-machine/am/src/x86/qemu/vme.c:57-75 | a table is reached by one path only |
| PageTree.LeafWrite | abstract-machine/am/src/x86/qemu/vme.c:146-153 | writing a last-level word changes the walk along exactly one path |
| PageTree.LinkKeepsWalks | abstract-machine/am/src/x86/qemu/vme.c:66-68 | linking an empty table changes no walk |
| PageTree.LinkKeepsValid | abstract-machine/am/src/x86/qemu/vme.c:66-68 | linking a fresh table keeps the tree a tree |
| Translation.KernelShared | abstract-machine/am/src/x86/qemu/vme.c:120-131 | where the root enters the kernel's tables every walk is the kernel's |
| Translation.WordFound | abstract-machine/am/src/x86/qemu/vme.c:146-153 | the word the walk finds is the entry of the plain map |
| Translation.WriteMeans | abstract-machine/am/src/x86/qemu/vme.c:146-153 | after writing it every address reads as the updated plain map says |
| Spaces.MemberChanges | abstract-machine/am/src/x86/qemu/vme.c:141-156 | changing one space keeps all other spaces and the kernel |
| Spaces.OnePageChanges | abstract-machine/am/src/x86/qemu/vme.c:141-156 | if the kernel's tables keep their words, an updated plain map means one changed user page and no changed kernel translation |
| Spaces.SpacesSame | abstract-machine/am/src/x86/qemu/vme.c:117-156 | if the kernel's tables keep their words, every space whose plain map is the same translates every address, the kernel's included, as before |
| Spaces.PageChanged | abstract-machine/am/src/x86/qemu/vme.c:141-156 | a space whose plain map changed at one user page translates that page anew and every other address as before |
| Spaces.KernelIsShared | abstract-machine/am/src/x86/qemu/vme.c:120-131 | all spaces translate kernel addresses alike |
| Vme.Machine.PgAllocz | abstract-machine/am/src/x86/qemu/vme.c:40-47 | a zeroed page that was free, or a panic when there is none |
| Vme.Machine.PtWalk | abstract-machine/am/src/x86/qemu/vme.c:57-75 | the slot on the path of the address, for any tree; its word ends the walk and decides alone whether user mode may use the page and whether it may be written, as every table above grants both; tables are added but no walk changes; it panics only when memory has run out |
| Vme.Machine.Descend | abstract-machine/am/src/x86/qemu/vme.c:60-73 | one level: the table below, existing or new |
| Vme.Machine.VmeInit | abstract-machine/am/src/x86/qemu/vme.c:89-115 | 32 bits: the kernel's tree maps every kernel page to itself and nothing else; the kernel may write all of it, at every level, and user mode may do nothing there |
| Vme.Machine.UseBootTables | abstract-machine/am/src/x86/qemu/vme.c:94-95 | 64 bits: the kernel's tables are the ones that are there |
| Boot.Boot64 | abstract-machine/am/src/x86/qemu/vme.c:89-115 | 64 bits: with the tables of start64.S and any free pages the machine's invariant holds, and the kernel sees the first 512 GiB |
| Boot.Boot32 | abstract-machine/am/src/x86/qemu/vme.c:89-115 | 32 bits: from empty memory and any free pages, unless they run out, the machine's invariant holds, and the kernel sees the first GiB and the addresses from 0xfd000000 on, page by page, as themselves |
| BootTables.BootWalk | abstract-machine/am/src/x86/qemu/start64.S:1-69 | the boot tables map the first 512 GiB, GiB by GiB, to themselves and nothing else |
| Vme.Machine.CopyAreas | abstract-machine/am/src/x86/qemu/vme.c:120-131 | the new root has the kernel's words in the kernel areas and zeros elsewhere |
| Vme.Machine.Protect | abstract-machine/am/src/x86/qemu/vme.c:117-135 | the new space translates the kernel areas as the kernel does and nothing else; every other space translates every address as before, and the kernel's tables keep their words |
| Vme.Machine.Map | abstract-machine/am/src/x86/qemu/vme.c:141-156 | exactly the allowed calls succeed while memory lasts; then the walk of that user page in this space is the new entry (`pa + 5`, or `pa + 7` with MMAP_WRITE), user mode may use the page at every level unless it was unmapped, and may write it at every level if and only if prot has MMAP_WRITE; every other walk, of any address in any space and of every kernel address, is what it was; a panic changes no walk |
| Vme.MapMeans | abstract-machine/am/src/x86/qemu/vme.c:141-156 | what an updated plain map means to the walk of every address in every space |
| Rights.LastDecides | abstract-machine/am/src/x86/qemu/vme.c:57-75 | the rights of a walk, the conjunction over every entry on it, are those of its last entry |
| Rights.UserRights | abstract-machine/am/src/x86/qemu/vme.c:117-156 | in every space and at every time a user address has the rights of the entry that it leads to |
| Rights.KernelClosed | abstract-machine/am/src/x86/qemu/vme.c:120-131 | user mode may do nothing in the kernel areas of any space |
| Vme.Machine.EnterPage | abstract-machine/am/src/x86/qemu/vme.c:146-155 | mapping a mapped page and unmapping an unmapped one panic; otherwise the plain map is updated; the kernel's tables keep their words |
| Vme.Machine.Teardown | abstract-machine/am/src/x86/qemu/vme.c:77-87 | the tables under a table are freed, each once, and nothing else is touched |
| Vme.Machine.Unprotect | abstract-machine/am/src/x86/qemu/vme.c:137-139 | each page-table page of the space is freed exactly once, no kernel table and no mapped frame; all other spaces translate every address as before |
| Subtree.UserEntryIsOwn | abstract-machine/am/src/x86/qemu/vme.c:80-81 | a present user entry above the last level leads to a table of this space |
| CoList.InsertThenRemove | M2-libco/co.c:43-74 | removing what was just inserted gives the list back |
| CoList.InsertedMembers | M2-libco/co.c:43-53 | inserting adds exactly the new member |
| CoList.RemovedMembers | M2-libco/co.c:55-74 | removing takes away exactly that member |
| CoList.Scheduler.InsertCo | M2-libco/co.c:43-53 | the linked list is relinked to the sequence with the new member after `current` |
| CoList.Scheduler.RemoveCo | M2-libco/co.c:55-74 | the linked list is relinked to the sequence without the member, also at the head |
| CoList.Scheduler.RandomSelectCo | M2-libco/co.c:76-84 | the walk ends on the member that the random number selects |
| CoList.EachCanBeChosen | M2-libco/co.c:76-84 | for every member there is a random number that selects it |
| CoList.PicksOnce | M2-libco/co.c:142-146 | the random numbers determine the choice |
| CoList.EachCanBeTaken | M2-libco/co.c:142-146 | for every candidate there is a random number for which `co_yield` takes it and no other |
| CoList.Scheduler.Choose | M2-libco/co.c:142-146 | the choice is the member that the first random number selecting a new or running one selects; there is none if and only if no number does |
| CoList.Scheduler.Resume | M2-libco/co.c:151-158 | the choice becomes the running coroutine, and a new one is marked as running |
| CoList.Scheduler.CoStart | M2-libco/co.c:111-126 | the new coroutine joins the list after the running one |
| CoList.Scheduler.BeginWait | M2-libco/co.c:165-170 | the caller is marked as waiting and recorded at its target |
| CoList.Scheduler.Die | M2-libco/co.c:128-140 | the running coroutine is dead and its waiter runnable |
| CoSteps.Begin | M2-libco/co.c:179-188 | the initial list shows the initial state |
| CoSteps.Started | M2-libco/co.c:111-126 | a list that shows a state is taken by `co_start` to one that shows the state after the step |
| CoSteps.Waits | M2-libco/co.c:165-170 | the same for the start of `co_wait` |
| CoSteps.Reaped | M2-libco/co.c:171-175 | the same for its end, where the target leaves the list |
| CoSteps.Finished | M2-libco/co.c:132-138 | the same for the end of a coroutine |
| CoSteps.Switched | M2-libco/co.c:142-158 | the same for `co_yield`: what it chooses is a switch that the transition system allows, to the coroutine that the random numbers pick |
| CoSteps.EverySwitch | M2-libco/co.c:142-158 | the other way round: for every switch that the system allows there is a random number for which `co_yield` takes it and no other |
| Coroutine.StepKeeps | M2-libco/co.c:111-175 | every step keeps the scheduler's invariant |
| Coroutine.ReachableList | M2-libco/co.c:43-74 | the list is acyclic, `co_num` long, holds the running coroutine and exactly those not reaped; each function is entered at most once |
| Coroutine.NoFault | M2-libco/co.c:56-57 | no assert fails and no freed coroutine is touched |
| Coroutine.OnlyCandidatesRun | M2-libco/co.c:142-163 | a waiting or dead coroutine is never resumed |
| Coroutine.DeadIsFinal | M2-libco/co.c:133-133 | dead coroutines stay dead over any run |
| Coroutine.WaitReturns | M2-libco/co.c:165-175 | `co_wait` returns with its target dead after at most one return of the yield inside; the caller is then running if and only if the target was alive at the call |
| Coroutine.EdgesGrow | M2-libco/co.c:165-173 | the wait-for graph has no cycle |
| Coroutine.WaitersLead | M2-libco/co.c:165-173 | whoever waits leads to a coroutine that can run |
| Coroutine.AlwaysACandidate | M2-libco/co.c:142-146 | so the loop of `co_yield` always has a candidate |
| Coroutine.NobodyMeansStale | M2-libco/co.c:165-174 | without a candidate some coroutine has waited on a dead one |
| Coroutine.DeadWaitSticks | M2-libco/co.c:169-174 | a run in which waiting on a dead coroutine leaves no candidate |
| FatEntry.BitTests | M6-fsrecov/fsrecov.c:132-132 | the masks of the tests, on every byte |
| FatEntry.KindsExclusive | M6-fsrecov/fsrecov.c:126-173 | an entry is of at most one kind if and only if `total_clusters + 1 < 65536` |
| FatEntry.CalcChecksum | M6-fsrecov/fsrecov.c:193-200 | the loop computes the checksum of the 11 bytes |
| FatChecksum.AddByteRotates | M6-fsrecov/fsrecov.c:197-197 | a round is a rotation to the right by one bit and an addition, in 8 bits |
| FatChecksum.TurnedIs | M6-fsrecov/fsrecov.c:196-198 | n rotations are a rotation by n bits |
| FatChecksum.EightTurns | M6-fsrecov/fsrecov.c:196-198 | eight are none |
| FatChecksum.ChecksumIs | M6-fsrecov/fsrecov.c:193-200 | in closed form: modulo 255 the bytes weighed by powers of 128, less the additions that overflowed |
| FatChecksum.OneByte | M6-fsrecov/fsrecov.c:193-200 | a name with a single byte that is not zero has that byte, turned by its place, as its checksum |
| FatChecksum.ReadmeSum | M6-fsrecov/fsrecov.c:193-200 | for "README  TXT" it is 0x73 |
| FatTests.BasicIff | M6-fsrecov/fsrecov.c:126-154 | on an entry packed from its fields: which are taken for short entries, with the limit of 64 MiB and the bounds of the clusters |
| FatTests.LongIff | M6-fsrecov/fsrecov.c:157-173 | which are taken for long-name entries, with the masks of the source |
| FatEntry.LastByteMatters | M6-fsrecov/fsrecov.c:193-200 | names that differ in their last byte have different checksums |
| FatScan.Recovery.SearchCluster | M6-fsrecov/fsrecov.c:333-386 | what a cluster adds to heads, tails and the calls of `handle` |
| FatScan.Recovery.SearchGroups | M6-fsrecov/fsrecov.c:359-385 | the groups that end in the cluster are handled, the open one is kept |
| FatScan.Recovery.MatchHead | M6-fsrecov/fsrecov.c:237-259 | one head against all tails: every match is handled and taken out |
| FatScan.Recovery.MatchEntries | M6-fsrecov/fsrecov.c:232-263 | all heads, then the tails of length 1 that are left |
| FatScan.Recovery.FullScan | M6-fsrecov/fsrecov.c:389-399 | the calls of `handle` of a whole scan |
| FatScan.ScannedOk | M6-fsrecov/fsrecov.c:218-229 | the asserts of `matched` hold of every head and tail that a scan collects |
| FatLayout.GroupsEnd | M6-fsrecov/fsrecov.c:362-385 | in a cluster that holds whole groups each is handled once and the trailing long-name entries are left |
| FatLayout.ClusterSearched | M6-fsrecov/fsrecov.c:333-386 | what the scan makes of a cluster laid out as lead, whole groups and trail |
| FatRecover.MatchedIff | M6-fsrecov/fsrecov.c:218-229 | a head and a tail match exactly when they are the two parts of one group |
| FatRecover.ScanDelivers | M6-fsrecov/fsrecov.c:389-399 | for every layout whose cut groups lie in two clusters each, the calls deliver the inner groups, the cut groups and the lone entries |
| FatRecover.EveryGroup | M6-fsrecov/fsrecov.c:389-399 | these are all groups, each as often as laid out |
| FatRecover.RoundTrip | M6-fsrecov/fsrecov.c:389-399 | for such a layout each group is handed to `handle` exactly once, complete |
| FatLayout.MiddleSearched | M6-fsrecov/fsrecov.c:341-347 | a cluster that lies within a group is taken for a tail that runs past its end |
| FatStream.ChunksArePieces | M6-fsrecov/fsrecov.c:333-386 | the entries of all groups of a directory, one after the other, cut wherever a cluster is full, fill its clusters piece by piece |
| FatStream.AllGroups | M6-fsrecov/fsrecov.c:333-386 | every group of the directory is in its clusters, once |
| FatStream.LeadsAndHeads | M6-fsrecov/fsrecov.c:333-386 | as many clusters begin as end inside a group, with the same cuts if no cluster lies within one |
| FatStream.TwentyIsEnough | M6-fsrecov/fsrecov.c:157-173 | with clusters of 20 entries or more no cluster lies within a group |
| FatCalls.CallsAre | M6-fsrecov/fsrecov.c:232-263 | `handle` is called once for every group inside a cluster and once for every tail |
| FatDirectory.WrittenIsLaid | M6-fsrecov/fsrecov.c:389-399 | directories written to clusters anywhere on the disk and in any order are a layout |
| FatOnce.VolumeCalls | M6-fsrecov/fsrecov.c:389-399 | `handle` is called once for every group, and once more for every cluster that lies within a group |
| FatOnce.EachOnceIff | M6-fsrecov/fsrecov.c:389-399 | on every such disk each group is handed to `handle` exactly once, complete, if and only if no cluster lies within a group |
| FatCrowded.NeverMiddleIff | M6-fsrecov/fsrecov.c:333-347 | no directory at all has such a cluster if and only if a cluster has 20 entries or more |
| FatCrowded.CalledTwice | M6-fsrecov/fsrecov.c:237-259 | for every smaller cluster, 16 entries among them, a disk on which `handle` gets one group twice |
| FatCrowded.AlwaysOnceIff | M6-fsrecov/fsrecov.c:389-399 | the scan hands out every group exactly once on all disks of a cluster size if and only if that is at least 20 entries |
| LongName.ExtractName | M6-fsrecov/fsrecov.c:203-215 | the 13 characters of an entry and a terminator |
| LongName.HandleName | M6-fsrecov/fsrecov.c:305-315 | the loop joins the entries in reverse; without long-name entries the short name is copied |
| LongName.EncodedIsGroup | M6-fsrecov/fsrecov.c:157-173 | the encoding of a name is a group in the sense of the scan |
| LongName.NameRoundTrip | M6-fsrecov/fsrecov.c:305-312 | every ASCII name of 1 to 255 characters comes back and fits the buffer, also at multiples of 13 |
| LongName.ShortNameIs | M6-fsrecov/fsrecov.c:313-315 | a lone short entry is reported under its 11 bytes if and only if the attribute byte after them is 0 (or a NUL comes first) |
| Trap32.Interrupt | abstract-machine/am/src/x86/qemu/trap32.S:94-99 | what the processor and the entry stub push, from either mode |
| Trap32.Save | abstract-machine/am/src/x86/qemu/trap32.S:10-32 | after trap and the first part of the handler the context holds every register of what was interrupted, the address space, the stack for the next trap and the user's stack segment |
| Trap32.Fill | abstract-machine/am/src/x86/qemu/cte.c:19-43 | the context's remaining words, in place; a trap from the kernel gets the stack pointer after the frame |
| Trap32.UserIret | abstract-machine/am/src/x86/qemu/trap32.S:34-57 | all registers of the context come back |
| Trap32.CopyWorksIff | abstract-machine/am/src/x86/qemu/trap32.S:77-85 | the six moves rebuild the frame for every memory if and only if the target does not overlap the source from below |
| Trap32.MoveFrame | abstract-machine/am/src/x86/qemu/trap32.S:77-87 | the frame ends where the stack is to be, also when it overlaps the old one from above |
| Trap32.KernelIret | abstract-machine/am/src/x86/qemu/trap32.S:59-92 | all registers of the context come back on a return within ring 0 |
| Trap32.KContext | abstract-machine/am/src/x86/qemu/cte.c:138-159 | a new context starts the thread with its entry and argument, on its stack, in any address space; its remaining words are 0 |
| Trap32.KContextStart | abstract-machine/am/src/x86/qemu/trap32.S:3-8 | the entry function finds its argument and a return address that panics |
| Trap32.FirstCall | abstract-machine/am/src/x86/qemu/trap32.S:3-8 | what returning to a new context leads to: the entry function with its argument, in ring 0, with interrupts on |
| Trap32.Cpu.Trap | abstract-machine/am/src/x86/qemu/trap32.S:10-32 | the interrupted registers, cr3 and esp0 are saved; every context outside the stretch of stack in use stays intact |
| Trap32.Cpu.Return | abstract-machine/am/src/x86/qemu/cte.c:95-104 | over any run, returning to any context that is still intact restores all registers to their values at its trap, and cr3 and esp0 too if its cr3 is not 0; otherwise both stay |
| Trap64.TopIs | abstract-machine/am/src/x86/qemu/trap64.S:9-30 | the processor aligns the stack of the trap down to 16 bytes |
| Trap64.Save | abstract-machine/am/src/x86/qemu/trap64.S:9-30 | the context holds every register, cr3 and rsp0, with the stack aligned by the processor |
| Trap64.Iret | abstract-machine/am/src/x86/qemu/trap64.S:32-54 | all registers of the context come back |
| Trap64.KContext | abstract-machine/am/src/x86/qemu/cte.c:138-159 | the context of a new thread, 64 bits |
| Trap64.FirstCall | abstract-machine/am/src/x86/qemu/trap64.S:3-7 | what returning to it leads to: the entry function with its argument in rdi |
| Trap64.Cpu.Trap | abstract-machine/am/src/x86/qemu/trap64.S:9-30 | the interrupted registers, cr3 and rsp0 are saved and other contexts stay intact |
| Trap64.Cpu.Return | abstract-machine/am/src/x86/qemu/cte.c:95-104 | over any run every intact context is restored in full, cr3 and rsp0 too if its cr3 is not 0; otherwise both stay |
| NativeVme.Native.Protect | abstract-machine/am/src/native/vme.c:37-49 | a space with an empty plain map joins; the maps of the others and what is installed do not change |
| NativeVme.Native.Map | abstract-machine/am/src/native/vme.c:85-121 | for a new address the plain map of the space gains the entry, which is installed at once if the space is current, and the other maps are the same; an address that is mapped already closes a cycle |
| NativeVme.Native.Switch | abstract-machine/am/src/native/vme.c:54-83 | what is installed is exactly the plain map of the new space; of the pages nothing but `is_mapped` changes, and all plain maps stay |
| NativeVme.InstalledIsMapOf | abstract-machine/am/src/native/vme.c:54-121 | what is installed is always the plain map of the current space |
| NativeVme.MappedMeans | abstract-machine/am/src/native/vme.c:85-121 | linking a page adds one entry to one plain map |
| NativeVme.UnmapAll | abstract-machine/am/src/native/vme.c:62-70 | the first loop removes exactly the pages of the list and clears their flags |
| NativeVme.MapAll | abstract-machine/am/src/native/vme.c:72-79 | the second loop installs every page of the list and sets its flag |
| NativeVme.InstalledAreTheList | abstract-machine/am/src/native/vme.c:54-121 | installed are exactly the pages of the current list with their pa and prot (none for NULL), and `is_mapped` is true exactly for them |
| NativeVme.Relinked | abstract-machine/am/src/native/vme.c:106-114 | linking a page in a second time makes a cycle |
| NativeVme.NoEnd | abstract-machine/am/src/native/vme.c:64-69 | no walk of the list then ends |

## Left out

- Floating-point rounding, overflow and NaN: arithmetic is over reals, division by 0.0 yields 0.0, and `exp`, `sqrt`, `tanh` are arbitrary functions (a positive `exp` that turns sums into products, a root that is not 0, where a lemma says so).
- The allocations of gpt.c: parameters and activations are two `malloc` blocks there and one flat memory here, parameters first; what `malloc` leaves in a new block is arbitrary.
- C integer overflow in the size and pointer expressions of gpt.c: sizes are unbounded naturals.
- The checkpoint reader, token printing, loss and gradient buffers of gpt.c, and the out-of-range token ids that `strtol` could deliver.
- GptMatmul.MatmulForward: takes the rows in one thread; the pass on the thread pool is `GptPool.EverySchedule`, for one pass at a time and not for the generation loop around it.
- GptBlock.AttentionStep: and what builds on it do not carry on what `AttentionForward` leaves in `preatt` and `att`, which nothing reads afterwards.
- Thread creation and the internals of mutexes and condition variables: locking and waiting are atomic steps, broadcast wakes all sleepers.
- PoolLiveness.RunsAreBounded: bounds statements by spurious wakeups instead of assuming a fair scheduler.
- The compiler's own `__builtin_clz` and `__builtin_ctz`: they are the bit-scan definitions that the software versions are proved equal to.
- Vme.Machine.Map: after a panic the model goes on with the tables made so far, the program does not.
- Vme.Machine.UseBootTables: takes the tables as a parameter that must meet `KernelOk`; `Boot.Boot64` calls it with those of start64.S.
- CR3 and CR0 writes, TLB, `ucontext`, TSS and segment descriptors.
- Which page `pgalloc` returns: any free one; its contents before `pgallocz` are arbitrary.
- CoList.Scheduler.RemoveCo: does not model `free(co)`; `Coroutine.NoFault` shows that a removed coroutine is not touched again.
- Stacks, `stack_switch_call` and the mechanics of `setjmp`/`longjmp` in libco; reading `time`, and failing `malloc`.
- Coroutine.WaitersLead: and `AlwaysACandidate` are for runs in which no coroutine waits on a dead one; each handle is waited on at most once and never by itself, and main starts without a waiter and without a successor.
- FatRecover.RoundTrip: and `FatOnce.EachOnceIff` ask for at most 10 heads and 10 tails (the arrays of `waiting`), no checksum clash between different groups among them, other clusters that fail the filter, and `total_clusters + 1 < 65536`.
- Mapping the disk, the cluster arithmetic of `first_byte_ptr_of_cluster` beyond equal-sized consecutive clusters, the BMP test, file sizes, temporary files and `sha1sum` in fsrecov; `handle` is its name part.
- Upper halves of UTF-16 characters: names are ASCII, as the source states.
- Trap32.Cpu.Return: is for contexts that are still intact in memory; that a kernel keeps the stacks of suspended threads apart is left to it.
- The event classification of `__am_irq_handle`, interrupt controllers, `yield`, `iset` and the per-CPU TSS beyond `esp0`/`rsp0`.
- NativeVme.Native.Map: the hash key is the address itself; the source prints it with `%x`, which is unique below 2^32, where the whole user area lies.
- Signals, SDL devices and per-CPU state of the native machine, and `mmap` failures.
- M1-pstree, M4-crepl, M5-sperf, L0-hello, the kernel and the string functions of klib: simple loops or I/O.
