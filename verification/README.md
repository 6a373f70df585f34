# Protocols and schedules of vllm_sm80

A Dafny model of the repository's hand-written concurrent protocols and schedules, with
proofs of what they promise. Floating-point operations are not interpreted: a sum is the
fold of an unknown addition in a stated order, and NaN behaves as stated where it matters.

- **Flags-in-data all-reduce** (`FlagsProtocol`, `FlagsKernels`, `FlagsRuns`, `FlagsSizes`, `FlagsOutput`,
  `FlagsCompressed`, `FlagsCompressedOutput`, `FlagsPolls`, `AllReduceSum`, `WireFormat`,
  `WireKernel`): ranks as interleaved steps, each 32-bit word of a store landing on its own
  at any later time. The three kernels are calls of one protocol. The compressed wire format
  is modelled down to the bytes of the warp's scratch.
- **Stream-K schedule** (`StreamK`, `StreamKCoverage`, `StreamKLocks`): the CTA's walk as a
  class whose fields the kernel's lambdas update, against a schedule stated without its
  arithmetic; and the lock protocol with limited residency.
- **Copy-engine ring and owner sum** (`EpochStreams`, `EpochWords`, `CeRing`, `CeOwner`, `CeRuns`) and the
  **host-staged all-reduce** (`HostShm`, `HostShmStale`, `HostShmChoice`).
- **Row reads and the row cache** (`RowRead`, `RowCache`).
- **All-or-nothing switches**: the voted arm switch (`ArmSwitch`), the graph toggles under it
  (`HotSwap`), the held tool-call candidate (`HoldMachine`, `HoldOutcomes`, `ParserHold`) and its fence
  tracker (`Fences`), whose rule is section 4.5 of the CommonMark Spec.

`Arith` holds the division lemmas, `Terms` what a sum adds and in which order. `dfyconfig.toml` makes `dafny verify dfyconfig.toml` check
every file.

## Findings

Properties that turned out false of the code, each with the input that shows it and the exact
condition under which the code meets it:

- vllm_sm80/distributed/custom_all_reduce_flags.py:1176-1177 (`eligible`) admits every size up
  to the maximum, but the largest partition, `size / R + size % R` packs, is not monotone in the
  size, so a smaller message may be refused at launch. The two-shot (:896) takes 16384 packs of
  four ranks but not 16383 (`FlagsSizes.EligibleMayNotFit`); all sizes fit it exactly when the
  maximum is below the rank count or leaves a remainder of at least `R - 2`
  (`FlagsSizes.EligibleFits`). The compressed kernel (:930) takes 120 packs but not 119
  (`FlagsSizes.ZEligibleMayNotFit`); all sizes fit it exactly when the maximum modulo 124 is not
  0, 120 or 121 (`FlagsSizes.ZEligibleFits`). A message fits the one-shot (:896) exactly when it
  has at most twice the packs of the maximum's largest partition (`FlagsSizes.OneShotFitsIs`).
- vllm_sm80/distributed/host_shm_all_reduce.py:227-250: the generation has 32 bits, and one-shots
  do not touch the second barrier. A two-shot whose generation comes round to the value its
  parity's flags still hold passes that barrier early (`HostShmStale.LateTwoShotStale`,
  `HostShmStale.EarlyGather`). The barrier holds exactly when no call meets such flags
  (`HostShmStale.SafeIffFresh`), so always below 2^32 calls (`HostShmStale.FirstCallsSafe`).
- vllm_sm80/distributed/ce_ring_all_reduce.py:204-236: the flags are 32-bit words that read back
  signed, the epoch (:426) an unbounded integer. At call 2^31 the stored epoch reads back as
  -2^31: compared with the whole epoch every rank waits for ever; with the epoch cut to 32 bits
  as well, a first wait passes before its flag is set (`CeRuns.JobsFailAt`). Safety and progress
  hold of every run exactly below 2^31 calls (`CeRuns.JobsIffBelow`).
- vllm_sm80/dev_ab.py:1567-1570: `_set_arm` resolves its switch before the first vote and lets the
  error out. If only some ranks cannot resolve it, those return to serving and the others wait
  (`ArmSwitch.OneRankRaises`). The switch is all or none exactly when the ranks are even
  (`ArmSwitch.SoundIffEven`). `hot_swap.set_arms` votes no instead.
- vllm_sm80/hot_swap.py:619-625: a rollback of graph toggles needs `force`, since the `on` of a
  half-toggled graph is still the old one (`HotSwap.UnforcedRestoreFails`).
- vllm_sm80/parser_recovery.py:114-116: with nothing held, `finish` leaves the scanner's and the
  lexer's rest to the engine underneath. If that passes it on to `_on_terminal`, an opener in it
  opens a candidate that nothing gives back (`HoldMachine.OpenerAtEnd`); nothing is held after
  the end exactly when that does not happen (`HoldMachine.NothingHeld`).

## Model

| member | source | states |
|---|---|---|
| FlagsProtocol.EveryRunSafe | vllm_sm80/distributed/custom_all_reduce_flags.py:370-447 | in every interleaving of any calls, each 32-bit word of a store landing alone and late: a clean load is the pack its peer sends there in this very call, ranks are at most one call apart, the next stage is all sentinel but for what a rank one call ahead has sent, nothing is in flight into a stage being refilled, no word is overwritten, and each finished call received exactly its own packs |
| FlagsProtocol.StepInv | vllm_sm80/distributed/custom_all_reduce_flags.py:370-447 | every push, landing, refill, take and finish keeps the invariant behind that |
| FlagsProtocol.PhasesReady | vllm_sm80/distributed/custom_all_reduce_flags.py:382-446 | the order the kernel puts its loops in never blocks: first pushes and refills can always run, then every wait of the dependent pushes, then every other wait |
| FlagsProtocol.NoStall | vllm_sm80/distributed/custom_all_reduce_flags.py:328-361 | while a rank has calls to make, some step is possible |
| FlagsProtocol.RunsOut | vllm_sm80/distributed/custom_all_reduce_flags.py:370-447 | steps taken in any order reach, within a bound, the state where every rank has made every call |
| FlagsRuns.AnyJobsSafe | vllm_sm80/distributed/custom_all_reduce_flags.py:370-447 | for two-shot and one-shot calls of any sizes in any order: the state is safe and a rank that finished a call received exactly that call's packs |
| FlagsKernels.TwoShotOk | vllm_sm80/distributed/custom_all_reduce_flags.py:376-427 | the two-shot is a call of that protocol: its slots are disjoint, clean and inside the words its epoch entry makes the next call refill, its second pushes are computed from what the first bring, and every rank hears from every other, also when partitions are empty |
| FlagsKernels.OneShotOk | vllm_sm80/distributed/custom_all_reduce_flags.py:687-737 | the same of the one-shot |
| FlagsKernels.ReducedIsResult | vllm_sm80/distributed/custom_all_reduce_flags.py:309-325 | the fold of the sanitized packs from the partition's owner on is the all-reduce of the packs as they are |
| AllReduceSum.ReduceOwnerOrder | vllm_sm80/distributed/custom_all_reduce_flags.py:309-325 | the accumulator loop adds the packs from the left, the owner's first and each once, and rounds once |
| AllReduceSum.SanitizeKeepsBits | vllm_sm80/distributed/custom_all_reduce_flags.py:173-175 | sanitizing the inputs changes no bit of the sum, if NaN absorbs and rounds to the canonical NaN |
| AllReduceSum.SumIsClean | vllm_sm80/distributed/custom_all_reduce_flags.py:173-175 | a rounded sum never needs sanitizing |
| AllReduceSum.PartitionOwner | vllm_sm80/distributed/custom_all_reduce_flags.py:164-171 | a partition's packs lie in the message and no other pack has its owner, for every size, size < ranks included |
| AllReduceSum.OwnerPartition | vllm_sm80/distributed/custom_all_reduce_flags.py:164-171 | every pack of the message is in its owner's partition |
| FlagsOutput.TwoShotThread | vllm_sm80/distributed/custom_all_reduce_flags.py:394-437 | a thread's elements of the output become the result, whatever it held; the others stay |
| FlagsOutput.OneShotThread | vllm_sm80/distributed/custom_all_reduce_flags.py:710-727 | the same of a one-shot thread |
| FlagsPolls.CallOutput | vllm_sm80/distributed/custom_all_reduce_flags.py:370-447 | a finished call's threads write the whole all-reduce on every rank in any run: each element the rounded sum of the ranks' values from the owner on, each once |
| FlagsRuns.WaitPeers | vllm_sm80/distributed/custom_all_reduce_flags.py:328-360 | wait_peers is done exactly when every peer has been read clean, and keeps each peer's first clean pack |
| FlagsPolls.PeersDeliver | vllm_sm80/distributed/custom_all_reduce_flags.py:328-360 | whatever states of a run its loads fall into, that pack is the one the peer sends there in this call |
| FlagsSizes.EligibleMayNotFit | vllm_sm80/distributed/custom_all_reduce_flags.py:1176-1177 | an eligible message may not fit the two-shot's stage: 16383 packs on four ranks, with a maximum of 16384 |
| FlagsSizes.EligibleFits | vllm_sm80/distributed/custom_all_reduce_flags.py:894-897 | every eligible size fits the two-shot if and only if the maximum is below the rank count or leaves one of the two largest remainders |
| FlagsSizes.FitsIs | vllm_sm80/distributed/custom_all_reduce_flags.py:894-897 | the two-shot's check is that the largest partition is no longer than the maximum's |
| FlagsSizes.OneShotFitsIs | vllm_sm80/distributed/custom_all_reduce_flags.py:894-897 | a message fits the one-shot if and only if it has at most twice the packs of the maximum's largest partition |
| FlagsSizes.OneShotEligibleFits | vllm_sm80/distributed/custom_all_reduce_flags.py:894-897 | every eligible size fits the one-shot if and only if the maximum is below 4, or 6 or 7 packs |
| FlagsSizes.ZEligibleMayNotFit | vllm_sm80/distributed/custom_all_reduce_flags.py:928-931 | an eligible message may not fit the compressed stage: 119 packs, with a maximum of 120 |
| FlagsSizes.ZEligibleFits | vllm_sm80/distributed/custom_all_reduce_flags.py:928-931 | every eligible size fits the compressed kernel if and only if the maximum modulo 124 is not 0, 120 or 121 |
| FlagsSizes.ZFitsIs | vllm_sm80/distributed/custom_all_reduce_flags.py:1100-1103 | that check is what the runs of compressed calls need of a message |
| FlagsSizes.LargestIs | vllm_sm80/distributed/custom_all_reduce_flags.py:1082-1085 | the largest partition is the quotient and the remainder together |
| AllReduceSum.RotatedAt | vllm_sm80/distributed/custom_all_reduce_flags.py:309-325 | the fold takes the packs at (owner + j) mod R |
| AllReduceSum.ResultSums | vllm_sm80/distributed/custom_all_reduce_flags.py:309-325 | each element of the all-reduce is the rounded value of a left-nested term whose operands are, in order and once each, the ranks' values from the owner on |
| AllReduceSum.OwnerRange | vllm_sm80/distributed/custom_all_reduce_flags.py:164-171 | the owner of a pack in plain arithmetic: partitions of size / R packs, the last with the rest |
| Terms.OneSum | vllm_sm80/distributed/custom_all_reduce_flags.py:309-325 | there is one such value |
| Terms.EvalFree | vllm_sm80/distributed/custom_all_reduce_flags.py:309-325 | evaluating a term where additions stand for themselves gives it back |
| WireFormat.BlockRoundTrip | vllm_sm80/distributed/custom_all_reduce_flags.py:576-610 | whoever holds the stored quads of a block decodes every lane's pack |
| WireFormat.StoredAre | vllm_sm80/distributed/custom_all_reduce_flags.py:512-574 | the stored quads are exactly quads 0..n-1, each by one lane, n is 22 to 24 or 32, and words 0 and 1 of quad 0 give n |
| WireFormat.TravelsIn | vllm_sm80/distributed/custom_all_reduce_flags.py:512-574 | a block travels in (346 + far lanes + 15) / 16 quads, 22 to 24, exactly when no exponent is 255, every other one is 0 or at most 14 below the highest, and no word of its slot is the sentinel; else raw in 32 |
| WireFormat.StoredClean | vllm_sm80/distributed/custom_all_reduce_flags.py:512-574 | no stored word is the sentinel when the packs hold none |
| WireFormat.StreamField | vllm_sm80/distributed/custom_all_reduce_flags.py:488-505 | the variable-length code fields are contiguous, in lane order |
| WireFormat.HeaderRoundTrip | vllm_sm80/distributed/custom_all_reduce_flags.py:512-517 | the receiver reads back the top exponent, the wide mask and the quad count |
| WireFormat.FunnelReads | vllm_sm80/distributed/custom_all_reduce_flags.py:588-593 | the funnel shift reads four consecutive bytes of the scratch |
| WireFormat.HalfRoundTrip | vllm_sm80/distributed/custom_all_reduce_flags.py:583-607 | every value of every lane comes back from a compressed slot |
| WireKernel.Vote | vllm_sm80/distributed/custom_all_reduce_flags.py:524-545 | the warp's votes: whether the block may be coded, and which lanes are wide |
| WireKernel.FillScratch | vllm_sm80/distributed/custom_all_reduce_flags.py:543-561 | the stores of the two phases leave the scratch holding the slot's bytes |
| WireKernel.Encode2 | vllm_sm80/distributed/custom_all_reduce_flags.py:519-574 | the in-place encoder stores, lane by lane, exactly the specified slot |
| WireKernel.RecvBlocks | vllm_sm80/distributed/custom_all_reduce_flags.py:619-677 | under any partial arrival the poll loop over its sources ends only with every sender's quads, and it ends once for each source two polls in a row have seen all of them |
| WireKernel.CleanIsWhole | vllm_sm80/distributed/custom_all_reduce_flags.py:619-677 | a quad with some words still sentinel shows it; a clean quad is whole |
| FlagsPolls.PollArrives | vllm_sm80/distributed/custom_all_reduce_flags.py:619-677 | in any run of compressed calls, every poll of a block, each lane loaded in a state of its own, is one that RecvBlocks expects |
| WireKernel.DeliveredBlock | vllm_sm80/distributed/custom_all_reduce_flags.py:512-677 | what a receiver decodes from a block's slot is what the sender encoded |
| FlagsCompressed.TwoShotZOk | vllm_sm80/distributed/custom_all_reduce_flags.py:751-866 | two_shot_z is a call of the flags protocol: areas and slots are disjoint and inside the stage, and its refill covers them |
| FlagsCompressed.AnyCompressedSafe | vllm_sm80/distributed/custom_all_reduce_flags.py:751-866 | any sequence of compressed calls of any sizes is safe in every interleaving and leaves every rank exactly the quads meant for it |
| FlagsCompressed.ComputesBlock | vllm_sm80/distributed/custom_all_reduce_flags.py:800-834 | the block an owner computes from what it decodes is the reduced block |
| FlagsCompressed.QuadAtInverse | vllm_sm80/distributed/custom_all_reduce_flags.py:783-786 | two quads of a stage have one address only if they are the same quad of the same block and area |
| FlagsCompressed.RefillReaches | vllm_sm80/distributed/custom_all_reduce_flags.py:835-840 | the refill reaches every quad of the previous call's blocks |
| FlagsCompressed.RefillInside | vllm_sm80/distributed/custom_all_reduce_flags.py:835-840 | and stays inside the stage |
| FlagsCompressed.BlockCta | vllm_sm80/distributed/custom_all_reduce_flags.py:777-780 | every block is in exactly one CTA's range, for every grid |
| FlagsCompressed.TaskOnce | vllm_sm80/distributed/custom_all_reduce_flags.py:789-791 | a CTA's tasks meet each of its blocks exactly once for every peer |
| FlagsCompressedOutput.WarpReduces | vllm_sm80/distributed/custom_all_reduce_flags.py:800-834 | a warp's owner loop writes the result's packs of its blocks and no others |
| FlagsCompressedOutput.WarpGathers | vllm_sm80/distributed/custom_all_reduce_flags.py:842-855 | a warp's gather loop writes the result's packs of its tasks and no others |
| FlagsCompressedOutput.GridWrites | vllm_sm80/distributed/custom_all_reduce_flags.py:751-866 | however many CTAs and warps, the output is the whole result |
| FlagsPolls.CompressedOutput | vllm_sm80/distributed/custom_all_reduce_flags.py:751-866 | the same of a finished compressed call |
| StreamK.Cta.Run | csrc/ampere_marlin/marlin_moe_template.h:585-685 | the main loop over init_slice, its locks_off, slice_count and slice_idx arithmetic and the slice advance, takes exactly the CTA's schedule |
| StreamK.Cta.InitPart2Slice | csrc/ampere_marlin/marlin_moe_template.h:589-645 | sets the slice to the stripe's part of the tile, with the tile's number of sharers, this CTA's turn and the tile's lock word |
| StreamK.TurnArithmetic | csrc/ampere_marlin/marlin_moe_template.h:596-609 | the kernel's count and turn are the number of stripes that meet the tile and of those above this one |
| StreamK.SharersFacts | csrc/ampere_marlin/marlin_moe_template.h:589-609 | the CTAs that meet a part-2 tile are an interval |
| StreamK.TurnFacts | csrc/ampere_marlin/marlin_moe_template.h:589-609 | slice_idx is a bijection of them onto 0..count-1, falling as the CTA index rises |
| StreamK.PlanValid | csrc/ampere_marlin/marlin_moe_template.h:401-445 | what the split of part 1 and part 2 and the group rounding of iters guarantee, for all sizes |
| StreamK.SplitIs | csrc/ampere_marlin/marlin_moe_template.h:413-424 | which tiles are split: with more than a CTA each, the one number over a third and at most four thirds of the grid that leaves whole rounds |
| StreamK.StripesAre | csrc/ampere_marlin/marlin_moe_template.h:426-437 | the stripes are the shortest of whole groups that hold the work |
| StreamKCoverage.CoveredOnce | csrc/ampere_marlin/marlin_moe_template.h:401-445 | part-1 tiles and part-2 stripes of all CTAs visit every k tile of every m-n tile exactly once, and nothing else |
| StreamKCoverage.RedoOnce | csrc/ampere_marlin/marlin_moe_template.h:426-433 | in redo mode every k tile of a listed tile is computed once per listing |
| StreamKCoverage.StartsOnGroup | csrc/ampere_marlin/marlin_moe_template.h:437-445 | no slice starts inside a quantization group when k_tiles is a whole number of groups |
| StreamKCoverage.LockInRange | csrc/ampere_marlin/marlin_moe_template.h:475-486 | a shared tile's lock word is below the start counter |
| StreamKCoverage.LocksDistinct | csrc/ampere_marlin/marlin_moe_template.h:475-486 | no two shared tiles use one lock word |
| StreamKLocks.StepInv | csrc/ampere_marlin/marlin_moe_template.h:164-195 | every start, acquire, release and exit keeps the lock invariant |
| StreamKLocks.NoDeadlock | csrc/ampere_marlin/marlin_moe_template.h:289-306 | some CTA can always step, however few are resident |
| StreamKLocks.GridFinishes | csrc/ampere_marlin/marlin_moe_template.h:2119-2128 | every run is bounded and never stuck; a finished one leaves every lock word and the start counter 0, each shared tile reduced from its highest CTA down |
| StreamKLocks.GridIsOk | csrc/ampere_marlin/marlin_moe_template.h:401-486 | the premises of that hold of every problem |
| EpochStreams.EveryRunSafe | vllm_sm80/distributed/ce_ring_all_reduce.py:422-433 | for any plans that satisfy the stated conditions, on one set of slots and epoch flags: no slot is overwritten unread, a reached flag was set in this very call, flags only grow |
| EpochStreams.NoDeadlock | vllm_sm80/distributed/ce_ring_all_reduce.py:422-433 | in every reachable state some rank can step |
| EpochStreams.RunsOut | vllm_sm80/distributed/ce_ring_all_reduce.py:422-433 | every run ends within the steps there are, and one that cannot go on has finished every call on every rank |
| EpochWords.FlagBound | vllm_sm80/distributed/ce_ring_all_reduce.py:204-216 | no flag exceeds the number of calls, in any reachable state |
| EpochWords.SameStep | vllm_sm80/distributed/ce_ring_all_reduce.py:228-236 | below 2^31 calls the signed 32-bit comparison is that of the numbers |
| EpochWords.SoundIffBelow | vllm_sm80/distributed/ce_ring_all_reduce.py:204-236 | with flags as signed 32-bit words, waits are served by their own call and no run gets stuck if and only if there are fewer than 2^31 calls |
| EpochWords.UnsoundFrom | vllm_sm80/distributed/ce_ring_all_reduce.py:228-236 | at call 2^31 every rank comes to wait for ever, or, if the epoch is cut to 32 bits too, a first wait passes unset |
| CeRing.RingStepsAre | vllm_sm80/distributed/ce_ring_all_reduce.py:55-66 | the steps' shards are the program's, modulo the world size |
| CeRing.RingPlanOk | vllm_sm80/distributed/ce_ring_all_reduce.py:154-174 | the ring's operations satisfy them, for every world size |
| CeRing.RingEnds | vllm_sm80/distributed/ce_ring_all_reduce.py:69-84 | every rank ends a ring call with shard c the fold in rank order c, c+1, ...: a right-nested term whose operands are every rank's shard, once each, rank c's innermost |
| CeOwner.OwnerPlanOk | vllm_sm80/distributed/ce_ring_all_reduce.py:112-151 | so do the owner sum's, on the same slots and flags |
| CeOwner.OwnerEnds | vllm_sm80/distributed/ce_ring_all_reduce.py:98-151 | every rank ends an owner-sum call with every shard a left-nested wide sum of every rank's, in rank order and once each, rounded once |
| CeOwner.SlotIndexInverse | vllm_sm80/distributed/ce_ring_all_reduce.py:107-109 | distinct senders have distinct slots at a receiver, and the slot names its sender |
| CeRuns.AnyJobs | vllm_sm80/distributed/ce_ring_all_reduce.py:422-433 | fewer than 2^31 ring and owner-sum calls in any order and interleaving, flags being 32-bit words: no slot is overwritten unread, every wait is served by its own call, flags stay below 2^31, and every finished call has its emulation's result |
| CeRuns.AnyJobsProgress | vllm_sm80/distributed/ce_ring_all_reduce.py:112-174 | each run ends within the steps there are, and one that cannot go on has finished every call |
| CeRuns.JobsIffBelow | vllm_sm80/distributed/ce_ring_all_reduce.py:204-236 | both hold of every run if and only if there are fewer than 2^31 calls |
| CeRuns.JobsFailAt | vllm_sm80/distributed/ce_ring_all_reduce.py:228-236 | call 2^31 is where they first fail, and how |
| CeRuns.Emulate | vllm_sm80/distributed/ce_ring_all_reduce.py:69-84 | the file's emulate computes that term |
| CeRuns.EmulateOwner | vllm_sm80/distributed/ce_ring_all_reduce.py:98-104 | and emulate_owner the rank-order sum |
| CeRuns.FlagsInside | vllm_sm80/distributed/ce_ring_all_reduce.py:91-95 | every flag lies whole inside flag_bytes, and no two share bytes |
| CeRuns.OwnerSplit | vllm_sm80/distributed/ce_ring_all_reduce.py:115-119 | however a message is split, each element is the rank-order sum of the ranks' elements, each once, rounded once |
| HostShm.EveryRunSafe | vllm_sm80/distributed/host_shm_all_reduce.py:264-513 | for any sequence of the three algorithms whose calls are fresh: a rank that finished a call has, for every unit, zero and every rank's input added in rank order, each once, and rounded once; no store hits a unit a peer may still read |
| HostShm.StepInv | vllm_sm80/distributed/host_shm_all_reduce.py:201-250 | every step keeps the invariant; only a wait at the second barrier needs its call to be fresh |
| HostShm.SeenFlag | vllm_sm80/distributed/host_shm_all_reduce.py:227-250 | the wait for exactly gen never misses it |
| HostShm.ServedWait | vllm_sm80/distributed/host_shm_all_reduce.py:227-250 | a served wait was served by this call's arrival |
| HostShm.NoDeadlock | vllm_sm80/distributed/host_shm_all_reduce.py:264-513 | no reachable state is stuck while some rank has calls left |
| HostShm.RunsOut | vllm_sm80/distributed/host_shm_all_reduce.py:264-513 | every run ends within a bound, and one that cannot go on has finished every call on every rank |
| HostShm.FreshAtFirst | vllm_sm80/distributed/host_shm_all_reduce.py:201-250 | a call is fresh before the generation first comes round |
| HostShmStale.FirstCallsSafe | vllm_sm80/distributed/host_shm_all_reduce.py:201-250 | so any fewer than 2^32 calls meet the premises of all this, and no wait is served early |
| HostShm.SlotsApart | vllm_sm80/distributed/host_shm_all_reduce.py:176-200 | slots of different ranks, parities and kinds are different, and inside the segment |
| HostShm.CutsAreOk | vllm_sm80/distributed/host_shm_all_reduce.py:592-602 | the ranks' sub-chunks partition the message, evenly to a unit |
| HostShm.ReduceUnits | vllm_sm80/distributed/host_shm_all_reduce.py:264-345 | the reduce loop adds to zero what it reads of every rank, in rank order and each once, and rounds once |
| HostShm.ResultSums | vllm_sm80/distributed/host_shm_all_reduce.py:317-322 | a unit of a call's result is the rounded value of a left-nested term whose operands are zero and then every rank's unit in rank order, once each |
| HostShm.FreshIfRecent | vllm_sm80/distributed/host_shm_all_reduce.py:201-250 | a call is fresh if a two-shot of its parity ran within the last 2^32 calls |
| HostShmStale.SafeIffFresh | vllm_sm80/distributed/host_shm_all_reduce.py:201-250 | in every run each served wait was served by its own call if and only if every call is fresh |
| HostShmStale.EarlyGather | vllm_sm80/distributed/host_shm_all_reduce.py:346-445 | at the first call that is not, any rank can come to gather units its peers have not reduced |
| HostShmStale.LateTwoShotStale | vllm_sm80/distributed/host_shm_all_reduce.py:346-445 | 2^32 - 1 one-shots and then a two-shot are such a sequence |
| HostShmChoice.SameBits | vllm_sm80/distributed/host_shm_all_reduce.py:1068-1100 | whatever the size thresholds, hence the algorithm chosen, every rank gets the same bits |
| RowRead.Owns | csrc/exl3/row_read.h:58-64 | the search over sorted heads finds the last head that starts at or before the row, and the row is owned if it lies in it and in the owner range |
| RowRead.OwnedLinear | csrc/exl3/row_read.h:58-64 | over heads that do not overlap that is a linear search |
| RowRead.OverlapNotOwned | csrc/exl3/row_read.h:58-64 | over others, which the loader refuses, it is not |
| RowRead.ReadExact | csrc/exl3/row_read.h:69-86 | the row's bytes arrive whole exactly when positive reads reach the length before an error or the end of the file; else the error, which is one of the answers', and the offset those reads reached; interrupts, wherever they are, change nothing |
| RowRead.ReadDirect | csrc/exl3/row_read.h:92-109 | the same of aligned direct reads, which also end at bytes short of a block |
| RowRead.EndsOnce | csrc/exl3/row_read.h:69-109 | the answers leave one way to end |
| RowRead.SpanFits | csrc/exl3/row_read.h:31-34 | the aligned span of any row is the blocks it lies in up to its end, and fits the buffer sized by the row alone |
| RowRead.ReadRow | csrc/exl3/row_read.h:114-140 | the attempts end as the first that does not fail, or as the last, at the row's place in the file; a row read whole is its bytes |
| RowRead.FailsWhenAllFail | csrc/exl3/row_read.h:114-140 | a row fails exactly when every attempt fails, with the last one's error |
| RowRead.Split | csrc/exl3/row_read.h:233-257 | for any thread count and any threads that fail to start, the chunks partition the pending rows, each of the rows by the threads, rounded up, but the last |
| RowRead.ChunkOnce | csrc/exl3/row_read.h:242-266 | each chunk but the first is its thread's or the caller's, never both |
| RowRead.Batch.ReadNext | csrc/exl3/row_read.h:145-157 | one turn of a thread keeps every chunk's rows and failures |
| RowRead.Batch.ReadAll | csrc/exl3/row_read.h:234-266 | whatever the order of turns, the caller's chunks and the joined threads' are all read |
| RowRead.PackChunks | csrc/exl3/row_read.h:268-276 | the in-place packing leaves the failures of the pending rows, in order, and loses none of a later chunk |
| RowRead.AllFailsOrder | csrc/exl3/row_read.h:145-157 | those are exactly the failing rows, in strictly increasing index order, with their errors |
| RowRead.ReadBatch | csrc/exl3/row_read.h:205-277 | over a file, a table and the answers of its reads: each owned row holds its bytes of the file, at base + id * row bytes, or is in the failures, which ascend, with the last attempt's error and offset; it is read from storage unless the probe had all of it, and always so with direct reads or after a refused probe |
| RowCache.SetOfIsMod | csrc/exl3/engram_fetch.cpp:127-130 | the set of a row is the golden-ratio hash, its 64-bit product's upper word, modulo the number of sets |
| RowCache.Cache.Preload | csrc/exl3/engram_fetch.cpp:778-816 | preloading fills only empty ways, evicts nothing, caches no row twice, gives all the oldest stamp, and leaves a row out only if its set is full |
| RowCache.Cache.Probe | csrc/exl3/engram_fetch.cpp:289-322 | the probe finds exactly the cached rows, and stamps the hits with one new clock value |
| RowCache.Cache.Insert | csrc/exl3/engram_fetch.cpp:353-392 | each set's candidates go into its ways in LRU order, the rest are dropped, and the counters are the inserts and evictions |
| RowCache.EvictsLru | csrc/exl3/engram_fetch.cpp:353-391 | an entry replaced by an insert comes, by stamp and then way, before every entry of its set that stays |
| RowCache.Cache.Fetch | csrc/exl3/engram_fetch.cpp:238-405 | each owned id gets its row's bytes of the file or, if its read failed in this fetch, 127 and zeros; others get zeros and scales of 127; the rows to store are the good misses in ascending order; failed is the number of failed reads, and the cache changes as the next rows say |
| RowCache.AskedAreNewest | csrc/exl3/engram_fetch.cpp:309-317 | after a fetch the rows it asked for have newer stamps than all others, which keep theirs |
| RowCache.FetchEvictsLru | csrc/exl3/engram_fetch.cpp:353-391 | what a fetch evicts comes, by stamp after the probe and then way, before every entry of its set that stays |
| RowCache.GoodMissesCached | csrc/exl3/engram_fetch.cpp:353-391 | of each set's rows read, as many as it has ways are cached, the lowest first |
| RowCache.FetchOccupies | csrc/exl3/engram_fetch.cpp:370-391 | the number of entries that hold a row changes by inserts minus evictions |
| RowCache.ReadMisses | csrc/exl3/engram_fetch.cpp:325-347 | a failed row becomes the poison row and is not stored |
| RowCache.FailedBy | csrc/exl3/engram_fetch.cpp:325-347 | a row counts as failed only if its attempts ended in an error or at the end of the file |
| ArmSwitch.FinishedTogether | vllm_sm80/dev_ab.py:1567-1638 | if every rank votes: once one has finished all have, with the new state, each its previous one, or stopped, after the same collectives with the same verdicts |
| ArmSwitch.NeverApart | vllm_sm80/dev_ab.py:1524-1545 | until then some rank or the collective all are in can go on |
| ArmSwitch.SoundIffEven | vllm_sm80/dev_ab.py:1179-1196 | that holds in every run if and only if the switch is resolved or available on every rank, or on none |
| ArmSwitch.UnevenStuck | vllm_sm80/dev_ab.py:1567-1570 | otherwise there is a run in which the ranks that vote wait for those that raised before voting |
| ArmSwitch.OneRankRaises | vllm_sm80/dev_ab.py:1567-1570 | two ranks of which one cannot resolve the switch |
| ArmSwitch.EndsBy | vllm_sm80/dev_ab.py:1567-1638 | if every rank votes, in every run: committed exactly when all were ready, the pairs asked for are carried, the states agreed, all applied and their new states agree; refused exactly when some rank was not ready or a pair is carried nowhere; rolled back exactly when an apply or its acknowledgement failed and all restored; stopped in the rest |
| ArmSwitch.RunsOut | vllm_sm80/dev_ab.py:1567-1638 | every run ends within 13 steps a rank |
| HotSwap.Exec.Toggle | vllm_sm80/hot_swap.py:619-625 | a toggle that succeeds leaves exactly the arm's variant of each site enabled, if forced or if it was right before; it succeeds exactly when its driver calls do |
| HotSwap.HotState.Apply | vllm_sm80/hot_swap.py:724-744 | a forced apply makes every graph site and eager state its arm's, whatever a failed one left behind |
| HotSwap.HotState.SwitchOrRestore | vllm_sm80/hot_swap.py:839-856 | a switch that fails half done and is restored leaves the rank as it was; it is applied exactly when the driver calls for what changes succeed, and else restored exactly when those for everything do |
| HotSwap.UnforcedRestoreFails | vllm_sm80/hot_swap.py:619-625 | a restore without force would not |
| HoldMachine.RunVisible | vllm_sm80/parser_recovery.py:217-321 | a held candidate leaves no trace: place, tool index, fences and recovered calls are those of what was let go of alone |
| HoldMachine.RunBalances | vllm_sm80/parser_recovery.py:217-321 | for every stream, what came in is what was let go of, once and in order, with its tokens, and then what is held |
| HoldMachine.RunOk | vllm_sm80/parser_recovery.py:249-288 | a call leaves only as a whole candidate built by allowed moves from a place where it may open, and allowed to commit |
| HoldMachine.HeldLeavesWhole | vllm_sm80/parser_recovery.py:144-159 | while a candidate is held nothing leaves, until all of it does: as one text or as one call |
| HoldMachine.NothingStays | vllm_sm80/parser_recovery.py:114-123 | a whole parse lets go of everything that came in, once and in order, but for what is still held |
| HoldMachine.NothingHeld | vllm_sm80/parser_recovery.py:114-123 | nothing is held after the end, unless nothing was held before it and the engine underneath's own flush opens a candidate; in that case one is |
| HoldMachine.OpenerAtEnd | vllm_sm80/parser_recovery.py:114-116 | an opener in that flush is held and never let go of |
| HoldMachine.FinishVisible | vllm_sm80/parser_recovery.py:114-123 | the end, too, leaves the place, tool index, fences and recovered calls of the releases alone |
| HoldOutcomes.HeldOutcome | vllm_sm80/parser_recovery.py:249-288 | with a candidate held: it leaves as a call exactly when a committing terminal ends its arguments, headless only if it names a tool; the input is held too exactly when the judges allow it to grow so |
| HoldOutcomes.GivenBack | vllm_sm80/parser_recovery.py:249-321 | and in all other cases it leaves as the text it was, past the fences, the input after it if it means nothing to the candidate |
| HoldOutcomes.FreeOutcome | vllm_sm80/parser_recovery.py:125-142 | with none held: which terminals open a candidate, are text, or pass to the engine underneath |
| HoldOutcomes.PlainStream | vllm_sm80/parser_recovery.py:144-181 | text outside candidates leaves as it comes, and in the content goes past the fences |
| HoldOutcomes.CallMade | vllm_sm80/parser_recovery.py:229-288 | an opener, a valid name, arguments of the right shape and a committing closer make exactly one call, whose events are those of the engine underneath for its parts, in order |
| HoldOutcomes.HeadlessMade | vllm_sm80/parser_recovery.py:249-312 | so does a headless opener with an invalid name if the whole names a tool: the name's events are taken back and the text so far is the first argument |
| HoldOutcomes.WithoutNamesIs | vllm_sm80/parser_recovery.py:295-312 | taking the names back leaves out the name events alone and keeps the order |
| ParserHold.Engine.Take | vllm_sm80/parser_recovery.py:125-159 | one input moves the engine, and sends the events, as the machine says |
| ParserHold.Engine.TakeAll | vllm_sm80/parser_recovery.py:125-321 | a stream sends exactly the events of what it lets go of, in order |
| ParserHold.Engine.Finish | vllm_sm80/parser_recovery.py:114-123 | finish sends the rest's, the given-back candidate's and the ending's events; something is held after it exactly if that flush opened it |
| Fences.WholeLine | vllm_sm80/parser_recovery.py:183-213 | classifying a whole line follows the rule for opening and closing fences |
| Fences.ClosesIff | vllm_sm80/parser_recovery.py:183-213 | a line closes a fence exactly when it is up to three spaces, at least as many of its marks, and white space |
| Fences.OpensIff | vllm_sm80/parser_recovery.py:183-213 | and opens one exactly when it is up to three spaces, three or more backticks or tildes, and an info string, after backticks without one |
| Fences.DecidedStays | vllm_sm80/parser_recovery.py:183-213 | deciding a line early is deciding it right |
| Fences.AnyPieces | vllm_sm80/parser_recovery.py:169-181 | two ways of cutting a text leave the same fence open |
| Fences.FeedLines | vllm_sm80/parser_recovery.py:169-213 | on complete lines the fence is what classifying each whole line once gives |
| Fences.Tracker.Track | vllm_sm80/parser_recovery.py:169-181 | the tracker ends where the characters one by one would bring it |

## Left out

- FlagsProtocol.EveryRunSafe: a kernel's loads, stores and refills are steps in any order; the order its threads keep is used only in PhasesReady, which shows that it never blocks.
- WireKernel.RecvBlocks: every source is active, as both calls of the kernel make them.
- RowRead.Batch.ReadNext: a thread's turn is a whole row, read through a buffer of its own; the rows of `out` are separate values, not parts of one byte buffer.
- RowCache.Cache.Insert: tags, stamps and data of a way are one record, and the arrays a sequence field.
- RowCache.Cache.Preload: takes the preloaded bytes to be the file's, as its caller promises.
- ParserHold.Engine.Finish: whether the engine underneath passes its scanner's and lexer's rest on is a parameter (`flushes`); its body is not part of this model.
- HoldMachine.RunVisible: a transition of the engine underneath hands no text to the fence tracker; a terminal it takes as it stands may.
- HoldMachine.RunVisible: what the engine underneath does depends on place, tool index, value and tokens; its state of the arguments, which `_reset_args_state` clears on an abort, is not part of this model.
- HotSwap.HotState.Apply: graphs no longer alive (`_prune`) are taken out already.
- ArmSwitch.EndsBy: whether a rank is ready, what it carries, and whether its apply and restore succeed are inputs.
- ArmSwitch.FinishedTogether: a collective that breaks stops the rank; transport failures are not modelled.
- HostShm.EveryRunSafe: one block per rank, as `block_cap` fixes; its premise that calls are fresh is what HostShmStale.SafeIffFresh shows to be needed.
- FlagsSizes.EligibleFits: sizes in whole packs; a message that is not a multiple of 16 bytes is refused by every launch.
- Timeouts, traps, error records and `bail`: waits are served eventually.
- 32-bit overflow of the Marlin kernel's index products, and its atomic-add, zero-point and 8-bit paths.
- The pipelined fetches, the MMA and the epilogue of the Marlin kernel; writing the redo list.
- The resident-table path of the fetch, a plain copy, and its counters of time.
- The job ring of the fetch (claim, enqueue, take): a bounded queue under one lock.
- The fixed staging of captured fetches.
- CUDA launches, IPC and shared-memory setup, and the environment checks around them.
- `_bind` and the capture of graph sites: their node lists are given, and disjoint.
