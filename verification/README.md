# Safe execution on replicated cores: a verified model

The repository builds a wrapper around three 32-bit cores that can run them alone, two against
each other, or three in a vote, together with the software that moves between those modes and
repairs a core, and an AES library that runs on top. This project models the parts on which
safety rests and proves what they promise.

* **AES library.** The field GF(2^8), the two byte tables, the column transformations, key
  expansion, both ciphers, and CBC and CTR over buffers of any length (`Gf256`, `SboxTables`,
  `Columns`, `AesCipher`, `KeySchedule`, `AesModes`), each function shown to be the only one that
  meets the standard's own equations on bytes and blocks (`AesStandard.Enciphers`, `KeySchedule.Expanded`,
  `AesModes.Chains`, `Unchains` and `CountsUp`; FIPS 197, sections 4.2, 5.1, 5.2 and 5.3; NIST SP
  800-38A, sections 6.2 and 6.5).
  `Aes` and `AesContext` hold the library's code as it runs: nested loops that overwrite a state
  inside a buffer, an IV that is a pointer to the previous block, a carry loop. Each method
  is proved against the functions.
* **Bus datapath.** Elastic request registers and chains of them (`ObiPipeline`,
  `PipelineLaws`), the time-shifted pair (`Lockstep`, `LockstepLaws`, `StallLaws`), the comparator, the voter,
  the multiplexers (`DmrComparator`, `TmrVoter`, `SafeWrapper`) and the isolator (`Isolator`).
  Combinational logic is a function, clocked logic a class whose `Clock` method changes its
  registers. Cores and memories are arbitrary deterministic machines (`Cores`), so the theorems
  about runs hold for every program. `Machines` proves once and for all how a system follows a
  plain machine, in step or with a delay; `LockstepLaws`, `RedundancyLaws` and `ShiftedLaws` apply it.
* **Mode controller.** The eight coupled state machines and the error latch (`SafeFsm`), the
  invariant that keeps the modes apart with the exact condition under which it holds
  (`ModeLaws`), the latch against a count of error edges (`LatchLaws`), and the handshakes that lead
  into the vote and out of an error, with any waits and in any order (`HandshakeLaws`), and the other
  ways from mode to mode, with the bit that keeps the time shift on (`ModeChanges`). `AlarmLaws` joins it to
  the datapath: the mode that it drives, and what happens in the cycle in which a voter or a comparator objects.
* **Safety software.** Registers, control registers and word memory changed one instruction at a
  time (`Processor`); the checkpoint and the boot ROM's rollback (`Checkpoint`); and the repair of
  a corrupted core through the voter (`Resync`).

Predicates such as `Saving`, `Loaded`, `Pushed` or `IsEnc` hold a fact under a quantifier over
`Unlock`: it is opened only where a proof says so, which keeps long instruction sequences cheap.

Points where the code is followed although a reader might expect something else:

* `rtl/safe_FSM.sv:612` compares the configuration with two different values and accepts if it
  differs from either one. That is always so; `ModeLaws.SleepAlwaysEndsDual` states the consequence.
* `clear_pipeline` wins over a load in the same cycle, so a granted request can vanish.
  `PipelineLaws.ClearConservesIff` says exactly when nothing is lost.
* The time-shifted pair gates the shadow's write strobe on the data port only. A core that raises
  `we` without `req` on its instruction port would therefore be reported, and
  `LockstepLaws.PairIsTransparent` says that nothing else is, on a bus that grants each request in the
  cycle in which it is presented. That is exactly what such a pair demands of its bus: where it has a
  bubble between two requests, a stall closes the bubble, and the master gets ahead by more than the
  depth. `StallLaws.PunctualIsTransparent` and `StallLaws.AlternatingIffPunctual` are the two halves
  over all cores; for one that fetches every other cycle `StallLaws.EveryOtherIffNeverLate` has the exact
  schedules, and `StallLaws.StallRaisesAlarm` the run of the alarm.
* Nothing in the isolator waits before it lets a core off. After a request in the last isolated cycle
  an answer is lost (`Isolator.LostAnswer`) unless the memory happens to give a stale one just then;
  without a request, an answer that the memory still owes reaches a core that waits for none
  (`Isolator.StaleAnswer`). `Isolator.BalancedIff` has the exact condition.
* The master of the triple mode leaves its request for a halt after one cycle if two cores have
  been acknowledged by then. The three machines are then never in that state together, and the single
  machine stays in `SINGLE_TO_TMR` for the whole mode (`HandshakeLaws.TripleModeIsEntered`,
  `HandshakeLaws.HangsUntilTheEnd`). A pair has the same hang (`ModeChanges.PairHaltingBegins`).
* A mode that ends returns to the single mode without a new start only if the master has not taken its
  interrupt in the first cycle after it (`ModeChanges.TripleModeReturns`, `DualModeReturns`).
* A redundant mode configured while a core is halted is entered with the single machine still running,
  so its machines start cold (`ModeChanges.SingleModeSwitches`).
* `Store_Checkpoint` and the boot ROM copy no stack at all when sp equals the initial stack address,
  and otherwise copy the word at that address too.
* The boot ROM first defines the wrapper's base address as 0xF0012000 and then includes
  `base_address.h`, which defines it as 0x20000000. The model uses the latter in both programs.

## Model

| member | source | states |
|---|---|---|
| `Gf256.XtimeIsDouble` | sw/CB_device/lib/AES/aes.c:293-296 | `xtime` is multiplication by x in the field of FIPS 197 |
| `Gf256.MultiplyIsFieldMul` | sw/CB_device/lib/AES/aes.c:319-333 | the `Multiply` macro is field multiplication for every multiplier below 32 |
| `SboxTables.InvSboxSbox` | sw/CB_device/lib/AES/aes.c:78-116 | the inverse table undoes the forward table on every byte |
| `SboxTables.SboxInvSbox` | sw/CB_device/lib/AES/aes.c:78-116 | the forward table undoes the inverse table on every byte |
| `SboxTables.SboxIsAffineOfInverse` | sw/CB_device/lib/AES/aes.c:78-95 | the forward table is the affine image of the multiplicative inverse, as section 5.1.1 of FIPS 197 defines it |
| `Columns.MixColumnIsMatrix` | sw/CB_device/lib/AES/aes.c:299-312 | the running XOR form of MixColumns is the matrix product over the field (section 5.1.3) |
| `Columns.InvMixColumnIsMatrix` | sw/CB_device/lib/AES/aes.c:349-365 | InvMixColumns is the product with the inverse matrix |
| `Columns.CirculantsCompose` | sw/CB_device/lib/AES/aes.c:299-365 | two such products are one, whose entries are sums of field products |
| `Columns.InvMixColumnUndoesMixColumn` | sw/CB_device/lib/AES/aes.c:349-365 | InvMixColumns undoes MixColumns on every column |
| `Columns.MixColumnUndoesInvMixColumn` | sw/CB_device/lib/AES/aes.c:299-312 | MixColumns undoes InvMixColumns on every column |
| `AesCipher.ShiftRowsRotates` | sw/CB_device/lib/AES/aes.c:265-291 | ShiftRows rotates row r by r columns |
| `AesCipher.UndoRounds` | sw/CB_device/lib/AES/aes.c:412-470 | the loop of the inverse cipher, counting down, undoes the loop of the cipher, counting up, from any round on |
| `AesCipher.RedoRounds` | sw/CB_device/lib/AES/aes.c:412-470 | the same in the other direction |
| `AesCipher.InvCipherUndoesCipher` | sw/CB_device/lib/AES/aes.c:448-470 | for every block, every round-key array and every number of rounds the inverse cipher undoes the cipher |
| `AesCipher.CipherUndoesInvCipher` | sw/CB_device/lib/AES/aes.c:412-445 | ... and the cipher the inverse cipher |
| `AesStandard.CipherIsStandard` | sw/CB_device/lib/AES/aes.c:412-445 | the cipher of a block is the one block that the rounds of section 5.1 lead to, byte by byte: the first key added; in each round row j of column c from the substituted row j of column c + j, times the matrix, plus the key; and in the last round no matrix |
| `AesStandard.InvCipherIsStandard` | sw/CB_device/lib/AES/aes.c:448-470 | the inverse cipher gives the one block that these rounds encrypt to its input |
| `KeySchedule.ScheduleStartsWithKey` | sw/CB_device/lib/AES/aes.c:150-157 | a schedule of any length starts with the words of the key |
| `KeySchedule.ScheduleIsStandard` | sw/CB_device/lib/AES/aes.c:145-216 | for every key size, substitution and length: the schedule is the one byte sequence that starts with the key and in which each later byte is the byte Nk words before it plus, at multiples of Nk, the substituted byte after the one before, plus the power of x in the first place; halfway through eight words the substituted byte before; and else the byte before (section 5.2) |
| `KeySchedule.RconUsed` | sw/CB_device/lib/AES/aes.c:119-120 | every access to the table of round constants is in range, never at entry 0, and reads the power of x that the standard asks for |
| `AesModes.CbcDecryptUndoesEncrypt` | sw/CB_device/lib/AES/aes.c:510-538 | CBC decryption undoes encryption from the same IV, for any number of blocks |
| `AesModes.CbcEncryptUndoesDecrypt` | sw/CB_device/lib/AES/aes.c:510-538 | ... and encryption decryption |
| `AesModes.CbcEncryptSplits` | sw/CB_device/lib/AES/aes.c:510-523 | two encryption calls, the second with the IV that the first leaves, are one call |
| `AesModes.CbcDecryptSplits` | sw/CB_device/lib/AES/aes.c:525-538 | the same of decryption |
| `AesModes.NextIvComposes` | sw/CB_device/lib/AES/aes.c:521-536 | the IV that two calls leave is the one that a single call leaves |
| `AesModes.CbcEncryptIsStandard` | sw/CB_device/lib/AES/aes.c:510-523 | CBC encryption is the one buffer in which each block is the encryption of the plaintext block plus the block before it, or the IV |
| `AesModes.CbcDecryptIsStandard` | sw/CB_device/lib/AES/aes.c:525-538 | CBC decryption is the one buffer in which each block is the decryption of the ciphertext block plus the ciphertext block before it, or the IV |
| `AesModes.IncrementAddsOne` | sw/CB_device/lib/AES/aes.c:561-572 | the byte-wise increment adds one to the big-endian number, modulo 2^128 |
| `AesModes.CounterAdvances` | sw/CB_device/lib/AES/aes.c:553-577 | n increments add n modulo 2^128 |
| `AesModes.CounterBlockIs` | sw/CB_device/lib/AES/aes.c:561-572 | exactly one block has the number k more than that of the IV, modulo 2^128, and k increments make it |
| `AesModes.CtrCountsUp` | sw/CB_device/lib/AES/aes.c:547-578 | byte i is masked with byte i mod 16 of the encryption of the block whose number is i / 16 more than that of the IV (section 6.5 and appendix B.1 of NIST SP 800-38A) |
| `AesModes.CtrTwice` | sw/CB_device/lib/AES/aes.c:547-578 | CTR applied twice from one counter is the identity, for any length |
| `AesModes.CtrSplits` | sw/CB_device/lib/AES/aes.c:547-578 | two calls split at a block boundary are one call, and so are the counters that they leave |
| `Aes.AddRoundKey` | sw/CB_device/lib/AES/aes.c:236-246 | in place, the state in a buffer becomes its XOR with the round key; the rest of the buffer is untouched |
| `Aes.SubBytes` | sw/CB_device/lib/AES/aes.c:250-260 | the nested loops substitute each byte once |
| `Aes.InvSubBytes` | sw/CB_device/lib/AES/aes.c:370-380 | the same with the inverse table |
| `Aes.ShiftRows` | sw/CB_device/lib/AES/aes.c:265-291 | the assignments through one temporary byte permute the state as specified |
| `Aes.InvShiftRows` | sw/CB_device/lib/AES/aes.c:382-408 | ... and as the inverse is specified |
| `Aes.MixColumns` | sw/CB_device/lib/AES/aes.c:299-312 | the in-place loop mixes every column from its old bytes |
| `Aes.InvMixColumns` | sw/CB_device/lib/AES/aes.c:349-365 | the in-place loop unmixes every column |
| `Aes.Cipher` | sw/CB_device/lib/AES/aes.c:412-445 | the loop that exits in its middle leaves the block's encryption by the standard's rounds, and changes nothing else |
| `Aes.InvCipher` | sw/CB_device/lib/AES/aes.c:448-470 | the loop that counts down leaves the block whose encryption by the standard's rounds the old one is |
| `AesContext.KeyExpansion` | sw/CB_device/lib/AES/aes.c:145-216 | the round-key array meets the byte equations of section 5.2, for all three key sizes |
| `AesContext.AesCtx.constructor` | sw/CB_device/lib/AES/aes.c:223-227 | a new context holds the schedule of its key, of 176, 208 or 240 bytes, and its IV |
| `AesContext.AesCtx.CbcEncryptBuffer` | sw/CB_device/lib/AES/aes.c:510-523 | in place, each block up to the next block boundary becomes the encryption of itself plus the new block before it, or the IV; the rest is untouched, and the IV becomes the last ciphertext block |
| `AesContext.AesCtx.CbcDecryptBuffer` | sw/CB_device/lib/AES/aes.c:525-538 | in place, each such block becomes its decryption plus the old block before it, or the IV, and the IV becomes the last block of the old buffer |
| `AesContext.AesCtx.CtrXcryptBuffer` | sw/CB_device/lib/AES/aes.c:547-578 | in place, byte i is masked with byte i mod 16 of the encrypted block whose number is i / 16 more than that of the IV, and the IV becomes the block that is one more for each started block |
| `AesContext.AesCtx.IncrementIv` | sw/CB_device/lib/AES/aes.c:561-572 | the carry loop over the IV is the 128-bit increment |
| `AesContext.EncryptorInverse` | sw/CB_device/lib/AES/aes.c:412-470 | the two block functions of one key schedule are inverse |
| `AesContext.CbcRoundTrip` | sw/CB_device/lib/AES/aes.c:501-538 | CBC under AES: each call undoes the other, for every key schedule, IV and buffer of whole blocks |
| `ObiPipeline.SingleRegister.Clock` | rtl/obi_sngreg.sv:29-118 | one edge of the register: grant, load, hold and clear, with clear winning |
| `ObiPipeline.StepAt` | rtl/obi_pipelined_delay.sv:24-56 | each stage of a chain of any depth latches what is before it under the grant from behind it |
| `ObiPipeline.PipelinedDelay.Clock` | rtl/obi_pipelined_delay.sv:24-56 | one edge of all stages in place, with the grant passed back combinationally |
| `PipelineLaws.StepConserves` | rtl/obi_sngreg.sv:29-43 | one cycle loses, invents, reorders and alters no request, for any depth |
| `PipelineLaws.PipelineIsFifo` | rtl/obi_pipelined_delay.sv:24-56 | over every run with clear low, accepted requests are the emitted ones followed by the stored ones, in order |
| `PipelineLaws.FifoFromReset` | rtl/obi_pipelined_delay.sv:24-56 | from reset the output is a prefix of the input and lags by at most one request a stage |
| `PipelineLaws.RefusedOnlyWhenFull` | rtl/obi_sngreg.sv:29-30 | a request is granted if and only if a stage is free or the bus grants |
| `PipelineLaws.StalledOutputHolds` | rtl/obi_sngreg.sv:38-118 | a request that the bus has not granted keeps all its fields |
| `PipelineLaws.ClearConservesIff` | rtl/obi_sngreg.sv:34-58 | with clear high nothing is lost if and only if the core asks for nothing and only the output stage holds a request, which leaves |
| `PipelineLaws.ClearDropsGranted` | rtl/obi_sngreg.sv:29-58 | a request that is granted in a cycle with clear vanishes |
| `PipelineLaws.GrantedAtOnce` | rtl/obi_sngreg.sv:29-58 | on a bus that grants whatever is presented, idle grants or not, the core is granted exactly what it asks and every stage hands on |
| `PipelineLaws.ExactDelay` | rtl/obi_pipelined_delay.sv:24-56 | then stage i holds the input of i + 1 cycles ago |
| `PipelineLaws.OutputIsDelayedInput` | rtl/obi_pipelined_delay.sv:24-56 | ... and the bus sees each request as many cycles late as there are stages |
| `DmrComparator.Compare` | rtl/dmr_comparator.sv:31-67 | an error if and only if a bus could tell the two cores' requests apart; both ports carry zero on an error and the first core's requests otherwise |
| `DmrComparator.MeaningIsObserved` | rtl/dmr_comparator.sv:31-53 | two requests mean the same if and only if a slave that looks at an address only under a request and at write data only under a write sees no difference in any field |
| `Lockstep.ShiftIn` | rtl/lockstep_reg.sv:133-162 | the registers of a delay shift by one place, in place |
| `Lockstep.LockstepReg.Clock` | rtl/lockstep_reg.sv:39-163 | one edge of both pipes and both response delays, and what each core and the comparator see in the cycle |
| `Lockstep.InterruptDelay.Clock` | rtl/safe_cpu_wrapper.sv:680-712 | one edge of the delay of the interrupt lines |
| `LockstepLaws.AlignedComparison` | rtl/lockstep_reg.sv:103-126 | in an aligned pair the comparator objects if and only if the shadow strobes an instruction write without a request |
| `LockstepLaws.StaysAligned` | rtl/lockstep_reg.sv:39-163 | a cycle in which the bus grants the common request keeps the pair aligned |
| `LockstepLaws.PairIsTransparent` | rtl/lockstep_reg.sv:39-163 | on a bus that grants each presented request at once (`StallLaws` shows that no weaker demand suits all cores), for every core, depth and stream of answers, and with idle grants for every core that ignores them: no error ever, if and only if no such strobe; and then master, shadow and bus do what one core alone would do, shadow and bus late |
| `LockstepLaws.ExactlyBehind` | rtl/lockstep_reg.sv:39-163 | the shadow is where the master was exactly as many cycles ago as the delay is long |
| `StallLaws.PunctualIsTransparent` | rtl/lockstep_reg.sv:39-163 | for every depth and every well-behaved core (no instruction write strobe without a request, indifferent to idle grants), whatever the bus grants: if it grants each presented request at once, an aligned pair never raises an error, and the bus sees what one core alone would do |
| `StallLaws.AlternatingIffPunctual` | rtl/lockstep_reg.sv:103-126 | nothing less suits every such core: at every depth, a healthy aligned pair of a core that asks on its two ports in turn, and keeps each request until it is granted, runs without an error if and only if each presented request is granted at once |
| `StallLaws.FixedScheduleIffReady` | rtl/lockstep_reg.sv:103-126 | grants fixed in advance suit that pair in both of its phases if and only if they are given on both ports in every cycle but the last |
| `StallLaws.EveryOtherIffNeverLate` | rtl/obi_sngreg.sv:38-118 | at every depth and for every grant schedule: an aligned pair of a core that fetches, waits for its grant and then idles for a cycle runs without an error if and only if no request is kept waiting and then granted |
| `StallLaws.StallRaisesAlarm` | rtl/lockstep_reg.sv:103-126 | ... so at every depth, from every such pair that presents its request, after any number of stalled cycles the comparator objects in the cycle after the grant, gates both ports, and is silent before |
| `LockstepLaws.SleepingPairIsAligned` | rtl/safe_cpu_wrapper.sv:660-678 | two cores asleep in one state behind settled pipes are aligned |
| `LockstepLaws.DisabledPipesSettle` | rtl/obi_sngreg.sv:34-118 | the pipes of a disabled pair settle on the idle request after as many cycles as there are stages |
| `LockstepLaws.DisabledRegisters` | rtl/lockstep_reg.sv:133-162 | over any such run all registers are then idle requests and the answers that were delayed when the pair was disabled, whatever the bus answers meanwhile |
| `TmrVoter.Vote` | rtl/tmr_voter.sv:41-123 | for any three ports: every voted bit is set in at least two of them, each core is accused that the bus could tell from the vote, and an error is reported if and only if that happens on a port on which two cores request |
| `TmrVoter.VerdictIff` | rtl/tmr_voter.sv:41-123 | this determines all that the voter puts out |
| `TmrVoter.CheckBus` | rtl/tmr_voter.sv:90-114 | the loop sets exactly the bits of the cores that differ |
| `TmrVoter.MajorityPerBit` | rtl/tmr_voter.sv:41-80 | each voted bit is the one that at least two cores drive |
| `TmrVoter.TwoRequestsWin` | rtl/tmr_voter.sv:41-80 | two equal requests win, in all fields, wherever the third is |
| `TmrVoter.OneFaultIsOutvoted` | rtl/tmr_voter.sv:41-123 | with at most one core off, the vote is the common request, no other core is accused, that one exactly when a bus could tell the difference, and an error is reported exactly when it could on a port on which the others request |
| `SafeWrapper.TmrRoutes` | rtl/safe_cpu_wrapper.sv:259-333 | in a vote the master's bus carries the vote of the three cores and the other buses are silent |
| `SafeWrapper.TmrAnswers` | rtl/safe_cpu_wrapper.sv:359-372 | in a vote all three cores hear the master's bus |
| `SafeWrapper.DualRoutes` | rtl/safe_cpu_wrapper.sv:561-597 | in a dual mode the master's comparator gets master and slave, for all six choices, and the third core reaches no bus |
| `SafeWrapper.DualAnswers` | rtl/safe_cpu_wrapper.sv:359-393 | master and slave hear the master's bus, the third core does not |
| `SafeWrapper.ShiftedRoutes` | rtl/safe_cpu_wrapper.sv:373-390 | in the time-shifted mode the lockstep registers of the master's comparator stand between both cores and the bus, and the third core hears nobody |
| `SafeWrapper.SingleRoutes` | rtl/safe_cpu_wrapper.sv:285-331 | without vote and comparison each core drives its own bus, nobody is accused, no comparator objects, and each core hears its own bus unless its isolator answers |
| `SafeWrapper.AsleepIffIsolated` | rtl/safe_cpu_wrapper.sv:359-363 | in any mode a core hears its isolator if and only if it is put to sleep |
| `RedundancyLaws.TmrBus` | rtl/safe_cpu_wrapper.sv:259-333 | one cycle of the vote with an arbitrary faulty core carries the fault-free request |
| `RedundancyLaws.VoteMasksOneCore` | rtl/tmr_voter.sv:41-123 | for all cores, memories, masters and faults: the bus trace is the fault-free one for ever, the healthy cores stay equal, and only the faulty one is ever accused |
| `RedundancyLaws.DualVisible` | rtl/safe_cpu_wrapper.sv:604-606 | one cycle of the unshifted dual mode with one corrupted core: the bus means what it should, or every port carries zero |
| `RedundancyLaws.ComparisonIsFailSilent` | rtl/safe_cpu_wrapper.sv:604-606 | in the unshifted dual mode, for all cores, memories and corruptions: every bus request up to the first error means the same as the fault-free one, and in the cycle of the error every port carries zero |
| `ShiftedLaws.ShiftedBus` | rtl/safe_cpu_wrapper.sv:601-603 | in the time-shifted mode the bus carries the master's delayed request if it means the same as the shadow's own, and zero otherwise |
| `ShiftedLaws.ShiftedComparisonIsFailSilent` | rtl/dmr_comparator.sv:31-67 | in the time-shifted mode, for all cores, depths, memories and grants, stalls included, and any corruption of the other cores: up to the first error every bus request means what the healthy shadow stands for, one core that hears everything late; with a healthy master it is what that core sends through its pipes; and in the cycle of the error every port carries zero |
| `ShiftedLaws.SoundPairIsOneCore` | rtl/lockstep_reg.sv:39-163 | closed with a memory that grants at once, an aligned pair without a corruption alarms if and only if its core strobes an instruction write without a request, and otherwise the bus carries for ever what that core alone would request |
| `ShiftedLaws.ReferencesAreOneCore` | rtl/lockstep_reg.sv:39-163 | from such a start both references of the fail-silence theorem carry what that one core would request |
| `Isolator.BusIsolator.Clock` | rtl/safe_cpu_wrapper.sv:409-453 | one edge of the two bits; the core hears the memory outside isolation, and inside it is granted what it asks and given the filler |
| `Isolator.HearsIff` | rtl/safe_cpu_wrapper.sv:361-453 | for every run, fair or not: outside isolation the core hears the memory; inside it each request is granted at once, and the filler comes exactly when the last isolated cycle had a request or, in the first, when the memory has granted one that it has not answered |
| `Isolator.WordsInOrder` | rtl/safe_cpu_wrapper.sv:361-453 | so over every run the words that the core gets are, in order, the memory's words outside isolation and one filler for each answer due inside |
| `Isolator.BalancedIff` | rtl/safe_cpu_wrapper.sv:361-429 | for every run in which the memory answers only what it owes, however isolation begins and ends: the two bits stand for the one answer that is due, throughout, if and only if each switch out is even: in its first cycle the memory owes one answer and gives it if the last isolated cycle had a request, and owes none if it had not |
| `Isolator.StaysBalanced` | rtl/safe_cpu_wrapper.sv:409-429 | on runs with even switches the two bits stand for the one answer that is due: to the core always, and by the memory outside isolation; and each answer has its pending grant |
| `Isolator.IsolationConserves` | rtl/safe_cpu_wrapper.sv:361-429 | across any number of switches in and even switches out the core never gets an answer without a pending grant, and one for each grant but the last |
| `Isolator.LettingGoConservesIff` | rtl/safe_cpu_wrapper.sv:415-423 | the first cycle after isolation, whatever the memory still owes, keeps the account if and only if the memory owes one answer and gives it, after a request in the last isolated cycle, or owes none, after none |
| `Isolator.LostAnswer` | rtl/safe_cpu_wrapper.sv:415-423 | after a request, with nothing owed, an answer is due that no bit stands for |
| `Isolator.StaleAnswer` | rtl/safe_cpu_wrapper.sv:415-423 | without a request, an answer that the memory still owes reaches a core that has got all of its answers |
| `SafeFsm.Controller.Clock` | rtl/safe_FSM.sv:143-149 | one edge of all eight machines, the latch and the delay bit, all from the same old state |
| `SafeFsm.Controller.ClockLatch` | rtl/safe_FSM.sv:799-810 | the clocked assignments of the latch, where later ones win |
| `ModeLaws.SleepAlwaysEndsDual` | rtl/safe_FSM.sv:609-616 | in any configuration a synchronous dual machine leaves its state for rest if and only if all cores sleep |
| `ModeLaws.TmrKeptIff` | rtl/safe_FSM.sv:160-211 | one cycle keeps the invariant of the triple mode if and only if it meets the guard: sleep that ends the mode finds all machines synchronous or none, and the mode is entered with all machines lingering in their last state or none |
| `ModeLaws.DmrKeptIff` | rtl/safe_FSM.sv:197-205 | the same of the dual mode, for the machines in a stable mask |
| `ModeLaws.DisciplineIff` | rtl/safe_FSM.sv:160-645 | on every run from reset under a stable mask, of any length: both invariants hold throughout if and only if every cycle meets the guards |
| `ModeLaws.ModesExclude` | rtl/safe_FSM.sv:752-753 | on every such run the voter works only at boot or in the triple mode, the comparators only in the dual mode, and never both |
| `ModeLaws.OrderlyIsGuarded` | rtl/safe_FSM.sv:415-430 | no new configuration while a machine lingers, and no sleep of all cores while the machines differ, are enough for the guards |
| `ModeLaws.ConfigurationMatters` | rtl/safe_FSM.sv:424-430 | without the condition on the configuration a run from reset enables both |
| `ModeLaws.SleepMatters` | rtl/safe_FSM.sv:415-419 | without the condition on sleep likewise |
| `ModeLaws.MaskMatters` | rtl/safe_FSM.sv:566-578 | without the stable mask likewise |
| `LatchLaws.AlignedUntilTheEnd` | rtl/safe_FSM.sv:403-442 | three TMR machines aligned in a state with common guards are equal in every cycle until they end the mode |
| `LatchLaws.LatchEmptyOnEntry` | rtl/safe_FSM.sv:807-808 | machines that enter the synchronous state together find the latch empty |
| `LatchLaws.SyncStep` | rtl/safe_FSM.sv:799-813 | one cycle of the synchronous state in terms of the edges counted so far |
| `LatchLaws.LatchCountsEdges` | rtl/safe_FSM.sv:799-813 | over a stretch of any length the pending bit says "exactly one edge so far" |
| `LatchLaws.RecoveryStartsIff` | rtl/safe_FSM.sv:415-422 | recovery starts if and only if the second edge is reached, or the first outside a critical section, unless all cores sleep and the mode is being left |
| `HandshakeLaws.HaltingIff` | rtl/safe_FSM.sv:394-407 | for every run and order of acknowledgements, from any mixture of halting and waiting machines: no machine passes TMR_WAIT_SH if and only if the cores are never all asleep while one machine waits there; and then a machine waits if and only if it did or has been acknowledged, and a single machine that meets all three halting is released |
| `HandshakeLaws.HaltedTogether` | rtl/safe_FSM.sv:394-407 | once every machine waits or has been acknowledged, in any order, the three are aligned; sleep of all cores before any machine waits does not matter |
| `HandshakeLaws.TripleModeIsEntered` | rtl/safe_FSM.sv:370-413 | for any master, any waits and any order of halting, early acknowledgements included: the way from the single mode ends with the three machines synchronous together, voting, with no error pending; and the single machine is released if and only if there were not two acknowledgements in the cycle in which the other machines follow |
| `HandshakeLaws.HangsUntilTheEnd` | rtl/safe_FSM.sv:289-292 | otherwise it is not released in any run, as long as the triple mode lasts |
| `HandshakeLaws.WaitsAndGoes` | rtl/safe_FSM.sv:403-442 | aligned machines wait together any number of cycles for the signal of their state, and leave it together |
| `HandshakeLaws.RepairReturns` | rtl/safe_FSM.sv:415-442 | an error that is due interrupts all three cores; after any waits until all have taken and all have left the interrupt, they are synchronous again with nothing pending |
| `HandshakeLaws.RepairHolds` | rtl/safe_FSM.sv:433-442 | for every run: repair ends only there, and the vote is never off |
| `HandshakeLaws.RollbackIff` | rtl/safe_FSM.sv:609-631 | for every run under a fixed mask, with errors and acknowledgements in any order: the cores of the mask stay on the way back, and compared, if and only if the cores are never all asleep while one machine is synchronous |
| `HandshakeLaws.ErrorStops` | rtl/safe_FSM.sv:774-779 | under each master its own comparator's error, and no other, stops an awake synchronous machine |
| `HandshakeLaws.RollbackReturns` | rtl/safe_FSM.sv:618-631 | each stopped machine returns in its own time, whatever the others do and however long each acknowledgement takes |
| `AlarmLaws.PairIsCompared` | rtl/safe_cpu_wrapper.sv:208-237 | two dual machines that compare, in any states, drive the datapath into the mode that compares exactly their two cores, shifted in time if the shift is on, and isolate exactly the stopped ones |
| `AlarmLaws.TripleIsVoted` | rtl/safe_cpu_wrapper.sv:208-237 | three aligned triple machines drive it into the vote over the three cores |
| `AlarmLaws.StoppedIsIsolated` | rtl/safe_cpu_wrapper.sv:359-363 | a core hears its isolator if and only if its dual machine is stopped |
| `AlarmLaws.DualAlarm` | rtl/safe_FSM.sv:609-616 | datapath and controller in step, for all cores, memories, corruptions of one core and other comparators: up to the first error the bus means what it should and both machines are synchronous; in its cycle every bus is silent and both machines stop |
| `AlarmLaws.ShiftedAlarm` | rtl/safe_FSM.sv:609-616 | the same of the time-shifted pair, for every depth and all grants, while the shadow is healthy |
| `AlarmLaws.ErrorLineTells` | rtl/tmr_voter.sv:118-120 | for all cores, memories, masters, faulty cores and runs: the voters' error line is high in exactly the cycles in which a bus could tell the faulty core from a request of the fault-free core |
| `AlarmLaws.FirstTellingCycleRepairs` | rtl/safe_FSM.sv:415-422 | so outside critical sections repair starts with exactly the first such cycle |
| `ModeChanges.ShiftIff` | rtl/safe_FSM.sv:757-772 | for every run: the delay bit is set if and only if a comparing machine that is not stopped has met configuration 11 and all cores have not slept under configuration 00 since, or it was set at the start and that has never happened |
| `ModeChanges.ShiftLasts` | rtl/safe_FSM.sv:757-772 | so the time shift is on without a gap, through every rollback, from the first cycle in which it is asked for until then |
| `ModeChanges.PowersUp` | rtl/safe_FSM.sv:166-174 | from reset the cores boot under the vote until all of them sleep, and nothing else is in use |
| `ModeChanges.SingleModeRuns` | rtl/safe_FSM.sv:256-308 | the single mode from idle to idle: it waits until exactly the master is halted, and runs until its program has ended and all cores sleep, with any waits |
| `ModeChanges.SingleStopsIff` | rtl/safe_FSM.sv:278-282 | a stop from outside takes effect if and only if no core is halted and the program has not ended |
| `ModeChanges.SingleModeStops` | rtl/safe_FSM.sv:281-304 | it then waits until all cores are awake, and is idle again |
| `ModeChanges.SingleModeSwitches` | rtl/safe_FSM.sv:283-287 | a redundant mode configured meanwhile is entered through the handshakes if and only if no core is halted at that moment |
| `ModeChanges.ModesStart` | rtl/safe_FSM.sv:175-181 | from idle each configuration starts exactly the machines of its mode |
| `ModeChanges.TripleMachineBoots` | rtl/safe_FSM.sv:384-392 | each triple machine boots in its own time, voting |
| `ModeChanges.DualMachineBoots` | rtl/safe_FSM.sv:580-588 | each dual machine boots in its own time, comparing |
| `ModeChanges.PairHaltingBegins` | rtl/safe_FSM.sv:566-596 | the way of a pair from the single mode, for any wait: the slave follows its master by a cycle, and the single machine is released if and only if the slave was not acknowledged, alone, in that cycle |
| `ModeChanges.PairMachineJoins` | rtl/safe_FSM.sv:590-607 | each machine of the pair then joins in its own time, through all three waits |
| `ModeChanges.TripleModeReturns` | rtl/safe_FSM.sv:261-273 | sleep that ends the vote leads back to the single mode in two cycles, and the single machine goes on running if and only if the master has not taken its interrupt by then; else it starts again from a halt |
| `ModeChanges.DualModeReturns` | rtl/safe_FSM.sv:261-273 | the same of a pair |
| `ModeChanges.RedundantModesFinish` | rtl/safe_FSM.sv:416-417 | machines of either mode that sleep at the end of their program are idle, and so is the controller once the start bit is low |
| `Checkpoint.Spill` | sw/CB_device/lib/safety/CB_Safety.c:582-587 | the five borrowed registers are in the words below sp |
| `Checkpoint.CopyStack` | sw/CB_device/lib/safety/CB_Safety.c:600-607 | the loop that exits only on pointer equality ends, has copied the words up to and including the top one, and touched nothing else |
| `Checkpoint.SaveContext` | sw/CB_device/lib/safety/CB_Safety.c:611-746 | the frame holds the context as it was on entry, borrowed registers included, and every register is back |
| `Checkpoint.StoreCheckpoint` | sw/CB_device/lib/safety/CB_Safety.c:581-751 | the copy area holds the frame and the stack, the registers are unchanged, and memory elsewhere is unchanged but for the words below sp |
| `Checkpoint.LoadWords` | ip/CB_boot_rom/CB_boot_rom.S:349-355 | the loop of the ROM, with sp itself as a pointer, ends and has copied the words back |
| `Checkpoint.LoadStack` | ip/CB_boot_rom/CB_boot_rom.S:343-360 | the stack is back, sp too, and the frame is intact |
| `Checkpoint.LoadRegisters` | ip/CB_boot_rom/CB_boot_rom.S:239-331 | every register comes from its word of the frame, and dpc from the last one |
| `Checkpoint.HaltBoot` | ip/CB_boot_rom/CB_boot_rom.S:196-363 | the whole context comes from the frame, and the stack from behind it exactly when a rollback is requested and the stack is not empty |
| `Checkpoint.FrameSurvives` | ip/CB_boot_rom/CB_boot_rom.S:198-225 | after any execution that leaves the copy alone the ROM finds the addresses, the frame and a stack pointer that fits |
| `Checkpoint.CheckpointRoundTrip` | sw/CB_device/lib/safety/CB_Safety.c:581-751 | checkpoint, any such execution, rollback: all registers, the five control registers and every stack word are back, dpc is the end of the checkpoint, and nothing else is rolled back |
| `Checkpoint.PointerMeetsIff` | sw/CB_device/lib/safety/CB_Safety.c:604-607 | pointers that move in steps of four meet if and only if they start at a multiple of four from each other, around the end of memory too |
| `Resync.VotePerBit` | rtl/tmr_voter.sv:41-80 | the vote on words as numbers is the majority of each bit |
| `Resync.AgreedAddress` | rtl/safe_cpu_wrapper.sv:364-372 | an address relative to a register that two cores have right is voted right |
| `Resync.Enter` | sw/CB_device/lib/safety/CB_Safety.c:207-216 | a4 and a5 are voted on their way through the stack, before anything else is |
| `Resync.Transfer` | sw/CB_device/lib/safety/CB_Safety.c:218-384 | pushing and popping leave every core with the votes, in registers and control registers |
| `Resync.HandlerTmrRecoverySync` | sw/CB_device/lib/safety/CB_Safety.c:205-390 | for any three register files in which two agree on sp: all cores end equal, each register and control register is the bitwise majority of its three old values, and memory at and above sp is unchanged |

## Left out

- The CPU cores, the crossbars, the register and bus bridges: arbitrary deterministic machines stand for cores and memory; vendored modules are not part of this model.
- Instruction timing, misaligned accesses and traps: each instruction is one step, each load or store one aligned bus access; `fence` has no effect on the model's memory.
- Private registers of the cores: accesses to them never reach the voted bus, so the two acknowledge writes of the recovery handler have no effect in `Resync`.
- `Safe_Activate`, `Safe_Stop`, `handler_tmr_dmcontext_copy`, `Check_RF`: the first three are driver protocols around the controller and do not save a whole context unchanged, the last is a self-test.
- Rollback of globals and heap: a checkpoint holds registers, control registers and the stack only, and `Checkpoint.CheckpointRoundTrip` says that nothing else comes back.
- Key size: the source fixes Nk and Nr when it is compiled, the model takes them as parameters, so all three are covered at once.
- ECB entry points and setting the IV alone: single calls of routines that are modelled; they would only add easy members.
- Lengths near the limit of `size_t`: lengths are unbounded numbers, so a length whose rounding up overflows is not covered.
- Cryptographic strength and side channels of the AES library: only its functional correctness is stated.
- Interrupt lines of the time-shifted pair: `LockstepLaws` and `ShiftedLaws` give both cores the same lines (the shadow's late), although the wrapper could drive them differently.
- Sleep register, master-core register, interrupt pulse, start-up latches: small clocked bits around the modelled ones, constant inputs here.
- Outputs of the controller that do not reach the datapath (halt requests, interrupts, boot flags): combinational decodings of a state, without a law of their own.
- Generated register files, address maps, linker script, start-up code, scripts and FPGA cells: plumbing.
