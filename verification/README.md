# A 16-bit multi-cycle CPU, its models and its tools

This project models a 16-bit CPU at three levels and the tools around it, and proves how the levels relate.

- **Instruction set** (`Isa.dfy`, `Words.dfy`): the independent definition. Flags are stated by arithmetic: C is unsigned carry or
  borrow, V says that the signed result does not fit. Bitwise operators are defined bit by bit.
- **RTL** (`Alu.dfy`, `Controller.dfy`, `Rtl.dfy`, `Datapath.dfy`): the ALU, the controller with its stage codes, the eight-state
  stage machine and one clock cycle of the core with its memory, for the shared-bus core and for the split-bus core. `Datapath.dfy`
  has the clocked modules as classes; the wired core is proved equal to the clock-cycle function of `Rtl.dfy`.
- **Refinement** (`Refinement.dfy`, `Retirement.dfy`): three, four or five cycles are one instruction, over whole runs, for every
  memory image including self-modifying ones, and after resets at any time.
- **Software models** (`SoftwareFlags.dfy`, `Reference.dfy`, `Golden.dfy`, `Agreement.dfy`): the Python reference model with its
  event log and the C++ golden model, each a class whose step is proved equal to a step of the instruction set, and their runs side by
  side.
- **Runs** (`Halting.dfy`, `History.dfy`, `Calls.dfy`, `Carry.dfy`): exact halt detection, the event log as a history of memory,
  call and return, carry chains of any length.
- **Lock-step checker** (`Lockstep.dfy`): the differential testbench, its verdict and its termination.
- **Assembler** (`Assembler.dfy`, `SourceMachine.dfy`, `AssemblerCorrect.dfy`, `Encoding.dfy`, `SourceProgress.dfy`,
  `SourceInRtl.dfy`, `Hex.dfy`): layout, labels and encoding; the exact words of every line in plain arithmetic; a meaning of source
  that knows no encoding; the proof that assembling keeps that meaning, in both directions and down to the cycles of the RTL; the hex
  text between assembler and models.
- **Generator** (`Generator.dfy`, `GeneratorShape.dfy`, `GeneratorHalts.dfy`, `GeneratorAccepts.dfy`, `GeneratorTargets.dfy`,
  `GeneratorBranches.dfy`, `GeneratorOperations.dfy`, `GeneratorSetup.dfy`): a random program as a function of arbitrary choices, the
  exact condition under which the assembler accepts one, the proof that each accepted one halts, across generator, assembler,
  instruction set, RTL and checker, when the branches that it executes are taken, what every operation does whenever it is reached,
  and in which state loop and halt are entered.

Words are integers below 65536. Wrap-around, 17-bit and 32-bit intermediate results are written out where the source has them.
`x & (2^k - 1)` is the Euclidean remainder, also for negative x, as in Python; disjoint fields are joined by adding them.

Where code and documentation disagree, the code is followed:

- README.md:79-84 of the repository splits instructions on bit 15 of the instruction; the code lists the opcodes that need a second
  word (vsrc/execution_stage_fsm.sv:29-32), and so does the model.
- README.md:408-409 says that the reference model lacks the extensions; it has them, RET included.
- The golden model has no RET (verilator_tb/golden_isa.h:254-256), and throws on it.
- On an unsupported opcode both software models fail, while the RTL executes a one-word no-op. The instruction set here is total, with
  that no-op, so the RTL results hold for all images; the software models are compared on supported opcodes, and their failures stated.
- A conditional branch with offset zero is never recorded as taken in the event log (model/reference_model.py:132-134). The exact
  condition and a concrete case are proved.
- The generator never meets its targets jrc_not_taken and jrnc_not_taken (model/generate_random_tests.py:88-93): with the first, every
  JRC that an accepted program executes is taken; with the second, no program has a JRNC. Targets also shadow each other; which of
  them can be met is stated for every set of targets.
- The default budget of 256 steps of the reference model (model/reference_model.py:373) is below the proved bound for some generated
  programs; what budget suffices is stated for every loop count.

## Model

| member | source | states |
|---|---|---|
| Retirement.RunRefines | vsrc/cpu_core.sv:88-300 | From any fetch-stage state and memory image, n instructions take exactly TotalCycles clock cycles and leave PC, registers, flags and memory as n steps of the instruction set do |
| Retirement.FetchMeansRetired | vsrc/cpu_core.sv:88-300 | Whenever the machine is back in the fetch stage, it holds the state after some number of instructions, and only then |
| Retirement.RefinesAfterAnyReset | vsrc/cpu_core.sv:227-238 | From any power-up contents, after any pattern of earlier resets and one more, every return to fetch refines the instruction set run from the cleared state and the memory of that moment |
| Retirement.ResetReachesFetch | vsrc/execution_stage_fsm.sv:35-40 | One cycle after reset is released the core fetches from address 0 with registers and flags cleared and memory untouched |
| Retirement.InstructionTicks | vsrc/execution_stage_fsm.sv:35-67 | 3, 4 or 5 cycles are one instruction, the fetch stage is met only at its ends and a retiring stage only in its last cycle |
| Retirement.CycleBounds | vsrc/execution_stage_fsm.sv:35-67 | n instructions take between 3n and 5n cycles |
| Retirement.Locate | vsrc/execution_stage_fsm.sv:35-67 | Every clock cycle lies within exactly one instruction, at a known position, and in no other |
| Retirement.RetirementDetectedOnce | verilator_tb/diff_main.cpp:240-247 | The leaving-edge test and the previous-stage test fire at the same cycles: once per instruction, as the next fetch begins |
| Retirement.RetireTestsAgree | verilator_tb/diff_main.cpp:139-153 | In every coherent state the opcode-dependent retire-stage test equals the stage-set test of the debugger |
| Refinement.ReachableCoherent | vsrc/cpu_core.sv:164-195 | Under every reset pattern the stage (decided from the live bus) always fits the instruction register (used by the controller), and in the second-word stage the bus still shows that instruction |
| Refinement.CoherentClock | vsrc/execution_stage_fsm.sv:22-66 | Decode coherence is kept by every clock edge, with or without reset |
| Refinement.FetchAddressTick | vsrc/controller.sv:172-177 | The first fetch cycle latches PC as address and increments it modulo 65536 |
| Refinement.FetchDecodeTick | vsrc/controller.sv:183-185 | The second fetch cycle latches the addressed word and picks the one-word or two-word path from it |
| Refinement.SingleTick | vsrc/controller.sv:201-261 | The execute stage of every one-word opcode has the effect of the instruction set, and an unsupported opcode has none |
| Refinement.UnsupportedTick | vsrc/controller.sv:258-259 | An opcode outside the instruction set executes as a one-word no-op |
| Refinement.DoubleTicks | vsrc/controller.sv:275-364 | The two execution cycles of opcodes 80 to 85 have the effect of the instruction set |
| Refinement.CallTicks | vsrc/controller.sv:378-399 | The three execution cycles of CALLA save the return address in R15 and then load the target |
| Refinement.BranchTick | vsrc/controller.sv:227-233 | Each branch commits PC plus the signed offset exactly when its flag condition holds |
| Rtl.SameTick | vsrc/cpu_pnr_core.sv:155-168 | The split-bus core and the shared-bus core make the same step from every state, reachable or not |
| Rtl.SameClock | vsrc/cpu_pnr_core.sv:155-168 | The same with reset, which clears both cores before the edge and writes no memory |
| Rtl.PnrRefinesCore | vsrc/cpu_pnr_core.sv:155-168 | Both cores stay equal for any number of cycles, under every pattern of resets |
| Rtl.BusSettlesOnce | vsrc/cpu_core.sv:217-218 | The shared bus settles on exactly one value, although the core computes what it drives from the bus |
| Rtl.BusIgnoredWhileWriting | vsrc/controller.sv:340-343 | The core writes only in the execute stage of STRR, where the looped-back bus reaches no register, flag or stage |
| Alu.AddMeansSum | vsrc/alu.sv:76-110 | For all operands and carry-in, C is the unsigned carry, V says that the signed sum does not fit, Z and S describe the result |
| Alu.SubMeansDifference | vsrc/alu.sv:76-110 | For all operands and borrow-in, C is the unsigned borrow and V says that the signed difference does not fit |
| Alu.ShiftsMeanOutcomes | vsrc/alu.sv:86-109 | Shifts report the bit shifted out, clear V, and the arithmetic shift halves the signed value |
| Alu.AndMeansPlain | vsrc/alu.sv:83-110 | The bitwise result is that of the instruction set with the operands exchanged, C and V clear |
| Alu.CarryInIsOne | vsrc/controller.sv:214-215 | INC and DEC through carry-in 1 and operand 0 give the result and flags of adding and subtracting one |
| Alu.CompareThenBranch | model/reference_model.py:252-257 | After CMP, the carry branch is taken iff destination < source unsigned, Z iff equal, and S differs from V iff less as signed numbers |
| Datapath.CpuCore.Clock | vsrc/cpu_core.sv:88-300 | One edge of the wired objects equals one Clock of the system specification, reset or not |
| Datapath.RegFile.Clock | vsrc/reg_file.sv:16-30 | Reset clears all sixteen registers; otherwise only the selected one changes |
| Datapath.FlagReg.Clock | vsrc/flag_reg.sv:14-34 | The four update modes of the flags, and reset |
| Datapath.StageFsm.Clock | vsrc/execution_stage_fsm.sv:35-67 | The eight-state transition function |
| Datapath.InstructionReg.Clock | vsrc/instruction_reg.sv:8-14 | Latches the bus only when load is enabled |
| Datapath.Pc.Clock | vsrc/pc.sv:8-14 | Takes the ALU output only when enabled |
| Datapath.MemoryModel.Clock | tb/memory_model.sv:27-31 | Writes the addressed word when wr is 0 and nothing otherwise |
| Datapath.MemoryModel.Load | tb/memory_model.sv:13-25 | Image from address 0, zero elsewhere |
| Reference.CpuModel.Step | model/reference_model.py:166-345 | One loop pass is one step of the instruction set with one appended event; an unsupported opcode leaves PC advanced and nothing else changed |
| Reference.CpuModel.Run | model/reference_model.py:163-355 | Outcome, final state and event log of a run are those determined by the instruction set, budget and threshold |
| Reference.CpuModel.constructor | model/reference_model.py:67-76 | Image masked to 16 bits from address 0, everything else zero |
| Reference.CpuModel.ExecuteArithmetic | model/reference_model.py:231-264 | ADD, ADC, SUB, CMP and SBB with masked arithmetic give the sums, differences and flags of the instruction set |
| Reference.CpuModel.ExecuteLogic | model/reference_model.py:214-230 | AND, OR, XOR, MVRR and TEST |
| Reference.CpuModel.ExecuteOneReg | model/reference_model.py:265-305 | Shifts, NOT, DEC and INC, the latter with flag operands other than their arithmetic operands |
| Reference.CpuModel.ExecuteControl | model/reference_model.py:306-329 | Flag control, branches, CALLA and RET |
| Reference.CpuModel.ExecuteDoubleWord | model/reference_model.py:179-196 | MVRD, JMPA, LDRR and STRR |
| Reference.CpuModel.ExecuteImmediate | model/reference_model.py:197-213 | ADDI and ANDI |
| Reference.EventsAgree | model/reference_model.py:103-143 | The event assembled from opcode sets is the event of the decoded instruction |
| History.LogRecords | model/reference_model.py:103-143 | Of every logged event: ir is the word at instr_addr, opcode, dr and sr its fields and the registers the instruction names, branch_target the next PC exactly for transfers, branch_taken for every unconditional one and for none without target, offset the decoded distance, immediate and extra_word the next word exactly where the instruction has one, and the memory access |
| History.EventControl | model/reference_model.py:132-137 | Branch fields of the event of every instruction, case by case |
| History.EventData | model/reference_model.py:138-142 | Immediate, extra word and memory access of the event of every instruction, case by case |
| SoftwareFlags.AddFlagsMeanSum | model/reference_model.py:84-88 | The xor-mask overflow of an addition is exactly signed overflow, with or without carry-in |
| SoftwareFlags.SubFlagsMeanDifference | model/reference_model.py:90-94 | The xor-mask overflow is signed overflow and bit 16 of the 17-bit difference is the borrow |
| SoftwareFlags.IncrementFlags | model/reference_model.py:300-305 | INC gets the flags of b + 1 from the flag operands 0 and b |
| Golden.GoldenIsa.Step | verilator_tb/golden_isa.h:48-261 | One step of the instruction set for everything but RET; on RET and unsupported opcodes it throws with only PC advanced |
| Golden.GoldenIsa.LoadWords | verilator_tb/golden_isa.h:32-35 | Copies as much of the image as fits |
| Golden.SubOutcome | verilator_tb/golden_isa.h:67-73 | 32-bit wrap-around before the 17-bit mask changes neither difference nor flags |
| Agreement.StepBoth | verilator_tb/golden_isa.h:48-261 | From equal states the two software models reach equal states on every instruction but RET, where exactly the golden model fails |
| Agreement.RunBoth | verilator_tb/golden_isa.h:48-261 | For every n: run side by side, both retire the same words and reach the same states until exactly the first instruction that the golden model does not know; there the reference retires the RET or fails too |
| Agreement.RunBothOnImage | verilator_tb/golden_isa.h:279-297 | The same from any image loaded into both |
| Halting.HaltDetectionIsExact | model/reference_model.py:347-355 | For every threshold of at least one: the run halts iff the first 0x40FF is the k-th instruction with only supported ones before it and k plus threshold within the budget; the final state does not depend on the threshold |
| Halting.RunEndsOnce | model/reference_model.py:163-355 | Outcome and length of a run are uniquely determined |
| Halting.HaltIsFixedPoint | model/reference_model.py:310-322 | 0x40FF changes no architectural state |
| Halting.StreakValue | model/reference_model.py:347-350 | The repeat counter is zero up to the first 0x40FF and then counts every retirement |
| History.LogChains | model/reference_model.py:103-143 | PC and flags chain from each event to the next and agree with the run |
| History.ReplayGivesMemory | model/reference_model.py:192-196 | Replaying the WRITE events in order on the initial image gives the final memory |
| History.ReadsLatestWrite | model/reference_model.py:187-191 | Every READ event carries the latest earlier WRITE to its address, or else the initial word |
| History.BranchTakenMeans | model/reference_model.py:132-134 | The recorded branch_taken of a conditional branch holds iff its condition held and its offset is not zero |
| History.TakenBranchNotRecorded | model/reference_model.py:132-134 | A taken branch with offset zero is recorded as not taken |
| Lockstep.RunDiff | verilator_tb/diff_main.cpp:216-307 | No image yields a mismatch, the loop ends within 20001 iterations so that the cycle cap never applies, and the verdict is the one the golden run calls for |
| Lockstep.SnapshotsEqual | verilator_tb/diff_main.cpp:195-211 | The comparison is equal iff every register, the PC and all four flags are |
| Lockstep.PassIsExact | verilator_tb/diff_main.cpp:275-297 | PASS iff the first 0x40FF is the k-th instruction, the golden model knows all before it, and k + 3 <= 4000, and then after k + 3 retirements; a throw iff one of the first 4000 instructions is unknown, and it names the first; the status is 0 unless golden throws |
| Lockstep.DetectsNext | verilator_tb/diff_main.cpp:240-250 | While waiting for a retirement the edge fires exactly at its cycle, with the RTL in the next golden state |
| Lockstep.Tb.Tick | verilator_tb/diff_main.cpp:91-109 | Sampling before the edge and writing after it is one clock of the system |
| Lockstep.Tb.ApplyReset | verilator_tb/diff_main.cpp:83-89 | Leaves the RTL fetching from the initial state with the image intact |
| Calls.CallReturns | model/reference_model.py:323-329 | From CALLA at A, any run that leaves R15 alone until a RET continues at A + 2 modulo 65536; call and return keep the flags |
| Calls.RtlCallReturns | vsrc/controller.sv:378-399 | The same for the RTL, at the cycles where the CALLA and the RET have retired: target, return address and flags |
| Calls.ExecKeepsReg | model/reference_model.py:179-329 | An instruction changes no register but the one it names |
| Calls.ReturnsExactly | model/reference_model.py:323-329 | Whatever lies between, a RET returns behind the CALLA iff R15 is then what the CALLA left there |
| Carry.AdcChainAdds | model/reference_model.py:238-244 | Any number of ADC steps with flag-preserving instructions between them adds the multi-word numbers, carry out weighing 2^(16 limbs) |
| Carry.SbbChainSubtracts | model/reference_model.py:258-264 | The same for SBB, with C the final borrow |
| Carry.ChainGoesOn | model/reference_model.py:179-196 | Exactly which instructions may stand between the steps of a chain: moves, loads, stores and transfers of control |
| Hex.HexRoundTrip | model/assembler.py:273-274 | Reading back what was written gives the same list, for every list of numbers |
| Hex.LoadHex | model/reference_model.py:358-364 | The loop parses exactly the stripped non-blank lines, at every ASCII line break and blank that Python knows, as int(_, 16) does with sign, prefix and underscores, and rejects a malformed one |
| Hex.ParseInvertsNumeral | model/assembler.py:273-274 | Parsing inverts printing in every base from 2 to 16 |
| Hex.Hex04Digits | model/assembler.py:273-274 | A 16-bit word is written as exactly its four digits, by their character codes, in lower case |
| Hex.WriteHexLines | model/assembler.py:273-274 | The text has five characters a word, the digits of word i and a newline at their place |
| Hex.LinesSplit | model/reference_model.py:358-361 | Text is split at every break, and the last line needs none |
| Hex.StripExactly | model/reference_model.py:361 | Blanks at both ends are removed, all of them and nothing else |
| Hex.SeparatorCodes | model/reference_model.py:358-361 | Line breaks and blanks by their character codes |
| Hex.DigitCodes | model/reference_model.py:363 | Digits and their values by character codes, in either case |
| Hex.NumeralsAreDigits | model/reference_model.py:363 | A plain numeral has a value iff it is nothing but digits |
| Hex.PlainReads | model/reference_model.py:363 | Signs negate or do nothing |
| Hex.PrefixReads | model/reference_model.py:363 | The prefixes 0x and 0X change nothing, with or without an underscore after them |
| Hex.UnderscoreReads | model/reference_model.py:363 | Single underscores join groups of digits; leading, trailing and doubled ones are rejected |
| Assembler.Assemble | model/assembler.py:245-259 | Both passes: accepted sources get their layout, words and concatenated code; it fails exactly for sources that have no encoding |
| Assembler.BuildLabelTable | model/assembler.py:140-145 | Every label is listed with all addresses of its definitions, in source order |
| Assembler.Layout | model/assembler.py:246-250 | Addresses are the running sizes; fails exactly on a mnemonic without a size |
| Assembler.EncodeAll | model/assembler.py:252-258 | Encodes each line at its address with the labels of the whole program |
| Encoding.EncodesExactly | model/assembler.py:173-242 | Every line is given exactly its words in plain arithmetic, opcode * 0x100 + dr * 0x10 + sr with unused fields zero, offset % 0x100, and the second word of two-word lines, from the meaning of its operands in the source; it is rejected exactly when it has none |
| Encoding.CodeHasWords | model/assembler.py:245-259 | The assembled code holds these words from the address of each line to the next, and nothing else |
| Encoding.AssemblesExactly | model/assembler.py:245-259 | A source can be assembled iff every mnemonic is known and every line has words |
| AssemblerCorrect.EncodingHasSize | model/assembler.py:110-123 | Every accepted line has as many words as the layout reserved |
| AssemblerCorrect.CodeAt | model/assembler.py:245-259 | The words of each line stand at its address |
| AssemblerCorrect.ForwardLabel | model/assembler.py:157-160 | nF finds the first definition on a later line, or none |
| AssemblerCorrect.BackwardLabel | model/assembler.py:161-164 | nB finds the last definition on this or an earlier line, or none |
| AssemblerCorrect.ResolutionFollowsSource | model/assembler.py:148-170 | Resolution by address gives every operand its meaning by source order and fails exactly when it has none |
| AssemblerCorrect.TwoRegDecodes | model/assembler.py:179-184 | Decoding recovers mnemonic and both registers |
| AssemblerCorrect.BranchDecodes | model/assembler.py:192-199 | Decoding recovers the condition and every offset from -128 to 127 |
| AssemblerCorrect.BranchLine | model/assembler.py:192-199 | A taken branch lands on the resolved label |
| AssemblerCorrect.CallLine | model/assembler.py:219-226 | CALLA lands on the resolved label with the address after its two words in R15 |
| AssemblerCorrect.LineMeans | model/assembler.py:173-242 | What a source line does, its words do |
| AssemblerCorrect.ProgramMeans | model/assembler.py:245-259 | Every source run without stores into the program is the run of the assembled words, step for step, with no unsupported opcode and the program intact |
| SourceProgress.StuckExactlyAtOverwrites | model/assembler.py:173-242 | In an accepted program every line has an outcome in every state, except exactly a store into the program |
| SourceProgress.RunIsFollowed | model/assembler.py:245-259 | While the assembled words stay on instructions of the program and leave it alone, a path through the source follows them |
| SourceProgress.FollowedExactlyInSource | model/assembler.py:245-259 | The source can follow n steps iff the assembled words spend them on instructions of the program without storing into it |
| SourceInRtl.SourceRunsInRtl | vsrc/cpu_core.sv:88-300 | Every path through the source is a run of the RTL on the assembled words, ending in the same state after the cycles that its mnemonics add up to |
| SourceInRtl.SourceRunsAfterReset | vsrc/cpu_core.sv:227-238 | The same after a reset in any state |
| SourceInRtl.PathTakes | vsrc/execution_stage_fsm.sv:22-67 | The cycles of a run of the words are those of the mnemonics of its path: three, four or five each |
| Generator.ProgramBuilder.EmitRandomProgram | model/generate_random_tests.py:112-195 | Emits exactly the program of the choices made, each within its range |
| Generator.ProgramBuilder.EmitFlagBranchBlock | model/generate_random_tests.py:76-109 | Adds exactly one block: the setup and branch that the targets select, one change of the carry flag, and the label |
| Generator.ProgramBuilder.EmitTargetedSetup | model/generate_random_tests.py:65-73 | Adds exactly the lines that the targets ask for |
| Generator.ProgramBuilder.EmitPool | model/generate_random_tests.py:122-134 | Loads every register of the pool, two of them with the values that targets fix, and stores R1 and R2 |
| GeneratorShape.ProgramHasShape | model/generate_random_tests.py:112-195 | Every program of possible choices has the shape: straight setup, a loop of straight lines and forward branches over one line, stores only through R10, R11 and a set R13, unique labels |
| GeneratorShape.PoolIsLoaded | model/generate_random_tests.py:122-134 | Every register of the pool is loaded before the loop |
| GeneratorShape.BodyWords | model/generate_random_tests.py:139-182 | The body takes at least one word for each operation, and at most BodySize: 7 each when a sign target decides the blocks, else 3 each and 2 more with add_overflow |
| GeneratorShape.LongestWords | model/generate_random_tests.py:139-182 | For every set of targets and every number of operations some choices reach that size |
| GeneratorTargets.SetupDecides | model/generate_random_tests.py:82-106 | In every state, the setup of a block leaves the flags under which its branch holds exactly in the stated case: always for a carry or sign target, on equal or different registers for a comparison |
| GeneratorTargets.BlockRuns | model/generate_random_tests.py:76-109 | A block runs to its own label, over the change of carry exactly when its branch is to be taken; it writes no memory, and no register but R0 and R1 for a sign target |
| GeneratorTargets.TargetsMet | model/generate_random_tests.py:82-103 | For every set of targets: a taken target can be met by a block iff no earlier one shadows it, and a not-taken target never |
| GeneratorTargets.UntargetedMeetsAll | model/generate_random_tests.py:104-106 | Without such targets, every branch can be both taken and passed by |
| GeneratorTargets.NotTakenTargetsMiss | model/generate_random_tests.py:88-93 | With jrc_not_taken targeted every JRC of a block is to be taken, from all registers, and with jrnc_not_taken no block has a JRNC |
| GeneratorTargets.OperationStandsInProgram | model/generate_random_tests.py:139-182 | The lines of every chosen operation stand in the program, one operation after the other, and DEC R12 after the last |
| GeneratorTargets.NoJrncToMiss | model/generate_random_tests.py:112-195 | With jrnc_not_taken targeted no program has a JRNC |
| GeneratorBranches.EveryBranch | model/generate_random_tests.py:76-109 | Over every run of an accepted program, each executed conditional branch is that of the loop, or that of a block entered just before, and is taken exactly as the targets and the registers at its entry say |
| GeneratorBranches.NotTakenNeverMet | model/generate_random_tests.py:88-93 | Over every run: with jrc_not_taken targeted each executed JRC finds C set, and with jrnc_not_taken no JRNC is executed |
| GeneratorOperations.ArithRuns | model/generate_random_tests.py:152-163 | Over every run: an untargeted arithmetic operation executes the chosen operation on exactly the chosen destination and source, for CMP and TEST a different register |
| GeneratorOperations.OverflowRuns | model/generate_random_tests.py:156-157 | Over every run: add_overflow adds 0x7FFF and 1 and leaves V set |
| GeneratorOperations.CarryInRuns | model/generate_random_tests.py:158-161 | Over every run: adc_carry_in_set and sbb_carry_in_set enter ADC and SBB, on the chosen registers, with C set and nothing else changed |
| GeneratorOperations.UnaryRuns | model/generate_random_tests.py:164-171 | Over every run: an untargeted unary operation executes the chosen operation on exactly the chosen register |
| GeneratorOperations.ShiftOutRuns | model/generate_random_tests.py:166-169 | Over every run: shl_sets_carry and shr_sets_carry shift a one out into C |
| GeneratorOperations.StoreRuns | model/generate_random_tests.py:172-178 | Over every run: a store writes the chosen register to the word at 0x0100, 0x0101 or 0xFF10 and changes nothing else |
| GeneratorOperations.LoadRuns | model/generate_random_tests.py:172-180 | Over every run: a load reads the chosen register from that word and changes nothing else |
| GeneratorOperations.BlockRunsOn | model/generate_random_tests.py:76-109 | Over every run: a block goes on to the next operation, taken or not as `Taken` says from the registers at its entry |
| GeneratorSetup.LoopEntry | model/generate_random_tests.py:114-137 | The loop is entered with its count in R12, the pointers in R10, R11 and R13, every pool register at its chosen or targeted value, and the data words stored |
| GeneratorSetup.TargetedExactly | model/generate_random_tests.py:65-73 | Which targets add which lines before the pool |
| GeneratorSetup.TargetedInOrder | model/generate_random_tests.py:65-73 | These lines come in order, at most once each, and no others |
| GeneratorSetup.LoopCounts | model/generate_random_tests.py:117 | The values that R12 may be loaded with |
| GeneratorSetup.OperationsPossible | model/generate_random_tests.py:139-182 | Exactly which operations the choices may ask for |
| GeneratorHalts.GeneratedProgramsHalt | model/generate_random_tests.py:112-195 | Every accepted generated program reaches its first 0x40FF within 24 + 128n instructions (n the rounds that the value it loads into R12 stands for, zero meaning 65536), meets no unsupported opcode or RET, never changes its own code, and halts with R12 zero and R13 the last value chosen |
| GeneratorAccepts.AcceptedExactlyWhenLoopFits | model/assembler.py:192-199 | The assembler accepts a generated program iff its loop, from LOOP through JRNZ LOOP, takes at most 128 words |
| GeneratorAccepts.AcceptedExactlyWhenBodyFits | model/assembler.py:192-199 | The assembler has an encoding for a program iff the operations of its choices take at most 126 words |
| GeneratorAccepts.EveryChoiceFitsExactly | model/generate_random_tests.py:112-195 | For every configuration: all its programs are accepted, whatever the choices, iff it asks for at most 18 operations (blocks decided by a sign target), 41 (add_overflow) or 42 (otherwise) |
| GeneratorAccepts.WithinLimitHalts | model/generate_random_tests.py:112-195 | Every program within that limit is accepted, whatever the choices, and so halts within the bound of its R12 |
| GeneratorAccepts.MoreOperationsCanFail | model/generate_random_tests.py:112-195 | For every configuration beyond its limit there are choices whose program is rejected |
| GeneratorAccepts.WithinLimitPasses | verilator_tb/diff_main.cpp:216-307 | Within the limit and with loop depth at most 29, every program assembles and the lock-step checker passes it |
| GeneratorHalts.LoopFits | model/assembler.py:192-199 | An accepted JRNZ LOOP bounds the loop to 128 words |
| GeneratorHalts.ProgramIsShort | model/generate_random_tests.py:112-195 | Accepted generated programs end below 0x0100, where their stores begin |
| GeneratorHalts.BodyRuns | model/generate_random_tests.py:139-182 | One round of the loop body takes no more steps than words and keeps R10 to R15 |
| GeneratorHalts.LoopRuns | model/generate_random_tests.py:184-188 | The loop ends after the rounds that R12 stands for |
| GeneratorHalts.GeneratedProgramsPass | model/reference_model.py:163-355 | The reference model returns normally on it whenever the budget covers the bound and the repeats |
| GeneratorHalts.GeneratedProgramsPassLockstep | verilator_tb/diff_main.cpp:216-307 | The lock-step checker passes it whenever the bound and the repeats fit under 4000 |
| GeneratorHalts.GeneratedProgramsHaltInRtl | vsrc/cpu_core.sv:88-300 | The RTL fetches its halting jump within five cycles per instruction of the bound |
| Words.BitsOf | model/reference_model.py:214-230 | Every bit of And16, Or16 and Xor16 is the conjunction, disjunction and difference of the operands' bits, for all words |
| Words.LogicSums | vsrc/alu.sv:83-85 | OR is the sum of the operands less their AND, XOR less twice their AND |
| Isa.LogicBits | vsrc/alu.sv:83-85 | Every bit of the results of AND, OR, XOR and NOT |
| Words.ReadingsOf | model/reference_model.py:14-15 | A word is its fields by weight; signed readings and wrap-around are the congruent values in range |
| Isa.InitIsZero | model/reference_model.py:67-76 | PC, registers and flags start at zero |
| Words.XorMaskIsSignForm | model/reference_model.py:87-93 | The xor-mask test is nonzero iff both pairs of operands differ in sign |
| Words.SignKeepingShift | model/reference_model.py:286-289 | The or-mask form of ASR is the signed half, rounded down |

## Left out

- Parsing of assembly text (model/assembler.py:77-107): lines arrive split into labels, mnemonic and operands. An operand is classified as
  numeral, local label or other text, with the register and number it names, as the patterns of the assembler do; Python's `int(_, 0)`
  is part of that classification. The generator accordingly emits parsed lines, not text.
- Probabilities and weights of the generator: each decision is any value it may take, so densities, weights and seeds do not appear.
- The trace strings, opcode names and instruction classes of the reference model, and the layout listing of the assembler: text for people.
- Reference.CpuModel.constructor: takes only images that fit the memory; the source raises IndexError on longer ones.
- Datapath.CpuCore.Clock: one synchronous edge with two-valued signals; asynchronous reset takes effect before the edge at which it is
  low. Unknown values, delta cycles and the evaluation phases of the simulator are not modelled. Registers power up with arbitrary values.
- Lockstep.Tb.Tick: the simulated registers start at zero, as the simulator's defaults make them; printing is not modelled, and reading
  registers through the debug port is reading the register file.
- Debug multiplexer, trace register, breakpoints, waveforms, UVM environment and coverage: observation only.
- The copy of the design under cpu/, synthesis scripts, constraints and report formatting: no behaviour of their own.
