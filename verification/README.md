# perf-sim, modelled and proved

perf-sim simulates an RV32I core as a five-stage in-order pipeline: WB, MEM, EX, ID and IF run in that order
in each iteration of `PerfSim::run`, and then every double-buffered latch is swapped. A hazard unit
bypasses results, interlocks loads, squashes wrong-path instructions and drains ECALL; a register file keeps a
lock count per register; a store queue stands in front of memory; a decoder fills instruction objects that a
ring of five per type recycles while latches still point at them.

The project has two layers.

* **Objects.** `Memory`, `Pipeline`, `RegFile`, `Stage`, `HazardUnit`, `Instruction`, `CyclicArray`, `Decoder`
  and `PerfSim` are classes whose methods change fields, arrays and shared instruction objects in place, as
  the source's do. `PerfSim.Clock` is one iteration of the loop. It is proved to compute `Machines.Cycle` on
  the value `Abs()` that the heap stands for, although latches alias instruction objects; part of that is
  that the ring never hands out an object some latch still refers to.
* **Values.** `Machines.Cycle` is one cycle as a function. `Sequential.SeqStep` is the reference: one
  instruction at a time, built from the same decoder, executors and load extension. What those compute is
  stated apart from them, in integers and by the manual (`Manual`, `Behaviour`). The theorems about runs are
  about `Cycle` and `SeqStep`.

The main results, over all programs:

* under a guard on the sequential run, the pipeline retires exactly what the sequential machine retires
  (`Refinement.RunRefines`), ends within 3n + 2 cycles when ECALL is the n-th instruction, in the sequential
  final state (`Termination.RunTerminates`), and so does the loop over objects (`Simulators.PerfSim.Run`);
* the intended machine needs no load-use and no clash guard: it follows the sequential run until, and only
  when, a store takes its data from the load just ahead, on which it throws (`Abort.RunRefinesOrThrows`,
  `Exactness.RunThrows`);
* the guard is exact: over every program of sound code (as written, with stable words behind its jumps) the pipeline
  works - no exception, never a wrong state, every instruction retired - if and only if no position has a load-use
  pair or a clash
  (`Exactness.WorksExactly`). As written a load-use pair means that the load never retires
  (`Derail.LoadNeverRetires`), and a clash that a register is wrong two cycles later (`Exactness.ClashGoesWrong`);
* with no guard on the program: every lock is owed by exactly one live writer, and a locked source always has one
  to bypass from (`Scoreboard`); the queue is empty at every cycle boundary, and its switch is invisible up to a
  cycle if and only if no fetch races with a store before it (`ConfigEquivalence`);
* over every regular run, that is, as long as no instruction hits the load just ahead with both operands and every
  system word is ECALL: each jump squashes exactly two words (`Squash.RunSquashes`), and clocks are accounted for
  (`Accounting.ClocksAtExit`). A double hit holds fetch, and then the word in it is not cancelled
  (`Squash.HeldByDoubleHit`, `HeldSquashExact`). The intended machine has no such exception;
* every step of the reference does what the name of its instruction says, in integers: the next pc, each register,
  each byte of memory and the halt (`Behaviour.StepRight`, `EncodedStepRight`), so a guarded run of the pipeline
  ends where n such steps lead (`Behaviour.RunBehaves`), and a live jump squashes and goes on at its destination by
  name and operands (`Squash.SquashByName`);
* encodings and immediates round-trip, and LUI/AUIPC with ADDI synthesise every constant (`Encoding`).

## Where the code departs from its evident intent

The model keeps the code. `Config.repaired` selects the intended machine instead: the interlock cancels the
dependent copy and stalls once, and a cancelled instruction is only unlocked. `Config.sqEnabled` is the
source's switch. Each departure is stated as the exact condition under which the code does what is meant:

| code | when it is right |
|---|---|
| load-use cancels the load (src/HazardUnit.cpp:30) | `Departures.InterlockExact`, cycle by cycle: if and only if no operand hits the load just ahead. Over runs, `Derail.LoadNeverRetires`: with a pair, that load never retires. `SelfLoadPairNeverEnds`: a load of a register followed by `lw x, imm(x)` on it neither halts nor throws. Input: `Programs.LoadUseProgram` |
| both operands hit: fetch is held twice (src/HazardUnit.cpp:24-31) | `Squash.HeldByDoubleHit` and `HeldSquashExact`: the next jump squashes as it should if and only if fetch is not held. Input: `Programs.DoubleHitProgram` |
| store data behind its load throws (src/HazardUnit.cpp:33) | `Departures.LoadHazardExact`: decode throws if and only if this happens. Over runs of the intended machine, `Exactness.RunThrows`. Input: `Programs.StoreDataProgram` |
| release writes a stale rd (src/PerfSim.cpp:94-95, 121-122) | `Departures.ReleaseExact` and `ClashExact`: if and only if the captured value is current, or the jump overwrites it. Over runs, `Exactness.ClashGoesWrong`. Input: `Programs.ClashProgram` |
| bit mask from byte flags (src/Pipeline.cpp:83-91) | `StoreQueues.SearchDataExact`: right for every memory if and only if no queued store meets the window, or one strictly surrounds it |
| `signExtend` counts bytes as bits (src/PerfSim.cpp:190-207) | `Departures.SubWordLoadsExact` |
| XORI and ANDI exchanged (src/Executors.cpp:76, 94) | `Departures.SwappedOperatorsExact`: only on two zeros |
| JALR keeps bit 0 (src/Executors.cpp:326) | `Departures.JalrExact` |
| the queue writes memory after fetch, the direct path before | `ConfigEquivalence.SwitchExact` for a cycle and `SwitchInvisibleExactly` for a run: the two settings agree if and only if no word is stored to in the cycle that fetches it. Input: `Programs.RaceProgram` |

The guard of the refinement (`Refinement.GoodAt`, one position of the sequential run at a time) has two parts. Sound
code (`SoundAt`): recognised instructions and ECALL; accesses and the words fetched ahead in bounds; no store into
code about to run. Harmless, as written: no instruction reads the rd of the load just ahead (`FreeOfUse`); at a taken
jump the instruction before it and the word at pc + 4 do not write the same non-zero register with different values
(`FreeOfClash`: the value the word behind the jump captures is not the one on its way). Repaired, only a store whose
data comes from the load just ahead is left. `Exactness.WorksExactly` says that, over sound code, the second part is
necessary as well as sufficient. `Termination.EcallFirst` is a family of programs that meet the guard,
`Programs.GuardedProgram` one with a load and a taken branch.

## Files

`Isa`, `Decoding`, `Executors`, `Memory`, `StoreQueue` and `Machine` are the values; `Scoreboard`, `Sequential`,
`Refinement`, `Latches`, `Abort`, `Accounting`, `Termination`, `Squash`, `ConfigEquivalence`, `Departures`, `Derail`,
`Exactness`, `Encoding`, `Manual` and `Behaviour` the theorems; `Numbers` relates words and integers; `Programs` holds an input for each departure and for the guard;
`Instructions`, `Hardware`, `Decoder` and `Simulator` the objects (`Memory` and `Pipeline` stand beside their
specifications). `dafny verify dfyconfig.toml` checks everything. Some definitions are hidden at the head of a
proof with `hide`, to keep each proof small.

## Model

| member | source | states |
|---|---|---|
| Refinement.RunRefines | src/PerfSim.cpp:28-187 | For every program, configuration and number of cycles under the guard: no exception; the retired sequence is a prefix of the sequential run; registers, memory and every latch stand where that run stands, wrong-path words behind a jump being cancelled or not yet executed |
| Refinement.CycleRefines | src/PerfSim.cpp:28-42 | One guarded cycle, taken from any state of that shape, keeps it |
| Refinement.OperandRight | src/HazardUnit.cpp:12-57 | A source value captured by decode is the sequential register value, whether from the register file, from EX (younger, taken first) or from MEM |
| Refinement.DecodeRight | src/Decoder.cpp:7-121 | Without a load-use hit decode leaves the sequential instruction in DE and adds exactly its lock |
| Refinement.SquashCase | src/HazardUnit.cpp:59-69 | The cycle after a jump lands on the sequential path at its target, whatever was cancelled |
| Refinement.DrainStep | src/HazardUnit.cpp:84-90 | While ECALL drains, nothing is decoded or fetched and only older instructions move on |
| Sequential.IssueIrrelevance | src/Decoder.cpp:45-121 | A recognised instruction does not depend on the rd value captured at decode nor on the flag left in its recycled object |
| Sequential.RecognizeFits | src/Decoder.cpp:122-369 | Every entry of the opcode table fits together: type, access kind and size, branch flag, executor |
| Termination.RunTerminates | src/PerfSim.cpp:28-42 | If ECALL is the n-th sequential instruction, a guarded run ends within 3n + 2 cycles, has retired exactly those n, and leaves the sequential registers and memory |
| Termination.DrainAdvances | src/HazardUnit.cpp:84-90 | Once ECALL has executed, the loop ends exactly two cycles later |
| Termination.FinishedRight | src/PerfSim.cpp:181-186 | A halted guarded run has retired n instructions and stands in the n-th sequential state |
| Accounting.ClocksAtExit | src/PerfSim.cpp:28-42 | clocks == ic + 4 + 2 * branches + stops at exit of every run of recognised system words in which no instruction hits the load just ahead with both operands |
| Accounting.CycleCounts | src/PerfSim.cpp:28-42 | The account balances at every boundary, latches in flight included |
| Termination.GuardedIsRegular | src/HazardUnit.cpp:12-34 | Guarded runs meet what the clock account and the squash ask for |
| Termination.EcallFirst | src/Decoder.cpp:360-367 | Every program that starts with ECALL meets the guard and halts at its first instruction |
| Abort.RunRefinesOrThrows | src/HazardUnit.cpp:12-69 | Every run of the intended machine over recognised, in-bounds code that does not rewrite itself is on the sequential path, or has thrown because a store takes its data from the load just ahead |
| Abort.CycleThrowsExactly | src/HazardUnit.cpp:33 | One cycle of it throws if and only if the program has such a pair there, and else stays on the path |
| Exactness.WorksExactly | src/PerfSim.cpp:28-187 | Over every program of sound code the pipeline never throws, is never in a wrong state and retires every instruction of the sequential run if and only if every position is harmless; as written and repaired |
| Exactness.Reach | src/PerfSim.cpp:28-42 | Every position with nothing harmful before it comes to EX within 3k + 2 cycles |
| Exactness.AllRetire | src/PerfSim.cpp:166-187 | Under the guard every instruction of the sequential run retires |
| Exactness.ClashGoesWrong | src/PerfSim.cpp:94-95 | As written, the first clashing jump, at position k, has spoiled the register file (or the run has thrown) within 3k + 2 cycles |
| Exactness.RunThrows | src/HazardUnit.cpp:33 | The first store, at position k, of what the load just ahead loads makes the intended machine throw within 3k cycles |
| Derail.LoadNeverRetires | src/HazardUnit.cpp:24-31 | As written, when the word behind a load reads its rd and nothing before is harmful, no run ever retires that load: at its position nothing retires, or something else does |
| Refinement.ClashInProgram | src/PerfSim.cpp:88-123 | The clash on the latches is the clash in the sequential run, both ways |
| Abort.HazardIsData | src/HazardUnit.cpp:12-34 | Decode meets the hazard in the latches if and only if the sequential run has the pair at that position |
| Scoreboard.RunConservesLocks | src/RegFile.cpp:14-28 | In every reachable state of every program each lock is owed by exactly one unreleased writer in DE, EM or MW; x0 is never locked and stays 0 |
| Scoreboard.CycleConservesLocks | src/PerfSim.cpp:88-123 | One cycle conserves the locks through squash, stall, re-decode and drain |
| Latches.RunKeepsPcs | src/PerfSim.cpp:53-187 | In every run a live latch behind ID carries the pc of its instruction |
| Scoreboard.BypassesCounted | src/HazardUnit.cpp:24-52 | Every operand read counts one bypass, and a stop, by where its newest writer is on its way; none when there is no such writer |
| Scoreboard.BypassIsTotal | src/HazardUnit.cpp:12-57 | In every run a locked source has a live writer in DE or EM: the final `return Register()` is never reached |
| Squash.SquashExact | src/HazardUnit.cpp:59-69 | An executed jump cancels exactly the word in decode and the word in fetch; older ones move on and fetch is sent to the target |
| Squash.ResumeExact | src/HazardUnit.cpp:59-69 | A cycle later neither cancelled word has come further, and the word at the target has been fetched |
| Squash.RunSquashes | src/HazardUnit.cpp:59-69 | Both, for every jump executed in every regular run, unless the cycle throws |
| Squash.GuardedRunSquashes | src/HazardUnit.cpp:59-69 | Both, and no exception, for every jump executed in every guarded run |
| Squash.SquashByName | src/PerfSim.cpp:100-104 | With nothing held, JAL, JALR and a branch whose comparison holds, and nothing else, squash; fetch goes on at pc + imm, for JALR at rs1 + imm |
| Squash.HeldSquashExact | src/HazardUnit.cpp:59-69 | A jump squashes so if and only if fetch is not held; held, the word in FD is not cancelled |
| Squash.HeldByDoubleHit | src/HazardUnit.cpp:24-31 | As written, a cycle from a state with nothing held leaves fetch held if and only if both operands of the word in FD hit the load in EX |
| ConfigEquivalence.QueueAlwaysEmpty | src/PerfSim.cpp:128-147 | In every run the queue and its pending slot are empty at the start of every cycle |
| ConfigEquivalence.SwitchExact | src/PerfSim.cpp:128-147 | Queue on and off raise the same exceptions, and agree after a cycle if and only if no fetched word is stored to in it |
| ConfigEquivalence.SwitchInvisible | src/PerfSim.cpp:128-147 | Over runs without such a race registers, memory, latches and counters agree at every boundary |
| ConfigEquivalence.SwitchInvisibleExactly | src/PerfSim.cpp:128-147 | The two runs agree at every boundary up to t if and only if no completed cycle before t has such a race |
| Programs.RaceProgram | src/PerfSim.cpp:53-69 | `sw x1, 12(x0)` and nops from reset: the settings agree for three cycles, and after the fourth have fetched different words |
| Programs.LoadUseProgram | src/HazardUnit.cpp:30 | `lw x1, 32(x0); addi x2, x1, 0; ecall`: repaired it meets the guard, as written no run retires the load |
| Programs.StoreDataProgram | src/HazardUnit.cpp:33 | `lw x1, 32(x0); sw x1, 36(x0); ecall`: repaired it has thrown after three cycles, as written no run retires the load |
| Programs.ClashProgram | src/PerfSim.cpp:94-95 | `addi x1, x0, 5; jal x0, +8; addi x1, x0, 7; ecall`: repaired it meets the guard, as written the run has gone wrong after at most five cycles |
| Programs.DoubleHitProgram | src/HazardUnit.cpp:24-31 | `lw x1, 32(x0); beq x1, x1, +8`: as written the branch executes with fetch held and does not squash |
| Programs.GuardedProgram | src/PerfSim.cpp:28-42 | A program with a load and a taken branch that meets the guard; it ends within 14 cycles in the sequential final state |
| Departures.InterlockExact | src/HazardUnit.cpp:24-31 | As written, a cycle on the sequential path keeps its shape if and only if no operand in ID hits the load in EX |
| Departures.CancelsTheLoad | src/HazardUnit.cpp:30 | A hit leaves the load cancelled and the dependent alive in DE and, once more, in FD |
| Departures.CancelledNeverRetires | src/PerfSim.cpp:119-124 | Over a cycle, a cancelled instruction in EM leaves a bubble in MW and retires nothing; memory and queue take their own step alone, which from an empty queue is none |
| Departures.SelfLoadLivelock | src/HazardUnit.cpp:24-31 | From a load followed by `lw x, imm(x)` the machine is stuck for every number of cycles, and throws if and only if its first cycle does |
| Departures.SelfLoadPairNeverEnds | src/HazardUnit.cpp:24-31 | Every program that comes to such a pair neither halts nor throws, for every number of cycles |
| Departures.LoadHazardExact | src/HazardUnit.cpp:33 | Decode throws if and only if a store's data register hits the load in EX |
| Departures.ReleaseExact | src/PerfSim.cpp:94-95 | Releasing a squashed instruction leaves the registers right if and only if its captured rd is current or the jump overwrites it |
| Departures.ClashExact | src/PerfSim.cpp:88-123 | The cycle of a jump keeps the sequential shape if and only if the instruction in MEM and the wrong-path word do not write one register, that the jump leaves alone, with different values |
| Departures.SubWordLoadsExact | src/PerfSim.cpp:190-207 | Each sub-word load agrees with section 2.6 of the RISC-V Unprivileged ISA exactly on the listed values; LW always |
| Departures.GarbageNeverShows | src/Pipeline.cpp:89-91 | The uninitialised word read into never reaches a register |
| Departures.SwappedOperatorsExact | src/Executors.cpp:71-96 | XORI and ANDI give their result only when both operands are 0 |
| Departures.JalrExact | src/Executors.cpp:323-331 | JALR's target is the ISA's if and only if the sum is even |
| StoreQueues.DrainedByte | src/Pipeline.cpp:167-175 | Draining the queue leaves in each byte the youngest store over it, else memory's |
| StoreQueues.ForwardOneBytes | src/Pipeline.cpp:38-80 | The three cases move exactly the bytes that store and window share |
| StoreQueues.ForwardingAgreesWithDrain | src/Pipeline.cpp:32-93 | With the mask read per byte, a load of any width from any queue returns what memory would hold once drained |
| StoreQueues.SearchDataExact | src/Pipeline.cpp:20-93 | As written, a load is right for every memory and stack content if and only if no store meets the window or one strictly surrounds it |
| StoreQueues.NoOverlapLoadsRight | src/Pipeline.cpp:83-92 | Without overlap the masked read is memory's, whatever the stack held |
| StoreQueues.EmptyQueueReads | src/Pipeline.cpp:83-92 | On an empty queue the search is a memory read |
| StoreQueues.AdvanceKeepsSettled | src/Pipeline.cpp:167-175 | `update` changes nothing a program reading through the queue can see |
| StoreQueues.PushWritesSettled | src/Pipeline.cpp:6-18 | `push` is, seen through the queue, a direct memory write |
| StoreQueues.LineDelaysWrites | src/Pipeline.cpp:6-18 | Over any traffic and from any initial line, draining gives the memory of the in-order writes, and the line keeps its length |
| StoreQueues.MarkRange | src/Pipeline.cpp:42-44 | The flag loop sets exactly its range |
| StoreQueues.BuildMask | src/Pipeline.cpp:83-88 | The mask loop adds bit i for each unset flag i |
| StoreQueues.Pipeline.Push | src/Pipeline.cpp:6-18 | The pending slot and the id counter after a push, without merging |
| StoreQueues.Pipeline.Update | src/Pipeline.cpp:167-175 | Queue and memory advance as the delay line does, or the write is out of memory |
| StoreQueues.Pipeline.Collect | src/Pipeline.cpp:25-82 | The loop forwards from the whole queue, oldest first, and throws exactly when ids are out of order |
| StoreQueues.Pipeline.Forward | src/Pipeline.cpp:38-80 | One iteration computes the forwarding step |
| StoreQueues.Pipeline.SearchData | src/Pipeline.cpp:20-93 | The whole search, its exceptions and its result for any stack garbage |
| Memories.Memory.Read | src/Memory.cpp:16-20 | The bytes read, what the caller's word keeps above them, and when it throws |
| Memories.Memory.Write | src/Memory.cpp:9-14 | Memory after the copy, unchanged when it throws |
| Memories.WriteWordByte | src/Memory.cpp:9-14 | Byte by byte: written inside the range, untouched outside |
| Memories.ReadBack | src/Memory.cpp:9-20 | A written word is read back, and a read beside it sees nothing of the write |
| Encoding.ImmediatesRoundTrip | src/Instruction.cpp:22-87 | For every in-range immediate and every setting of the other fields, extraction after encoding (section 2.3 of the RISC-V Unprivileged ISA) returns it |
| Encoding.WordsReencode | src/Instruction.cpp:22-87 | Every word's immediate is in its format's range, and encoding the fields gives the word back |
| Encoding.RecognizedByFields | src/Decoder.cpp:122-369 | The fixed fields of each instruction's format determine it |
| Encoding.RecognizedExactly | src/Decoder.cpp:122-369 | A word is recognised as an instruction if and only if the fields the decoder looks at are that instruction's; funct3 of JALR and funct7 of SLLI are not looked at |
| Encoding.MadeFromEncoded | src/Decoder.cpp:7-121 | The object built from an encoded instruction has its immediate (a shift's in the low five bits), and reads and writes the encoded registers |
| Encoding.EncodedImmediate | src/Instruction.cpp:22-87 | The immediate assembled by the class of an encoded instruction is the one it was given |
| Encoding.DecodeEncoded | src/Decoder.cpp:23-369 | Encode, extract and recognise gives back name, type, access kind and size, registers and immediate |
| Encoding.EncodeInjective | src/Decoder.cpp:122-369 | Distinct supported instructions never share a word |
| Encoding.LoadConstant | src/Executors.cpp:3-43 | LUI then ADDI leaves exactly c, for every 32-bit c |
| Encoding.LoadAddress | src/Executors.cpp:11-43 | AUIPC then ADDI leaves pc + c modulo 2^32 |
| Manual.AluRight | src/Executors.cpp:3-331 | The rd value of every instruction that sets rd, over integers: sums and differences modulo 2^32, signed and unsigned comparisons, shifts as products and rounded-down quotients by 2^n, bit by bit for the logical ones, pc + 4 for the links |
| Manual.CompareRight | src/Executors.cpp:233-312 | Each branch decides by equality, by the signed or by the unsigned order of its operands |
| Manual.DestinationRight | src/Executors.cpp:314-331 | The target is pc + imm, for JALR rs1 + imm, modulo 2^32 |
| Manual.DisplacedRight | src/Executors.cpp:19-34 | The address of a load or store is rs1 + imm modulo 2^32 |
| Manual.ExecutesRight | src/Executors.cpp:3-334 | All of these, of the instruction that EX leaves |
| Manual.JumpsRedirect | src/PerfSim.cpp:100-104 | After EX an instruction redirects fetch if and only if it is JAL, JALR or a branch whose comparison holds |
| Behaviour.StepRight | src/PerfSim.cpp:88-187 | A sequential step on any word with a name: pc, every register, every byte of memory and the halt are what the name and the operands say |
| Behaviour.EncodedStepRight | src/PerfSim.cpp:53-187 | The same for the word an assembler makes, found in memory as a little-endian number |
| Behaviour.RunBehaves | src/PerfSim.cpp:24-42 | A guarded run ends with the registers and memory to which n such steps lead from the initial state |
| Behaviour.ExtendedRight | src/PerfSim.cpp:138-157 | What each load leaves of the number in memory: LW all of it, the sub-word loads one or two bits, as in the source |
| Behaviour.ReadIsLittle | src/Memory.cpp:16-20 | A read of 1, 2 or 4 bytes is the little-endian number there |
| Behaviour.WrittenRight | src/Memory.cpp:9-14 | A write leaves in each byte it covers the matching byte of the number, and changes no other |
| Instructions.Instruction.CalcImm | src/Instruction.cpp:22-87 | The five overrides assemble the immediate of the object's class; for a word an assembler made, the immediate it was given |
| Instructions.Instruction.Execute | src/Executors.cpp:3-334 | The executor changes rd, the branch outcome or the address of the object, and nothing else, and their values are those of the manual over integers |
| Instructions.CyclicArray.GetNext | headers/Decoder.h:21 | The slot at the index, which moves on by one |
| Instructions.CyclicArray.SlotIsNotRecent | headers/Decoder.h:12-22 | The next slot is none of the last size - 1 handed out |
| Instructions.CyclicArray.Ages | headers/Decoder.h:21 | One hand-out ages a slot by at most one |
| Hardware.RegFile.GetReg | src/RegFile.cpp:14-18 | The register, and one more lock for a writer other than of x0 |
| Hardware.RegFile.Write | src/RegFile.cpp:20-28 | Value in, lock released, x0 ignored |
| Hardware.Stage.Update | headers/Stage.h:110-121 | A stopped stage counts down; else the buffers swap and the new store is clear |
| Hardware.HazardUnit.Decode | src/HazardUnit.cpp:12-57 | Bypass or interlock on the latches as they are: value, counters, stops, cancel flag and exception |
| Hardware.HazardUnit.Interlock | src/HazardUnit.cpp:24-32 | The load-use branch: one stall, and the load cancelled in the EM store latch |
| Hardware.HazardUnit.Branch | src/HazardUnit.cpp:59-69 | Redirects fetch and marks the FD and DE store latches, and nothing else |
| Hardware.HazardUnit.Exit | src/HazardUnit.cpp:84-90 | Five stops for WF, FD and DE, and the ECALL in DE marked |
| Hardware.HazardUnit.Write | src/HazardUnit.cpp:75-83 | rd goes into the register file and its lock is released |
| Decoders.Decoder.Recognize | src/Decoder.cpp:122-369 | The nested switch leaves in the decoder's fields the entry of the opcode table |
| Decoders.Decoder.Allocate | src/Decoder.cpp:31-109 | The object handed out is of the word's class and stands in no latch |
| Decoders.Decoder.HeldIsNotNext | headers/Decoder.h:12-22 | A latched object is never the next slot of its ring |
| Decoders.Decoder.ReadOperand | src/Decoder.cpp:34-38 | A locked source comes from the hazard unit, an unlocked one from the register file |
| Decoders.Decoder.Fill | src/Decoder.cpp:111-118 | Every field of the object is the word's but the pc, and the taken flag of a branch object, which survives |
| Decoders.Decoder.Decode | src/Decoder.cpp:7-121 | The object holds the decoded word; rd is locked; no instruction in flight changes |
| Simulators.PerfSim.constructor | src/PerfSim.cpp:4-22 | The new simulator is the initial machine over the loaded memory: sp at its top, a zero there, fetch at the entry, no lock held |
| Simulators.LoadedIs | src/PerfSim.cpp:4-22 | What is loaded: x2 at the top, every other register 0, four zero bytes at the top, the rest of memory as it was |
| Simulators.PerfSim.WriteBack | src/PerfSim.cpp:166-187 | On the heap, what the WB stage specifies |
| Simulators.PerfSim.StoreData | src/PerfSim.cpp:127-137 | The store goes to the queue or to memory, by the switch |
| Simulators.PerfSim.LoadData | src/PerfSim.cpp:138-157 | The loaded and extended word, for any stack garbage |
| Simulators.PerfSim.MemoryAccess | src/PerfSim.cpp:115-164 | On the heap, what the MEM stage specifies; only the object in MEM changes |
| Simulators.PerfSim.Perform | src/PerfSim.cpp:99 | Executing the shared object shows in DE and in no other latch |
| Simulators.PerfSim.Redirect | src/PerfSim.cpp:100-109 | Branch and ECALL reach the hazard unit exactly for taken jumps and system words; by name, JAL, JALR and a taken branch, and nothing else, send fetch to their target and are counted |
| Simulators.PerfSim.Execute | src/PerfSim.cpp:88-114 | On the heap, what the EX stage specifies |
| Simulators.PerfSim.Decode | src/PerfSim.cpp:71-86 | On the heap, what the ID stage specifies; the new object is in no load latch |
| Simulators.PerfSim.Fetch | src/PerfSim.cpp:53-69 | On the heap, what the IF stage specifies |
| Simulators.PerfSim.UpdateStages | src/PerfSim.cpp:35-39 | The five swaps; afterwards live latches again refer to distinct objects, at most 1, 2 and 3 hand-outs old |
| Simulators.PerfSim.Clock | src/PerfSim.cpp:28-42 | One iteration is one `Cycle`, exceptions included, and keeps the invariant; latches refer to what they did, moved on, or to the slot just taken |
| Simulators.PerfSim.RunFor | src/PerfSim.cpp:24-42 | Any number of iterations of any program is `Machines.Run` |
| Simulators.PerfSim.Run | src/PerfSim.cpp:24-42 | The loop as it stands, with no bound: under the guard it ends, within 3n + 2 clocks, in the sequential final state |
| Simulators.CycleKeepsSound | src/PerfSim.cpp:28-42 | Locks conserved, table entries in flight and an empty queue survive every cycle |
| Simulators.CycleInParts | src/PerfSim.cpp:28-42 | The stages and updates in the source's order make a cycle |

## Left out

- `tryConcatenate` (src/Pipeline.cpp:95-165): its loop never runs, because the queue is empty when `push` is called; `push` never merges here.
- StoreQueues.Pipeline.Forward: leaves out the inner else at src/Pipeline.cpp:64-69, which the first case already covers.
- Simulators.PerfSim.Run: asks for the guard, because as written some programs never end.
- Exactness.WorksExactly: asks for sound code, and as written that the word behind a jump is not rewritten while it may be fetched; which of two versions such a word has depends on the store-queue switch.
- Accounting.ClocksAtExit: asks that no instruction hit the load just ahead with both operands; such a hit stops fetch twice.
- ELF loading, logging, tracing, the name tables and wall-clock time: input and output. The simulator starts from an arbitrary loaded memory and entry.
- CSR, EBREAK, FENCE and unrecognised encodings: the model decodes them as the code does, but the run theorems exclude them. The address an unrecognised load or store leaves in its object is not modelled; nothing reads it.
- Misaligned-access exceptions: the source has none.
- Undefined behaviour of C++: shifts by 32 or more give 0, SRA the sign; `begin()` of the empty queue yields 0, its value being unused; wrap of 64-bit addresses and of the counters is not modelled.
- A sign-extended negative address is a large one and out of bounds; memories above 2^31 bytes are not meant.
- The register-number check of `RegFile::write` and the `throw 1` of the base instruction class: unreachable, because register numbers come from five bits and only the classes that have a field are asked for it.
- Dead code: the stop check after decoding at src/PerfSim.cpp:81-83, since nothing between the two checks extends that stage.
- The subclasses of `Instruction` are one class with a constant `kind`; a field that a subclass lacks holds a default, and executor pointers are found by name.
- The load and store address left from an object's previous use: reset at decode here, overwritten before use there.
- Latch objects are values inside a stage; their two buffers are never aliased.
- ISA-level claims for XORI, ANDI, sub-word loads and odd JALR targets: false of the code, see above; `Manual.Computes` and `Behaviour.LoadLeaves` say what the code does instead. A register shift by 32 or more is left open there.
