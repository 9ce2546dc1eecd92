# A model of the DMA CPU toolchain

The system builds a CPU out of the DMA channels of an RP2040 or RP2350. A program is a list of
16-byte control blocks, or of 8-byte records in the compact encoding. Channels fetch each block into
another channel's registers, that channel moves the data and chains back, and the DMA sniffer is the
accumulator. On top of this stand an emulator (`host/emu`), an assembler (`host/dmaasm`), a C compiler
back end that reads LLVM IR (`host/dmacc`) and an image format (`host/img`).

This project states what each layer promises to the layer above it and proves it for all inputs, all
runs or all reachable states. Words are integers below 2^32, wrap-around is written out, memory is a map
from word index to word.

- words and bits: `Words`, `Bits`
- the channel machine: `Chip` (specification), `Engine` (the emulator with its caches), `Pacing`, `Bursts`, `Fairness`, `Credits`, `Channels`, `Registers`, `Control`
- the machine runs blocks and records: `Wiring`, `Worker`, `Sequencer`, `Classic`, `Banks`, `Startup`, `Labelled`
- the compact encoding: `Core`, `Compact`, `Planner`, `Passes`, `Refinement`, `Rules`, `Layouts`, `Scanning`
- macros and their meaning: `Macros`, `Meaning`, `Dispatch`, `Expansion`, `Arena`
- arithmetic by lanes and sums: `Asm`, `Shifts`, `DivConst`, `Lowering`, `Runtime`, `Backing`
- comparison sites: `Compare`, `Sites`
- storage: `Cfg`, `Slots`, `Colouring`, `Copies`, `Aliases`, `Frames`, `Locals`, `Recursion`, `Forks`
- value bounds: `Bounds`, `Executions`, `Narrowing`, `Dominators`, `Facts`, `WholeProgram`, `Casts`
- outlining: `Outliner`, `Outlining`, `Sizes`, `Repeats`, `Choosing`
- images: `Images`, `Loading`, `Building`

The layers meet. `Startup.CompactStarts` brings the channels to the state from which `Banks.RecordRuns`
runs a record; `Refinement.ProgramRefines` relates records to blocks; `Labelled.LaidFollows` joins them for
programs with jumps that are put into memory once. `Scanning.TwoPass` compares what the assembler's first pass
reads off the operands with what its second pass emits. `Rules.MacroRefines` shows that every macro meets the refinement's rules,
`Expansion.ExpandMeans` says what each of them computes in either encoding, and `Sites.SiteReaches` uses both for
the compiler's comparisons. `Backing.CodeBacked` carries what is proved of lowered code over to its blocks.
`Colouring.Allocate` produces the allocation `Copies.FunctionFollows` and `Lowering.AllocatedDivide` rely
on, and `Dominators.DominatorTree` the tree `Facts.FactsOf` and `WholeProgram.AnalyzeBounds` rely on.

## Findings

Properties the code does not have in full. In each case the model keeps the code's behaviour, a theorem
gives the condition under which the property holds, and a lemma at a concrete input shows it fail. The
condition is exact (an if-and-only-if) except where the entry says otherwise.

- Pass 1 recognises %pc only by its name, pass 2 by its address. `add`, `sub`, `shl` and `mulc` by a nonzero
  constant into `@0x500001C0` are sized one record short, and the assembler stops with its internal
  mismatch error (`Scanning.ScanExact`, `Scanning.TwoPass`; input `Scanning.MisreadAdd`).
- A block with a repeat count on the plain bank is planned as a count-set that the plain bank performs on
  its own count (`Passes.SelfCountIff`; input `Passes.SelfCountHappens`). Of the macros only
  `move count=` without size or increment flags asks for it.
- `move wcount=` is four bytes per word in the compact encoding, which the comment there says needs a
  splatted source when the source stands (`Layouts.StandIff`; input `Layouts.StandingSource`). When the
  destination stands too that is not enough: only its low byte is written (`Layouts.FixedIff`,
  `Layouts.MoveMeans`; input `Layouts.StandingBoth`).
- `and` with `at` as its second operand gives 0, because `at` is overwritten first (`Meaning.AndWithAt`).
- Rewriting a TIMER register between two pulses drops the fraction gathered so far
  (`Pacing.RewriteExact`; input `Pacing.RewriteLoses`); a register write agrees with the per-cycle model
  exactly when it drops nothing (`Engine.Emulator.RegWrite`).
- An alias registered by a cast is unknown to uses lowered earlier, which then read a word nothing writes
  (`Aliases.ForwardingSound`; input `Aliases.LostAlias`).
- `ptrtoint` to an integer below a word forwards the whole pointer, and a reader of the value's bound is
  still told the type's (`Casts.CastIff` for each execution, `Casts.NarrowIff` for functions that cast
  parameters and addresses in their entry block; input `Casts.WidePointer`).
- A loaded i1 is any byte, and with a byte that is not 0 or 1 what `xor i1` and `or i1` are taken to prove
  is false (input `Casts.LoadedByte`). One way only: the bounds hold whenever loaded i1 words are 0 or 1
  (`Facts.FactsOf`).
- A local whose address is handed down a recursion is written and read in the wrong place: the store
  reaches the static frame, and the pop undoes it (`Locals.StoreIff`, `Locals.LoadIff`; input
  `Locals.HandedDown`).
- Frame-stack mode covers cycles of direct calls only, so a function re-entered through a pointer keeps one
  static frame (`Recursion.CoveredIff`; inputs `Recursion.PointerReenters`, and `Recursion.DirectReenters`
  where the re-entering call is direct).
- A process killed while suspended in a fork leaves its shadow word behind, and its parent then resumes
  with the wrong pointers (`Forks.ForkRestores`; input `Forks.LeakedSlot`).
- An init write aimed into a placed segment replaces a word of the image (`Loading.KeptIff`; input
  `Loading.Overwritten`).
- Relocating a word twice makes it depend on both placements (`Building.RelocatedOnce`; input
  `Building.RelocatedTwice`).
- The encoder accepts images the decoder's bounds refuse (`Images.RoundTripIff`; input
  `Images.TooManySegments`), and validation computes `off + 4` modulo 2^32, so it lets offset 0xFFFFFFFC
  through (`Images.ValidInside`; input `Images.ValidOutside`).

## Model

| member | source | states |
|---|---|---|
| `Refinement.ProgramRefines` | host/dmaasm/compact.go:158-218 | For every instruction list obeying the mode-domain rules along its classic run, from related states: the planned and synced records, executed on the bank machine, fall through, jump or halt as the classic blocks do, with the same memory and %pc up to the null cell, a dead `at` and a dead accumulator |
| `Refinement.BlockRefines` | host/dmaasm/compact.go:158-196 | One rule-obeying block from any planner state: its switch, count-set, staging and payload records end in a state related to the block's, with the planner's new bank and counts |
| `Refinement.ReadThroughAt` | host/dmaasm/compact.go:164-175 | A read of the accumulator into %pc off the sniff bank goes through `at`, and the jump leaves the canonical bank behind |
| `Refinement.SyncRefines` | host/dmaasm/compact.go:199-218 | From every planner state the sync records reach the canonical state, change nothing a program can see, and keep the accumulator only if the bank was plain |
| `Planner.InstrSafe` | host/dmaasm/compact.go:139-218 | For every shape sequence: no switch executes on an auto-return bank, every count-set executes on the plain bank, staging reads happen on the sniff bank only, and the machine ends on the plain bank |
| `Passes.CState.PlanBlock` | host/dmaasm/compact.go:158-196 | The planner's in-place update and its records are the planning function's, for every state and shape |
| `Passes.CState.PlanSync` | host/dmaasm/compact.go:199-218 | Every instruction ends in the canonical state, by the records of the sync function |
| `Passes.PlanCount` | host/dmaasm/compact.go:239-247 | The record count is the length of the whole planned instruction, sync included |
| `Passes.PlanPayloadDelta` | host/dmaasm/compact.go:224-237 | The offset it returns is that of the first payload record of the planned instruction, 0 for no blocks |
| `Passes.PlanPrefix` | host/dmaasm/dmaasm.go:849-856 | The size of a planned prefix, from canonical state |
| `Passes.LabelOffset` | host/dmaasm/dmaasm.go:849-856 | A label behind the first m blocks of instruction j lands on a boundary of the records emitted: the text so far, then the plan of those m blocks |
| `Passes.Emit` | host/dmaasm/compact.go:313-346 | Pass 2, from one carried planner state and the shapes it sees through the emitted pointers, accepts the sizes of pass 1 exactly when each is the record count of its blocks, and then emits the concatenated plans |
| `Passes.Emitter.EndInstr` | host/dmaasm/compact.go:338-346 | Syncs, and reports a mismatch exactly when the records emitted since the last instruction are not as many as predicted |
| `Passes.SelfCountIff` | host/dmaasm/compact.go:158-196 | An instruction makes the plain bank set its own count exactly when some plain block moves other than once (no cntAfter); see Findings |
| `Passes.SelfCountHappens` | host/dmaasm/compact.go:158-196 | A plain block with count 2 is such an instruction |
| `Scanning.ScanExact` | host/dmaasm/dmaasm.go:898-1140 | For every line over every spelling of its operands (symbol, literal, %name, @address): the shapes pass 1 scans plan the same records as the blocks pass 2 emits if and only if the line is not add, sub, shl or mulc by a nonzero constant into %pc spelled as an address; such a line is sized exactly one record short |
| `Scanning.MisreadAdd` | host/dmaasm/dmaasm.go:836-846 | add into @0x500001C0: five records sized, six emitted |
| `Scanning.LocatedAt` | host/dmaasm/dmaasm.go:373-428 | The location an address operand resolves to has that address, for every address |
| `Scanning.ScanProduct` | host/dmaasm/dmaasm.go:966-983 | The loop over the constant's bits scans the additions and doublings of a product from the top set bit down |
| `Scanning.LabelExact` | host/dmaasm/dmaasm.go:1004-1120 | In both encodings the label generated in jneg, jbool, call and safepoint is behind exactly the blocks that precede it |
| `Scanning.ClassicSized` | host/dmaasm/dmaasm.go:516-545 | In classic code every line is as many blocks as the instruction table lists |
| `Scanning.Layout` | host/dmaasm/dmaasm.go:737-773 | Pass 1 refuses a program exactly when a line has move flags no bank serves; otherwise it sizes every line by its scanned shapes, starts it behind all before, and gives out its label and the offset of its first payload record |
| `Scanning.TwoPass` | host/dmaasm/dmaasm.go:220-259 | Both passes over any program: the sizing check fires exactly when some line is misread, and otherwise every start, generated label and payload offset of pass 1 is where pass 2 put the record |
| `Scanning.RecordsScanned` | host/dmaasm/compact.go:338-346 | The records emitted for a line are as many as pass 1 counted if and only if it is not misread |
| `Scanning.SlotsScanned` | host/dmaasm/dmaasm.go:1004-1090 | At the label pass 1 computes from the scanned body of jneg and jbool are the two jump slots, and nothing follows them |
| `Rules.MacroObeys` | host/dmaasm/dmaasm.go:906-1140 | Every macro's compact expansion obeys the mode-domain rules from every machine state: arithmetic, tests, dispatches with their trailing slots, jump, jumpr, call, ret, safepoint, gpio, halt, nop, and move with every flag combination a bank serves, provided a repeat or dyncount is off the plain and sniff banks, a dyncount move follows the setting of its count, and the words its transfers touch are ones a program may touch |
| `Rules.MacroRefines` | host/dmaasm/emit.go:303-664 | So every macro's records exit as its blocks do, from every pair of related states; Expansion.ExpandMeans says how that is |
| `Rules.MacroPasses` | host/dmaasm/emit.go:303-664 | Every macro but move, nop and halt meets the static form of the rules, whatever its operands and constants |
| `Rules.BankForMode` | host/dmaasm/compact.go:78-135 | The bank chosen for a CTRL word moves data as that word asks, and a word no bank serves is refused |
| `Layouts.RecordsCounted` | host/dmaasm/compact.go:239-247 | The records emitted for a block list are as many as pass 1 planned for its shapes, and leave the planned state |
| `Layouts.SlotsPlaced` | host/dmaasm/emit.go:414-440 | Behind a dispatch that jumps through the accumulator, the two trailing slots are the two records that follow the planned prefix: `tramp` is where pass 1 puts it |
| `Layouts.JnegReaches` | host/dmaasm/emit.go:414-440 | jneg with its slots laid out where pass 1 labels them, in either encoding, reaches the label of the sign, for every word in the encoding's range |
| `Layouts.JboolReaches` | host/dmaasm/emit.go:577-615 | jbool likewise, for words that are 0 or 1 |
| `Layouts.MoveMeans` | host/dmaasm/dmaasm.go:559-614 | For every move without dyncount: the compact block does what the classic block does if and only if it has no wcount, walks both addresses, splats a repeated byte, or overwrites only equal upper bytes |
| `Layouts.WordsSame` | host/dmaasm/dmaasm.go:559-614 | n words walked word by word are 4n bytes walked byte by byte, whatever overlaps |
| `Layouts.StandIff` | host/dmaasm/dmaasm.go:559-614 | With a standing source, bytes and words agree exactly when the source word is one byte repeated |
| `Layouts.FixedIff` | host/dmaasm/dmaasm.go:559-614 | With both addresses standing, exactly when the upper three bytes agree already |
| `Layouts.StandingSource` | host/dmaasm/dmaasm.go:559-614 | 0x1234 moved with a standing source: 0x1234 in classic code, 0x34343434 in compact |
| `Layouts.StandingBoth` | host/dmaasm/dmaasm.go:559-614 | With both addresses standing: 0x1234 in classic code, only the low byte in compact |
| `Expansion.ExpandMeans` | host/dmaasm/emit.go:303-664 | Every macro in both encodings from every state: the blocks it expands to leave the sum, difference, union, exclusive or, complement-and, product or moved data of its source operands in its destination, or go to the label its question about them selects, and change nothing else but the scratch words named |
| `Expansion.RecordsMean` | host/dmaasm/emit.go:303-664 | So the compact records, run by the bank machine from a related state, exit as is meant |
| `Meaning.BitwiseMeans` | host/dmaasm/emit.go:329-360 | or, xor and andn on memory cells, whatever aliases: the destination and the accumulator hold the operation's word and nothing else changes |
| `Meaning.AndMeans` | host/dmaasm/emit.go:340-353 | and by complement and clear; the second operand may not be `at` |
| `Meaning.AndWithAt` | host/dmaasm/emit.go:340-353 | With at as the second operand the result is 0 whatever the operands |
| `Meaning.AddMeans` | host/dmaasm/emit.go:313-319 | add modulo 2^32, whatever aliases; with equal operands it is the left shift |
| `Meaning.SubIntoMeans` | host/dmaasm/emit.go:233-239 | The four blocks leave a - b in the accumulator and change only the null cell |
| `Dispatch.MulcMeans` | host/dmaasm/emit.go:368-398 | The destination holds the constant times the operand modulo 2^32, in both encodings, for every constant |
| `Dispatch.JsignMeans` | host/dmaasm/emit.go:441-448 | jsign goes to the pair base, plus 128 exactly when the word is negative |
| `Dispatch.JeqMeans` | host/dmaasm/emit.go:449-486 | jeq goes to the pair base exactly when the operands are equal, plus 128 otherwise; only scratch words change |
| `Dispatch.JltMeans` | host/dmaasm/emit.go:487-531 | jlt goes 128 beyond the pair base exactly when a < b as signed words, for all operands, also across overflow |
| `Dispatch.JltuMeans` | host/dmaasm/emit.go:532-576 | jltu likewise for unsigned words |
| `Dispatch.JnegMeans` | host/dmaasm/emit.go:414-440 | jneg goes to the slot named by one bit of the word |
| `Dispatch.JnegRange` | host/dmaasm/emit.go:414-440 | Within jneg's documented range that bit is the sign |
| `Dispatch.JboolMeans` | host/dmaasm/emit.go:577-615 | jbool scales the word by the slot size and adds the trampoline address |
| `Arena.EmitArena` | host/dmaasm/emit.go:684-722 | For every list of pairs and both encodings: the emitted arena has the size pass 1 reserved, at pass 1's offset for each pair is the sign-clear jump, with the sign-set jump 128 bytes on, and every other slot halts |
| `Arena.Placed` | host/dmaasm/dmaasm.go:780-795 | Pass 1's byte offset of a pair is pass 2's emission index, whatever the bank |
| `Classic.BlockRuns` | host/emu/machine.go:848-959 | From fetch at pc with only the machine's channels armed, for every block a program may contain, 5 + n cycles later fetch is ready again, memory and accumulator are as the block's n moves leave them, and %pc is 16 on unless the block wrote it |
| `Classic.HaltRuns` | host/emu/dma.go:427-456 | A block whose CTRL word is 0 leaves every channel idle, and memory and accumulator untouched |
| `Classic.SetupStarts` | host/emu/fetchexec.go:61-93 | Classic start-up is accepted exactly for three distinct channels of the chip, an aligned scratch word in SRAM and a 16-byte aligned entry, and then fetch stands at the entry |
| `Classic.ProgramRuns` | host/emu/dma.go:344-471 | Every legal sequence of blocks, jumps included: the channel machine passes through a fetch with exactly the sequential machine's state |
| `Banks.RecordRuns` | host/emu/compact.go:46-101 | From fetch at pc bound for any bank: the record's moves on that bank, fetch ready again at the bank the record selected or auto-return restored, %pc 8 on unless the record wrote it |
| `Banks.RecordHalts` | host/emu/dma.go:427-456 | A record with a zero write word, or on a bank with count 0 that does not auto-return, leaves every channel idle |
| `Banks.ProgramRuns` | host/emu/dma.go:344-471 | Every legal sequence of records: the channel machine passes through a fetch with exactly the sequential machine's state |
| `Banks.StraightLine` | host/emu/compact.go:46-101 | Records at consecutive addresses run as the record list does, up to the first jump |
| `Banks.BankModes` | host/emu/compact.go:46-95 | The bank CTRL words decode to the modes the planner assumes, and every window address names its own bank |
| `Startup.InitConfigures` | host/dmaasm/emit.go:120-142 | On an idle chip the image's sniff, bank and cleanup writes configure every machine channel and start none |
| `Startup.CompactStarts` | host/emu/fetchexec.go:46-59 | After them compact start-up is accepted exactly for an 8-byte aligned entry, and then fetch stands at the entry bound for the plain bank with all counts 1: the premise of Banks.RecordRuns |
| `Labelled.ProgramFollows` | host/emu/fetchexec.go:43-93 | A labelled program with jumps in compact form: over any number of instructions obeying the rules, each found in memory when %pc reaches it, the channel machine reaches the boundary with memory and %pc related to the program's block semantics |
| `Labelled.LaidFollows` | host/emu/fetchexec.go:43-93 | The same for a program put into memory once: it is enough that the layout holds at the start and that no move writes a word of the text |
| `Labelled.StartsAtBoundary` | host/emu/fetchexec.go:46-59 | Start-up reaches the first such boundary with the loaded memory and %pc at the entry |
| `Labelled.ClassicFollows` | host/emu/fetchexec.go:61-93 | The same program laid out classic: the channel machine reaches a fetch with exactly the block semantics' state |
| `Labelled.StepClassicIs` | host/emu/machine.go:848-959 | One classic instruction in memory is its block list: a jump goes where the blocks say, anything else falls 16 bytes per block on |
| `Control.DecodeEncode` | host/emu/compact.go:61-101 | Every CTRL word built from fields decodes, on both chips, to those fields: enabled, quiet, unpaced, not busy |
| `Wiring.LocWrite` | host/emu/machine.go:354-472 | A bus write of any size to a program location writes that location of the sequential machine and nothing else |
| `Worker.WorkTransfer` | host/emu/machine.go:848-959 | One transfer of a working channel is one move of the sequential machine, sniffer and ring included |
| `Fairness.GrantExact` | host/emu/machine.go:643-661 | Every cycle grants, among the ready channels with the high-priority bit, or among all ready ones when none has it, the nearest one behind the last grant; with none ready the last grant stands |
| `Fairness.HighFirst` | host/emu/machine.go:643-661 | Channels 3 and 5 ready behind a grant of 4: 5 is granted, unless 3 alone is high-priority |
| `Credits.WordsPaid` | host/emu/machine.go:848-853 | Over any run of any length, a paced channel's final credit and the words it moved are together at most its first credit and the pulses it received |
| `Credits.CreditBalances` | host/emu/dma.go:491-525 | While its sequence goes on and no pulse finds the counter full, they are equal, and its count goes down by the words moved |
| `Credits.StepExact` | host/emu/dma.go:491-525 | One cycle: the credit takes the pulses up to its limit of 63 and loses one exactly when the channel moves a word |
| `Credits.TransferKeeps` | host/emu/machine.go:848-959 | A datum of any channel leaves another's sequence and credit alone, and spends one credit of its own |
| `Credits.NoCreditWaits` | host/emu/dma.go:474-490 | Without credit and without a pulse a paced channel moves nothing |
| `Registers.CtrlBits40` | host/emu/variant.go:85-128 | Every CTRL word of the RP2040 by bit position: enable, priority, size, the two increments, ring, chain, DREQ, quiet, swap and sniff |
| `Registers.CtrlBits50` | host/emu/variant.go:132-192 | The same for the RP2350, with its downward increments |
| `Registers.ChannelReads` | host/emu/dma.go:282-299 | Each of a channel's four register rows shows the same four registers, CTRL with the busy bit |
| `Registers.ChannelWrites` | host/emu/dma.go:344-425 | Writing one that does not trigger changes that register and nothing else |
| `Registers.GlobalReads` | host/emu/dma.go:318-336 | Sniff control and data, plain, reversed or inverted, and the channel count, at their addresses on both chips |
| `Registers.GlobalWrites` | host/emu/dma.go:344-425 | So for the multi-channel trigger, the sniffer and the abort register |
| `Registers.TimerRegs` | host/emu/dma.go:318-336 | And for the four timers |
| `Registers.BusExact` | host/emu/machine.go:195-213 | A word written to RAM is read back; a register's three atomic aliases toggle, set and clear its bits |
| `Registers.FaultExact` | host/emu/machine.go:354-472 | An access faults exactly when it is misaligned or neither in RAM nor in the registers |
| `Registers.RateExact` | host/emu/dma.go:137-160 | In any number n of cycles a timer set to X/Y gives the whole part of (start + nX)/Y pulses and keeps the rest |
| `Registers.PacedBy` | host/emu/dma.go:514-525 | DREQ 0x3B to 0x3E are the four timers' pulses, and 0x3F paces nothing |
| `Channels.TriggerBegins` | host/emu/dma.go:427-456 | A trigger starts exactly an idle, enabled channel that has something to move: busy, its count the reload value, its credit cleared; a busy or disabled one is untouched |
| `Channels.TriggerWrites` | host/emu/dma.go:344-425 | Each of the four trigger aliases stores into its own register, and then starts the channel if the word is not zero; the null trigger only raises the interrupt of a quiet channel |
| `Channels.MultiExact` | host/emu/dma.go:344-425 | The multi-channel trigger starts exactly the startable channels whose bits are set |
| `Channels.AbortExact` | host/emu/dma.go:344-425 | The abort register stops exactly the channels whose bits are set |
| `Channels.FinishExact` | host/emu/dma.go:458-471 | A finished channel goes idle, raises its interrupt unless quiet, and starts the channel it chains to, unless that is itself or none |
| `Channels.SelfRestarts` | host/emu/dma.go:458-471 | In the RP2350's trigger-self mode it starts over |
| `Channels.CountExact` | host/emu/machine.go:940-959 | Each datum counts down by one, the last completes, an endless channel never counts, and on the RP2040 a channel that writes its own count stops for good |
| `Channels.SniffExact` | host/emu/dma.go:543-575 | The sniffer adds a datum modulo 2^32, swapped if asked, exactly when it is on and watches that channel, and faults in a mode other than sum |
| `Channels.RingExact` | host/emu/machine.go:1000-1014 | On a ring of 2^k bytes an address goes round inside its aligned block |
| `Fairness.Progress` | host/emu/machine.go:643-660 | Over every run in which a channel stays ready, and high-priority as long as any ready one is, it is granted within its cyclic distance from the last grant, so within the number of channels |
| `Engine.ReadyExact` | host/emu/dma.go:162-170 | Updating one channel's bit of the cached ready mask equals recomputing the mask when its CTRL is unchanged |
| `Engine.CtrlExact` | host/emu/dma.go:171-254 | Refreshing one channel's share of the decoded CTRL, ready and listener caches equals recomputing all of them after any change to it |
| `Engine.Emulator.SetChan` | host/emu/dma.go:162-170 | Storing a channel with unchanged CTRL keeps every cache equal to recomputation |
| `Engine.Emulator.CtrlChanged` | host/emu/dma.go:171-254 | Storing any channel keeps every cache equal to recomputation |
| `Engine.Emulator.RegWrite` | host/emu/dma.go:344-425 | A register write on the cached emulator is the cacheless one's if and only if it does not drop a timer's fraction |
| `Engine.Emulator.FireDue` | host/emu/dma.go:137-160 | Closed-form timers give the state of the per-cycle accumulator loop on the same cycle, with the same number of pulses to the same channels |
| `Engine.Emulator.PulseTimer` | host/emu/dma.go:514-525 | Pulsing the cached listeners of a timer credits exactly the channels paced by it |
| `Engine.Emulator.Transfer` | host/emu/machine.go:848-959 | One datum of channel i as the cacheless machine moves it (Credits, Channels), faults included, unless it rewrites a live timer |
| `Engine.Emulator.BurstLen` | host/emu/machine.go:686-754 | A burst longer than one word is allowed only for an eligible channel, within its count, and with no timer pulse before its end |
| `Engine.Emulator.Burst` | host/emu/machine.go:756-844 | An eligible burst is the same number of single transfers, cycle for cycle |
| `Engine.Emulator.Step` | host/emu/machine.go:580-684 | One call of step, with its burst, is that many cycles of the per-cycle machine (Fairness.GrantExact, Credits.StepExact), or faults when it does |
| `Engine.Emulator.Run` | host/emu/machine.go:1016-1075 | A whole run, with bursts and idle jumps, ends in the state of the per-cycle machine after as many cycles; Failed means the per-cycle machine faults after some number of cycles, Idle that no channel is armed, Stalled that one is armed, none is ready and none waits on a live timer |
| `Engine.StallForever` | host/emu/machine.go:1016-1075 | With nothing ready and no armed channel paced by a live timer, no later cycle moves a datum, changes an armed channel or faults |
| `Engine.Emulator.constructor` | host/emu/machine.go:155-165 | A new machine: cleared caches are the caches of cleared registers, and the state is the per-cycle machine's reset state, so every state its methods reach satisfies their invariants |
| `Engine.QuietUntil` | host/emu/dma.go:124-136 | Before the earliest scheduled pulse no timer reaches its divisor |
| `Bursts.BurstIsSteps` | host/emu/machine.go:756-844 | k words moved at once by an eligible channel equal k grants of one word |
| `Bursts.IdleJump` | host/emu/machine.go:1054-1065 | With no channel ready and no pulse due within n cycles, n cycles change only the timers' accumulators and the clock |
| `Pacing.DueCycle` | host/emu/dma.go:101-160 | On a due cycle the closed form owes the accumulator loop's pulses, and its remainder is the loop's |
| `Pacing.QuietCycle` | host/emu/dma.go:101-160 | On any other cycle the loop pulses nothing and the closed form still agrees |
| `Pacing.RewriteExact` | host/emu/dma.go:101-122 | A TIMER write leaves the accumulator the per-cycle model has if and only if the timer was off or is exactly at a pulse; see Findings |
| `Pacing.RewriteLoses` | host/emu/dma.go:101-122 | A timer halfway to its pulse, rewritten with its own value, forgets the half |
| `Bits.BswapLanes` | host/emu/dma.go:599-605 | A swap reverses the bytes of its size: all four, the low two, or none |
| `Bits.PutLanes` | host/emu/machine.go:354-376 | A field written replaces exactly its bytes |
| `Bits.FieldLanes` | host/emu/machine.go:214-240 | A field read has exactly its bytes |
| `Backing.InsBacked` | host/dmaasm/emit.go:303-398 | With the program's words in memory cells, the macro each instruction of lowered code is written as does to the cells what the instruction does to the words, in either encoding |
| `Backing.CodeBacked` | host/dmaasm/emit.go:303-398 | So whatever is proved of a lowered sequence holds of its blocks in memory |
| `Shifts.LaneShrConstMeans` | host/dmacc/func.go:1297-1317 | A constant right shift by 1 to 31 through byte lanes is exact for every word, in place or not, and changes only the result and two scratch words |
| `Shifts.ShlConstMeans` | host/dmacc/func.go:1252-1295 | A constant left shift is exact modulo 2^32, in place or not |
| `Shifts.EmitShl` | host/dmacc/func.go:1269-1295 | The doubling loop emits the code those theorems are about |
| `DivConst.MulConstMeans` | host/dmacc/func.go:1141-1172 | Double-and-add multiplies modulo 2^32 for every operand and every constant, in place or not |
| `DivConst.EmitMulBits` | host/dmacc/func.go:1141-1172 | The loop over the multiplier's bits emits the double-and-add code |
| `DivConst.DivPow2Means` | host/dmacc/func.go:1500-1569 | Division and remainder by plus or minus 2^n, signed (truncating toward zero, as section 6.5.5 of ISO C11 asks) and unsigned, at every width 1 to 32, INT_MIN included, result and operand being different words |
| `DivConst.SextMeans` | host/dmacc/func.go:846-850 | Sign extension from any width gives the word of the signed value |
| `Lowering.ShlExact` | host/dmacc/func.go:1319-1342 | shl by a constant at every width: the product with 2^(k mod 32) modulo 2^w, in place or not |
| `Lowering.ShrExact` | host/dmacc/func.go:1364-1397 | lshr and ashr by a constant at every width, with the sign extension and the mask |
| `Lowering.AshrExact` | host/dmacc/func.go:1364-1397 | The arithmetic one is the floor of the signed quotient modulo 2^w |
| `Lowering.MulExact` | host/dmacc/func.go:1141-1172 | mul by a constant at every width is exact modulo 2^w |
| `Lowering.PowerTest` | host/dmacc/func.go:1428-1451 | m & (m - 1) is 0 exactly for the powers of two, with exponent the trailing zeros |
| `Lowering.DivIns` | host/dmacc/func.go:1500-1595 | A constant divide is taken inline exactly for plus or minus 2^n, and unsigned 10 and 100, and then leaves the true quotient or remainder, the /100 chain and its rebuilt remainder included |
| `Lowering.AllocatedApart` | host/dmacc/func.go:113-145 | In every function in SSA form whose aliases are lowered before their uses, under every correct allocation, an instruction's operands and result are different words and none is scratch |
| `Lowering.AllocatedDivide` | host/dmacc/func.go:1500-1569 | So power-of-two divides in allocated code are exact with no condition on aliasing |
| `Lowering.DivAllocated` | host/dmacc/func.go:1500-1595 | Every constant divide taken inline, the 10 and 100 chain included, is exact in allocated code with no condition on aliasing |
| `Runtime.Rt.Udivmod10` | host/dmacc/runtime.go:137-199 | Quotient and remainder by ten for every 32-bit word, by byte-lane shifts, with no overflow and one fixup |
| `Runtime.Rt.Mul` | host/dmacc/runtime.go:46-96 | The byte-skipping loop gives the product modulo 2^32 and terminates |
| `Runtime.Rt.Udivmod` | host/dmacc/runtime.go:98-135 | Restoring division gives quotient and remainder for every nonzero divisor, sign bit set or not, and terminates |
| `Runtime.Rt.Sdiv` | host/dmacc/runtime.go:226-252 | Signed division truncates toward zero for every nonzero divisor |
| `Runtime.Rt.Srem` | host/dmacc/runtime.go:253-278 | The remainder takes the dividend's sign |
| `Runtime.Rt.Shl` | host/dmacc/runtime.go:279-300 | Left shift by the count modulo 32, modulo 2^32 |
| `Runtime.Rt.Lshr` | host/dmacc/runtime.go:301-352 | Logical right shift by the count modulo 32: bit reversal and the rebuild loop agree, and the sniff control word is restored |
| `Runtime.Rt.Ashr` | host/dmacc/runtime.go:353-380 | Arithmetic right shift by the count modulo 32 |
| `Compare.HelperExact` | host/dmacc/compare.go:67-135 | The sign each comparison helper tests answers its question if and only if the operands are in the helper's range: all words for eqz, eq, lt and ltu, at most 2^31 for eqzp, a difference that does not overflow for ltp |
| `Compare.HelperReaches` | host/dmacc/compare.go:67-135 | From its entry each millicode helper reaches the true or false target its question selects |
| `Compare.FourMoveLeads` | host/dmacc/compare.go:372-409 | The four-move site reaches the label its helper's predicate selects |
| `Compare.PatchRuns` | host/dmacc/compare.go:140-209 | A move into the READ field of the record behind it makes that record move from the fetched address |
| `Compare.UnpackRuns` | host/dmacc/compare.go:140-209 | The self-patching unpack code, executed from memory, fills the comparison words as four moves would and jumps to the helper's entry |
| `Compare.DescriptorLeads` | host/dmacc/compare.go:140-209 | From the site's park and jump, through the unpack code and the helper, to the selected label in one run |
| `Compare.InlineLeads` | host/dmacc/compare.go:353-371 | An inlined jeq, jlt or jltu reaches through its trampoline pair the label of its predicate, in either encoding |
| `Compare.ChooseExact` | host/dmacc/compare.go:411-491 | For all operands of width 1 to 32, the chosen helper, operand order and target swap decide the icmp predicate, and eqzp and ltp are chosen only inside their range |
| `Sites.InlineAgrees` | host/dmacc/compare.go:353-371 | The macro that replaces a helper inline answers the helper's question |
| `Sites.DirectExact` | host/dmacc/compare.go:533-559 | The macro, operand order and swap of a direct inline comparison decide the icmp predicate |
| `Sites.SiteReaches` | host/dmacc/compare.go:411-559 | Every comparison site in every form (four moves, descriptor, inlined helper, direct macro), sign extension included, reaches the label icmp selects, for every predicate, width up to 32 and pair of operands for which the site's nonneg and zero facts hold |
| `Sites.BoolReaches` | host/dmacc/compare.go:493-531 | A branch on an i1, as a zero test in any form or as jbool, reaches the true label for a nonzero word and the false label for 0, given the nonneg or 0/1 fact its form rests on |
| `Sites.CopyPlanned` | host/dmaasm/compact.go:158-218 | The planned records of the descriptor copy and of a plain move |
| `Sites.FieldsPlaced` | host/dmacc/compare.go:140-209 | So the words the unpack code patches are the READ words of its copy and its moves, in both encodings |
| `Forks.ForkRestores` | host/dmacc/func.go:1852-1899 | For every legal run of a child, nested forks included, its parent resumes with fsp, shadow pointer, own frame, tail block and saved activations as at the fork call if and only if no process in that run was killed while suspended |
| `Forks.EveryParentResumes` | host/dmacc/dmacc.go:703-739 | Over every legal run and at every depth of nesting, a parent resumes so if and only if nothing leaked in its child's run |
| `Forks.LeakedSlot` | host/dmacc/func.go:1852-1899 | A child killed in its own fork leaves a parent that is not restored |
| `Frames.ProgramStands` | host/dmacc/func.go:2276-2350 | For every program with address-taken locals, and any number of steps that dereference a frame address only while its owner is the innermost activation of its function: one static frame per function with push and pop ends in the result and heap of fresh frames per call, or reaches the sink exactly when the stack does not fit |
| `Frames.StepStands` | host/dmacc/func.go:2309-2350 | One step, calls and returns included: the caller's frame, fsp, lr and result are as with fresh frames |
| `Locals.StoreIff` | host/dmacc/func.go:542-557 | A store through a frame address keeps the machines together for all values if and only if the owner is the innermost activation of its function |
| `Locals.LoadIff` | host/dmacc/func.go:542-557 | A load through a frame address gives the owner's word, whatever it holds, if and only if the owner is the innermost activation of its function |
| `Locals.LoadReads` | host/dmacc/func.go:542-557 | At a given state the load is right exactly when the innermost activation's word equals the owner's |
| `Locals.HandedDown` | host/dmacc/func.go:542-557 | f(n, p) with a local, calling f(n-1, &local): 7 with fresh frames, 0 with the static one |
| `Recursion.Search` | host/dmacc/dmacc.go:754-778 | The depth-first search finds the target exactly when calls lead to it |
| `Recursion.Cyclic` | host/dmacc/dmacc.go:779-789 | The functions in frame-stack mode are exactly those on a cycle of direct calls |
| `Recursion.DirectRuns` | host/dmacc/dmacc.go:740-789 | So no run of direct calls enters a live function outside frame-stack mode |
| `Recursion.CoveredRuns` | host/dmacc/dmacc.go:740-789 | When every function on a cycle of direct calls and calls through pointers is in frame-stack mode, no run enters a live function outside it |
| `Recursion.CoveredIff` | host/dmacc/dmacc.go:740-789 | That is the exact condition for the next call to be safe from every stack of activations linked by such calls |
| `Recursion.PointerReenters` | host/dmacc/dmacc.go:740-789 | A call through a pointer does |
| `Recursion.DirectReenters` | host/dmacc/dmacc.go:740-789 | f calls g through a pointer and g calls f by name: neither is on a direct cycle, and the direct call enters f while it is live |
| `Colouring.LiveOf` | host/dmacc/func.go:386-416 | The backward walk finds exactly the blocks the value is live into |
| `Colouring.Charge` | host/dmacc/func.go:306-324 | Charging casts back is the least closure of reads through aliases |
| `Colouring.Colour` | host/dmacc/func.go:431-460 | Values share a slot only if their ranges are disjoint, every candidate gets one, and each slot below it is held by an earlier candidate live where this one is |
| `Colouring.DirectPhis` | host/dmacc/func.go:589-613 | A block is in direct mode exactly when none of its phis reads a phi of the same block |
| `Colouring.Allocate` | host/dmacc/func.go:264-460 | For every SSA function: pool words, colours and dedicated words together never give one word to two values whose ranges meet, and which kind a value gets is as stated |
| `Copies.CrossRight` | host/dmacc/func.go:2357-2429 | Along any edge, direct copies or shadow and latch leave every phi word with its incoming value, swaps included, and every other live word alone |
| `Copies.FunctionFollows` | host/dmacc/func.go:354-460 | For every SSA function whose aliases are lowered before their uses, every correct allocation, all arguments and any number of steps: the words follow the SSA values, and the results and the outside world agree |
| `Aliases.ForwardingSound` | host/dmacc/func.go:666-681 | For every SSA function: every read on every path, under every allocation, sees its definition's value if and only if every read of an alias that control can reach is lowered after the alias |
| `Aliases.LostAlias` | host/dmacc/func.go:780-793 | A three-block function that returns its parameter in SSA and an unwritten word in the code |
| `Bounds.RuleSound` | host/dmacc/facts.go:731-859 | Every opcode's rule bounds every word the opcode can produce from operands within their bounds |
| `Bounds.InsMono` | host/dmacc/facts.go:731-859 | Tighter operand bounds never loosen a result's |
| `Bounds.RuleTight` | host/dmacc/facts.go:731-859 | Where a rule answers below the top, add, mul, shl, lshr, udiv, zext and casts answer with a word their operands' bounds produce, select and and with one of the bounds, or and xor with less than twice the larger |
| `Bounds.EdgeSound` | host/dmacc/facts.go:435-504 | Where a comparison holds, signed or unsigned, both operands are within the derived bounds |
| `Bounds.EdgeTight` | host/dmacc/facts.go:435-504 | The derived bounds are attained: for eq, ult, ule, ugt and uge some operands within their bounds satisfy the comparison and reach them |
| `Bounds.SignedTight` | host/dmacc/facts.go:435-504 | Signed comparisons of words below 2^31 prove as much as the unsigned ones |
| `Executions.Stable` | host/dmacc/facts.go:640-662 | A value seen in a block is the value seen at the last visit of its dominator, around loops |
| `Executions.StoredAt` | host/dmacc/facts.go:162-195 | In every execution in which parameters, call results, results without a rule and casts fit their types, every value at every visit does |
| `Narrowing.CondSound` | host/dmacc/facts.go:528-588 | Everything derived from a condition's truth value, through select, and, or, xor and zext, holds where that branch is taken |
| `Narrowing.CondExact` | host/dmacc/facts.go:528-588 | And none is missed: every comparison a condition's truth value settles, through and, or, not, widening and short-circuit select, bounds its operands by what the comparison proves |
| `Narrowing.EdgeNarrowSound` | host/dmacc/facts.go:590-638 | What a branch or switch edge proves holds whenever the edge is taken |
| `Narrowing.EdgeExact` | host/dmacc/facts.go:590-638 | It includes every comparison the branch settles within four such steps, and on a switch edge that the value is at most the largest constant leading there |
| `Dominators.Intersect` | host/dmacc/facts.go:390-400 | The walk returns the nearest common ancestor |
| `Dominators.DominatorTree` | host/dmacc/facts.go:318-388 | For every block graph: the reverse postorder lists exactly the reached blocks, each behind its dominator, the sweeps terminate, and the result is exactly the immediate dominators |
| `Facts.Table.NarrowEdges` | host/dmacc/facts.go:640-662 | After one pass down the dominator tree every block's bounds are exactly its dominator's, narrowed by what its only edge proves, and sound |
| `Facts.CapsInherit` | host/dmacc/facts.go:640-662 | So they are no looser than the dominator's, nor than what that edge proves |
| `Facts.Table.PhiBound` | host/dmacc/facts.go:894-920 | A phi's bound covers the incoming value on each of its edges, and is at most any bound they share |
| `Facts.Table.NarrowValues` | host/dmacc/facts.go:922-943 | One sweep keeps every bound sound and raises none, and leaves each value within its rule on the operands' bounds before it, each phi within any bound its incoming values share |
| `Facts.FactsOf` | host/dmacc/facts.go:693-729 | For every function and context: in every execution that respects the context, and whose casts fit their types and outside i1 words are 0 or 1, each value is within its bound wherever visible, and within its block bound in that block, whatever the number of passes; each bound is no looser than one sweep gives from the types, and parameters start at the context's |
| `Casts.WholeProper` | host/dmacc/facts.go:172-195 | Without ptrtoint to an integer below a word, every execution whose outside i1 words are 0 or 1 is one the bounds are for |
| `Casts.CastIff` | host/dmacc/facts.go:214-237 | In any execution every value is within what a reader of sound bounds is told if and only if every cast's word fits its type (no casts to i1) |
| `Casts.NarrowIff` | host/dmacc/func.go:1055-1056 | For functions whose narrow casts are of parameters and addresses, in the entry block behind unflagged instructions: what the analysis says is right in every execution if and only if there is no such cast |
| `Casts.WidePointer` | host/dmacc/func.go:1055-1056 | ptrtoint ptr to i8, returned: the word is 0xD0000000, and every fact set tells its reader at most 255 |
| `Casts.LoadedByte` | host/dmacc/facts.go:528-588 | br (xor (or (load i1), v > 4), true) with the byte 2 loaded and v = 100: the edge is taken, and is held to prove v <= 4 |
| `WholeProgram.EscapedFuncs` | host/dmacc/facts.go:1082-1128 | Exactly the roots, the functions named in initialisers and those whose address is used as a value |
| `WholeProgram.Analysis.Tighten` | host/dmacc/facts.go:1136-1266 | Each round keeps parameter and return bounds sound and raises none, and leaves a parameter of a function all of whose callers are in sight at most what every site's argument is bounded by, a return at most what every return is |
| `WholeProgram.AnalyzeBounds` | host/dmacc/facts.go:1136-1266 | For every program and every run of activations as in Facts.FactsOf, recursion included: arguments of functions that do not escape, returned words and all value facts are within their bounds, also when the pass cap stops the iteration early; the facts returned are those of the bounds returned, and a parameter that is only ever passed constants is bounded by the largest of them |
| `Casts.RunWhole` | host/dmacc/facts.go:1136-1266 | In a program without narrow casts those are all activations whose outside i1 words are 0 or 1 |
| `Outlining.Runs` | host/dmacc/outline.go:321-386 | Every stretch is two or more movable lines of one section, each in an eligible function and a block that is not hot, with only markers between them, a terminator only at its end, and stretches are disjoint and in order; and any two lines that may follow each other so are in one stretch together |
| `Outlining.NobodysCode` | host/dmacc/outline.go:321-386 | Without an eligible function there is no stretch, however often code repeats |
| `Outlining.Flatten` | host/dmacc/outline.go:421-442 | The slots are the members of all stretches, each once and in order |
| `Repeats.SortSuffixes` | host/dmacc/outline.go:443-474 | Every slot, in the order of the texts that follow it |
| `Repeats.GroupExact` | host/dmacc/outline.go:475-488 | In that order the slots that share k instructions are one stretch of neighbours whose common prefixes are at least k, for every k up to 40 |
| `Repeats.Mine` | host/dmacc/outline.go:475-503 | Every candidate is a text of 2 to 40 instructions with all its occurrences in order, and every such text whose occurrences together save bytes is a candidate |
| `Repeats.BestFirst` | host/dmacc/outline.go:507-519 | The same candidates, none behind one that saves more, is longer at the same saving, or starts earlier at the same length |
| `Sizes.SizeBalances` | host/dmacc/outline.go:398-411 | The saving reported is the program's size before less its size after, records and pool words counted, and a program with a helper is smaller |
| `Choosing.Outline` | host/dmacc/outline.go:414-596 | Chosen occurrences are disjoint and in eligible code, each helper's text is its sites' text, helpers stay in their sites' section, each has two sites or more and costs less with them than the copies it replaces, and the bytes reported saved are those the program is smaller by |
| `Outliner.NothingNew` | host/dmacc/outline.go:520-648 | Whatever instruction sequence the rewritten program has executed, the original executes in as many steps or fewer, with the shared resume cell right at every return |
| `Outliner.NothingLost` | host/dmacc/outline.go:520-648 | Whatever the original executes, the rewritten program executes after finitely many parks and jumps |
| `Outliner.EntryRuns` | host/dmacc/outline.go:520-648 | From every entry point, whatever the resume cell holds, each program executes what the other does |
| `Images.ValidExact` | host/img/img.go:131-166 | An image is valid if and only if segments are word-sized and word-aligned, relocations name segments and an aligned word inside theirs (or offset 0xFFFFFFFC), writes name a segment or none and are aligned, and the entry is a multiple of 8 inside its segment |
| `Images.AcceptedIff` | host/img/img.go:91-129 | The accepted files are exactly the encodings of valid images within the bounds |
| `Images.RefusedWhy` | host/img/img.go:91-129 | A file that does not begin with DMX1 is refused for that, one with flags for those, one with too many segments, relocations or writes for those |
| `Images.HeaderExact` | host/img/img.go:63-89 | A file begins with DMX1, no flags, the three counts and the entry |
| `Images.TableExact` | host/img/img.go:63-89 | The segment, relocation and write tables and the data follow, each entry at its place |
| `Images.EncodeDecode` | host/img/img.go:63-129 | Decoding the encoding of a valid image within the decoder's bounds gives it back |
| `Images.DecodeEncode` | host/img/img.go:91-129 | Every accepted file is the encoding of the valid image it decodes to |
| `Images.RoundTripIff` | host/img/img.go:63-129 | The round trip succeeds if and only if the image is within the decoder's bounds |
| `Images.TooManySegments` | host/img/img.go:91-129 | An image the encoder accepts and the decoder refuses |
| `Images.Encode` | host/img/img.go:63-89 | The appended buffer is the encoding, and the images that are not valid, as Images.ValidExact lists them, are refused |
| `Images.Decode` | host/img/img.go:91-129 | The cursor-based reader gives the decoding of every byte string, truncated and malformed ones included; what it accepts is a valid image, its entry inside its segment |
| `Images.ValidInside` | host/img/img.go:141-148 | A valid image's relocations are inside their segments if and only if none has offset 0xFFFFFFFC |
| `Images.ValidOutside` | host/img/img.go:141-148 | A valid image with one that is not |
| `Loading.Load` | host/img/load.go:33-76 | A placement loads exactly when it is aligned, in RAM, free of overlap and its writes are taken; then every segment word is its relocated value or the last init write's, RAM writes and device writes are delivered in order, no other byte changes, the placed ranges are listed as loaded, and the entry is at its placed address |
| `Loading.EntryInside` | host/img/load.go:33-76 | The entry returned is inside the placed entry segment, at the image's offset, a multiple of 8 from its start |
| `Loading.EarlierKept` | host/emu/machine.go:526-548 | Loading a second image leaves every word of the first as it was, unless an init write of the second is aimed at it |
| `Loading.NeighboursEnough` | host/img/load.go:87-107 | Among extents sorted by start, no overlap between neighbours is no overlap at all |
| `Loading.KeptIff` | host/emu/machine.go:354-376 | Every segment word keeps its placed value, whatever values the init writes carry, if and only if no init write is aimed into a placed segment |
| `Loading.Overwritten` | host/emu/machine.go:354-376 | The image with one segment word 1 and one write of 7 to it loads, and ends with 7 |
| `Building.Builder.RelocAt` | host/img/builder.go:84-88 | Marks any word, relocated already or not, and keeps the described words in step with the image |
| `Building.Builder.Seg` | host/img/builder.go:16-20 | A new empty segment; every described word stays described |
| `Building.Builder.Word` | host/img/builder.go:64-70 | Appends a described literal word |
| `Building.Builder.WordRef` | host/img/builder.go:72-77 | Appends a described pointer word and keeps everything else |
| `Building.Builder.SetWord` | host/img/builder.go:79-82 | Replaces a word's link value and keeps the description in step, relocated or not |
| `Building.Builder.AddWrite` | host/img/builder.go:22-26 | Appends a described absolute init write |
| `Building.Builder.AddWriteRef` | host/img/builder.go:28-31 | Appends a described init write of an address |
| `Building.Builder.Entry` | host/img/builder.go:33-37 | Sets the entry and nothing else |
| `Building.Builder.BlockP` | host/img/builder.go:111-126 | Appends the four described words of a block |
| `Building.Builder.RecordP` | host/img/builder.go:132-142 | Appends the two described words of a record |
| `Building.PlacementIndependent` | host/img/builder.go:26-142 | For every image built and every legal placement: encoded, decoded and loaded, each word is its literal or placed(ref) + offset unless an init write replaced it, rebased writes carry placed values, and the entry is placed |
| `Building.RelocatedOnce` | host/img/builder.go:84-88 | A relocated word is its segment's placement plus a constant under all placements if and only if it was not relocated before |
| `Building.RelocatedTwice` | host/img/builder.go:84-88 | A second relocation is off as soon as the first one's segment moves |

## Left out

Parts of the system the model does not cover:

- Peripherals behind the bus (UART, SPI, SD card, QMI flash, PIO, HSTX, GPIO), interrupts, tracing, profiling and `Clone`; a device write is one entry of a bus log.
- Bursts and idle jumps with a UART, HSTX or PIO paced listener armed.
- Flash and PSRAM: stalls, XIP and loading there; `Loading` knows one RAM window.
- Sniffer CRC and parity modes: only the sum and the bit-reversed output carry the machine.
- Reading source text: the IR lexer and linker, the assembler's parser, label spelling; instructions are values.
- Merging of identical functions, dead-code removal and every profile-driven choice between forms.
- Clone expansion for functions that span a fork: the clone set, the depth-K copies and the tail set of `computeRecursion` and `expandClones`; `Recursion` covers programs without fork.
- memcpy, memset, variadic calls, GEP folding and the tail-call transformation.
- User `.write` directives in an assembled image, which follow the bank configuration `Startup` models.
- File-system images, board maps, game assets and command lines.

Statements weaker, or under more conditions, than the whole of what the code does:

- Planner.InstrSafe: a count-set of the plain bank itself is allowed here and is the subject of Passes.SelfCountIff.
- Refinement.ProgramRefines: plain and sniff blocks move at most once and dyncount is used on the incrementing byte banks; every macro is proved to obey this.
- Scanning.ScanExact: covers compact code; the parser's arity and name errors are left out.
- Expansion.ExpandMeans: operands are memory cells, and those read again after a scratch word is written are not scratch (Meaning.AndWithAt shows what happens otherwise); a move is in a mode some bank serves, so the classic moves of whole words that walk, wcount among them, are Layouts.MoveMeans's subject.
- Backing.CodeBacked: literals are in the pool and words have cells of their own, as the assembler lays them out.
- Layouts.MoveMeans: takes wcount below 2^30 and word-aligned operands, and leaves out dyncount, whose count is known only during the run.
- Labelled.LaidFollows: that each move is one a program may make is asked of every step; label addresses differ between the encodings, so each layout is related to the block semantics at its own addresses, and not to the other's memory image word for word.
- Banks.RecordRuns: the record's source and destination are memory, the accumulator, %pc, a count or the fetch window; other registers are not program locations.
- Engine.Emulator.Step: says nothing about a step that rewrites a live timer between pulses; Pacing.RewriteExact is the exact condition.
- Frames.ProgramStands: functions are not variadic and have at most four parameters, and a program that compares addresses of two activations of one function is left out, since the static frame gives both the same address.
- Colouring.Allocate: allocas and the 8-byte copy idiom keep dedicated words and are not values of the model.
- Copies.FunctionFollows: calls, loads and stores are steps of an outside world; a folded address constant is not an alias of the model.
- Lowering.DivIns: operand and result are different words, which Lowering.DivAllocated derives from the allocation; division by zero and the runtime call for other constants are not taken.
- Runtime.Rt.Udivmod: says nothing of a zero divisor, which the loop leaves to terminate with whatever it computed.
- Facts.FactsOf: an i1 word from outside is 0 or 1 and a cast's word fits its type, with Casts.CastIff, Casts.NarrowIff and Casts.LoadedByte for the rest; nsw and nuw are kept, nothing divides by zero, and several names sharing one merged body are left out.
- Casts.NarrowIff: a narrow cast of a computed pointer, or one behind a branch, is covered by Casts.CastIff for each execution only, since whether it is reached depends on the data.
- Recursion.CoveredIff: quantifies over linked stacks, reached or not, since which pointers a run calls through depends on the data.
- Loading.Load: requires an image whose relocations are inside their segments; Images.ValidInside says which valid images are not.
- Building.PlacementIndependent: segments hold less than 4 GiB.
- Choosing.Outline: instruction text is an identifier, the price leaves out the one shared resume cell, and that candidates are taken best first and greedily (Repeats.BestFirst, Choosing.TakeFree) is stated of those steps, not of the result.
- Outliner.NothingNew: helpers live in an address space of their own, so where olInsert places them, and its guard that control cannot fall into them (the halt before the helpers), are not modelled.
