# A verified model of the LatticeMico32 instruction set simulator

This project models, in Dafny 4.11, the LatticeMico32 simulator together with
the devices and the debugger stub around it, and proves what users of the
simulator rely on.  `dafny verify dfyconfig.toml` checks everything.

There are two builds, and both define `LM32_MMU`.  The simulator's own makefile
leaves `LM32_FAST_COMPILE` undefined (makefile:74); the CPU, its timing, the run
loop and the debugger stub are modelled as in this checked build.  The Linux
system is built with it (makefile.lnx:70, and the release configurations at
msvc/lnxmico32/lnxmico32.vcxproj:116,137) or without (the debug configurations at
lines 84 and 99).  It takes the bounds and alignment checks out of the memory
accesses, masks their addresses, and shortens the character time of the UART to
one cycle.
`Checkpoint` and `LnxUart`, which belong to that system, therefore take the build
as a parameter `fast`, and their theorems hold of both.  The unchecked accesses
themselves are compared with the checked ones in `Memory`.

How the model is laid out:

- `Words`, `Memory`, `Tlb`, `Cache`, `Isa`: fixed-width words, big-endian RAM,
  the translation tables, the caches, and the instruction words.
- `Arch`, `Timing`, `Execution`, `RunLoop`: one instruction as a function of the
  architectural state, the clock beside it, one step of the whole machine, and
  the run loop.  These are the specification.
- `Keeper`, `Cpu`: the CPU object with its arrays and fields updated in place,
  with the source's branches in its order.  Every method is proved to take the
  machine exactly where the specification says, up to `Cpu.Lm32.RunProgram`.
- `PageMap`, `Isolation`, `Exceptions`, `SameClass`, `Retry`, `RetryInstance`,
  `FetchRetry`, `Resumed`, `Restart`, `Transparency`, `Scoreboard`,
  `CycleCounter`, `Ticks`, `ResetTicks`: theorems about steps and whole runs.
- `Instructions`, `Arithmetic`, `Programs`, `CsrFile`, `ReadCost`, `Latency`,
  `BitLines`, `Interrupts`, `Wakeups`, `Watchpoints`, `Breaks`, `Start`: laws that
  tie instructions, CSRs, costs and break conditions to each other and to plain
  definitions.
- `LnxTimer`, `OneShot`, `TimerHistory`, `LnxUart`, `UartHistory`, `Checkpoint`,
  `CheckpointEdges`: the devices and the checkpoint files of the Linux system,
  each a class beside its specification and theorems.
- `Gdb`, `GdbLine`, `GdbSession`, `GdbArray`, `Breakpoints`, `GdbBreakpoints`: the
  debugger stub on top of the CPU object.
- `SmallPrintf`: the number printing of the bare-metal drivers.

Conventions.  Addresses, registers and everything computed with are integers
below 2^32 and wrap explicitly; registers that the program only uses as bit maps
are 32-bit vectors inside the datatype `Bits`.  The interrupt callback is a
script of answers, one for each instruction: what the callback would say if it
were asked then.  A call of `exit()` is an outcome of a step (`Exits`), and so is
what C++ leaves undefined (`Undefined`: shifts by 32 or more, the least integer
divided by -1).  Where fields that have no bit in common are put together with
an OR, the model adds them.

What the proofs turned up, kept in the model as the code has it:

- The bounds check uses `>`, so the address just past RAM aliases its first byte
  (src/lm32_cpu.cpp:535, 712; `Memory.OnePastTheEnd`).  In the Linux system such
  a write changes RAM without marking a page, and a checkpoint loses it, as it
  does aligned writes of program text.  In the fast build every address outside
  RAM that is not a device's does so, and program text at any alignment
  (`Checkpoint.SafeIffNoHole`, `Checkpoint.HoleLosesData`).
- A retry after a data TLB miss is not always the access that missed.  The miss of
  a load clears its destination, which may be its base register, and exception
  entry puts the restart pc into ea, which may be the base register or the
  register to be stored.  `Retry.RetryRequest` has the exact condition: the
  register that is overwritten held the very value put into it.  A load over its
  own base and a store of ea that go wrong are run step by step in
  `RetryInstance.SpoiledLoad` and `RetryInstance.SpoiledStore`.
- A fetch that misses in the instruction TLB still executes the word 0, which is a
  shift.  Without a shifter it reports a bus error, which is taken first with the
  pc moved on, and a breakpoint flagged at that pc is taken first as well: neither
  goes back to the missed instruction (`FetchRetry.RefetchIff`).
- A reset taken during a tick call clears `break_point`, so that one call both
  executes an instruction and moves `clk_count` (src/lm32_cpu.cpp:890, 1204).
  Nothing in the machine raises a reset, so this happens at most once in a series
  of tick calls, and not at all if none is pending at its start;
  `ResetTicks.PlainCountIff` has the exact condition.
- A second exception of the class already being handled overwrites the only
  bank (`Exceptions.SameClassOverwrites`).  A division by zero at the start of
  a system call handler is taken with the pc behind the division, where that
  handler may have its eret, which from then on returns to itself: the call is
  never gone back to (`SameClass.SameClassGoesWrong`).
- The entry point is not where a reset CPU starts: reset is itself an exception,
  so execution goes on at the reset vector with the entry point in ea
  (`ResetTicks.ResetEntry`).
- A reset puts the default configuration back in CFG, whatever the machine was
  built with (`CsrFile.ResetReads`, `Start.NewIsReset`).
- A character written to a UART that is still sending one goes out at the time
  counted for that (`LnxUart.TakesCharacterTime`).
- `lb` and `lh` read memory twice, the divisions look at the divisor register
  after writing their result, watchpoint registers are gated by the number of
  breakpoints, and `bi` looks up immediate bits in the scoreboard.
- No code sets the overrun bit of a UART: a character that comes in before the last
  one was read replaces it without an error (`UartHistory.InterruptsTell`).
- A cache whose region ends at the top of the address space caches nothing, since
  its limit wraps round to zero (`ReadCost.RegionServed`).
- A checkpoint file that breaks off within a page fills the rest of that page with
  ones (`CheckpointEdges.CutOff`).
- A timer tick more than 2^31 cycles late loses whole rounds of the counter; any
  lesser delay is made up exactly (`LnxTimer.ElapsedIffPrompt`, and
  `LnxTimer.LateTick` for a tick that loses more than 2^31 periods).
- Padding a number with zeros on the right changes its value
  (`SmallPrintf.RoundTrip`): `%-02d` of 5 prints 50
  (`SmallPrintf.FiveReadsAsFifty`).
- The stub's status flag for write data starts out true and is only ever OR-ed
  into, so a connection that gives out in the middle of the data is not noticed.
  The model stops there (`Stuck`).

Where the repository's comments and its code disagree the model follows the
code: the comment on the debugger's memory read gives its command letter as M
(src/lm32_gdb.cpp:397), and the dispatch uses m.

## Model

| member | source | states |
|---|---|---|
| Transparency.TimingTransparency | src/lm32_cpu.cpp:1046-1129 | two machines with the same memory whose caches, wait states, cycle counts, scoreboards and CC offsets differ in any way end n steps alike and in the same program state, if the program reads neither CC nor CFG |
| Transparency.SameStep | src/lm32_cpu.cpp:1046-1129 | one step keeps that correspondence, exceptions included |
| Isolation.UserIsolation | src/lm32_cpu_inst.cpp:916-949 | in user mode with data translation on, a run of any length that takes no exception leaves IE, PSW, the exception bases, the masks and both TLB tables as they were and changes only bytes mapped for writing |
| Isolation.WritableIsMapped | src/lm32_tlb.cpp:47-86 | "mapped for writing" means the frame of a page that the page map holds and that is not read-only |
| Isolation.NeighbourMapped | src/lm32_cpu.cpp:647-667 | all bytes of an aligned access translate like its first one, so no access leaves the page it was checked for |
| Retry.MissRefillRetry | src/lm32_cpu.cpp:921-967 | a load or store that misses in the data TLB, is entered, handled and returned to has the effect it would have had with the mapping in place from the start, wherever the condition of RetryRequest holds |
| Retry.RefillEndToEnd | src/lm32_tlb.cpp:131-145 | the same from the missing instruction through a handler of one wcsr TLBPADDR and eret, step by step |
| Retry.RefillMaps | src/lm32_tlb.cpp:78-83 | the CSRs that a miss leaves behind make the handler's TLBPADDR write map exactly the page that missed |
| Retry.RetryRequest | src/lm32_cpu.cpp:921-936 | the access made by the retry has the address and the data of the one that missed if and only if every register that the miss and the entry overwrite held the value put into it: a load clears its destination, and entry puts the restart pc into ea |
| Retry.RefillRuns | src/lm32_tlb.cpp:131-145 | whatever the registers held, those four steps end in a second execution of the access from the state that eret leaves |
| RetryInstance.StoreIsRetried | src/lm32_cpu.cpp:910-967 | a concrete store, handler and memory: all hypotheses of the refill theorem are met, and the store has its effect |
| RetryInstance.SpoiledLoad | src/lm32_cpu.cpp:921-936 | lw r1,(r1+0), run through its miss and refill, loads the word at address 0 instead of the one at the address in r1 |
| RetryInstance.SpoiledStore | src/lm32_cpu.cpp:921-936 | sw (r1+0), ea, run through its miss and refill, stores the restart pc instead of ea |
| Retry.MissStep | src/lm32_cpu.cpp:647-660 | a missing access changes nothing but pc, the miss flag, the two TLB address CSRs and, for a load, its destination |
| Exceptions.EntryReturn | src/lm32_cpu_inst.cpp:926-944 | entry and the matching return resume at the restart pc - which is the instruction or the one behind it as Restart.ComesBackTo says - in the interrupted IE, ITLBE, DTLBE and USR modes, whatever the handler did outside its bank |
| Exceptions.NestingIsLossless | src/lm32_cpu.cpp:910-967 | a debug-class exception inside a normal one, or the reverse, loses neither level |
| Exceptions.SameClassOverwrites | src/lm32_cpu.cpp:934-948 | two exceptions of one class share a bank: the outer return lands where the inner one interrupted |
| SameClass.SameClassGoesWrong | src/lm32_cpu_inst.cpp:168-190 | a system call whose handler starts with a division by zero followed by eret: from the third step on the machine stays at that eret for ever, and does not get back to the call |
| SameClass.NestedProgramHappens | src/lm32_cpu.cpp:910-948 | a concrete memory holds such a program |
| Exceptions.TakesMostUrgent | src/lm32_cpu.cpp:1003-1018 | of the pending exceptions exactly the lowest-numbered one is taken and all other flags stay as they were |
| Scoreboard.StepAdvances | src/lm32_cpu_inst.cpp:51-75 | in every step time moves forward and no result is promised more than two cycles past the clock |
| Scoreboard.RunAdvances | src/lm32_cpu.cpp:1187-1218 | the same over runs: progress is at least one unit per executed instruction |
| Scoreboard.StallAtMostTwo | src/lm32_cpu_inst.cpp:51-75 | at any point of any run the next instruction finds its operands at most two cycles away on the clock at which it issues, after its fetch and its data access |
| Scoreboard.StallIsCharged | src/lm32_cpu_inst.cpp:51-75 | and that is the stall it is charged: it ends at that clock plus the stall and its issue cycles |
| Scoreboard.TableIsTight | src/lm32_cpu_mico32.h:214-279 | the decode table never promises a result later than two cycles after the next issue |
| Scoreboard.ExecAdvances | src/lm32_cpu_inst.cpp:919-923 | every instruction costs at least a cycle except the two privilege traps, which cost none |
| Scoreboard.StartsIsSchedule | src/lm32_cpu_inst.cpp:123-164 | issue times of straight-line register code respect program order and operand latencies |
| Scoreboard.StartsIsLeast | src/lm32_cpu_inst.cpp:51-75 | and no schedule that respects them starts any instruction earlier |
| Scoreboard.MachineIssuesEarliest | src/lm32_cpu.cpp:1046-1129 | the machine itself, with zero wait states, follows that least schedule |
| CycleCounter.RunAgrees | src/lm32_cpu_inst.cpp:1414-1417 | cycle count and offset together simulate an independent counter over any run |
| CycleCounter.CounterReads | src/lm32_cpu_inst.cpp:1320-1323 | rcsr CC returns the value last written, or 0 since reset, plus the cycles gone by, modulo 2^32 |
| CycleCounter.ExecOffset | src/lm32_cpu_inst.cpp:1414-1417 | only wcsr CC moves the offset, and it does not touch the cycle count |
| RunLoop.LoopTerminates | src/lm32_cpu.cpp:1187-1299 | with a finite limit the loop ends within twice the cycles left plus one callback answers |
| RunLoop.ModesAgree | src/lm32_cpu.cpp:1187-1298 | tick, single-step and continue calls in any mixture that execute the same instructions leave the same CPU state |
| RunLoop.CallsAreSteps | src/lm32_cpu.cpp:1187-1299 | a series of calls is one uninterrupted run over the callback answers used |
| RunLoop.LoopIsSteps | src/lm32_cpu.cpp:1187-1218 | a single call is such a run |
| ResetTicks.PlainCountIff | src/lm32_cpu.cpp:1187-1206 | over any series of tick calls the number of calls is the increase of clk_count plus that of instr_count, if and only if the first call that executes, the one after as many calls as clk_count is behind, does not go round twice; that needs a reset pending beforehand, a callback that does not end the run, no other flag pending that the call breaks on, and at the reset vector an instruction that can be carried out without a break |
| ResetTicks.PlainCount | src/lm32_cpu.cpp:1187-1206 | in particular whenever no reset is pending at the start |
| ResetTicks.ResetsExactly | src/lm32_cpu.cpp:890 | at most one call of a series goes round twice, and the condition says beforehand which |
| ResetTicks.TwiceIff | src/lm32_cpu.cpp:1187-1296 | the same condition for a single call |
| ResetTicks.QuietStep | src/lm32_cpu.cpp:1220-1296 | with a reset pending, the step finds nothing to break on if and only if nothing else was pending that it would break on and the instruction at the reset vector gives no cause |
| ResetTicks.StepReset | src/lm32_cpu.cpp:1033 | nothing in the machine raises a reset: after a step one is pending only if it was before and the callback ended the run |
| ResetTicks.ResetEntry | src/lm32_cpu.cpp:911-936 | reset starts at the reset vector with the entry point in ea, stack and frame pointer at the top of memory, and every other register as it was |
| ResetTicks.TwiceHappens | src/lm32_cpu.cpp:890 | a machine with only a reset pending, one tick call of which moves clk_count and executes an instruction |
| Ticks.TickSeries | src/lm32_cpu.cpp:1191-1206 | in general: the calls made, those that go round twice counted twice and one that halts not at all, are the moves of clk_count and the instructions; clk_count never passes the cycle count |
| Ticks.AllCallsMade | src/lm32_cpu.cpp:1187-1299 | all calls of a series are made unless the program exits or the callback asks to stop |
| Ticks.TickCall | src/lm32_cpu.cpp:1191-1206 | a single tick call either moves clk_count by one or executes one instruction (a reset taken meanwhile makes it do both) |
| RunLoop.SingleStepIsOne | src/lm32_cpu.cpp:1293-1298 | a single-step call executes exactly one instruction |
| Ticks.ExceptionTakesTime | src/lm32_cpu.cpp:957-961 | a step that takes an exception always takes time, since entry leaves user mode |
| RunLoop.TerminationEnds | src/lm32_cpu.cpp:990-995 | the callback's termination request ends the call |
| FetchRetry.RefetchEndToEnd | src/lm32_cpu.cpp:921-929 | an instruction whose fetch misses, run through its entry and a handler of wcsr TLBPADDR and eret: after three steps the machine is back at the missed pc with its page mapped to the installed frame, and the fourth step fetches and executes the word as it would have been with that mapping from the start, up to ea, the E bank and the TLB CSRs |
| FetchRetry.RefetchIff | src/lm32_cpu.cpp:921-929 | the first exception taken after a fetch miss resumes at the missed pc if and only if a shifter is built in, since the word 0 executed meanwhile is a shift, and no breakpoint was flagged at that pc |
| FetchRetry.FetchRefillMaps | src/lm32_tlb.cpp:78-83 | the CSRs that a fetch miss leaves behind make the handler's TLBPADDR write map exactly the page of the pc in the instruction TLB |
| FetchRetry.RefetchHappens | src/lm32_cpu.cpp:910-967 | a concrete machine meets the hypotheses |
| Resumed.NearExec | src/lm32_cpu.cpp:1096-1119 | two states that differ in ea, the E bank and the TLB address CSRs alone execute every instruction that looks at none of them alike |
| Restart.ComesBackTo | src/lm32_cpu.cpp:910-967 | an exception raised by an instruction, its handler entered and returned from: the program goes on at the instruction itself after a TLB miss or fault, a call, a break or a privileged instruction, and behind it after a bus error, a watchpoint, a division by zero or an instruction that is not built in; breakpoints and watchpoints return by ba, all others by ea |
| Restart.ExecRaises | src/lm32_cpu_inst.cpp:87-1445 | which exceptions each instruction can raise |
| Arithmetic.AddCounts | src/lm32_cpu_inst.cpp:123-166 | addition is counting: adding zero changes nothing, adding a successor gives the successor of the sum; it commutes, and subtraction undoes it |
| Arithmetic.SignedSums | src/lm32_cpu_inst.cpp:123-166 | sums and differences are those of the signed numbers, where these fit |
| Arithmetic.MulRepeatsAdd | src/lm32_cpu_inst.cpp:296-344 | multiplication is repeated addition |
| Arithmetic.SignedProducts | src/lm32_cpu_inst.cpp:296-344 | products of the signed numbers, modulo 2^32 |
| Arithmetic.LogicByBits | src/lm32_cpu_inst.cpp:734-914 | each bit of and, or, xor, nor and xnor is that operation on the bits of the operands |
| Arithmetic.SameBits | src/lm32_cpu_inst.cpp:734-914 | and a word is determined by its bits |
| Arithmetic.Comparisons | src/lm32_cpu_inst.cpp:398-578 | each comparison gives 1 or 0 as the signed or unsigned numbers compare |
| Arithmetic.ComparisonRange | src/lm32_cpu_inst.cpp:398-578 | and nothing but 1 or 0 |
| Arithmetic.EqualIsNoDifference | src/lm32_cpu_inst.cpp:398-411 | cmpe gives 1 exactly when sub gives 0 |
| Arithmetic.OffsetOrder | src/lm32_cpu_inst.cpp:428-531 | a signed comparison is the unsigned one of both operands moved up by 2^31 |
| Arithmetic.Opposites | src/lm32_cpu_inst.cpp:398-578 | cmpge is the opposite of cmpg with its operands exchanged, cmpne of cmpe |
| Arithmetic.QuotientZero | src/lm32_cpu_inst.cpp:473-486 | cmpgeu gives 1 exactly when the divisor is zero or the quotient is not |
| Arithmetic.BranchesCompare | src/lm32_cpu_inst.cpp:953-1083 | a branch is taken exactly when the comparison of its name gives 1 |
| Programs.SubThenAdd | src/lm32_cpu_inst.cpp:123-166 | sub followed by add gives the first operand back and touches only the two destinations and pc |
| Programs.AddImmediateBack | src/lm32_cpu_inst.cpp:138-151 | addi k followed by addi -k gives the operand back |
| Programs.DivideAndBack | src/lm32_cpu_inst.cpp:168-319 | quotient times divisor plus remainder, computed by four instructions, gives the dividend back, signed and unsigned |
| Programs.ShiftsScale | src/lm32_cpu_inst.cpp:580-730 | a shift divides the unsigned or the signed number by a power of two, rounding down, or multiplies it modulo 2^32 |
| Programs.RaiseWords | src/lm32_cpu_inst.cpp:87-104 | one word is break, one is scall, and the others of that opcode do nothing and do not go on |
| Programs.CallAndBack | src/lm32_cpu_inst.cpp:1086-1099 | call goes to its register, and b ra comes back behind it |
| Programs.CallIAndBack | src/lm32_cpu_inst.cpp:1101-1113 | calli to its displacement, forwards or backwards, and b ra back |
| Programs.BranchGoes | src/lm32_cpu_inst.cpp:953-1083 | a branch goes to its signed displacement when its comparison holds and on otherwise, and changes nothing else |
| Programs.JumpAndBack | src/lm32_cpu_inst.cpp:1053-1064 | bi k followed by bi -k is back where it was |
| Programs.AddressIs | src/lm32_cpu_inst.cpp:1117-1262 | loads and stores go to their base register plus a signed displacement |
| Programs.StoreThenLoad | src/lm32_cpu_inst.cpp:1117-1262 | what is stored is loaded again: the low part of the register as a signed or as an unsigned number |
| Programs.SextMeans | src/lm32_cpu_inst.cpp:346-394 | sextb and sexth give the signed number in the low part of a register |
| Programs.BadAccess | src/lm32_cpu.cpp:534-592 | an untranslated access that is misaligned or outside of RAM leaves a data bus error pending, memory as it was and the pc behind it |
| Programs.RefusedStore | src/lm32_cpu.cpp:647-667 | a store to an unmapped page leaves a miss, one to a read-only page a fault, and neither changes memory |
| CsrFile.ReadsBack | src/lm32_cpu_inst.cpp:1268-1445 | every CSR reads back as the part of the written word that it keeps |
| CsrFile.OthersKept | src/lm32_cpu_inst.cpp:1355-1445 | writing one CSR leaves every other as it was, but for the bits that IE and PSW share |
| CsrFile.SharedBits | src/lm32_cpu_inst.cpp:1420-1423 | and those: IE after a write to PSW, and PSW after one to IE |
| CsrFile.ReadingKeeps | src/lm32_cpu_inst.cpp:1268-1351 | rcsr changes no CSR as far as a read can tell |
| CsrFile.VectorsMove | src/lm32_cpu.cpp:921-949 | after wcsr EBA handlers of the normal class are 32 bytes apart from there on, unless DC sends them to DEBA; those of the debug class follow DEBA |
| CsrFile.KnownCsrs | src/lm32_cpu_inst.cpp:1268-1443 | which CSR numbers there are; any other ends the simulation |
| CsrFile.ResetReads | src/lm32_cpu.cpp:845-902 | after a reset every CSR reads as zero but CFG, which holds the default configuration, and CC |
| CsrFile.ResetUnmaps | src/lm32_cpu.cpp:876-877 | and both TLBs map nothing |
| CsrFile.CounterShown | src/lm32_cpu_inst.cpp:1320-1323 | CC reads as zero when it is not built in |
| CsrFile.JtagShown | src/lm32_cpu_inst.cpp:1292-1317 | the JTAG registers show nine bits, or nothing when they are not built in |
| CsrFile.MissShows | src/lm32_tlb.cpp:78-83 | a TLB miss shows in TLBBADVADDR as its address and in TLBVADDR as its page, with bit 0 for data |
| CsrFile.PswSetsModes | src/lm32_cpu_inst.cpp:1420-1423 | a write to PSW sets modes, banks and interrupt enable bit by bit |
| Cache.WaitsIffRecent | src/lm32_cpu.cpp:469-532 | with wait states a read through a cache costs nothing exactly when its address is cacheable and its line among the last lines missed there; otherwise it costs a whole line, cacheable or not |
| Cache.TwoWaysCheaper | src/lm32_cache.cpp:137-184 | over any trace a two-way cache waits at most as long as the one-way cache of the same sets, width and region |
| ReadCost.ReadsAddUp | src/lm32_cpu.cpp:453-532 | over any run of fetches, loads and invalidation requests each cache is what its own trace makes of it, and the cycles that pass are the sum of the wait states of both |
| ReadCost.ReadGoesToOne | src/lm32_cpu.cpp:469-489 | a read goes through the cache of its kind alone |
| ReadCost.RequestEmptiesOne | src/lm32_cpu.cpp:453-467 | an invalidation request empties the cache it names on the next read, and no other |
| ReadCost.ResetEmpties | src/lm32_cpu.cpp:892-900 | after a reset the next reads empty both caches, and CC counts from zero on the same clock |
| ReadCost.RegionServed | src/lm32_cache.cpp:88-102 | with aligned bounds a cache serves its region including the upper bound; a region up to the top of the address space is empty |
| Latency.TimeOfRegisters | src/lm32_cpu_inst.cpp:51-75 | the clock of every instruction without a data access in closed form: it starts when its registers are there, takes one, four or 34 cycles, and its result can be used after two more for a multiplication, one more for a shift or comparison |
| Latency.TimeOfEmptyDivision | src/lm32_cpu_inst.cpp:168-293 | a division that leaves zero in its divisor register takes its time but promises no result |
| Latency.TimeOfMemory | src/lm32_cpu_inst.cpp:1117-1262 | loads and stores wait for memory first and for their address register afterwards; a loaded value can be used two cycles later |
| Latency.AccessWaits | src/lm32_cpu.cpp:525-532 | without a data cache a load or store waits once, a signed load twice, and one refused by the TLB not at all |
| Latency.FetchWaits | src/lm32_cpu.cpp:525-532 | without an instruction cache a fetch waits once, unless it misses in the TLB |
| Latency.NotBuiltIn | src/lm32_cpu_inst.cpp:108-117 | which instructions lack their unit, by CFG bit: they report an instruction bus error, are passed over and wait for no register; break without the debug unit does nothing at all |
| Wakeups.OnlyDueAnswersCount | src/lm32_cpu.cpp:980-998 | over any run only those answers of the callback count that were given at or after the time it had named |
| Wakeups.NotAskedBefore | src/lm32_cpu.cpp:982-984 | before that time a step does not ask it |
| Wakeups.AskedWhenDue | src/lm32_cpu.cpp:984-995 | from that time on a step asks it, takes over the next time, and ends the run if that is negative |
| Wakeups.HowStepsEnd | src/lm32_cpu.cpp:1046-1129 | a step exits when a flag is pending that is no exception or a CSR is not there, is undefined for shifts by 32 or more and the one signed quotient that overflows, and otherwise ends with its word |
| Interrupts.ExternalInterrupt | src/lm32_cpu.cpp:997-998 | after the callback the external interrupt is pending if and only if interrupts are enabled and some line is both enabled and pending |
| Interrupts.PendingLines | src/lm32_cpu.cpp:986-988 | a line is pending then if it was before, or if the callback asks for it and it is one of those configured |
| Interrupts.ConfigFields | src/lm32_cpu_hdr.h:125-132 | the numbers of lines, breakpoints and watchpoints are read from their fields of CFG |
| CsrFile.ImplementedCount | src/lm32_cpu_inst.cpp:1290-1343 | as many breakpoint or watchpoint registers are there as CFG says |
| ReadCost.SameLine | src/lm32_cache.cpp:137-150 | addresses share a line when they lie in the same block of its width |
| ReadCost.SameSet | src/lm32_cache.cpp:137-150 | lines share a set when they are a whole number of ways apart |
| ReadCost.ShapesThereAre | src/lm32_cache.cpp:52-86 | lines of one, two or four words, one or two ways, 128 to 1024 sets |
| Interrupts.DefaultConfiguration | src/lm32_cpu_hdr.h:159-170 | 32 lines, four breakpoints, four watchpoints, and every unit modelled but the JTAG UART |
| Watchpoints.LoadIsWatched | src/lm32_cpu.cpp:595-608 | a load from memory reports a watchpoint if and only if hardware debugging is built in and some watchpoint at its physical address has a code in DC that catches reads |
| Watchpoints.StoreIsWatched | src/lm32_cpu.cpp:769-781 | a store likewise, for writes |
| Breaks.MostUrgentBreak | src/lm32_cpu.cpp:1220-1298 | a run comes back with the first break code, in a fixed order, whose condition holds, and goes on when none does |
| Breaks.LockedUp | src/lm32_cpu.cpp:1220-1228 | the two words that count as locked up jump to themselves and change nothing |
| Start.NewIsReset | src/lm32_cpu.cpp:845-902 | a new machine is in the state that a reset leaves, but for its configuration, which a reset replaces by the default one |
| Start.RamRounded | src/lm32_cpu.cpp:98-104 | RAM is rounded up and its base down to whole words; the entry point is taken as it is |
| Start.ConfiguredUnits | src/lm32_cpu.cpp:231-234 | a new machine has the units that its configuration word asks for |
| Start.ConfiguredCounts | src/lm32_cpu.cpp:231-234 | and as many interrupt lines, breakpoints and watchpoints |
| Start.NeverConfigured | src/lm32_cpu.cpp:231-234 | user instructions, bit H and the revision cannot be asked for |
| Breaks.CodeIsKept | src/lm32_cpu.cpp:1220-1299 | what a call returns is left in break_point, but for the tick calls that find the clock behind |
| Breaks.ClkCatchesUp | src/lm32_cpu.cpp:1208-1212 | a single-step or continue call brings clk_count up to the cycle count at which its last instruction began |
| PageMap.LookupHistory | src/lm32_tlb.cpp:47-145 | after any history a probe of v hits if and only if the last surviving install at its slot was for its own 20-bit page, gives that frame with v's offset, and faults exactly on a data write to a read-only page |
| PageMap.ApplyRefines | src/lm32_tlb.cpp:98-145 | every CSR operation acts on the page maps of the two tables as an install, eviction or flush of one of them |
| PageMap.ProbeRefines | src/lm32_tlb.cpp:47-86 | a probe is a lookup in the page map |
| PageMap.PackedFields | src/lm32_tlb.cpp:142-144 | the fields packed into an entry come back out of it |
| PageMap.EmptyToBeginWith | src/lm32_cpu.cpp:876-877 | a reset unit maps nothing |
| Tlb.ReadsNeverFault | src/lm32_tlb.cpp:63-67 | only data writes can fault |
| Tlb.MmuUnit.Lookup | src/lm32_tlb.cpp:47-86 | status and address as specified; a failed probe leaves the address in both CSRs |
| Tlb.MmuUnit.VaddrUpdate | src/lm32_tlb.cpp:98-121 | the four commands, each on one table |
| Tlb.MmuUnit.PaddrUpdate | src/lm32_tlb.cpp:131-145 | install at the slot that TLBVADDR names |
| Tlb.MmuUnit.Reset | src/lm32_cpu.cpp:872-877 | both tables invalid, address CSRs zero |
| Cache.HistoryTheorem | src/lm32_cache.cpp:137-184 | after any trace a set holds exactly the last min(ways, misses) lines missed in it since the last invalidation, none twice |
| Cache.HitIffRecent | src/lm32_cache.cpp:158-167 | an access hits if and only if its line is one of those |
| Cache.TwoWaysDominate | src/lm32_cache.cpp:137-184 | wherever a one-way cache hits, the two-way cache of the same sets, width and region hits |
| Cache.LineCache.constructor | src/lm32_cache.cpp:44-111 | geometry as checked and aligned, all lines invalid, every replacement turn at the first way |
| Cache.LineCache.Invalidate | src/lm32_cache.cpp:119-128 | all lines of all ways invalid, replacement turn kept |
| Cache.LineCache.Access | src/lm32_cache.cpp:137-184 | hit way and new contents of one access |
| Cache.ConsultCache | src/lm32_cpu.cpp:469-532 | wait states of one read: one access without a cache; with one, none on a hit and a whole line otherwise |
| Cache.SettleCache | src/lm32_cpu.cpp:455-463 | a requested invalidation is carried out on the next read |
| Memory.IndexInjective | src/lm32_cpu.cpp:98-104 | distinct addresses of RAM have distinct array indices |
| Memory.IndexReached | src/lm32_cpu.cpp:98-104 | and every index is that of some address |
| Memory.ReadHalfIsBytes | src/lm32_cpu.cpp:557-568 | a halfword is its two bytes, most significant first |
| Memory.ReadWordIsHalves | src/lm32_cpu.cpp:570-586 | a word is its two halfwords, most significant first |
| Memory.WriteThenRead | src/lm32_cpu.cpp:719-766 | what is written is read back and no other byte changes; reads and writes fail together |
| Memory.MisalignedFails | src/lm32_cpu.cpp:573-577 | misaligned accesses are bus errors wherever they are |
| Memory.OnePastTheEnd | src/lm32_cpu.cpp:535 | the bounds check admits the address just past RAM, which aliases its first byte |
| Memory.FastReadAgrees | src/lm32_cpu.cpp:491-494 | for power-of-two RAM the masked, unchecked path reads what the checked one reads |
| Memory.FastWriteAgrees | src/lm32_cpu.cpp:676-678 | the same for writes, which in addition always find room: a misaligned address is cut down to its alignment |
| Memory.LnxReadAgrees | src/lm32_cpu.h:169-192 | so do the inline readers of the Linux build |
| Memory.LocalRead | src/lm32_cpu.cpp:534-592 | the array read through its host-endian views agrees with the big-endian byte model |
| Memory.LocalWrite | src/lm32_cpu.cpp:711-766 | the array after a write, and untouched when it is refused |
| Instructions.DecodeEncode | src/lm32_cpu.cpp:1078-1094 | the decoder undoes an encoder written from the word formats, for every instruction that has a word |
| Instructions.ArithmeticShiftIsFloor | src/lm32_cpu_inst.cpp:630-680 | sr is division by a power of two rounded down |
| Instructions.ShiftRightDivides | src/lm32_cpu_inst.cpp:682-730 | sru divides by a power of two |
| Instructions.ShiftLeftMultiplies | src/lm32_cpu_inst.cpp:580-628 | sl multiplies modulo 2^32 |
| Instructions.DivisionIdentity | src/lm32_cpu_inst.cpp:168-262 | div truncates, mod takes the dividend's sign, and together they give the dividend back |
| Instructions.UnsignedDivisionIdentity | src/lm32_cpu_inst.cpp:201-293 | divu and modu give the dividend back |
| Keeper.Keeper.CalcStall2 | src/lm32_cpu_inst.cpp:51-75 | the stall is the wait for the later of two operands |
| Keeper.Keeper.Charge | src/lm32_cpu.cpp:469-532 | the read goes to one cache and is charged its wait states |
| Keeper.Keeper.Settle | src/lm32_cpu.cpp:453-467 | pending invalidations are carried out once |
| Keeper.Keeper.Reset | src/lm32_cpu.cpp:892-900 | CC restarts at zero without touching the cycle count |
| Keeper.Keeper.WriteCsr | src/lm32_cpu_inst.cpp:1394-1417 | ICC, DCC and CC writes |
| Cpu.Lm32.constructor | src/lm32_cpu.cpp:63-221 | the whole initial state, with an empty cache of the configured shape where the configuration word asks for one |
| Cpu.Lm32.ReadMemory | src/lm32_cpu.cpp:388-611 | data, state and time of a read, every branch |
| Cpu.Lm32.WriteMemory | src/lm32_cpu.cpp:622-783 | state and time of a write, every branch |
| Cpu.Lm32.ResetCpu | src/lm32_cpu.cpp:845-902 | what reset assigns and what it leaves |
| Cpu.Lm32.TakeInterrupt | src/lm32_cpu.cpp:910-967 | banks, vector, modes and flag of an exception entry |
| Cpu.Lm32.ProcessExceptions | src/lm32_cpu.cpp:976-1020 | poll of the callback and choice of the exception |
| Cpu.Lm32.Alu | src/lm32_cpu_inst.cpp:123-164 | register and immediate arithmetic, logic, shifts and comparisons, with their timing |
| Cpu.Lm32.DivideOp | src/lm32_cpu_inst.cpp:168-293 | division, division by zero, and the scoreboard entry that depends on the divisor after the write |
| Cpu.Lm32.SignExtend | src/lm32_cpu_inst.cpp:346-394 | sextb and sexth |
| Cpu.Lm32.LoadOp | src/lm32_cpu_inst.cpp:1117-1209 | loads; the signed ones read memory twice |
| Cpu.Lm32.StoreOp | src/lm32_cpu_inst.cpp:1212-1262 | stores |
| Cpu.Lm32.BranchOp | src/lm32_cpu_inst.cpp:953-1083 | conditional branches, taken and not |
| Cpu.Lm32.JumpOp | src/lm32_cpu_inst.cpp:1053-1064 | bi |
| Cpu.Lm32.JumpRegOp | src/lm32_cpu_inst.cpp:916-949 | b, eret and bret, and the privilege trap |
| Cpu.Lm32.CallOp | src/lm32_cpu_inst.cpp:1086-1113 | call and calli |
| Cpu.Lm32.RaiseOp | src/lm32_cpu_inst.cpp:87-104 | break and scall |
| Cpu.Lm32.Unimplemented | src/lm32_cpu_inst.cpp:108-117 | reserved and unconfigured instructions |
| Cpu.Lm32.ReadCsr | src/lm32_cpu_inst.cpp:1268-1351 | rcsr |
| Cpu.Lm32.ReadSwitch | src/lm32_cpu_inst.cpp:1270-1343 | the switch of rcsr: which CSRs are there and what each reads as |
| Cpu.Lm32.WriteSwitch | src/lm32_cpu_inst.cpp:1367-1438 | the switch of wcsr: what of the written word each CSR keeps |
| Cpu.Lm32.WriteCsr | src/lm32_cpu_inst.cpp:1355-1445 | wcsr and its privilege trap |
| Cpu.Lm32.Execute | src/lm32_cpu.cpp:1115-1119 | dispatch: the effect is that of the decoded instruction |
| Cpu.Lm32.CheckHwBreakpoints | src/lm32_cpu.cpp:1059-1068 | a breakpoint is flagged before its instruction runs |
| Cpu.Lm32.ExecuteInstruction | src/lm32_cpu.cpp:1046-1129 | one call is one Step of the model |
| Cpu.Lm32.FindBreak | src/lm32_cpu.cpp:1220-1298 | the break conditions in their order |
| Cpu.Lm32.RunProgram | src/lm32_cpu.cpp:1187-1303 | one call is RunLoop.Call of the model |
| LnxTimer.ElapsedIffPrompt | src/lnxtimer.cpp:176-213 | N timeouts account for N periods and the part of the current one gone by, if and only if no tick was more than 2^31 late |
| LnxTimer.NeverCreeps | src/lnxtimer.cpp:176-213 | over any run of ticks and harmless register accesses the books balance up to lost rounds of the 32-bit counter |
| LnxTimer.LostIffLate | src/lnxtimer.cpp:176-188 | rounds are lost exactly when some tick is more than 2^31 late |
| LnxTimer.LateTick | src/lnxtimer.cpp:176-188 | a timer of period 1 ticked 2^31 + 1 cycles after its deadline reports no timeout at all |
| LnxTimer.NextDeadline | src/lnxtimer.cpp:205-212 | the pending deadline is always start + (N+1) * period |
| LnxTimer.DeadlinesAreMultiples | src/lnxtimer.cpp:194-212 | the next timeout comes with the first tick at or after that time |
| LnxTimer.TimeoutsAreFloor | src/lnxtimer.cpp:143-225 | with a tick at least every period, N is elapsed time divided by the period, rounded down |
| LnxTimer.Starts | src/lnxtimer.cpp:147-159 | writing period and control and then ticking starts a full counter |
| LnxTimer.OneInterruptPerAcknowledge | src/lnxtimer.cpp:216-222 | until the status register is written at most one interrupt is raised |
| LnxTimer.AcknowledgedTimerInterrupts | src/lnxtimer.cpp:216-222 | once acknowledged, the next timeout interrupts again |
| LnxTimer.AckBits | src/lnxtimer.cpp:83-92 | a status write can clear TO and nothing else |
| LnxTimer.TimerBank.Write | src/lnxtimer.cpp:79-104 | register writes, other timers untouched |
| LnxTimer.TimerBank.Read | src/lnxtimer.cpp:113-133 | register reads |
| LnxTimer.TimerBank.Tick | src/lnxtimer.cpp:143-225 | start, stop, count, reload and interrupt; other timers untouched |
| OneShot.OneTimeout | src/lnxtimer.cpp:143-225 | without CONT there is no timeout before start plus period and exactly one from then on, at the first tick that has reached it, after which the timer is off with a snapshot of zero |
| OneShot.StartsOnce | src/lnxtimer.cpp:147-159 | such a timer is started by writing period and control and ticking |
| OneShot.SpentTick | src/lnxtimer.cpp:143-225 | once run out, ticks change nothing but may raise an interrupt enabled only now |
| OneShot.StopAndGoOn | src/lnxtimer.cpp:161-170 | a stopped timer keeps its count, and started again takes that long from then on |
| TimerHistory.RegistersTell | src/lnxtimer.cpp:79-225 | after any history status, control, period and interrupt state are told by what was written and ticked |
| TimerHistory.InterruptsTell | src/lnxtimer.cpp:216-222 | a tick interrupts if and only if the timer has run out, its interrupt is on by the last word written, and it has not interrupted since the timeout bit was cleared; writing a one to that bit clears nothing |
| TimerHistory.CommandsAreSpent | src/lnxtimer.cpp:147-170 | a start or stop is given once, and waits for a timer that is running or at rest already |
| Checkpoint.CheckpointRoundTrip | src/lnxmico32.cpp:236-376 | a checkpoint reloaded over a newly started system restores RAM and marks, if and only if every byte that differs from the base image lies on a marked page |
| Checkpoint.ResumingIsSeamless | src/lnxmico32.cpp:310-376 | any number of save, start, reload and run sessions equals one uninterrupted run, whatever safe writes each start makes before it reloads |
| Checkpoint.SeamlessFromBoot | src/lnxmico32.cpp:640-661 | in particular from a newly started system, which has its command line and hardware set-up written into RAM after the marks are cleared and before the checkpoint is loaded |
| Checkpoint.SafeIffNoHole | src/lnxmico32.cpp:416-422 | a write keeps the marks covering for every state and data if and only if it is not one of the holes; in the checked build the address one past RAM and aligned program text, in the fast build every address outside RAM that is not a device's and all program text |
| Checkpoint.RunKeepsCovered | src/lnxmico32.cpp:416-422 | so do runs of writes |
| Checkpoint.HoleLosesData | src/lm32_cpu.cpp:704-717 | each hole of either build loses data |
| Checkpoint.RestoredIsMerged | src/lnxmico32.cpp:277-293 | for any machine: marked pages are taken over and marked again, the rest is left |
| Checkpoint.LinuxSystem.WriteMem | src/lnxmico32.cpp:385-427 | marking and writing |
| Checkpoint.LinuxSystem.Save | src/lnxmico32.cpp:347-366 | the file: header, then address and bytes of every marked page in order |
| Checkpoint.LinuxSystem.Load | src/lnxmico32.cpp:245-293 | the effect of any file, cut short or not |
| CheckpointEdges.CutOff | src/lnxmico32.cpp:277-293 | a file that breaks off within a page fills the rest of it with ones |
| CheckpointEdges.SetupInPlace | src/lnxmico32.cpp:640-653 | on every start RAM is the base image with the command line, ended by a zero, and the hardware description at their addresses |
| CheckpointEdges.DevicesApart | src/lnxmico32.cpp:385-427 | accesses to the three device pages leave RAM and marks alone |
| CheckpointEdges.EverythingElseIsRam | src/lm32_cpu.h:169-192 | in the fast build a byte store to any other address is one to RAM |
| LnxUart.MatcherIsExact | src/lnxuart.cpp:274-290 | up to the first termination the index is the longest prefix of the exit string that the input ends with; termination comes exactly with the first completion |
| LnxUart.NextIsLongest | src/lnxuart.cpp:275-290 | one character: the fallback to 1 or 0 loses nothing |
| LnxUart.NoOverlap | src/lnxuart.cpp:102 | because the exit string does not overlap itself |
| LnxUart.TakesCharacterTime | src/lnxuart.cpp:244-258 | a character takes its full time from the first tick after it was written, whatever ticks come between; one written while another is being sent goes out with that |
| LnxUart.UartBank.Write | src/lnxuart.cpp:164-199 | register writes and the character sent |
| LnxUart.UartBank.Read | src/lnxuart.cpp:208-230 | register reads; reading the character acknowledges it |
| LnxUart.UartBank.Tick | src/lnxuart.cpp:240-324 | transmitter, receiver, matcher and interrupt identification |
| UartHistory.InterruptsTell | src/lnxuart.cpp:292-321 | after any history a tick interrupts for an unread character if IER bit 0 was last written as one, failing that for an idle transmitter if bit 1 was, and never for an overrun: a character that comes too soon replaces the last one without an error |
| UartHistory.EveryCharacterWaits | src/lnxuart.cpp:244-258 | whatever it has sent before, an idle UART takes the full time for the next character |
| UartHistory.RegistersTell | src/lnxuart.cpp:164-324 | after any history the registers are told by what was written, read and received |
| UartHistory.InterruptOrder | src/lnxuart.cpp:292-321 | in any state errors come before received data and these before room to transmit, each if its enable is on |
| UartHistory.StatusShows | src/lnxuart.cpp:208-230 | the line status shows an unread character and an idle transmitter in their bits |
| UartHistory.ReadOnce | src/lnxuart.cpp:208-230 | a character is read once: after the read it interrupts no more |
| LnxUart.ExitIsTyped | src/lnxuart.cpp:102 | the exit string is #!exit! and a newline |
| LnxUart.ElevenBits | src/lnxmico32.h:65 | a character takes eleven bits at 115200 baud of a 10 MHz clock, or one cycle in the fast build |
| SmallPrintf.RoundTrip | drivers/small_printf.c:77-118 | the output reads back as the value printed if and only if it is not a nonzero number lengthened by zeros on the right |
| SmallPrintf.FiveReadsAsFifty | drivers/small_printf.c:44-72 | 5 printed with width 2 and zeros on the right is "50" |
| SmallPrintf.PrintedLength | drivers/small_printf.c:77-118 | the output is as long as the field or as the number with its sign, whichever is longer |
| SmallPrintf.TenDigits | drivers/small_printf.c:95-103 | ten digits at most, so the buffer index stays above zero |
| SmallPrintf.Prints | drivers/small_printf.c:44-72 | text and count of a padded string |
| SmallPrintf.Printi | drivers/small_printf.c:77-118 | text and count of a number |
| SmallPrintf.FillDigits | drivers/small_printf.c:95-104 | the buffer ends with the digits, filled backwards |
| SmallPrintf.PrintedInCase | drivers/small_printf.c:77-118 | a number is printed in letters of the case asked for |
| GdbArray.SessionIsArray | src/lm32_gdb.cpp:1406-1461 | for every sequence of X, M and m packets the replies are those of a plain array of bytes under these stores and loads, and the machine is left with that array as its memory and no other change |
| GdbArray.WritesArray | src/lm32_gdb.cpp:533-536 | storing bytes in RAM is storing them in the array of its bytes by address |
| GdbSession.SessionRoundTrip | src/lm32_gdb.cpp:1406-1461 | a write packet in either form followed by a read of the same bytes stores them, changes no other memory, and replies with them in hexadecimal |
| GdbSession.WritePacket | src/lm32_gdb.cpp:467-560 | X and M packets store exactly their data, escapes undone |
| GdbSession.ReadPacket | src/lm32_gdb.cpp:406-445 | m packets reply with the bytes at their address |
| GdbSession.PacketRuns | src/lm32_gdb.cpp:1416-1460 | an idle receiver given a packet runs that command and no other |
| GdbSession.StoredBytes | src/lm32_gdb.cpp:533-536 | the stored bytes are those sent and no other byte of RAM changes |
| GdbSession.ReplyIsHex | src/lm32_gdb.cpp:438-441 | a reply is itself a valid hexadecimal encoding of the bytes |
| GdbSession.NumberIsHex | src/lm32_gdb.cpp:416-433 | the number loops read hexadecimal |
| Gdb.Stub.ReadMem | src/lm32_gdb.cpp:435-444 | reply text and running checksum |
| Gdb.Stub.WriteMem | src/lm32_gdb.cpp:501-547 | data taken off the connection and written |
| Gdb.Stub.SendReply | src/lm32_gdb.cpp:1125-1146 | framing and checksum of a reply |
| Gdb.Stub.ProcCommand | src/lm32_gdb.cpp:1038-1155 | one command |
| Gdb.Stub.ProcessGdb | src/lm32_gdb.cpp:1406-1470 | the whole session |
| Gdb.Stub.SetOrClear | src/lm32_gdb.cpp:577-688 | lowest free register, or first matching one |
| GdbBreakpoints.SessionIsBag | src/lm32_gdb.cpp:979-1023 | for every sequence of Z1 and z1 packets the replies are those of a bag with room for four addresses, OK or E1c, and the machine is left with that bag as its breakpoints and no other change |
| GdbBreakpoints.OneBpPacket | src/lm32_gdb.cpp:979-1023 | one such packet |
| GdbLine.ChecksumIsSum | src/lm32_gdb.cpp:1113-1123 | a packet ends in two digits that read back as the sum of its bytes modulo 256 |
| GdbLine.LowerCase | src/lm32_gdb.h:101-118 | digits are sent in lower case and read in both |
| GdbLine.NoDigit | src/lm32_gdb.h:116-118 | a character that is no digit counts from A = 10 on, as a signed character |
| GdbLine.EscapeIsXor | src/lm32_gdb.cpp:516-522 | escaping is exclusive or with 0x20 |
| GdbLine.LastPacket | src/lm32_gdb.cpp:1085-1110 | D is answered OK, k is not answered, and either ends the session |
| GdbLine.UnknownPacket | src/lm32_gdb.cpp:1045-1110 | an unknown command, whatever follows its letter up to the end of the packet, colons included, is answered with an empty packet |
| GdbLine.UnknownBreakpoint | src/lm32_gdb.cpp:985-1023 | and so is a kind of breakpoint that the stub does not have |
| GdbLine.RoomForReply | src/lm32_gdb.cpp:435-445 | a memory read is answered exactly when its framed reply fits the buffer |
| GdbLine.PeekOutside | src/lm32_cpu.cpp:534-555 | reading past RAM gives zeros and raises nothing |
| Breakpoints.SetAdds | src/lm32_gdb.cpp:577-623 | Z1 adds its address to the bag of active breakpoints, and fails exactly when four are set |
| Breakpoints.ClearRemoves | src/lm32_gdb.cpp:641-688 | z1 removes one, and fails exactly when there is none |
| Breakpoints.SetThenClear | src/lm32_gdb.cpp:577-688 | setting and clearing restores the bag |
| Breakpoints.RunKeeps | src/lm32_cpu_inst.cpp:1384-1387 | in any run bit 1 of an armed breakpoint register stays clear, on which clearing a breakpoint rests |
| Breakpoints.RunKeepsFromReset | src/lm32_cpu.cpp:862-865 | in particular from reset |
| Breakpoints.SessionKeeps | src/lm32_gdb.cpp:577-688 | and in any debugger session |
| Breakpoints.StopsAtActive | src/lm32_cpu.cpp:1059-1068 | the CPU flags a breakpoint at exactly the addresses in the bag |

## Left out

- Files, sockets, terminals, the ELF reader, option and INI parsing, the Python
  GUI and the C-linkage wrappers: input and output, or thin glue.
- Disassembly, verbosity, opcode statistics and memory tags: they do not feed
  back into execution outside disassemble mode, which is not modelled.
- The memory callback of the CPU: absent in `Cpu`; the Linux system's own
  callback is modelled, for RAM, in `Checkpoint`, with accesses to device pages
  left to the device models.
- The JTAG callback: absent, so JTX and JRX keep what was last written.
- The interrupt callback: a script of answers instead of code.
- `lm32_set_configuration` after construction, and registers before their first
  assignment: caches are built once, and registers the program leaves unset are
  zero.
- The copies of ICC, DCC and CC inside the saved state: they are not read back.
- Overflow of the 64-bit cycle count and clock: those counters are unbounded.
- `num_mem_bytes` of 0 or so large that rounding it up overflows, and RAM that
  reaches the end of the address space: excluded where the source would divide
  by zero or its bounds sum would wrap.
- Gdb.Stub.ProcCommand: the register commands, the run commands, the stop reply
  and the watchpoint commands are not modelled: they end as `Stuck`, and nothing
  is said about the state they leave.
- Gdb.Stub.ProcessGdb: a session that sends one of those, a packet that overruns
  the stub's buffers or a number without its comma ends as `Stuck` in the same way.
- Reading from a closed TCP connection, which the source takes for data.
- Checkpoint.LinuxSystem.Save: the records of CPU, timers and UARTs are one
  opaque header, since only their bytes go through the file.
- Checkpoint.LinuxSystem.Load: save and load are modelled with the data TLB off,
  as their addresses are physical.
- SmallPrintf.Printi: the least integer is negated by wrapping, which C leaves
  undefined; the format parser around it takes its arguments from the stack.
- LnxUart.UartBank.Tick: input after the exit string has been matched would read
  past the end of that string, and is excluded.
- The Windows newline of the exit string: the Linux one is modelled.
- The CPU core of the fast build (its timing, its run loop and its breakpoints):
  it only drops checks and counts; its memory accesses are in `Memory`.
