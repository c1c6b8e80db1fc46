/** lm32_run_program: when it goes on executing, when it stops, and what it
    returns.  The function here is the specification of Cpu.RunProgram. */
module RunLoop {
  import opened Words
  import opened Isa
  import opened Arch
  import opened Timing
  import opened Execution
  import opened Scoreboard

  /** LM32_RUN_FROM_RESET differs from LM32_RUN_CONTINUE only in loading a
      program, so both are `Continue`. */
  datatype Mode = Continue | SingleStep | Tick

  datatype Setup = Setup(
    mode: Mode, cycles: int, breakAddr: int,
    lockBreak: bool, hwBreak: bool, intBreak: bool, resetBreak: bool)

  const FOREVER: int := -1

  // Break codes.
  const USER_BREAK: nat := 1
  const LOCK_BREAK: nat := 2
  const HW_BREAKPOINT_BREAK: nat := 4
  const HW_WATCHPOINT_BREAK: nat := 5
  const SINGLE_STEP_BREAK: nat := 6
  const TICK_BREAK: nat := 7
  const RESET_BREAK: nat := 8
  const INT_BREAK: nat := 9
  const BUS_ERROR_BREAK: nat := 10
  const DIV_ZERO_BREAK: nat := 11

  /** Instructions that jump to themselves: `be r0, r0, 0` and `bi 0`. */
  const LOCK_WORD_BE: u32 := 0x4400_0000
  const LOCK_WORD_BI: u32 := 0xe000_0000

  predicate LockWord(w: u32) {
    w == LOCK_WORD_BE || w == LOCK_WORD_BI
  }

  predicate AtBreakAddress(s: Setup, pc: u32) {
    s.breakAddr >= 0 && pc == s.breakAddr - s.breakAddr % 4
  }

  predicate OutOfCycles(s: Setup, m: Machine) {
    s.cycles != FOREVER && m.c.cycle >= s.cycles
  }

  /** The break code found after one instruction; 0 for none. */
  function BreakAfter(s: Setup, m: Machine, end: End): (code: nat) {
    if s.lockBreak && end.Ran? && LockWord(end.word) then LOCK_BREAK
    else if (AtBreakAddress(s, m.a.pc) || OutOfCycles(s, m) || end.Terminated?) && m.breakPoint == 0 then USER_BREAK
    else if s.hwBreak && Pending(m.a.flags, BREAKPOINT) then HW_BREAKPOINT_BREAK
    else if s.hwBreak && Pending(m.a.flags, WATCHPOINT) then HW_WATCHPOINT_BREAK
    else if s.intBreak && Pending(m.a.flags, EXTINT) then INT_BREAK
    else if Pending(m.a.flags, DIVZERO) then DIV_ZERO_BREAK
    else if Pending(m.a.flags, IBUSERROR) || Pending(m.a.flags, DBUSERROR) then BUS_ERROR_BREAK
    else if s.resetBreak && Pending(m.a.flags, RESET) then RESET_BREAK
    else if s.mode == SingleStep then SINGLE_STEP_BREAK
    else 0
  }

  /** The loop condition. */
  predicate GoesOn(s: Setup, m: Machine) {
    (s.cycles == FOREVER || m.c.cycle < s.cycles) && m.breakPoint == 0
  }

  predicate OnlyTicks(s: Setup, m: Machine) {
    s.mode == Tick && m.clk < m.c.cycle
  }

  /** Bookkeeping before and after an instruction. */
  function Prepared(s: Setup, m: Machine): Machine {
    if s.mode == Tick then m.(breakPoint := TICK_BREAK) else m.(clk := m.c.cycle)
  }

  function Counted(m: Machine): Machine {
    m.(instrs := m.instrs + 1)
  }

  /** How a call ends.  `Suspended` means that the script of callback answers ran
      out before the loop stopped of itself. */
  datatype Status = Returned(code: nat) | Suspended | Halted(end: End)

  datatype RunResult = RunResult(m: Machine, status: Status, used: nat)

  function Loop(cfg: Config, s: Setup, m: Machine, script: seq<Answer>): (r: RunResult)
    requires Sound(cfg, m)
    ensures Sound(cfg, r.m) && r.used <= |script|
    decreases |script|
  {
    hide Step, BreakAfter;
    if !GoesOn(s, m) then RunResult(m, Returned(m.breakPoint), 0)
    else if OnlyTicks(s, m) then RunResult(m.(clk := m.clk + 1), Returned(TICK_BREAK), 0)
    else if script == [] then RunResult(m, Suspended, 0)
    else
      var r := Step(cfg, Prepared(s, m), script[0]);
      if r.end.Exited? || r.end.Undefd? then RunResult(r.m, Halted(r.end), 1)
      else
        var n := Counted(r.m);
        var code := BreakAfter(s, n, r.end);
        if code != 0 then RunResult(n.(breakPoint := code), Returned(code), 1)
        else
          var rest := Loop(cfg, s, n, script[1..]);
          RunResult(rest.m, rest.status, 1 + rest.used)
  }

  /** One call of lm32_run_program. */
  function Call(cfg: Config, s: Setup, m: Machine, script: seq<Answer>): (r: RunResult)
    requires Sound(cfg, m)
    ensures Sound(cfg, r.m) && r.used <= |script|
  {
    Loop(cfg, s, m.(breakPoint := 0), script)
  }

  // ---------------------------------------------------------------------------
  // Whatever the mode, the CPU runs the same
  // ---------------------------------------------------------------------------

  /** Equal but for the counters of the run loop. */
  ghost predicate SameCpu(m: Machine, n: Machine) {
    m.a == n.a && m.c == n.c
  }

  lemma StepIgnoresLoop(cfg: Config, m: Machine, n: Machine, ans: Answer)
    requires Sound(cfg, m) && SameCpu(m, n)
    ensures Step(cfg, m, ans).end == Step(cfg, n, ans).end
    ensures SameCpu(Step(cfg, m, ans).m, Step(cfg, n, ans).m)
    ensures Step(cfg, m, ans).m.clk == m.clk && Step(cfg, m, ans).m.instrs == m.instrs
  {
    EntryIgnoresLoop(cfg, m, n, ans);
    hide Polled, Entered, Fetched, Executed, Stops, Unknown, Decode;
    var m1, n1 := Entered(cfg, Polled(m, ans)), Entered(cfg, Polled(n, ans));
    FetchIgnoresLoop(cfg, m1, n1);
    var (w, m2) := Fetched(cfg, m1);
    ExecutionIgnoresLoop(cfg, m2, Fetched(cfg, n1).1, Decode(w));
  }

  lemma EntryIgnoresLoop(cfg: Config, m: Machine, n: Machine, ans: Answer)
    requires SameCpu(m, n)
    ensures Stops(m, ans) == Stops(n, ans)
    ensures var m1, n1 := Polled(m, ans), Polled(n, ans);
      && SameCpu(m1, n1) && m1.clk == m.clk && m1.instrs == m.instrs && Unknown(m1.a) == Unknown(n1.a)
      && SameCpu(Entered(cfg, m1), Entered(cfg, n1))
      && Entered(cfg, m1).clk == m.clk && Entered(cfg, m1).instrs == m.instrs
  {
    hide Interrupt, Highest, Poll, Requested, IsZero, ResetTime;
  }

  lemma FetchIgnoresLoop(cfg: Config, m: Machine, n: Machine)
    requires Sound(cfg, m) && SameCpu(m, n)
    ensures var (w, m') := Fetched(cfg, m); var (w', n') := Fetched(cfg, n);
      w == w' && SameCpu(m', n') && m'.clk == m.clk && m'.instrs == m.instrs
  {
    hide FetchWord, ReadTime, CheckBreakpoint;
  }

  lemma ExecutionIgnoresLoop(cfg: Config, m: Machine, n: Machine, i: Instr)
    requires Sound(cfg, m) && SameCpu(m, n) && Fields(i)
    ensures var (m', o) := Executed(cfg, m, i); var (n', o') := Executed(cfg, n, i);
      o == o' && SameCpu(m', n') && m'.clk == m.clk && m'.instrs == m.instrs
  {
    hide Exec, ExecTime;
  }

  lemma {:induction false} StepsIgnoreLoop(cfg: Config, m: Machine, n: Machine, script: seq<Answer>)
    requires Sound(cfg, m) && SameCpu(m, n)
    ensures Steps(cfg, m, script).end == Steps(cfg, n, script).end
    ensures SameCpu(Steps(cfg, m, script).m, Steps(cfg, n, script).m)
    decreases |script|
  {
    hide Step;
    if script != [] {
      StepIgnoresLoop(cfg, m, n, script[0]);
      StepsIgnoreLoop(cfg, Step(cfg, m, script[0]).m, Step(cfg, n, script[0]).m, script[1..]);
    }
  }

  /** The callback asking to stop ends the call. */
  lemma TerminationEnds(cfg: Config, s: Setup, m: Machine, ans: Answer)
    requires Sound(cfg, m) && GoesOn(s, m) && Step(cfg, Prepared(s, m), ans).end.Terminated?
    ensures var r := Step(cfg, Prepared(s, m), ans);
      BreakAfter(s, Counted(r.m), r.end) != 0 || !GoesOn(s, Counted(r.m))
  {
    hide FetchWord, ReadTime, Exec, ExecTime, Decode, Interrupt, Highest, Poll, Requested, IsZero, Pending;
  }

  /** A call is a run of the CPU over the answers it used, whatever its mode,
      cycle limit and break conditions; each of them counts as one instruction
      unless the program halted in it. */
  lemma {:induction false} LoopIsSteps(cfg: Config, s: Setup, m: Machine, script: seq<Answer>)
    requires Sound(cfg, m)
    ensures var r := Loop(cfg, s, m, script);
      && SameCpu(r.m, Steps(cfg, m, script[..r.used]).m)
      && r.m.instrs == m.instrs + r.used - (if r.status.Halted? then 1 else 0)
    decreases |script|
  {
    hide Step, BreakAfter, OnlyTicks, GoesOn;
    var r := Loop(cfg, s, m, script);
    if GoesOn(s, m) && !OnlyTicks(s, m) && script != [] {
      var p := Prepared(s, m);
      StepIgnoresLoop(cfg, p, m, script[0]);
      var q := Step(cfg, p, script[0]);
      var n := Counted(q.m);
      assert script[..1] == [script[0]] && [script[0]][1..] == [];
      if q.end.Ran? && BreakAfter(s, n, q.end) == 0 {
        LoopIsSteps(cfg, s, n, script[1..]);
        assert script[..r.used][1..] == script[1..][..r.used - 1];
        StepsIgnoreLoop(cfg, n, Step(cfg, m, script[0]).m, script[1..][..r.used - 1]);
      } else if q.end.Terminated? {
        TerminationEnds(cfg, s, m, script[0]);
      }
    }
  }

  /** A series of calls with any setups, each going on where the last one
      stopped, both in the machine and in the callback's answers. */
  function Calls(cfg: Config, setups: seq<Setup>, m: Machine, script: seq<Answer>): (r: RunResult)
    requires Sound(cfg, m)
    ensures Sound(cfg, r.m) && r.used <= |script|
    decreases |setups|
  {
    hide Call;
    if setups == [] then RunResult(m, Returned(0), 0)
    else
      var first := Call(cfg, setups[0], m, script);
      if first.status.Halted? || CallTerminated(cfg, m, script[..first.used]) then first
      else
        var rest := Calls(cfg, setups[1..], first.m, script[first.used..]);
        RunResult(rest.m, rest.status, first.used + rest.used)
  }

  /** Did the callback ask to stop during these steps? */
  predicate CallTerminated(cfg: Config, m: Machine, script: seq<Answer>)
    requires Sound(cfg, m)
  {
    hide Steps;
    !Steps(cfg, m, script).end.Ran?
  }

  lemma {:induction false} StepsAppend(cfg: Config, m: Machine, s: seq<Answer>, t: seq<Answer>)
    requires Sound(cfg, m) && Steps(cfg, m, s).end.Ran?
    ensures Steps(cfg, m, s + t).m == Steps(cfg, Steps(cfg, m, s).m, t).m
    decreases |s|
  {
    hide Step;
    if s == [] {
      assert s + t == t;
    } else {
      assert (s + t)[0] == s[0] && (s + t)[1..] == s[1..] + t;
      StepsAppend(cfg, Step(cfg, m, s[0]).m, s[1..], t);
    }
  }

  lemma CallIsSteps(cfg: Config, s: Setup, m: Machine, script: seq<Answer>)
    requires Sound(cfg, m)
    ensures var r := Call(cfg, s, m, script); SameCpu(r.m, Steps(cfg, m, script[..r.used]).m)
  {
    hide Loop, Steps;
    var m0 := m.(breakPoint := 0);
    LoopIsSteps(cfg, s, m0, script);
    StepsIgnoreLoop(cfg, m0, m, script[..Call(cfg, s, m, script).used]);
  }

  lemma {:induction false} CallsAreSteps(cfg: Config, setups: seq<Setup>, m: Machine, script: seq<Answer>)
    requires Sound(cfg, m)
    ensures var r := Calls(cfg, setups, m, script); SameCpu(r.m, Steps(cfg, m, script[..r.used]).m)
    decreases |setups|
  {
    hide Call, Step, SameCpu;
    if setups != [] {
      hide Steps;
      var first := Call(cfg, setups[0], m, script);
      CallIsSteps(cfg, setups[0], m, script);
      if !first.status.Halted? && !CallTerminated(cfg, m, script[..first.used]) {
        var rest := Calls(cfg, setups[1..], first.m, script[first.used..]);
        CallsAreSteps(cfg, setups[1..], first.m, script[first.used..]);
        JoinRuns(cfg, m, first.m, rest.m, script, first.used, rest.used);
      }
    } else {
      assert script[..0] == [];
      assert SameCpu(m, m) by { CpuItself(m); }
    }
  }

  lemma CpuItself(m: Machine)
    ensures SameCpu(m, m)
  {
  }

  lemma JoinRuns(cfg: Config, m: Machine, n: Machine, q: Machine, script: seq<Answer>, i: nat, j: nat)
    requires Sound(cfg, m) && Sound(cfg, n) && i + j <= |script|
    requires Steps(cfg, m, script[..i]).end.Ran? && SameCpu(n, Steps(cfg, m, script[..i]).m)
    requires SameCpu(q, Steps(cfg, n, script[i..][..j]).m)
    ensures SameCpu(q, Steps(cfg, m, script[..i + j]).m)
  {
    hide Steps;
    StepsIgnoreLoop(cfg, n, Steps(cfg, m, script[..i]).m, script[i..][..j]);
    StepsAppend(cfg, m, script[..i], script[i..][..j]);
    assert script[..i] + script[i..][..j] == script[..i + j];
  }

  /** Run modes agree: two series of calls - ticks, single steps, continues with
      any limits, in any mixture - that execute the same number of instructions
      leave the CPU in the same state. */
  lemma ModesAgree(cfg: Config, one: seq<Setup>, two: seq<Setup>, m: Machine, n: Machine, script: seq<Answer>)
    requires Sound(cfg, m) && SameCpu(m, n)
    requires Calls(cfg, one, m, script).used == Calls(cfg, two, n, script).used
    ensures SameCpu(Calls(cfg, one, m, script).m, Calls(cfg, two, n, script).m)
  {
    hide Calls, Steps;
    CallsAreSteps(cfg, one, m, script);
    CallsAreSteps(cfg, two, n, script);
    StepsIgnoreLoop(cfg, m, n, script[..Calls(cfg, one, m, script).used]);
  }

  // ---------------------------------------------------------------------------
  // Termination
  // ---------------------------------------------------------------------------

  /** With a finite cycle limit a call stops of itself: it cannot use more
      answers than twice the cycles left plus one, whatever they are. */
  lemma {:induction false} LoopTerminates(cfg: Config, s: Setup, m: Machine, script: seq<Answer>)
    requires Sound(cfg, m) && cfg.waits >= 0 && s.cycles != FOREVER
    requires |script| > 2 * s.cycles - Progress(m)
    ensures !Loop(cfg, s, m, script).status.Suspended?
    decreases |script|
  {
    hide Step, BreakAfter, TrapPending;
    if GoesOn(s, m) && !OnlyTicks(s, m) {
      assert script != [];
      var p := Prepared(s, m);
      StepIgnoresLoop(cfg, p, m, script[0]);
      var q := Step(cfg, p, script[0]);
      var n := Counted(q.m);
      if q.end.Ran? {
        StepAdvances(cfg, p, script[0]);
        TrapOfState(p, m);
        TrapOfState(n, q.m);
        LoopTerminates(cfg, s, n, script[1..]);
      } else if q.end.Terminated? {
        TerminationEnds(cfg, s, m, script[0]);
      }
    }
  }

  lemma TrapOfState(m: Machine, n: Machine)
    requires m.a == n.a
    ensures TrapPending(m) == TrapPending(n)
  {
  }

  /** A single-step call that starts below its limit executes one instruction,
      no more and no less. */
  lemma SingleStepIsOne(cfg: Config, s: Setup, m: Machine, script: seq<Answer>)
    requires Sound(cfg, m) && s.mode == SingleStep && script != []
    requires s.cycles == FOREVER || m.c.cycle < s.cycles
    ensures Call(cfg, s, m, script).used == 1 && !Call(cfg, s, m, script).status.Suspended?
  {
    hide Step, Pending, AtBreakAddress, OutOfCycles;
  }
}
