/** Run loop calls in tick mode: one call is one unit of the clock count or one
    instruction, except for the call that takes a reset. */
module Ticks {
  import opened Words
  import opened Isa
  import opened Arch
  import opened Timing
  import opened Execution
  import opened Scoreboard
  import opened RunLoop

  /** A step that takes an exception always takes time, since the handler starts
      privileged. */
  lemma ExceptionTakesTime(cfg: Config, m: Machine, ans: Answer)
    requires Sound(cfg, m) && cfg.waits >= 0
    requires Step(cfg, m, ans).end.Ran? && !IsZero(Polled(m, ans).a.flags)
    ensures Step(cfg, m, ans).m.c.cycle > m.c.cycle
  {
    hide Entered, FetchWord, ReadTime, Exec, ExecTime, Decode, Polled, Bounded, Trapped, Unknown, On, IsZero;
    PollKeepsTrap(m, ans);
    var m1 := Polled(m, ans);
    EntryClock(cfg, m1);
    var m2 := Entered(cfg, m1);
    FetchPsw(cfg.g, m2.a);
    var (w, m3) := Fetched(cfg, m2);
    ReadAdvances(cfg.waits, m2.c, CheckBreakpoint(m2.a), m2.a.pc, Fetch);
    var i := Decode(w);
    ExecAdvances(cfg, m3.c, m3.a, i, Executed(cfg, m3, i).0.a);
    EntryIsPrivileged(cfg, m1);
    if Trapped(m3.a, i) {
      TrappedInUserMode(m3.a, i);
    }
  }

  lemma EntryIsPrivileged(cfg: Config, m: Machine)
    requires !IsZero(m.a.flags) && !Unknown(m.a)
    ensures !On(Entered(cfg, m).a.csr.psw, USR)
  {
    hide Interrupt, Highest, IsZero;
    InterruptModes(cfg.g, m.a, Urgent(m.a).value);
  }

  /** The break point survives a step, unless the step takes a reset. */
  predicate TakesReset(m: Machine, ans: Answer) {
    !Stops(m, ans) && Urgent(Polled(m, ans).a) == Some(RESET)
  }

  lemma StepBreakPoint(cfg: Config, m: Machine, ans: Answer)
    requires Sound(cfg, m)
    ensures Step(cfg, m, ans).m.breakPoint
      == (if TakesReset(m, ans) then 0 else m.breakPoint)
  {
    hide FetchWord, ReadTime, Exec, ExecTime, Decode, Interrupt, Highest, Poll, Requested, IsZero;
  }

  /** A tick call with no cycle limit. */
  predicate Ticking(s: Setup) {
    s.mode == Tick && s.cycles == FOREVER
  }

  /** Does this tick call execute an instruction, take a reset in doing so, and
      find nothing to break on? */
  predicate ResetTick(cfg: Config, s: Setup, m: Machine, script: seq<Answer>)
    requires Sound(cfg, m) && script != []
  {
    hide Step, BreakAfter;
    var p := m.(breakPoint := TICK_BREAK);
    var r := Step(cfg, p, script[0]);
    m.clk >= m.c.cycle && TakesReset(p, script[0]) && r.end.Ran? && BreakAfter(s, Counted(r.m), r.end) == 0
  }

  /** Accounting for one tick call: it either moves the clock count by one or
      executes one instruction - except that taking a reset clears the break
      point that was to end the call, which then goes round once more and moves
      the clock as well, and that an instruction in which the program halts is
      not counted.  The clock count never overtakes the cycle count. */
  lemma TickCall(cfg: Config, s: Setup, m: Machine, script: seq<Answer>)
    requires Sound(cfg, m) && cfg.waits >= 0 && Ticking(s) && script != [] && m.clk <= m.c.cycle
    ensures var r := RunLoop.Call(cfg, s, m, script);
      && !r.status.Suspended? && r.m.clk <= r.m.c.cycle
      && (r.m.clk - m.clk) + (r.m.instrs - m.instrs)
         == (if r.status.Halted? then 0 else if ResetTick(cfg, s, m, script) then 2 else 1)
      && (r.status.Halted? ==> !ResetTick(cfg, s, m, script))
      && r.used == (if m.clk < m.c.cycle then 0 else 1)
  {
    hide Step, BreakAfter, Pending;
    var m0 := m.(breakPoint := 0);
    if m.clk >= m.c.cycle {
      var p := m.(breakPoint := TICK_BREAK);
      var q := Step(cfg, p, script[0]);
      StepIgnoresLoop(cfg, p, p, script[0]);
      StepBreakPoint(cfg, p, script[0]);
      StepTime(cfg, p, script[0]);
      if TakesReset(p, script[0]) {
        UrgentNotZero(Polled(p, script[0]).a);
        if q.end.Ran? {
          ExceptionTakesTime(cfg, p, script[0]);
        }
      }
      var n := Counted(q.m);
      assert Prepared(s, m0) == p;
      if TakesReset(p, script[0]) {
        ResetRuns(cfg, p, script[0]);
      }
      assert GoesOn(s, n) == TakesReset(p, script[0]);
      if !q.end.Exited? && !q.end.Undefd? && BreakAfter(s, n, q.end) == 0 {
        assert Loop(cfg, s, n, script[1..]) ==
          (if TakesReset(p, script[0]) then RunResult(n.(clk := n.clk + 1), Returned(TICK_BREAK), 0)
           else RunResult(n, Returned(n.breakPoint), 0));
      }
    }
  }

  /** How many calls of a series are made before the program halts or the
      callback ends it. */
  function CallsMade(cfg: Config, setups: seq<Setup>, m: Machine, script: seq<Answer>): (n: nat)
    requires Sound(cfg, m)
    ensures n <= |setups|
    decreases |setups|
  {
    hide RunLoop.Call;
    if setups == [] then 0
    else
      var first := RunLoop.Call(cfg, setups[0], m, script);
      if first.status.Halted? || CallTerminated(cfg, m, script[..first.used]) then 1
      else 1 + CallsMade(cfg, setups[1..], first.m, script[first.used..])
  }

  /** And how many of them are tick calls that take a reset. */
  function Resets(cfg: Config, setups: seq<Setup>, m: Machine, script: seq<Answer>): nat
    requires Sound(cfg, m)
    decreases |setups|
  {
    hide RunLoop.Call, ResetTick;
    if setups == [] then 0
    else
      var first := RunLoop.Call(cfg, setups[0], m, script);
      (if script != [] && ResetTick(cfg, setups[0], m, script) then 1 else 0)
      + (if first.status.Halted? || CallTerminated(cfg, m, script[..first.used]) then 0
         else Resets(cfg, setups[1..], first.m, script[first.used..]))
  }

  /** Over any series of tick calls, the calls made are the moves of the clock
      count and the instructions executed; a call that takes a reset counts for
      two, and one in which the program halts for none.  The clock count never
      overtakes the cycle count. */
  lemma {:induction false} TickSeries(cfg: Config, setups: seq<Setup>, m: Machine, script: seq<Answer>)
    requires Sound(cfg, m) && cfg.waits >= 0 && m.clk <= m.c.cycle && |script| >= |setups|
    requires forall k :: 0 <= k < |setups| ==> Ticking(setups[k])
    ensures var r := Calls(cfg, setups, m, script);
      && CallsMade(cfg, setups, m, script) + Resets(cfg, setups, m, script)
         == (r.m.clk - m.clk) + (r.m.instrs - m.instrs) + (if r.status.Halted? then 1 else 0)
      && r.m.clk <= r.m.c.cycle
    decreases |setups|
  {
    hide RunLoop.Call, ResetTick, CallTerminated, Ticking;
    if setups != [] {
      var first := RunLoop.Call(cfg, setups[0], m, script);
      assert Ticking(setups[0]);
      TickCall(cfg, setups[0], m, script);
      if !first.status.Halted? && !CallTerminated(cfg, m, script[..first.used]) {
        assert forall k :: 0 <= k < |setups[1..]| ==> setups[1..][k] == setups[k + 1];
        TickSeries(cfg, setups[1..], first.m, script[first.used..]);
      }
    }
  }

  /** Every call of a series is made if the program does not halt in one of them
      and the callback does not ask to stop. */
  lemma {:induction false} AllCallsMade(cfg: Config, setups: seq<Setup>, m: Machine, script: seq<Answer>)
    requires Sound(cfg, m)
    requires !Calls(cfg, setups, m, script).status.Halted?
    requires Steps(cfg, m, script[..Calls(cfg, setups, m, script).used]).end.Ran?
    ensures CallsMade(cfg, setups, m, script) == |setups|
    decreases |setups|
  {
    hide RunLoop.Call, Steps;
    if setups != [] {
      var first := RunLoop.Call(cfg, setups[0], m, script);
      var r := Calls(cfg, setups, m, script);
      if !first.status.Halted? && !CallTerminated(cfg, m, script[..first.used]) {
        var rest := script[first.used..];
        var j := Calls(cfg, setups[1..], first.m, rest).used;
        CallIsSteps(cfg, setups[0], m, script);
        assert script[..r.used] == script[..first.used] + rest[..j];
        StepsAppendEnd(cfg, m, script[..first.used], rest[..j]);
        StepsIgnoreLoop(cfg, first.m, Steps(cfg, m, script[..first.used]).m, rest[..j]);
        AllCallsMade(cfg, setups[1..], first.m, rest);
      }
    }
  }

  lemma {:induction false} StepsAppendEnd(cfg: Config, m: Machine, s: seq<Answer>, t: seq<Answer>)
    requires Sound(cfg, m) && Steps(cfg, m, s).end.Ran?
    ensures Steps(cfg, m, s + t).end.Ran? == Steps(cfg, Steps(cfg, m, s).m, t).end.Ran?
    decreases |s|
  {
    hide Step;
    if s == [] {
      assert s + t == t;
    } else {
      assert (s + t)[0] == s[0] && (s + t)[1..] == s[1..] + t;
      StepsAppendEnd(cfg, Step(cfg, m, s[0]).m, s[1..], t);
    }
  }

  lemma UrgentNotZero(a: State)
    ensures Urgent(a).Some? ==> !IsZero(a.flags)
  {
  }

  /** With an answer that does not stop the run, a reset step ends in an
      executed instruction or a halt. */
  lemma ResetRuns(cfg: Config, m: Machine, ans: Answer)
    requires Sound(cfg, m) && TakesReset(m, ans)
    ensures !Step(cfg, m, ans).end.Terminated?
  {
    hide FetchWord, ReadTime, Exec, ExecTime, Decode, Interrupt, Highest, Poll, Requested, IsZero;
  }

  /** However a step ends, time does not run back. */
  lemma StepTime(cfg: Config, m: Machine, ans: Answer)
    requires Sound(cfg, m) && cfg.waits >= 0
    ensures Step(cfg, m, ans).m.c.cycle >= m.c.cycle
  {
    if Step(cfg, m, ans).end.Ran? {
      hide Step, Progress;
      StepAdvances(cfg, m, ans);
    } else {
      hide Entered, FetchWord, ReadTime, Exec, ExecTime, Decode, Poll, Requested, Unknown, Bounded;
      var m1 := Polled(m, ans);
      assert m1.c.cycle == m.c.cycle;
      EntryClock(cfg, m1);
      var m2 := Entered(cfg, m1);
      ReadAdvances(cfg.waits, m2.c, CheckBreakpoint(m2.a), m2.a.pc, Fetch);
    }
  }
}
