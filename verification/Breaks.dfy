/** Why a run comes back: the break conditions in their order. */
module Breaks {
  import opened Words
  import opened Memory
  import opened Isa
  import opened Arch
  import opened Timing
  import opened Execution
  import opened RunLoop

  /** Break codes, most urgent first: a program locked up, the user, a breakpoint, a
      watchpoint, an interrupt, a division by zero, a bus error, a reset, a step. */
  const ORDER: seq<nat> := [2, 1, 4, 5, 9, 11, 10, 8, 6]

  /** What each code stands for. */
  predicate CallsFor(s: Setup, m: Machine, end: End, code: nat) {
    match code
    case 2 => s.lockBreak && end.Ran? && LockWord(end.word)
    case 1 =>
      && m.breakPoint == 0
      && ((s.breakAddr >= 0 && s.breakAddr - s.breakAddr % 4 == m.a.pc)
          || (s.cycles >= 0 && s.cycles <= m.c.cycle) || (s.cycles < -1 && s.cycles <= m.c.cycle) || end == Terminated)
    case 4 => s.hwBreak && Pending(m.a.flags, 1)
    case 5 => s.hwBreak && Pending(m.a.flags, 3)
    case 9 => s.intBreak && Pending(m.a.flags, 6)
    case 11 => Pending(m.a.flags, 5)
    case 10 => Pending(m.a.flags, 2) || Pending(m.a.flags, 4)
    case 8 => s.resetBreak && Pending(m.a.flags, 0)
    case 6 => s.mode == SingleStep
    case _ => false
  }

  /** The first code of a list that is called for; 0 when there is none. */
  function First(s: Setup, m: Machine, end: End, order: seq<nat>): nat {
    if order == [] then 0
    else if CallsFor(s, m, end, order[0]) then order[0]
    else First(s, m, end, order[1..])
  }

  /** A run comes back with the most urgent code that is called for, and goes on when
      there is none. */
  lemma MostUrgentBreak(s: Setup, m: Machine, end: End)
    ensures BreakAfter(s, m, end) == First(s, m, end, ORDER)
  {
    hide Pending, LockWord, First;
    InOrder(s, m, end);
  }

  lemma InOrder(s: Setup, m: Machine, end: End)
    ensures First(s, m, end, ORDER)
            == if CallsFor(s, m, end, 2) then 2 else if CallsFor(s, m, end, 1) then 1
               else if CallsFor(s, m, end, 4) then 4 else if CallsFor(s, m, end, 5) then 5
               else if CallsFor(s, m, end, 9) then 9 else if CallsFor(s, m, end, 11) then 11
               else if CallsFor(s, m, end, 10) then 10 else if CallsFor(s, m, end, 8) then 8
               else if CallsFor(s, m, end, 6) then 6 else 0
  {
    hide CallsFor;
    assert ORDER[0..] == ORDER && ORDER[9..] == [];
    FirstFrom(s, m, end, 0);
    FirstFrom(s, m, end, 1);
    FirstFrom(s, m, end, 2);
    FirstFrom(s, m, end, 3);
    FirstFrom(s, m, end, 4);
    FirstFrom(s, m, end, 5);
    FirstFrom(s, m, end, 6);
    FirstFrom(s, m, end, 7);
    FirstFrom(s, m, end, 8);
  }

  lemma FirstFrom(s: Setup, m: Machine, end: End, k: nat)
    requires k < 9
    ensures First(s, m, end, ORDER[k..])
            == if CallsFor(s, m, end, ORDER[k]) then ORDER[k] else First(s, m, end, ORDER[k + 1..])
  {
    hide CallsFor;
    assert ORDER[k..][1..] == ORDER[k + 1..] && ORDER[k..][0] == ORDER[k];
  }

  /** The two words that count as locked up are jumps to themselves, `be r0, r0, 0` and
      `bi 0`: they change nothing at all. */
  lemma LockedUp(g: Geometry, a: State, w: u32, cc: u32)
    requires Placed(g, a.mem) && LockWord(w)
    ensures Decode(w) == Branch(Equal, 0, 0, 0) || Decode(w) == Jump(0, 0, 0)
    ensures Exec(g, a, Decode(w), cc) == Result(a, Completes)
  {
    LockDecodes();
    hide Decode;
  }

  lemma LockDecodes()
    ensures Decode(LOCK_WORD_BE) == Branch(Equal, 0, 0, 0) && Decode(LOCK_WORD_BI) == Jump(0, 0, 0)
  {
  }

  // ---------------------------------------------------------------------------
  // clk_count outside of tick calls
  // ---------------------------------------------------------------------------

  /** A single-step or continue call brings clk_count up to the cycle count at which its
      last instruction began. */
  lemma {:induction false} ClkCatchesUp(cfg: Config, s: Setup, m: Machine, script: seq<Answer>)
    requires Sound(cfg, m) && s.mode != Tick
    ensures var r := Loop(cfg, s, m, script);
      r.m.clk == if r.used == 0 then m.clk else Steps(cfg, m, script[..r.used - 1]).m.c.cycle
    decreases |script|
  {
    hide Step, BreakAfter, GoesOn;
    var r := Loop(cfg, s, m, script);
    if GoesOn(s, m) && script != [] {
      var p := Prepared(s, m);
      StepIgnoresLoop(cfg, p, m, script[0]);
      var q := Step(cfg, p, script[0]);
      var n := Counted(q.m);
      assert script[..0] == [];
      if !q.end.Exited? && !q.end.Undefd? && BreakAfter(s, n, q.end) == 0 {
        var rest := Loop(cfg, s, n, script[1..]);
        ClkCatchesUp(cfg, s, n, script[1..]);
        if q.end.Terminated? {
          TerminationEnds(cfg, s, m, script[0]);
          assert !GoesOn(s, n);
        } else if rest.used > 0 {
          var k := rest.used - 1;
          assert script[..k + 1][1..] == script[1..][..k] && script[..k + 1][0] == script[0];
          StepsIgnoreLoop(cfg, n, Step(cfg, m, script[0]).m, script[1..][..k]);
        }
      }
    }
  }

  /** What a call returns is left in break_point, but for the tick calls that find the
      clock behind, which leave it alone. */
  lemma {:induction false} CodeIsKept(cfg: Config, s: Setup, m: Machine, script: seq<Answer>)
    requires Sound(cfg, m)
    ensures var r := Loop(cfg, s, m, script);
      r.status.Returned? ==> r.m.breakPoint == r.status.code || (s.mode == Tick && r.status.code == 7)
    decreases |script|
  {
    hide Step, BreakAfter, GoesOn, OnlyTicks;
    if GoesOn(s, m) && !OnlyTicks(s, m) && script != [] {
      var q := Step(cfg, Prepared(s, m), script[0]);
      CodeIsKept(cfg, s, Counted(q.m), script[1..]);
    }
    assert OnlyTicks(s, m) ==> s.mode == Tick by { TicksOnly(s, m); }
  }

  lemma TicksOnly(s: Setup, m: Machine)
    ensures OnlyTicks(s, m) ==> s.mode == Tick
  {
  }
}
