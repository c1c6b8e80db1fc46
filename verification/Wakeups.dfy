/** When the interrupt callback is asked, and how a step can end. */
module Wakeups {
  import opened Words
  import opened Memory
  import opened Isa
  import opened Arch
  import opened Timing
  import opened Execution

  // ---------------------------------------------------------------------------
  // Asking the callback
  // ---------------------------------------------------------------------------

  /** Before the time that it named, the callback is not asked: what it would say makes
      no difference. */
  lemma NotAskedBefore(cfg: Config, m: Machine, ans: Answer)
    requires Sound(cfg, m) && m.c.cycle < m.c.wakeup
    ensures Step(cfg, m, ans) == Step(cfg, m, NoCallback)
  {
    hide Entered, Fetched, Executed, Unknown, Decode;
  }

  /** From that time on it is asked, and the time that it names is the next one; a
      negative time ends the run. */
  lemma AskedWhenDue(cfg: Config, m: Machine, requests: Bits, wakeup: int)
    requires Sound(cfg, m) && m.c.cycle >= m.c.wakeup
    ensures var r := Step(cfg, m, Answer(requests, wakeup));
      && r.m.c.wakeup == wakeup
      && (r.end == Terminated <==> wakeup < 0)
  {
    hide Requested, Interrupt, FetchWord, Decode, Exec, IsZero, Highest, On, Meet;
    var m1 := Polled(m, Answer(requests, wakeup));
    assert m1.c.wakeup == wakeup;
    var (w, m2) := Fetched(cfg, Entered(cfg, m1));
    ReadKeepsWakeup(cfg.waits, Entered(cfg, m1).c, CheckBreakpoint(Entered(cfg, m1).a), Entered(cfg, m1).a.pc, Fetch);
    ExecKeepsWakeup(cfg, m2.c, m2.a, Decode(w), Exec(cfg.g, m2.a, Decode(w), CycleCounter(m2.c)).a);
  }

  lemma ReadKeepsWakeup(waits: int, c: Clock, a: State, v: u32, k: Kind)
    ensures ReadTime(waits, c, a, v, k).wakeup == c.wakeup
  {
    hide ReadMisses, Physical;
  }

  lemma ExecKeepsWakeup(cfg: Config, c: Clock, a: State, i: Instr, b: State)
    requires Placed(cfg.g, a.mem) && Fields(i)
    ensures ExecTime(cfg, c, a, i, b).wakeup == c.wakeup
  {
    hide ReadTime, ReadMem, Present, Trapped, Taken, EffectiveAddress, Stall, Stall2, WriteStatus;
    if i.Load? {
      var v := EffectiveAddress(a, i.y, i.k);
      ReadKeepsWakeup(cfg.waits, c, a, v, Data(i.size));
      ReadKeepsWakeup(cfg.waits, ReadTime(cfg.waits, c, a, v, Data(i.size)), ReadMem(cfg.g, a, v, Data(i.size)).1, v,
                      Data(i.size));
    }
  }

  /** Two scripts that agree wherever the callback is asked. */
  predicate AgreeWhenDue(cfg: Config, m: Machine, s: seq<Answer>, t: seq<Answer>)
    requires Sound(cfg, m)
    decreases |s|
  {
    hide Step;
    && |s| == |t|
    && (s != [] ==>
          && (m.c.cycle >= m.c.wakeup ==> s[0] == t[0])
          && AgreeWhenDue(cfg, Step(cfg, m, s[0]).m, s[1..], t[1..]))
  }

  /** Over any run only the answers count that were asked for. */
  lemma {:induction false} OnlyDueAnswersCount(cfg: Config, m: Machine, s: seq<Answer>, t: seq<Answer>)
    requires Sound(cfg, m) && AgreeWhenDue(cfg, m, s, t)
    ensures Steps(cfg, m, s) == Steps(cfg, m, t)
    decreases |s|
  {
    hide Step;
    if s != [] {
      if m.c.cycle < m.c.wakeup {
        NotAskedBefore(cfg, m, s[0]);
        NotAskedBefore(cfg, m, t[0]);
      }
      OnlyDueAnswersCount(cfg, Step(cfg, m, s[0]).m, s[1..], t[1..]);
    }
  }

  // ---------------------------------------------------------------------------
  // Endings
  // ---------------------------------------------------------------------------

  /** An instruction that names a CSR that is not there, in a mode that allows it. */
  predicate NoSuchCsr(a: State, i: Instr) {
    (i.Rcsr? || (i.Wcsr? && !On(a.csr.psw, USR))) && !ReadableCsr(i.csr)
  }

  /** An operation that the host language leaves undefined: a shift by 32 or more, or
      the quotient of the least integer by -1, where the unit for it is built in. */
  predicate Overflows(a: State, i: Instr)
    requires Fields(i)
  {
    match i
    case AluRR(op, _, z, _) => ShiftOp(op) && On(a.csr.cfg, CFG_S) && a.r[z] >= 32
    case AluRI(op, _, _, k) => ShiftOp(op) && On(a.csr.cfg, CFG_S) && k >= 32
    case Divide(d, y, z, _) =>
      && (d == Div || d == Mod) && On(a.csr.cfg, CFG_D)
      && Signed(a.r[y]) == -0x8000_0000 && Signed(a.r[z]) == -1
    case _ => false
  }

  lemma HowItEnds(g: Geometry, a: State, i: Instr, cc: u32)
    requires Placed(g, a.mem) && Fields(i)
    ensures Exec(g, a, i, cc).o == if NoSuchCsr(a, i) then Exits else if Overflows(a, i) then Undefined else Completes
  {
    hide On, AluValue, DivValue, SextValue, Taken, CsrValue, CsrsWritten, MmuWritten, ReadableCsr, RestoreB, RestoreE;
    hide ReadMem, WriteMem, Wrap, Raised;
  }

  /** A step in which the callback does not end the run ends with the program's exit
      when a flag that is no exception is pending or a CSR is not there, in undefined
      behaviour for those operations, and otherwise with the word executed. */
  lemma HowStepsEnd(cfg: Config, m: Machine, ans: Answer)
    requires Sound(cfg, m) && !Stops(m, ans)
    ensures var m1 := Polled(m, ans);
      var (w, f) := Fetched(cfg, Entered(cfg, m1));
      Step(cfg, m, ans).end ==
        if Unknown(m1.a) || NoSuchCsr(f.a, Decode(w)) then Exited
        else if Overflows(f.a, Decode(w)) then Undefd
        else Ran(w)
  {
    hide Polled, Entered, Fetched, Unknown, Decode, Exec, NoSuchCsr, Overflows, ExecTime;
    var (w, f) := Fetched(cfg, Entered(cfg, Polled(m, ans)));
    HowItEnds(cfg.g, f.a, Decode(w), CycleCounter(f.c));
  }
}
