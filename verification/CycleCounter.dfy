/** The CC register, which programs may write, kept as a fixed offset from a
    cycle count that they may not. */
module CycleCounter {
  import opened Words
  import opened Memory
  import opened Isa
  import opened Arch
  import opened Timing
  import opened Execution
  import Cache

  /** The last time CC was given a value: by `wcsr CC`, or by reset. */
  datatype Mark = Mark(value: int, time: int)

  /** What an independent counter started at the mark would show now. */
  function Elapsed(k: Mark, now: int): int {
    k.value + (now - k.time)
  }

  /** The pair (cycle, ccAdjust) agrees with that counter. */
  predicate Agrees(c: Clock, k: Mark) {
    c.cycle + c.ccAdjust == Elapsed(k, c.cycle)
  }

  predicate WritesCounter(a: State, i: Instr) {
    i.Wcsr? && i.csr == CSR_CC && !Trapped(a, i)
  }

  /** The mark once exceptions have been processed: reset sets CC to 0. */
  function MarkAtEntry(m: Machine, k: Mark): Mark {
    if Urgent(m.a) == Some(RESET) then Mark(0, m.c.cycle) else k
  }

  /** The mark after an instruction executed from `m`. */
  function MarkAfterExec(m: Machine, i: Instr, k: Mark): Mark
    requires Fields(i)
  {
    if WritesCounter(m.a, i) then Mark(m.a.r[i.z], m.c.cycle) else k
  }

  /** The mark after one step, and after a run. */
  function MarkAfterStep(cfg: Config, m: Machine, ans: Answer, k: Mark): Mark
    requires Sound(cfg, m)
  {
    var m1 := Polled(m, ans);
    var (w, m2) := Fetched(cfg, Entered(cfg, m1));
    MarkAfterExec(m2, Decode(w), MarkAtEntry(m1, k))
  }

  function MarkAfter(cfg: Config, m: Machine, script: seq<Answer>, k: Mark): Mark
    requires Sound(cfg, m)
    decreases |script|
  {
    hide Step, MarkAfterStep;
    if script == [] then k
    else
      var r := Step(cfg, m, script[0]);
      var k' := MarkAfterStep(cfg, m, script[0], k);
      if r.end.Ran? then MarkAfter(cfg, r.m, script[1..], k') else k'
  }

  lemma FetchKeepsAdjust(waits: int, c: Clock, a: State, v: u32, k: Kind)
    ensures ReadTime(waits, c, a, v, k).ccAdjust == c.ccAdjust
  {
    hide ReadMisses, Physical, Cache.WaitsOf, Cache.Accessed, Cache.Settled;
  }

  lemma LoadKeepsAdjust(cfg: Config, c: Clock, a: State, sz: Size, signed: bool, v: u32)
    requires Placed(cfg.g, a.mem)
    ensures LoadTime(cfg, c, a, sz, signed, v).ccAdjust == c.ccAdjust
  {
    hide ReadTime, ReadMem;
    FetchKeepsAdjust(cfg.waits, c, a, v, Data(sz));
    FetchKeepsAdjust(cfg.waits, ReadTime(cfg.waits, c, a, v, Data(sz)), ReadMem(cfg.g, a, v, Data(sz)).1, v, Data(sz));
  }

  /** Only `wcsr CC` moves the offset, and then so that CC reads as written; it
      does not touch the cycle count, which goes on by the issue cycle alone. */
  lemma ExecOffset(cfg: Config, c: Clock, a: State, i: Instr, b: State)
    requires Placed(cfg.g, a.mem) && Fields(i)
    ensures var d := ExecTime(cfg, c, a, i, b);
      if WritesCounter(a, i) then d.ccAdjust == a.r[i.z] - c.cycle && d.cycle == c.cycle + 1
      else d.ccAdjust == c.ccAdjust
  {
    hide LoadTime, EffectiveAddress, WriteStatus, Taken, AluPresent, Has, ReturnTrapped;
    if i.Load? {
      LoadKeepsAdjust(cfg, c, a, i.size, i.signed, EffectiveAddress(a, i.y, i.k));
    }
  }

  lemma EntryOffset(cfg: Config, m: Machine, k: Mark)
    requires Agrees(m.c, k) && !Unknown(m.a)
    ensures Agrees(Entered(cfg, m).c, MarkAtEntry(m, k))
  {
    hide Interrupt, Highest, IsZero;
  }

  /** One step keeps the pair in agreement with the independent counter. */
  lemma StepAgrees(cfg: Config, m: Machine, ans: Answer, k: Mark)
    requires Sound(cfg, m) && Agrees(m.c, k) && Step(cfg, m, ans).end.Ran?
    ensures Agrees(Step(cfg, m, ans).m.c, MarkAfterStep(cfg, m, ans, k))
  {
    hide Entered, FetchWord, ReadTime, Exec, ExecTime, Decode, Unknown, Poll, WritesCounter, MarkAtEntry;
    var m1 := Polled(m, ans);
    EntryOffset(cfg, m1, k);
    var m2 := Entered(cfg, m1);
    FetchKeepsAdjust(cfg.waits, m2.c, CheckBreakpoint(m2.a), m2.a.pc, Fetch);
    var (w, m3) := Fetched(cfg, m2);
    ExecOffset(cfg, m3.c, m3.a, Decode(w), Executed(cfg, m3, Decode(w)).0.a);
  }

  lemma {:induction false} RunAgrees(cfg: Config, m: Machine, script: seq<Answer>, k: Mark)
    requires Sound(cfg, m) && Agrees(m.c, k) && Steps(cfg, m, script).end.Ran?
    ensures Agrees(Steps(cfg, m, script).m.c, MarkAfter(cfg, m, script, k))
    decreases |script|
  {
    hide Step, MarkAfterStep, Agrees;
    if script != [] {
      StepAgrees(cfg, m, script[0], k);
      RunAgrees(cfg, Step(cfg, m, script[0]).m, script[1..], MarkAfterStep(cfg, m, script[0], k));
    }
  }

  /** Virtualisation.  After any run, the next `rcsr CC` returns the value CC was
      last given plus the cycles that have gone by since, modulo 2^32 - or zero
      if the counter is not configured. */
  lemma CounterReads(cfg: Config, m: Machine, script: seq<Answer>, k: Mark, ans: Answer, x: nat)
    requires Sound(cfg, m) && Agrees(m.c, k) && Steps(cfg, m, script).end.Ran? && x < 32
    requires var n := Steps(cfg, m, script).m;
      && !Stops(n, ans) && !Unknown(Polled(n, ans).a)
      && Decode(Fetched(cfg, Entered(cfg, Polled(n, ans))).0) == Rcsr(CSR_CC, x)
    ensures var n := Steps(cfg, m, script).m;
      var mark := MarkAtEntry(Polled(n, ans), MarkAfter(cfg, m, script, k));
      var at := Fetched(cfg, Entered(cfg, Polled(n, ans))).1;
      Step(cfg, n, ans).m.a.r[x] == (if Has(at.a, CFG_CC) then Wrap(Elapsed(mark, at.c.cycle)) else 0)
  {
    hide Steps, Entered, FetchWord, ReadTime, ExecTime, Decode, Unknown, Poll, MarkAtEntry, MarkAfter, Has, Stops;
    RunAgrees(cfg, m, script, k);
    var n := Steps(cfg, m, script).m;
    var n1 := Polled(n, ans);
    EntryOffset(cfg, n1, MarkAfter(cfg, m, script, k));
    var n2 := Entered(cfg, n1);
    FetchKeepsAdjust(cfg.waits, n2.c, CheckBreakpoint(n2.a), n2.a.pc, Fetch);
    var at := Fetched(cfg, n2).1;
    ReadsCounter(cfg.g, at.a, x, CycleCounter(at.c));
  }

  lemma ReadsCounter(g: Geometry, a: State, x: nat, cc: u32)
    requires Placed(g, a.mem) && x < 32
    ensures Exec(g, a, Rcsr(CSR_CC, x), cc).o == Completes
    ensures Exec(g, a, Rcsr(CSR_CC, x), cc).a.r[x] == (if Has(a, CFG_CC) then cc else 0)
  {
    hide Has;
  }
}
