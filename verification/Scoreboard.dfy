/** The cycle model over whole runs: time moves forward, the scoreboard never
    stalls an instruction for more than two cycles, and ALU code issues as
    early as its dependencies allow. */
module Scoreboard {
  import opened Words
  import opened Memory
  import opened Isa
  import opened Arch
  import opened Timing
  import opened Execution
  import Cache

  // ---------------------------------------------------------------------------
  // Stalls are bounded
  // ---------------------------------------------------------------------------

  /** No result is outstanding for more than two cycles. */
  ghost predicate Bounded(c: Clock) {
    forall r :: 0 <= r < NUM_REGS ==> c.rt[r] <= c.cycle + 2
  }

  /** The clock moved on from `c` by at least `n` cycles, within the bound. */
  ghost predicate Advances(c: Clock, d: Clock, n: int) {
    d.cycle >= c.cycle + n && (Bounded(c) ==> Bounded(d))
  }

  lemma AdvancesTwice(c: Clock, d: Clock, e: Clock, n: int, k: int)
    requires Advances(c, d, n) && Advances(d, e, k)
    ensures Advances(c, e, n + k)
  {
    hide Bounded;
  }

  lemma WaitsNonNegative(cache: Option<Cache.Contents>, p: u32, waits: int)
    requires waits >= 0
    ensures Cache.WaitsOf(cache, p, waits) >= 0
  {
    match cache
    case None =>
    case Some(k) =>
      hide Cache.HitWay;
      var n := k.shape.width / 4;
      assert n == 1 || n == 2 || n == 4;
  }

  lemma ReadAdvances(waits: int, c: Clock, a: State, v: u32, k: Kind)
    requires waits >= 0
    ensures Advances(c, ReadTime(waits, c, a, v, k), 0)
  {
    hide ReadMisses, Physical, Cache.WaitsOf, Cache.Accessed, Cache.Settled;
    var p, d := Physical(a, v, k), Settle(c);
    WaitsNonNegative(d.icache, p, waits);
    WaitsNonNegative(d.dcache, p, waits);
  }

  lemma LoadAdvances(cfg: Config, c: Clock, a: State, sz: Size, signed: bool, v: u32)
    requires Placed(cfg.g, a.mem) && cfg.waits >= 0
    ensures Advances(c, LoadTime(cfg, c, a, sz, signed, v), 0)
  {
    hide ReadTime, ReadMem, Bounded;
    ReadAdvances(cfg.waits, c, a, v, Data(sz));
    var d := ReadTime(cfg.waits, c, a, v, Data(sz));
    ReadAdvances(cfg.waits, d, ReadMem(cfg.g, a, v, Data(sz)).1, v, Data(sz));
  }

  /** The costs in the decode table never promise a result later than two
      cycles after the next instruction may issue. */
  lemma TableIsTight(i: Instr)
    ensures ResultCycles(i) <= IssueCycles(i) + 2
  {
  }

  /** However an instruction ends after a stall of n cycles: with or without a
      result, or as a branch not taken. */
  lemma EndAdvances(c: Clock, n: int, x: nat, i: Instr)
    requires n >= 0 && x < NUM_REGS
    ensures Advances(c, Spend(Promise(Spend(c, n), x, ResultCycles(i)), IssueCycles(i)), 1)
    ensures Advances(c, Spend(Spend(c, n), IssueCycles(i)), 1)
    ensures Advances(c, Spend(Spend(c, n), NOT_TAKEN_CYCLES), 1)
    ensures Advances(c, Spend(Promise(c, x, ResultCycles(i)), IssueCycles(i)), 1)
    ensures Advances(c, Spend(c, IssueCycles(i)), 1)
  {
    TableIsTight(i);
    hide ResultCycles;
  }

  lemma StallsNonNegative(c: Clock, y: nat, z: nat)
    requires y < NUM_REGS && z < NUM_REGS
    ensures Stall(c, y) >= 0 && Stall2(c, y, z) >= 0
  {
  }

  lemma CsrAdvances(c: Clock, csr: nat, w: u32, i: Instr)
    ensures Advances(c, Spend(WcsrTime(c, csr, w), IssueCycles(i)), 1)
  {
  }

  /** Register instructions. */
  lemma PlainAdvances(cfg: Config, c: Clock, a: State, i: Instr, b: State)
    requires Placed(cfg.g, a.mem) && Fields(i) && !Trapped(a, i)
    requires !i.Load? && !i.Store?
    ensures Advances(c, ExecTime(cfg, c, a, i, b), 1)
  {
    hide Present, Taken, Trapped, Advances, Spend, Promise, Stall, Stall2, WcsrTime, ResultCycles, IssueCycles;
    EndAdvances(c, 0, 0, i);
    match i
    case AluRR(_, y, z, x) => StallsNonNegative(c, y, z); EndAdvances(c, Stall2(c, y, z), x, i);
    case AluRI(_, y, x, _) => StallsNonNegative(c, y, y); EndAdvances(c, Stall(c, y), x, i);
    case Divide(_, y, z, x) => StallsNonNegative(c, y, z); EndAdvances(c, Stall2(c, y, z), x, i);
    case Sext(_, y, x) => StallsNonNegative(c, y, y); EndAdvances(c, Stall(c, y), x, i);
    case Branch(_, y, z, _) => StallsNonNegative(c, y, z); EndAdvances(c, Stall2(c, y, z), 0, i);
    case Jump(y, z, _) => StallsNonNegative(c, y, z); EndAdvances(c, Stall2(c, y, z), 0, i);
    case Call(y) => StallsNonNegative(c, y, y); EndAdvances(c, Stall(c, y), RA_REG, i);
    case CallI(_) => EndAdvances(c, 0, RA_REG, i);
    case Rcsr(_, x) => EndAdvances(c, 0, x, i);
    case Wcsr(csr, z) => CsrAdvances(c, csr, a.r[z], i);
    case _ =>
  }

  lemma MemoryAdvances(cfg: Config, c: Clock, a: State, i: Instr, b: State)
    requires Placed(cfg.g, a.mem) && Fields(i) && cfg.waits >= 0
    requires i.Load? || i.Store?
    ensures Advances(c, ExecTime(cfg, c, a, i, b), 1)
  {
    hide LoadTime, EffectiveAddress, WriteStatus;
    match i
    case Load(sz, signed, y, x, k) =>
      LoadAdvances(cfg, c, a, sz, signed, EffectiveAddress(a, y, k));
    case Store(_, _, _, _) =>
    case _ =>
  }

  /** Every instruction takes at least a cycle, except one that traps for lack of
      privilege, which takes none. */
  lemma ExecAdvances(cfg: Config, c: Clock, a: State, i: Instr, b: State)
    requires Placed(cfg.g, a.mem) && Fields(i) && cfg.waits >= 0
    ensures Advances(c, ExecTime(cfg, c, a, i, b), if Trapped(a, i) then 0 else 1)
    ensures Trapped(a, i) ==> ExecTime(cfg, c, a, i, b) == c
  {
    hide Bounded;
    if i.Load? || i.Store? {
      MemoryAdvances(cfg, c, a, i, b);
    } else if !Trapped(a, i) {
      hide ExecTime;
      PlainAdvances(cfg, c, a, i, b);
    }
  }

  // ---------------------------------------------------------------------------
  // Progress
  // ---------------------------------------------------------------------------

  predicate TrapPending(m: Machine) {
    Pending(m.a.flags, PRIV_ACCESS)
  }

  /** Twice the cycle count, plus one while a privilege trap is pending: this
      grows with every executed instruction. */
  function Progress(m: Machine): int {
    2 * m.c.cycle + (if TrapPending(m) then 1 else 0)
  }

  lemma PollKeepsTrap(m: Machine, ans: Answer)
    ensures TrapPending(Polled(m, ans)) == TrapPending(m)
    ensures Polled(m, ans).c == m.c.(wakeup := Polled(m, ans).c.wakeup)
  {
    hide Requested, Meet, On, Set, Clear, Flag, Pending;
    ExtIntApart(m.a.flags);
  }

  lemma ExtIntApart(x: Bits)
    ensures Pending(Set(x, Flag(EXTINT)), PRIV_ACCESS) == Pending(x, PRIV_ACCESS)
    ensures Pending(Clear(x, Flag(EXTINT)), PRIV_ACCESS) == Pending(x, PRIV_ACCESS)
  {
    BitsApart(x.w);
    var e, p := Flag(EXTINT), Flag(PRIV_ACCESS);
    assert e == 0x40 && p == 0x800;
    hide Flag;
  }

  lemma BitsApart(w: bv32)
    ensures (w | 0x40) & 0x800 == w & 0x800
    ensures (w & !0x40) & 0x800 == w & 0x800
  {
  }

  lemma PendingNotZero(x: Bits, id: nat)
    requires Pending(x, id)
    ensures !IsZero(x)
  {
  }

  /** With a trap pending an exception is taken, and the instruction then runs
      in the handler's modes. */
  lemma EntryLeavesUserMode(cfg: Config, m: Machine)
    requires TrapPending(m) && !Unknown(m.a)
    ensures !On(Entered(cfg, m).a.csr.psw, USR)
  {
    hide Interrupt, Highest;
    PendingNotZero(m.a.flags, PRIV_ACCESS);
    InterruptModes(cfg.g, m.a, Urgent(m.a).value);
  }

  lemma InterruptModes(g: Geometry, a: State, id: nat)
    requires id < NUM_EXCEPTIONS
    ensures !On(Interrupt(g, a, id).csr.psw, USR)
  {
    hide SaveE, SaveB, Vector, RestartPc, Reset;
    assert forall k: Csrs :: !On(HandlerModes(k).psw, USR);
  }

  lemma EntryClock(cfg: Config, m: Machine)
    ensures Entered(cfg, m).c.cycle == m.c.cycle && Entered(cfg, m).c.rt == m.c.rt
  {
    hide Interrupt, Highest;
  }

  lemma FetchPsw(g: Geometry, a: State)
    requires Placed(g, a.mem)
    ensures FetchWord(g, a).1.csr == a.csr
  {
    hide On, Set, Flag, Read, Watched, Tlb.LookupStatus, Tlb.LookupAddress, Tlb.AfterLookup;
  }

  /** A trapped instruction leaves the trap pending. */
  lemma TrapShows(g: Geometry, a: State, i: Instr, cc: u32)
    requires Placed(g, a.mem) && Fields(i) && Trapped(a, i)
    ensures Exec(g, a, i, cc) == Result(Raised(a, PRIV_ACCESS), Completes)
    ensures Pending(Raised(a, PRIV_ACCESS).flags, PRIV_ACCESS)
  {
    hide On, CsrWritten;
    assert Pending(Set(a.flags, Flag(PRIV_ACCESS)), PRIV_ACCESS) by { TrapBit(a.flags); }
  }

  lemma TrapBit(x: Bits)
    ensures Pending(Set(x, Flag(PRIV_ACCESS)), PRIV_ACCESS)
  {
  }

  /** One executed instruction: time does not run backwards, the scoreboard stays
      within its bound, and there is progress. */
  lemma StepAdvances(cfg: Config, m: Machine, ans: Answer)
    requires Sound(cfg, m) && cfg.waits >= 0 && Step(cfg, m, ans).end.Ran?
    ensures Advances(m.c, Step(cfg, m, ans).m.c, 0)
    ensures Progress(Step(cfg, m, ans).m) > Progress(m)
  {
    hide Entered, FetchWord, ReadTime, Exec, ExecTime, Decode, Polled, Pending, Bounded, Trapped, Unknown, On;
    PollKeepsTrap(m, ans);
    var m1 := Polled(m, ans);
    EntryClock(cfg, m1);
    var m2 := Entered(cfg, m1);
    FetchPsw(cfg.g, m2.a);
    var (w, m3) := Fetched(cfg, m2);
    ReadAdvances(cfg.waits, m2.c, CheckBreakpoint(m2.a), m2.a.pc, Fetch);
    var i := Decode(w);
    var m4 := Executed(cfg, m3, i).0;
    ExecAdvances(cfg, m3.c, m3.a, i, m4.a);
    assert Advances(m.c, m2.c, 0) by { SameTimes(m.c, m2.c); }
    AdvancesTwice(m.c, m2.c, m3.c, 0, 0);
    AdvancesTwice(m.c, m3.c, m4.c, 0, if Trapped(m3.a, i) then 0 else 1);
    if Trapped(m3.a, i) {
      TrapShows(cfg.g, m3.a, i, CycleCounter(m3.c));
      TrappedInUserMode(m3.a, i);
      if TrapPending(m1) {
        EntryLeavesUserMode(cfg, m1);
        assert false;
      }
    }
  }

  lemma TrappedInUserMode(a: State, i: Instr)
    requires Trapped(a, i)
    ensures On(a.csr.psw, USR)
  {
  }

  lemma SameTimes(c: Clock, d: Clock)
    requires d.cycle == c.cycle && d.rt == c.rt
    ensures Advances(c, d, 0)
  {
  }

  /** Over any run: the scoreboard bound is an invariant, and n executed
      instructions take at least (n - 1) / 2 cycles. */
  lemma {:induction false} RunAdvances(cfg: Config, m: Machine, script: seq<Answer>)
    requires Sound(cfg, m) && cfg.waits >= 0
    requires Steps(cfg, m, script).end.Ran?
    ensures Advances(m.c, Steps(cfg, m, script).m.c, 0)
    ensures Progress(Steps(cfg, m, script).m) >= Progress(m) + |script|
    decreases |script|
  {
    hide Step, Bounded, Progress;
    if script != [] {
      StepAdvances(cfg, m, script[0]);
      var r := Step(cfg, m, script[0]);
      RunAdvances(cfg, r.m, script[1..]);
      AdvancesTwice(m.c, r.m.c, Steps(cfg, r.m, script[1..]).m.c, 0, 0);
    }
  }

  /** The clock on which an instruction's stall is worked out: after its fetch
      and, for loads and stores, after the data access. */
  function IssueClock(cfg: Config, f: Machine, i: Instr): Clock
    requires Sound(cfg, f) && Fields(i)
  {
    match i
    case Load(sz, signed, y, _, k) => LoadTime(cfg, f.c, f.a, sz, signed, EffectiveAddress(f.a, y, k))
    case Store(_, y, _, k) => WriteTime(cfg.waits, f.c, f.a, EffectiveAddress(f.a, y, k))
    case _ => f.c
  }

  /** The machine after the fetch of a step. */
  function AfterFetch(cfg: Config, m: Machine, ans: Answer): (f: Machine)
    requires Sound(cfg, m)
    ensures Sound(cfg, f)
  {
    Fetched(cfg, Entered(cfg, Polled(m, ans))).1
  }

  lemma FetchAdvances(cfg: Config, m: Machine, ans: Answer)
    requires Sound(cfg, m) && cfg.waits >= 0
    ensures Advances(m.c, AfterFetch(cfg, m, ans).c, 0)
  {
    hide Interrupt, Highest, IsZero, FetchWord, ReadTime, Poll, Requested, Bounded;
    var m2 := Entered(cfg, Polled(m, ans));
    assert Advances(m.c, m2.c, 0) by { SameTimes(m.c, m2.c); }
    ReadAdvances(cfg.waits, m2.c, CheckBreakpoint(m2.a), m2.a.pc, Fetch);
    AdvancesTwice(m.c, m2.c, AfterFetch(cfg, m, ans).c, 0, 0);
  }

  lemma IssueAdvances(cfg: Config, f: Machine, i: Instr)
    requires Sound(cfg, f) && Fields(i) && cfg.waits >= 0
    ensures Advances(f.c, IssueClock(cfg, f, i), 0)
  {
    hide LoadTime, EffectiveAddress, WriteStatus;
    match i
    case Load(sz, signed, y, _, k) => LoadAdvances(cfg, f.c, f.a, sz, signed, EffectiveAddress(f.a, y, k));
    case Store(_, _, _, _) =>
    case _ =>
  }

  lemma BoundedStall(c: Clock, y: nat, z: nat)
    requires Bounded(c) && y < 32 && z < 32
    ensures 0 <= Stall2(c, y, z) <= 2
  {
  }

  /** Hence, at any point of any run, the instruction executed next waits at most
      two cycles for its operands, whichever they are. */
  lemma StallAtMostTwo(cfg: Config, m: Machine, script: seq<Answer>, ans: Answer, i: Instr, y: nat, z: nat)
    requires Sound(cfg, m) && cfg.waits >= 0 && Bounded(m.c) && y < 32 && z < 32 && Fields(i)
    requires Steps(cfg, m, script).end.Ran?
    ensures 0 <= Stall2(IssueClock(cfg, AfterFetch(cfg, Steps(cfg, m, script).m, ans), i), y, z) <= 2
  {
    hide Steps, IssueClock, AfterFetch, Stall2, Bounded;
    RunAdvances(cfg, m, script);
    var n := Steps(cfg, m, script).m;
    FetchAdvances(cfg, n, ans);
    var f := AfterFetch(cfg, n, ans);
    IssueAdvances(cfg, f, i);
    BoundedStall(IssueClock(cfg, f, i), y, z);
  }

  /** That is the stall which is charged: the instruction ends on the clock at
      issue plus its stall and its issue cycles. */
  lemma StallIsCharged(cfg: Config, f: Machine, i: Instr, b: State)
    requires Sound(cfg, f) && Fields(i) && Present(f.a, i)
    requires i.AluRR? || i.AluRI? || i.Sext? || i.Divide? || i.Load? || i.Store? || i.Branch? || i.Jump? || i.Call?
    ensures var d := IssueClock(cfg, f, i);
      var stall := if i.AluRR? || i.Divide? || i.Branch? || i.Jump? then Stall2(d, i.y, i.z) else Stall(d, i.y);
      var issue := if i.Branch? && !Taken(i.cond, f.a.r[i.y], f.a.r[i.z]) then NOT_TAKEN_CYCLES else IssueCycles(i);
      ExecTime(cfg, f.c, f.a, i, b).cycle == d.cycle + stall + issue
  {
    hide LoadTime, EffectiveAddress, WriteStatus, Stall, Stall2, IssueCycles, ResultCycles, Present, Taken;
  }

  // ---------------------------------------------------------------------------
  // Straight-line ALU code issues as early as it can
  // ---------------------------------------------------------------------------

  predicate AluShape(i: Instr) {
    (i.AluRR? || i.AluRI? || i.Sext?) && Fields(i)
  }

  type AluInstr = i: Instr | AluShape(i)
    witness AluRR(Add, 0, 0, 0)

  /** Does the instruction read register r? */
  predicate Uses(i: AluInstr, r: nat) {
    r == i.y || (i.AluRR? && r == i.z)
  }

  /** When register r is available to instruction k under a schedule `u`: when
      its last writer before k started plus that writer's latency, or when it
      was available to begin with. */
  function Available(c: Clock, code: seq<AluInstr>, u: seq<int>, k: nat, r: nat): int
    requires r < NUM_REGS && k <= |code| == |u|
    decreases k
  {
    if k == 0 then c.rt[r]
    else if code[k - 1].x == r then u[k - 1] + ResultCycles(code[k - 1])
    else Available(c, code, u, k - 1, r)
  }

  /** A schedule gives each instruction a start time, in program order, and no
      instruction starts before its operands are available. */
  ghost predicate Schedule(c: Clock, code: seq<AluInstr>, u: seq<int>) {
    && |u| == |code|
    && (|u| > 0 ==> u[0] >= c.cycle)
    && (forall k :: 0 < k < |u| ==> u[k] >= u[k - 1] + IssueCycles(code[k - 1]))
    && (forall k, r :: 0 <= k < |u| && 0 <= r < NUM_REGS && Uses(code[k], r) ==>
          u[k] >= Available(c, code, u, k, r))
  }

  /** How an ALU instruction moves the clock (AluTime ties this to ExecTime). */
  function StallFor(c: Clock, i: AluInstr): int {
    if i.AluRR? then Stall2(c, i.y, i.z) else Stall(c, i.y)
  }

  function AluClock(c: Clock, i: AluInstr): Clock {
    Spend(Promise(Spend(c, StallFor(c, i)), i.x, ResultCycles(i)), IssueCycles(i))
  }

  function ClockAt(c: Clock, code: seq<AluInstr>, k: nat): Clock
    requires k <= |code|
    decreases k
  {
    if k == 0 then c else AluClock(ClockAt(c, code, k - 1), code[k - 1])
  }

  /** The machine's own start times. */
  function Starts(c: Clock, code: seq<AluInstr>, n: nat): (u: seq<int>)
    requires n <= |code|
    ensures |u| == n
    decreases n
  {
    if n == 0 then []
    else
      var d := ClockAt(c, code, n - 1);
      Starts(c, code, n - 1) + [d.cycle + StallFor(d, code[n - 1])]
  }

  lemma {:induction false} StartsAt(c: Clock, code: seq<AluInstr>, n: nat, k: nat)
    requires k < n <= |code|
    ensures Starts(c, code, n)[k] == ClockAt(c, code, k).cycle + StallFor(ClockAt(c, code, k), code[k])
  {
    hide ClockAt, StallFor;
    if k < n - 1 {
      StartsAt(c, code, n - 1, k);
    }
  }

  /** One more instruction: its entry is new, and the others are as before. */
  lemma EntryStep(c: Clock, code: seq<AluInstr>, k: nat, r: nat)
    requires r < NUM_REGS && k < |code|
    ensures var d := ClockAt(c, code, k);
      ClockAt(c, code, k + 1).rt[r]
        == if code[k].x == r then d.cycle + StallFor(d, code[k]) + ResultCycles(code[k]) else d.rt[r]
  {
    hide StallFor, ResultCycles, IssueCycles;
  }

  lemma AvailableStep(c: Clock, code: seq<AluInstr>, u: seq<int>, k: nat, r: nat)
    requires r < NUM_REGS && k < |code| == |u|
    ensures Available(c, code, u, k + 1, r)
            == if code[k].x == r then u[k] + ResultCycles(code[k]) else Available(c, code, u, k, r)
  {
    hide ResultCycles;
  }

  /** The scoreboard holds exactly the availability times. */
  lemma {:induction false} ScoreboardIsAvailable(c: Clock, code: seq<AluInstr>, k: nat, r: nat)
    requires k <= |code| && r < NUM_REGS
    ensures ClockAt(c, code, k).rt[r] == Available(c, code, Starts(c, code, |code|), k, r)
    decreases k
  {
    if k > 0 {
      var j, u := k - 1, Starts(c, code, |code|);
      hide StallFor, Starts, ResultCycles, ClockAt, Available;
      ScoreboardIsAvailable(c, code, j, r);
      StartsAt(c, code, |code|, j);
      EntryStep(c, code, j, r);
      AvailableStep(c, code, u, j, r);
      assert ClockAt(c, code, k).rt[r] == Available(c, code, u, k, r);
    }
  }

  lemma StartFollows(c: Clock, code: seq<AluInstr>, k: nat)
    requires 0 < k < |code|
    ensures var u := Starts(c, code, |code|); u[k] >= u[k - 1] + IssueCycles(code[k - 1])
  {
    hide Starts, IssueCycles, ResultCycles;
    StartsAt(c, code, |code|, k);
    StartsAt(c, code, |code|, k - 1);
    StallNonNegative(ClockAt(c, code, k), code[k]);
  }

  lemma StartWaits(c: Clock, code: seq<AluInstr>, k: nat, r: nat)
    requires k < |code| && r < NUM_REGS && Uses(code[k], r)
    ensures Starts(c, code, |code|)[k] >= Available(c, code, Starts(c, code, |code|), k, r)
  {
    hide Starts, Available, ClockAt;
    StartsAt(c, code, |code|, k);
    ScoreboardIsAvailable(c, code, k, r);
    StallNonNegative(ClockAt(c, code, k), code[k]);
  }

  lemma StallNonNegative(c: Clock, i: AluInstr)
    ensures StallFor(c, i) >= 0
    ensures forall r: nat :: r < NUM_REGS && Uses(i, r) ==> c.cycle + StallFor(c, i) >= c.rt[r]
  {
  }

  /** The machine's start times are a schedule ... */
  lemma StartsIsSchedule(c: Clock, code: seq<AluInstr>)
    ensures Schedule(c, code, Starts(c, code, |code|))
  {
    hide Starts, Available, IssueCycles, Uses;
    var u := Starts(c, code, |code|);
    if |u| > 0 {
      StartsAt(c, code, |code|, 0);
      StallNonNegative(c, code[0]);
    }
    forall k | 0 < k < |u|
      ensures u[k] >= u[k - 1] + IssueCycles(code[k - 1])
    {
      StartFollows(c, code, k);
    }
    forall k, r | 0 <= k < |u| && 0 <= r < NUM_REGS && Uses(code[k], r)
      ensures u[k] >= Available(c, code, u, k, r)
    {
      StartWaits(c, code, k, r);
    }
  }

  lemma {:induction false} AvailableMonotone(c: Clock, code: seq<AluInstr>, u: seq<int>, v: seq<int>, k: nat, r: nat)
    requires r < NUM_REGS && k <= |code| == |u| == |v|
    requires forall j :: 0 <= j < k ==> u[j] <= v[j]
    ensures Available(c, code, u, k, r) <= Available(c, code, v, k, r)
  {
    if k > 0 {
      AvailableMonotone(c, code, u, v, k - 1, r);
    }
  }

  ghost predicate NoneEarlier(u: seq<int>, v: seq<int>, n: nat) {
    n <= |u| && n <= |v| && forall k :: 0 <= k < n ==> u[k] <= v[k]
  }

  /** ... and the least one: no schedule starts any instruction earlier. */
  lemma {:induction false} StartsIsLeast(c: Clock, code: seq<AluInstr>, v: seq<int>, n: nat)
    requires Schedule(c, code, v) && n <= |code|
    ensures NoneEarlier(Starts(c, code, |code|), v, n)
    decreases n
  {
    hide Starts, Available, Uses;
    if n > 0 {
      StartsIsLeast(c, code, v, n - 1);
      LeastStep(c, code, v, n - 1);
    }
  }

  lemma LeastStep(c: Clock, code: seq<AluInstr>, v: seq<int>, k: nat)
    requires Schedule(c, code, v) && k < |code|
    requires NoneEarlier(Starts(c, code, |code|), v, k)
    ensures Starts(c, code, |code|)[k] <= v[k]
  {
    hide Starts, IssueCycles, ResultCycles, Available;
    var d := ClockAt(c, code, k);
    StartsAt(c, code, |code|, k);
    OperandBound(c, code, v, k, code[k].y);
    if code[k].AluRR? {
      OperandBound(c, code, v, k, code[k].z);
    }
    if k > 0 {
      StartsAt(c, code, |code|, k - 1);
    }
    assert d.cycle <= v[k];
    hide ClockAt;
  }

  lemma OperandBound(c: Clock, code: seq<AluInstr>, v: seq<int>, k: nat, r: nat)
    requires Schedule(c, code, v) && k < |code| && r < NUM_REGS && Uses(code[k], r)
    requires forall j :: 0 <= j < k ==> Starts(c, code, |code|)[j] <= v[j]
    ensures ClockAt(c, code, k).rt[r] <= v[k]
  {
    hide ClockAt, Starts;
    ScoreboardIsAvailable(c, code, k, r);
    AvailableMonotone(c, code, Starts(c, code, |code|), v, k, r);
  }

  // The machine really runs by ClockAt.

  /** The machine after k steps without an interrupt callback. */
  function At(cfg: Config, m: Machine, k: nat): (r: Machine)
    requires Sound(cfg, m)
    ensures Sound(cfg, r)
    decreases k
  {
    hide Step;
    if k == 0 then m else Step(cfg, At(cfg, m, k - 1), NoCallback).m
  }

  /** Step k executes `i`, which is built in, without taking an exception. */
  ghost predicate RunsPlainly(cfg: Config, m: Machine, i: Instr)
    requires Sound(cfg, m)
  {
    && IsZero(m.a.flags)
    && Decode(Fetched(cfg, m).0) == i
    && Present(Fetched(cfg, m).1.a, i)
    && Step(cfg, m, NoCallback).end.Ran?
  }

  lemma FreeFetch(waits: int, c: Clock, a: State, v: u32, k: Kind)
    requires waits == 0
    ensures ReadTime(waits, c, a, v, k).cycle == c.cycle && ReadTime(waits, c, a, v, k).rt == c.rt
  {
    hide ReadMisses, Physical, Cache.Accessed, Cache.Settled, Cache.HitWay;
  }

  lemma AluTime(cfg: Config, c: Clock, a: State, i: AluInstr, b: State)
    requires Placed(cfg.g, a.mem) && Present(a, i)
    ensures ExecTime(cfg, c, a, i, b) == AluClock(c, i)
  {
    hide AluPresent, Has;
  }

  ghost predicate SameIssue(c: Clock, d: Clock) {
    c.cycle == d.cycle && c.rt == d.rt
  }

  lemma AluStep(cfg: Config, m: Machine, i: AluInstr, c: Clock)
    requires Sound(cfg, m) && cfg.waits == 0 && RunsPlainly(cfg, m, i) && SameIssue(m.c, c)
    ensures SameIssue(Step(cfg, m, NoCallback).m.c, AluClock(c, i))
  {
    hide FetchWord, ReadTime, Exec, ExecTime, Decode, IsZero, Present;
    assert Entered(cfg, m) == m && !Unknown(m.a);
    var (w, m2) := Fetched(cfg, m);
    FreeFetch(cfg.waits, m.c, CheckBreakpoint(m.a), m.a.pc, Fetch);
    var m3 := Executed(cfg, m2, i).0;
    AluTime(cfg, m2.c, m2.a, i, m3.a);
  }

  /** With zero wait states, running `code` takes the machine's clock through
      exactly the times above; the start times are therefore the least schedule
      that respects program order and operand latencies. */
  lemma {:induction false} MachineIssuesEarliest(cfg: Config, m: Machine, code: seq<AluInstr>, k: nat)
    requires Sound(cfg, m) && cfg.waits == 0 && k <= |code|
    requires forall j :: 0 <= j < |code| ==> RunsPlainly(cfg, At(cfg, m, j), code[j])
    ensures SameIssue(At(cfg, m, k).c, ClockAt(m.c, code, k))
    ensures Schedule(m.c, code, Starts(m.c, code, |code|))
    ensures forall v: seq<int> :: Schedule(m.c, code, v) ==>
      NoneEarlier(Starts(m.c, code, |code|), v, |code|)
    decreases k
  {
    hide Step, RunsPlainly, AluClock, Schedule, Starts;
    if k > 0 {
      MachineIssuesEarliest(cfg, m, code, k - 1);
      AluStep(cfg, At(cfg, m, k - 1), code[k - 1], ClockAt(m.c, code, k - 1));
    } else {
      StartsIsSchedule(m.c, code);
      forall v: seq<int> | Schedule(m.c, code, v)
        ensures NoneEarlier(Starts(m.c, code, |code|), v, |code|)
      {
        StartsIsLeast(m.c, code, v, |code|);
      }
    }
  }
}
