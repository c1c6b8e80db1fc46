/** The cycle model: wait states, caches, and the register scoreboard. */
module Timing {
  import opened Words
  import opened Memory
  import opened Isa
  import opened Arch
  import Cache

  type Times = s: seq<int> | |s| == NUM_REGS
    witness seq(NUM_REGS, _ => 0)

  /** `rt[r]` is the cycle from which register r can be used.  `ccAdjust` is the
      distance from the cycle count to the CC register. */
  datatype Clock = Clock(
    cycle: int, rt: Times, ccAdjust: int,
    icache: Option<Cache.Contents>, dcache: Option<Cache.Contents>,
    iInvalid: bool, dInvalid: bool, wakeup: int)

  datatype Config = Config(g: Geometry, waits: int)

  function Max(a: int, b: int): int {
    if a > b then a else b
  }

  /** calc_stall for one register, and for two. */
  function Stall(c: Clock, y: nat): int
    requires y < 32
  {
    Max(c.rt[y] - c.cycle, 0)
  }

  function Stall2(c: Clock, y: nat, z: nat): int
    requires y < 32 && z < 32
  {
    Max(Stall(c, y), Stall(c, z))
  }

  function Spend(c: Clock, n: int): Clock {
    c.(cycle := c.cycle + n)
  }

  /** Note when the result of the instruction now issuing will be ready. */
  function Promise(c: Clock, x: nat, n: nat): Clock
    requires x < 32
  {
    c.(rt := c.rt[x := c.cycle + n])
  }

  /** Perform the invalidations requested through ICC and DCC. */
  function Settle(c: Clock): Clock {
    c.(icache := Cache.Settled(c.icache, c.iInvalid), dcache := Cache.Settled(c.dcache, c.dInvalid),
       iInvalid := false, dInvalid := false)
  }

  /** Take a read of `p` to one of the caches and charge its wait states. */
  function Charge(c: Clock, fetch: bool, p: u32, waits: int): Clock {
    if fetch then Spend(c.(icache := Cache.Accessed(c.icache, p)), Cache.WaitsOf(c.icache, p, waits))
    else Spend(c.(dcache := Cache.Accessed(c.dcache, p)), Cache.WaitsOf(c.dcache, p, waits))
  }

  /** The clock after lm32_read_mem in state `a`. */
  function ReadTime(waits: int, c: Clock, a: State, v: u32, k: Kind): Clock {
    if ReadMisses(a, v, k) then c
    else
      Charge(Settle(c), k.Fetch?, Physical(a, v, k), waits)
  }

  /** The clock after lm32_write_mem with cycle counting on. */
  function WriteTime(waits: int, c: Clock, a: State, v: u32): Clock {
    if WriteStatus(a, v) != Tlb.Hit then c else Spend(c, waits)
  }

  function LoadTime(cfg: Config, c: Clock, a: State, sz: Size, signed: bool, v: u32): Clock
    requires Placed(cfg.g, a.mem)
  {
    var c1 := ReadTime(cfg.waits, c, a, v, Data(sz));
    if signed then ReadTime(cfg.waits, c1, ReadMem(cfg.g, a, v, Data(sz)).1, v, Data(sz)) else c1
  }

  /** Does the instruction run, rather than report itself as not built in? */
  predicate Present(a: State, i: Instr) {
    match i
    case AluRR(op, _, _, _) => AluPresent(a, op)
    case AluRI(op, _, _, _) => AluPresent(a, op)
    case Divide(_, _, _, _) => Has(a, CFG_D)
    case Sext(_, _, _) => Has(a, CFG_X)
    case Reserved => false
    case _ => true
  }

  predicate Trapped(a: State, i: Instr) {
    match i
    case JumpReg(y) => ReturnTrapped(a, y)
    case Wcsr(_, _) => On(a.csr.psw, USR)
    case _ => false
  }

  function WcsrTime(c: Clock, csr: nat, w: u32): Clock {
    if csr == CSR_ICC then c.(iInvalid := true)
    else if csr == CSR_DCC then c.(dInvalid := true)
    else if csr == CSR_CC then c.(ccAdjust := w - c.cycle)
    else c
  }

  /** The clock after executing `i` in state `a`, which ends in state `b`.  The
      division methods look at the divisor register after writing the result. */
  function ExecTime(cfg: Config, c: Clock, a: State, i: Instr, b: State): Clock
    requires Placed(cfg.g, a.mem) && Fields(i)
  {
    if Trapped(a, i) then c
    else if !Present(a, i) then Spend(c, IssueCycles(i))
    else
      match i
      case AluRR(_, y, z, x) =>
        Spend(Promise(Spend(c, Stall2(c, y, z)), x, ResultCycles(i)), IssueCycles(i))
      case AluRI(_, y, x, _) =>
        Spend(Promise(Spend(c, Stall(c, y)), x, ResultCycles(i)), IssueCycles(i))
      case Divide(_, y, z, x) =>
        var d := Spend(c, Stall2(c, y, z));
        Spend(if b.r[z] != 0 then Promise(d, x, ResultCycles(i)) else d, IssueCycles(i))
      case Sext(_, y, x) =>
        Spend(Promise(Spend(c, Stall(c, y)), x, ResultCycles(i)), IssueCycles(i))
      case Load(sz, signed, y, x, k) =>
        var d := LoadTime(cfg, c, a, sz, signed, EffectiveAddress(a, y, k));
        Spend(Promise(Spend(d, Stall(d, y)), x, ResultCycles(i)), IssueCycles(i))
      case Store(_, y, _, k) =>
        var d := WriteTime(cfg.waits, c, a, EffectiveAddress(a, y, k));
        Spend(Spend(d, Stall(d, y)), IssueCycles(i))
      case Branch(cond, y, z, _) =>
        Spend(Spend(c, Stall2(c, y, z)),
              if Taken(cond, a.r[y], a.r[z]) then IssueCycles(i) else NOT_TAKEN_CYCLES)
      case Jump(y, z, _) => Spend(Spend(c, Stall2(c, y, z)), IssueCycles(i))
      case JumpReg(_) => Spend(c, IssueCycles(i))
      case Call(y) => Spend(Promise(Spend(c, Stall(c, y)), RA_REG, ResultCycles(i)), IssueCycles(i))
      case CallI(_) => Spend(Promise(c, RA_REG, ResultCycles(i)), IssueCycles(i))
      case Rcsr(_, x) => Spend(Promise(c, x, ResultCycles(i)), IssueCycles(i))
      case Wcsr(csr, z) => Spend(WcsrTime(c, csr, a.r[z]), IssueCycles(i))
      case Raise(_) => Spend(c, IssueCycles(i))
      case Reserved => Spend(c, IssueCycles(i))
  }

  /** Reset makes CC read zero without touching the cycle count, and requests
      invalidation of both caches. */
  function ResetTime(c: Clock): Clock {
    c.(ccAdjust := -c.cycle, iInvalid := true, dInvalid := true)
  }

  /** What an rcsr CC executed now would return. */
  function CycleCounter(c: Clock): u32 {
    Wrap(c.cycle + c.ccAdjust)
  }
}
