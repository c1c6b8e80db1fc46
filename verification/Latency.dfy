/** The timing of single instructions in closed form: when they start, how long they
    take, and from when on their result can be used. */
module Latency {
  import opened Words
  import opened Memory
  import opened Isa
  import opened Arch
  import opened Timing
  import Execution
  import Tlb

  // ---------------------------------------------------------------------------
  // The table of the manual, by kind of instruction
  // ---------------------------------------------------------------------------

  /** Registers that the instruction waits for.  CSR instructions and indirect jumps
      do not wait, and stores wait for their address alone. */
  function WaitsFor(i: Instr): (s: seq<nat>)
    requires Fields(i)
    ensures forall k :: 0 <= k < |s| ==> s[k] < 32
  {
    match i
    case AluRR(_, y, z, _) => [y, z]
    case AluRI(_, y, _, _) => [y]
    case Divide(_, y, z, _) => [y, z]
    case Sext(_, y, _) => [y]
    case Load(_, _, y, _, _) => [y]
    case Store(_, y, _, _) => [y]
    case Branch(_, y, z, _) => [y, z]
    case Jump(y, z, _) => [y, z]
    case Call(y) => [y]
    case _ => []
  }

  /** The first cycle from `t` on in which all these registers are there. */
  function Ready(rt: Times, t: int, s: seq<nat>): (r: int)
    requires forall k :: 0 <= k < |s| ==> s[k] < 32
    ensures r >= t && forall k :: 0 <= k < |s| ==> r >= rt[s[k]]
    ensures r == t || exists k :: 0 <= k < |s| && r == rt[s[k]]
  {
    if s == [] then t
    else
      var rest := Ready(rt, t, s[1..]);
      assert forall k :: 0 <= k < |s[1..]| ==> s[1..][k] == s[k + 1];
      if rt[s[0]] > rest then rt[s[0]] else rest
  }

  /** Cycles taken: one, but four for a transfer of control and 34 for a division. */
  function Takes(i: Instr, taken: bool): int {
    match i
    case Divide(_, _, _, _) => 34
    case Branch(_, _, _, _) => if taken then 4 else 1
    case Jump(_, _, _) => 4
    case JumpReg(_) => 4
    case Call(_) => 4
    case CallI(_) => 4
    case Raise(_) => 4
    case _ => 1
  }

  /** Cycles that the next instruction loses if it uses the result: two after a
      multiplication or a load, one after a shift or a comparison. */
  function Lost(i: Instr): int {
    match i
    case AluRR(op, _, _, _) => LostBy(op)
    case AluRI(op, _, _, _) => LostBy(op)
    case Load(_, _, _, _, _) => 2
    case _ => 0
  }

  function LostBy(op: AluOp): int {
    if op == Mul then 2
    else if op in {Sl, Sr, Sru, CmpE, CmpG, CmpGe, CmpGeu, CmpGu, CmpNe} then 1
    else 0
  }

  /** Where the result goes. */
  function Result(i: Instr): Option<nat> {
    match i
    case AluRR(_, _, _, x) => Some(x)
    case AluRI(_, _, x, _) => Some(x)
    case Divide(_, _, _, x) => Some(x)
    case Sext(_, _, x) => Some(x)
    case Load(_, _, _, x, _) => Some(x)
    case Rcsr(_, x) => Some(x)
    case Call(_) => Some(29)
    case CallI(_) => Some(29)
    case _ => None
  }

  /** From when on the result can be used.  The link of a call is there in the next
      cycle already. */
  function ResultAt(i: Instr, start: int): int {
    if i.Call? || i.CallI? then start + 1 else start + Takes(i, true) + Lost(i)
  }

  // ---------------------------------------------------------------------------
  // The clock follows the table
  // ---------------------------------------------------------------------------

  lemma ReadyOne(c: Clock, y: nat)
    requires y < 32
    ensures Ready(c.rt, c.cycle, [y]) == c.cycle + Stall(c, y)
  {
    assert [y][1..] == [];
  }

  lemma ReadyTwo(c: Clock, y: nat, z: nat)
    requires y < 32 && z < 32
    ensures Ready(c.rt, c.cycle, [y, z]) == c.cycle + Stall2(c, y, z)
  {
    assert [y, z][1..] == [z] && [z][1..] == [];
  }

  lemma ReadyNone(c: Clock)
    ensures Ready(c.rt, c.cycle, []) == c.cycle
  {
  }

  /** The time after an instruction that starts in cycle `start` of a clock `d`. */
  predicate Timed(d: Clock, e: Clock, i: Instr, start: int, taken: bool)
    requires Fields(i)
  {
    && e.cycle == start + Takes(i, taken)
    && e.rt == (if Result(i).Some? then d.rt[Result(i).value := ResultAt(i, start)] else d.rt)
  }

  lemma Promised(c: Clock, n: int, x: nat, r: nat, k: int)
    requires x < 32
    ensures var e := Spend(Promise(Spend(c, n), x, r), k);
      e.cycle == c.cycle + n + k && e.rt == c.rt[x := c.cycle + n + r]
    ensures Spend(Spend(c, n), k).cycle == c.cycle + n + k && Spend(Spend(c, n), k).rt == c.rt
  {
  }

  lemma PromisedNow(c: Clock, x: nat, r: nat, k: int)
    requires x < 32
    ensures var e := Spend(Promise(c, x, r), k); e.cycle == c.cycle + k && e.rt == c.rt[x := c.cycle + r]
    ensures Spend(c, k).cycle == c.cycle + k && Spend(c, k).rt == c.rt
  {
  }

  lemma TimeOfAlu(cfg: Config, c: Clock, a: State, i: Instr, b: State)
    requires Placed(cfg.g, a.mem) && Fields(i) && Present(a, i) && (i.AluRR? || i.AluRI?)
    ensures Timed(c, ExecTime(cfg, c, a, i, b), i, Ready(c.rt, c.cycle, WaitsFor(i)), false)
  {
    hide Ready, Present, Stall, Stall2, Spend, Promise;
    ReadyOne(c, i.y);
    Promised(c, Stall(c, i.y), i.x, ResultCycles(i), IssueCycles(i));
    if i.AluRR? {
      ReadyTwo(c, i.y, i.z);
      Promised(c, Stall2(c, i.y, i.z), i.x, ResultCycles(i), IssueCycles(i));
    }
  }

  lemma TimeOfUnits(cfg: Config, c: Clock, a: State, i: Instr, b: State)
    requires Placed(cfg.g, a.mem) && Fields(i) && Present(a, i) && (i.Sext? || (i.Divide? && b.r[i.z] != 0))
    ensures Timed(c, ExecTime(cfg, c, a, i, b), i, Ready(c.rt, c.cycle, WaitsFor(i)), false)
  {
    hide Ready, Present, Stall, Stall2, Spend, Promise;
    if i.Sext? {
      ReadyOne(c, i.y);
      Promised(c, Stall(c, i.y), i.x, ResultCycles(i), IssueCycles(i));
    } else {
      ReadyTwo(c, i.y, i.z);
      Promised(c, Stall2(c, i.y, i.z), i.x, ResultCycles(i), IssueCycles(i));
    }
  }

  lemma TimeOfBranch(cfg: Config, c: Clock, a: State, i: Instr, b: State)
    requires Placed(cfg.g, a.mem) && Fields(i) && (i.Branch? || i.Jump? || i.Call?)
    ensures Timed(c, ExecTime(cfg, c, a, i, b), i, Ready(c.rt, c.cycle, WaitsFor(i)),
                  i.Branch? && Taken(i.cond, a.r[i.y], a.r[i.z]))
  {
    hide Ready, Taken, Stall, Stall2, Spend, Promise;
    if i.Call? {
      ReadyOne(c, i.y);
      Promised(c, Stall(c, i.y), RA_REG, ResultCycles(i), IssueCycles(i));
    } else {
      ReadyTwo(c, i.y, i.z);
      Promised(c, Stall2(c, i.y, i.z), 0, 0, Takes(i, i.Branch? && Taken(i.cond, a.r[i.y], a.r[i.z])));
    }
  }

  lemma TimeOfTransfer(cfg: Config, c: Clock, a: State, i: Instr, b: State)
    requires Placed(cfg.g, a.mem) && Fields(i) && !Trapped(a, i) && (i.JumpReg? || i.CallI? || i.Raise?)
    ensures Timed(c, ExecTime(cfg, c, a, i, b), i, Ready(c.rt, c.cycle, WaitsFor(i)), false)
  {
    hide Ready, Trapped, Spend, Promise;
    ReadyNone(c);
    PromisedNow(c, RA_REG, ResultCycles(i), IssueCycles(i));
  }

  lemma TimeOfCsrs(cfg: Config, c: Clock, a: State, i: Instr, b: State)
    requires Placed(cfg.g, a.mem) && Fields(i) && !Trapped(a, i) && (i.Rcsr? || i.Wcsr?)
    ensures Timed(c, ExecTime(cfg, c, a, i, b), i, c.cycle, false)
  {
    hide Trapped;
  }

  /** Arithmetic, control and CSR instructions wait for their registers, take their
      time, and promise their result; a division whose divisor register holds zero
      afterwards promises nothing. */
  lemma TimeOfRegisters(cfg: Config, c: Clock, a: State, i: Instr, b: State)
    requires Placed(cfg.g, a.mem) && Fields(i) && Present(a, i) && !Trapped(a, i)
    requires !i.Load? && !i.Store? && (i.Divide? ==> b.r[i.z] != 0)
    ensures Timed(c, ExecTime(cfg, c, a, i, b), i, Ready(c.rt, c.cycle, WaitsFor(i)),
                  i.Branch? && Taken(i.cond, a.r[i.y], a.r[i.z]))
  {
    hide Timed, ExecTime, Ready, Taken, Trapped, Has, AluPresent;
    ReadyNone(c);
    if i.Rcsr? || i.Wcsr? {
      TimeOfCsrs(cfg, c, a, i, b);
    } else if i.AluRR? || i.AluRI? {
      TimeOfAlu(cfg, c, a, i, b);
    } else if i.Sext? || i.Divide? {
      TimeOfUnits(cfg, c, a, i, b);
    } else if i.Branch? || i.Jump? || i.Call? {
      TimeOfBranch(cfg, c, a, i, b);
    } else {
      TimeOfTransfer(cfg, c, a, i, b);
    }
  }

  /** That is a division by zero, which takes its time all the same, or one whose result
      has gone to the divisor register and is zero. */
  lemma TimeOfEmptyDivision(cfg: Config, c: Clock, a: State, i: Instr, b: State)
    requires Placed(cfg.g, a.mem) && Fields(i) && i.Divide? && Present(a, i) && b.r[i.z] == 0
    ensures var e := ExecTime(cfg, c, a, i, b);
      e.cycle == Ready(c.rt, c.cycle, WaitsFor(i)) + 34 && e.rt == c.rt
  {
    hide Ready, Present, Stall2, Max;
    ReadyTwo(c, i.y, i.z);
  }

  /** The clock after the data access of a load or a store. */
  function AfterAccess(cfg: Config, c: Clock, a: State, i: Instr): Clock
    requires Placed(cfg.g, a.mem) && Fields(i) && (i.Load? || i.Store?)
  {
    var v := EffectiveAddress(a, i.y, i.k);
    if i.Load? then LoadTime(cfg, c, a, i.size, i.signed, v) else WriteTime(cfg.waits, c, a, v)
  }

  /** Loads go to memory first and wait for their address register afterwards, so
      that waiting for memory and for the register overlap; stores likewise. */
  lemma TimeOfMemory(cfg: Config, c: Clock, a: State, i: Instr, b: State)
    requires Placed(cfg.g, a.mem) && Fields(i) && (i.Load? || i.Store?)
    ensures var d := AfterAccess(cfg, c, a, i);
      Timed(d, ExecTime(cfg, c, a, i, b), i, Ready(d.rt, d.cycle, WaitsFor(i)), false)
  {
    hide Ready, Stall, Stall2, Max, LoadTime, WriteTime, EffectiveAddress;
    ReadyOne(AfterAccess(cfg, c, a, i), i.y);
  }

  /** Does the access of a load or a store get as far as memory? */
  predicate GoesThrough(a: State, i: Instr)
    requires Fields(i) && (i.Load? || i.Store?)
  {
    var v := EffectiveAddress(a, i.y, i.k);
    if i.Load? then !ReadMisses(a, v, Data(i.size)) else WriteStatus(a, v) == Tlb.Hit
  }

  /** Without a data cache that access waits once, and twice for a signed load, which
      reads twice; an access that the TLB refuses does not wait. */
  lemma AccessWaits(cfg: Config, c: Clock, a: State, i: Instr)
    requires Placed(cfg.g, a.mem) && Fields(i) && (i.Load? || i.Store?) && c.dcache.None?
    ensures var d := AfterAccess(cfg, c, a, i);
      && d.rt == c.rt
      && d.cycle == c.cycle + (if !GoesThrough(a, i) then 0
                               else if i.Load? && i.signed then 2 * cfg.waits else cfg.waits)
  {
    hide EffectiveAddress, WriteStatus, ReadMisses, Physical, ReadMem;
    if i.Load? {
      SecondRead(cfg.g, a, EffectiveAddress(a, i.y, i.k), i.size);
    }
  }

  /** Without an instruction cache every fetch that gets as far as memory waits once. */
  lemma FetchWaits(cfg: Config, m: Execution.Machine)
    requires Execution.Sound(cfg, m) && m.c.icache.None?
    ensures var f := Execution.Fetched(cfg, m).1;
      && f.c.rt == m.c.rt
      && f.c.cycle == m.c.cycle + if ReadMisses(CheckBreakpoint(m.a), m.a.pc, Fetch) then 0 else cfg.waits
  {
    hide ReadMisses, Physical, FetchWord, CheckBreakpoint;
  }

  lemma SecondRead(g: Geometry, a: State, v: u32, sz: Size)
    requires Placed(g, a.mem)
    ensures ReadMisses(ReadMem(g, a, v, Data(sz)).1, v, Data(sz)) == ReadMisses(a, v, Data(sz))
  {
    hide On, Set, Flag, Read, Watched;
  }

  // ---------------------------------------------------------------------------
  // Instructions whose unit is not built in
  // ---------------------------------------------------------------------------

  /** The feature bit of CFG that an operation needs: the multiplier, the divider,
      the barrel shifter or the sign extender. */
  function Unit(i: Instr): bv32 {
    match i
    case AluRR(op, _, _, _) => UnitOf(op)
    case AluRI(op, _, _, _) => UnitOf(op)
    case Divide(_, _, _, _) => 0x2
    case Sext(_, _, _) => 0x10
    case _ => 0
  }

  function UnitOf(op: AluOp): bv32 {
    if op == Mul then 0x1 else if op in {Sl, Sr, Sru} then 0x4 else 0
  }

  predicate Lacking(a: State, i: Instr) {
    i.Reserved? || (Unit(i) != 0 && !On(a.csr.cfg, Unit(i)))
  }

  /** Such an instruction reports an instruction bus error and is passed over, without
      waiting for its registers; break without the debug unit stays where it is and
      reports nothing. */
  lemma NotBuiltIn(cfg: Config, c: Clock, a: State, i: Instr, cc: u32)
    requires Placed(cfg.g, a.mem) && Fields(i)
    ensures Lacking(a, i) <==> !Present(a, i)
    ensures Lacking(a, i) ==>
      && Exec(cfg.g, a, i, cc) == Arch.Result(a.(flags := Set(a.flags, 0x4), pc := Wrap(a.pc + 4)), Completes)
      && ExecTime(cfg, c, a, i, Exec(cfg.g, a, i, cc).a) == c.(cycle := c.cycle + if i.Divide? then 34 else 1)
    ensures i == Raise(BreakCall) && !On(a.csr.cfg, CFG_G) ==> Exec(cfg.g, a, i, cc) == Arch.Result(a, Completes)
  {
    hide On, Wrap, AluValue, AluDefined, DivValue, DivDefined, SextValue, ReadMem, WriteMem, Set;
    assert Lacking(a, i) <==> !Present(a, i) by { LackingIs(a, i); }
    assert i.AluRR? || i.AluRI? || i.Divide? || i.Sext? || i.Reserved? || Present(a, i);
  }

  lemma LackingIs(a: State, i: Instr)
    ensures Lacking(a, i) <==> !Present(a, i)
  {
    hide On;
  }
}
