/** The four breakpoint registers as a bag of addresses. */
module Breakpoints {
  import opened Words
  import opened Memory
  import opened Isa
  import opened Arch
  import opened Timing
  import opened Execution
  import opened Gdb
  import Tlb

  function Aligned(addr: u32): u32 {
    addr - addr % 4
  }

  function ActiveIn(b: u32): multiset<u32> {
    if IsArmed(b) then multiset{Aligned(b)} else multiset{}
  }

  /** The addresses at which a breakpoint is set. */
  function Active(bp: Quad): multiset<u32> {
    ActiveIn(bp[0]) + ActiveIn(bp[1]) + ActiveIn(bp[2]) + ActiveIn(bp[3])
  }

  /** Bit 1 of an armed register is clear. */
  predicate WellKept(bp: Quad) {
    forall i :: 0 <= i < 4 && IsArmed(bp[i]) ==> bp[i] % 4 == 1
  }

  lemma ArmedShape(addr: u32)
    ensures IsArmed(Armed(addr)) && Aligned(Armed(addr)) == Aligned(addr) && Armed(addr) % 4 == 1
  {
    var q := addr / 4;
    ModUnique(Armed(addr), 4, q, 1);
    ModUnique(Armed(addr), 2, 2 * q, 1);
  }

  /** An armed, well-kept register is determined by its address. */
  lemma ArmedByAddress(b: u32, addr: u32)
    requires IsArmed(b) ==> b % 4 == 1
    ensures b == Armed(addr) <==> IsArmed(b) && Aligned(b) == Aligned(addr)
  {
    ArmedShape(addr);
  }

  /** Both ways of writing the registers keep them so. */
  lemma SetKeeps(bp: Quad, addr: u32)
    requires WellKept(bp)
    ensures var r := BreakpointSet(bp, addr); r.Some? ==> WellKept(r.value)
    ensures var r := BreakpointCleared(bp, addr); r.Some? ==> WellKept(r.value)
  {
    ArmedShape(addr);
    hide Armed;
  }

  lemma WcsrKeeps(k: Csrs, i: nat, w: u32)
    requires i < 4 && WellKept(k.bp)
    ensures WellKept(WithBreakpoint(k, i, w).bp)
  {
    var q, r := w / 4, w % 4;
    var v := w - 2 * (w / 2 % 2);
    ModUnique(w / 2, 2, q, r / 2);
    ModUnique(v, 4, q, r % 2);
    ModUnique(v, 2, 2 * q, r % 2);
    hide Implemented, BreakpointCount;
  }

  /** Membership, and the size of the bag, register by register. */
  lemma ActiveMember(bp: Quad, x: u32)
    ensures x in Active(bp) <==>
      x in ActiveIn(bp[0]) || x in ActiveIn(bp[1]) || x in ActiveIn(bp[2]) || x in ActiveIn(bp[3])
  {
    hide ActiveIn;
  }

  lemma InOne(b: u32, x: u32)
    ensures x in ActiveIn(b) <==> IsArmed(b) && Aligned(b) == x
  {
    hide IsArmed, Aligned;
  }

  lemma ActiveSize(bp: Quad)
    ensures |Active(bp)| < 4 <==> !(IsArmed(bp[0]) && IsArmed(bp[1]) && IsArmed(bp[2]) && IsArmed(bp[3]))
  {
    SizeOfOne(bp[0]);
    SizeOfOne(bp[1]);
    SizeOfOne(bp[2]);
    SizeOfOne(bp[3]);
    hide IsArmed, ActiveIn;
  }

  lemma SizeOfOne(b: u32)
    ensures |ActiveIn(b)| == if IsArmed(b) then 1 else 0
  {
    hide IsArmed, Aligned;
  }

  /** Replacing one register. */
  lemma ActiveUpdate(bp: Quad, i: nat, b: u32)
    requires i < 4
    ensures Active(bp[i := b]) == Active(bp) - ActiveIn(bp[i]) + ActiveIn(b)
  {
    hide ActiveIn;
    Replaced(ActiveIn(bp[0]), ActiveIn(bp[1]), ActiveIn(bp[2]), ActiveIn(bp[3]), ActiveIn(b));
  }

  lemma Replaced(p: multiset<u32>, q: multiset<u32>, r: multiset<u32>, s: multiset<u32>, x: multiset<u32>)
    ensures x + q + r + s == p + q + r + s - p + x
    ensures p + x + r + s == p + q + r + s - q + x
    ensures p + q + x + s == p + q + r + s - r + x
    ensures p + q + r + x == p + q + r + s - s + x
  {
  }

  /** A Z1 command adds its address, and fails only when four are set. */
  lemma SetAdds(bp: Quad, addr: u32)
    ensures var r := BreakpointSet(bp, addr);
      && (r.Some? <==> |Active(bp)| < 4)
      && (r.Some? ==> Active(r.value) == Active(bp) + multiset{Aligned(addr)})
  {
    ArmedShape(addr);
    ActiveSize(bp);
    hide Armed, Aligned, IsArmed, Active;
    var i := FreeSlot(bp);
    if i < 4 {
      ActiveUpdate(bp, i, Armed(addr));
      assert Active(bp) - multiset{} == Active(bp);
    }
  }

  /** A z1 command removes one breakpoint at its address, and fails only when
      there is none. */
  lemma ClearRemoves(bp: Quad, addr: u32)
    requires WellKept(bp)
    ensures var r := BreakpointCleared(bp, addr);
      && (r.Some? <==> Aligned(addr) in Active(bp))
      && (r.Some? ==> Active(r.value) == Active(bp) - multiset{Aligned(addr)})
  {
    forall i | 0 <= i < 4
      ensures bp[i] == Armed(addr) <==> Aligned(addr) in ActiveIn(bp[i])
    {
      ArmedByAddress(bp[i], addr);
      InOne(bp[i], Aligned(addr));
    }
    ActiveMember(bp, Aligned(addr));
    Disarmed();
    ArmedShape(addr);
    hide Armed, Aligned, IsArmed, Active;
    var i := SlotWith(bp, Armed(addr));
    if i < 4 {
      ActiveUpdate(bp, i, 0);
      assert Active(bp) - multiset{Aligned(addr)} + multiset{} == Active(bp) - multiset{Aligned(addr)};
    }
  }

  lemma Disarmed()
    ensures !IsArmed(0)
  {
  }

  /** Setting a breakpoint and clearing it again leaves the bag as it was. */
  lemma SetThenClear(bp: Quad, addr: u32)
    requires WellKept(bp) && |Active(bp)| < 4
    ensures var r := BreakpointSet(bp, addr);
      && r.Some?
      && var c := BreakpointCleared(r.value, addr);
         c.Some? && Active(c.value) == Active(bp)
  {
    hide Active, BreakpointSet, BreakpointCleared, WellKept, Aligned;
    SetAdds(bp, addr);
    SetKeeps(bp, addr);
    ClearRemoves(BreakpointSet(bp, addr).value, addr);
  }

  /** The CPU stops at exactly the addresses in the bag. */
  lemma StopsAtActive(a: State)
    ensures AtBreakpoint(a) <==> Has(a, CFG_R) && a.pc in Active(a.csr.bp)
  {
    ActiveMember(a.csr.bp, a.pc);
    forall i | 0 <= i < 4
      ensures a.pc in ActiveIn(a.csr.bp[i]) <==> a.csr.bp[i] % 2 == 1 && a.csr.bp[i] - a.csr.bp[i] % 4 == a.pc
    {
      InOne(a.csr.bp[i], a.pc);
    }
    hide Has, Active, ActiveIn;
  }

  // ---------------------------------------------------------------------------
  // The registers stay well kept, whatever runs
  // ---------------------------------------------------------------------------

  /** The only instruction that changes a breakpoint register is wcsr. */
  lemma ExecKeeps(g: Geometry, a: State, i: Instr, cc: u32)
    requires Placed(g, a.mem) && Fields(i) && WellKept(a.csr.bp)
    ensures WellKept(Exec(g, a, i, cc).a.csr.bp)
  {
    hide WellKept, On, ReadMem, WriteMem, AluValue, AluDefined, DivValue, DivDefined, SextValue, Extended, Taken;
    hide CsrWritten, CsrValue, Trimmed, RestoreE, RestoreB, ReadableCsr;
    match i
    case Load(sz, signed, y, x, k) => LoadKeeps(g, a, sz, signed, y, x, k);
    case Store(sz, y, z, k) =>
      WriteKeepsCsrs(g, a, EffectiveAddress(a, y, k), sz, a.r[z] % Modulus(sz));
    case JumpReg(_) => RestoreKeeps(a.csr);
    case Rcsr(csr, _) => TrimKeeps(a.csr, csr);
    case Wcsr(csr, z) => CsrWriteKeeps(a, csr, a.r[z]);
    case _ =>
  }

  lemma ReadKeepsCsrs(g: Geometry, a: State, v: u32, k: Kind)
    requires Placed(g, a.mem)
    ensures ReadMem(g, a, v, k).1.csr == a.csr
  {
    hide On, Read, Watched, Set, Flag, Tlb.Probe;
  }

  lemma LoadKeeps(g: Geometry, a: State, sz: Size, signed: bool, y: nat, x: nat, k: u32)
    requires Placed(g, a.mem) && y < 32 && x < 32
    ensures ExecLoad(g, a, sz, signed, y, x, k).csr == a.csr
  {
    hide ReadMem, Extended;
    var v := EffectiveAddress(a, y, k);
    ReadKeepsCsrs(g, a, v, Data(sz));
    ReadKeepsCsrs(g, ReadMem(g, a, v, Data(sz)).1, v, Data(sz));
  }

  lemma WriteKeepsCsrs(g: Geometry, a: State, v: u32, sz: Size, d: u32)
    requires Placed(g, a.mem)
    ensures WriteMem(g, a, v, sz, d).csr == a.csr
  {
    hide On, Write, Watched, Set, Flag, Tlb.Probe;
  }

  lemma RestoreKeeps(k: Csrs)
    ensures RestoreE(k).bp == k.bp && RestoreB(k).bp == k.bp
  {
  }

  lemma TrimKeeps(k: Csrs, csr: nat)
    ensures Trimmed(k, csr).bp == k.bp
  {
    hide On;
  }

  lemma CsrWriteKeeps(a: State, csr: nat, w: u32)
    requires WellKept(a.csr.bp)
    ensures var r := CsrWritten(a, csr, w); r.Some? ==> WellKept(r.value.csr.bp)
  {
    hide WellKept, On, Keep, Clear, ToBits, WithBreakpoint, Implemented, InterruptCount, BreakpointCount;
    hide InterruptMask, MmuWritten;
    if CSR_BP0 <= csr < CSR_BP0 + 4 {
      WcsrKeeps(a.csr, csr - CSR_BP0, w);
    }
  }

  lemma EntryKeeps(cfg: Config, m: Machine)
    requires WellKept(m.a.csr.bp)
    ensures WellKept(Entered(cfg, m).a.csr.bp)
  {
    hide CopyBit, Clear, Flag, Highest, IsZero, Tlb.AfterReset, Vector, RestartPc;
  }

  lemma StepKeeps(cfg: Config, m: Machine, ans: Answer)
    requires Sound(cfg, m) && WellKept(m.a.csr.bp)
    ensures WellKept(Step(cfg, m, ans).m.a.csr.bp)
  {
    hide WellKept, Decode, ReadTime, ExecTime, Exec, ReadMem, CheckBreakpoint, Unknown, Entered, On, Set;
    hide Clear, Flag, Requested, Meet;
    var m1 := Polled(m, ans);
    assert m1.a.csr.bp == m.a.csr.bp;
    EntryKeeps(cfg, m1);
    var m2 := Entered(cfg, m1);
    CheckKeeps(m2.a);
    ReadKeepsCsrs(cfg.g, CheckBreakpoint(m2.a), m2.a.pc, Fetch);
    var (w, m3) := Fetched(cfg, m2);
    assert m3.a.csr == m2.a.csr;
    ExecKeeps(cfg.g, m3.a, Decode(w), CycleCounter(m3.c));
  }

  lemma CheckKeeps(a: State)
    ensures CheckBreakpoint(a).csr == a.csr && CheckBreakpoint(a).mem == a.mem
  {
  }

  /** In any run from a machine whose breakpoint registers are well kept they stay
      so. */
  lemma {:induction false} RunKeeps(cfg: Config, m: Machine, script: seq<Answer>)
    requires Sound(cfg, m) && WellKept(m.a.csr.bp)
    ensures WellKept(Steps(cfg, m, script).m.a.csr.bp)
    decreases |script|
  {
    hide Step, WellKept;
    if script != [] {
      StepKeeps(cfg, m, script[0]);
      if Step(cfg, m, script[0]).end.Ran? {
        RunKeeps(cfg, Step(cfg, m, script[0]).m, script[1..]);
      }
    }
  }

  /** In particular when none has been set before, as after reset. */
  lemma RunKeepsFromReset(cfg: Config, m: Machine, script: seq<Answer>)
    requires Sound(cfg, m) && m.a.csr.bp == ResetCsrs().bp
    ensures WellKept(Steps(cfg, m, script).m.a.csr.bp)
  {
    assert WellKept(m.a.csr.bp);
    hide WellKept, Steps;
    RunKeeps(cfg, m, script);
  }

  // And so they do in any debugger session.

  lemma {:induction false} DumpKeeps(cfg: Config, m: Machine, addr: u32, k: nat)
    requires Sound(cfg, m)
    ensures Dump(cfg, m, addr, k).1.a.csr == m.a.csr
    decreases k
  {
    hide ReadMem, ReadTime, HexPair;
    if k > 0 {
      DumpKeeps(cfg, m, addr, k - 1);
      ReadKeepsCsrs(cfg.g, Dump(cfg, m, addr, k - 1).1.a, Wrap(addr + (k - 1)), Debug);
    }
  }

  lemma {:induction false} AbsorbKeeps(cfg: Config, m: Machine, addr: u32, k: nat, binary: bool, input: seq<u8>)
    requires Sound(cfg, m)
    ensures var r := Absorb(cfg, m, addr, k, binary, input); r.Some? ==> r.value.0.a.csr == m.a.csr
    decreases k
  {
    hide WriteMem, TakeByte;
    if k > 0 {
      match TakeByte(binary, input) {
        case None =>
        case Some((d, rest)) =>
          WriteKeepsCsrs(cfg.g, m.a, addr, Byte, d);
          AbsorbKeeps(cfg, Poke(cfg, m, addr, d), Wrap(addr + 1), k - 1, binary, rest);
      }
    }
  }

  lemma CommandKeeps(cfg: Config, m: Machine, cmd: Buffer, n: nat, rest: seq<u8>)
    requires Sound(cfg, m) && n < BUFFER_SIZE && WellKept(m.a.csr.bp)
    ensures WellKept(Proc(cfg, m, cmd, n, rest).m.a.csr.bp)
  {
    hide WellKept, Number, Dump, Absorb, BreakpointSet, BreakpointCleared;
    var (addr, i) := Number(cmd, 1, n, COMMA, 0);
    DumpKeeps(cfg, m, addr, Number(cmd, i + 1, n, -1, 0).0);
    AbsorbKeeps(cfg, m, addr, Number(cmd, i + 1, n, DELIM, 0).0, cmd[0] == BINARY_CMD, rest);
    SetKeeps(m.a.csr.bp, Number(cmd, 3, BUFFER_SIZE, COMMA, 0).0);
  }

  lemma {:induction false} SessionKeeps(cfg: Config, m: Machine, l: Link, input: seq<u8>)
    requires Sound(cfg, m) && l.idx < BUFFER_SIZE && WellKept(m.a.csr.bp)
    ensures WellKept(Serve(cfg, m, l, input).m.a.csr.bp)
    decreases |input|
  {
    hide Proc, Received, PacketEnds, WellKept, Framed;
    if input != [] {
      if PacketEnds(l, input[0]) {
        var buf := l.buf[l.idx := 0];
        var d := Proc(cfg, m, buf, l.idx, input[1..]);
        CommandKeeps(cfg, m, buf, l.idx, input[1..]);
        if d.verdict.Replied? {
          SessionKeeps(cfg, d.m, Link(false, buf, 0), d.rest);
        }
      } else {
        SessionKeeps(cfg, m, Received(l, input[0]), input[1..]);
      }
    }
  }
}
