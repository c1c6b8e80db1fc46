/** States that differ only in what an exception leaves behind after its return -
    ea and the E bank - and the instructions that cannot tell. */
module Resumed {
  import opened Words
  import opened Memory
  import opened Isa
  import opened Arch
  import opened Timing
  import opened Execution
  import opened Exceptions
  import Tlb

  /** The modes and the B bank are all that IE and PSW agree in. */
  ghost predicate SameModes(k: Csrs, l: Csrs) {
    && l == k.(ie := l.ie, psw := l.psw)
    && Current(l) == Current(k) && BankB(l) == BankB(k)
  }

  /** Equal but for ea and the E bank. */
  ghost predicate Near(a: State, b: State) {
    && b == a.(r := a.r[EA_REG := b.r[EA_REG]], csr := b.csr)
    && SameModes(a.csr, b.csr)
  }

  /** Does the instruction look at ea, at the words in which the E bank is kept, or
      at the cycle counter? */
  predicate LooksBack(i: Instr)
    requires Fields(i)
  {
    match i
    case AluRR(_, y, z, _) => y == EA_REG || z == EA_REG
    case AluRI(_, y, _, _) => y == EA_REG
    case Divide(_, y, z, _) => y == EA_REG || z == EA_REG
    case Sext(_, y, _) => y == EA_REG
    case Load(_, _, y, _, _) => y == EA_REG
    case Store(_, y, z, _) => y == EA_REG || z == EA_REG
    case Branch(_, y, z, _) => y == EA_REG || z == EA_REG
    case JumpReg(y) => y == EA_REG
    case Call(y) => y == EA_REG
    case Rcsr(csr, _) => csr == CSR_IE || csr == CSR_PSW || csr == CSR_CC
    case Wcsr(_, z) => z == EA_REG
    case _ => false
  }

  lemma NearModes(a: State, b: State)
    requires Near(a, b)
    ensures On(b.csr.psw, ITLBE) == On(a.csr.psw, ITLBE) && On(b.csr.psw, DTLBE) == On(a.csr.psw, DTLBE)
    ensures On(b.csr.psw, USR) == On(a.csr.psw, USR) && On(b.csr.ie, IE_IE) == On(a.csr.ie, IE_IE)
  {
    assert Current(b.csr) == Current(a.csr);
    hide On;
  }

  lemma NearConfig(a: State, b: State)
    requires Near(a, b)
    ensures b.csr.cfg == a.csr.cfg && b.csr.dc == a.csr.dc && b.csr.wp == a.csr.wp && b.csr.bp == a.csr.bp
  {
    hide Current, BankB;
  }

  lemma NearWatched(a: State, b: State, p: u32, write: bool)
    requires Near(a, b)
    ensures Watched(a, p, write) == Watched(b, p, write)
  {
    NearConfig(a, b);
    hide On, Near;
  }

  lemma NearRead(g: Geometry, a: State, b: State, v: u32, k: Kind)
    requires Near(a, b) && Placed(g, a.mem)
    ensures ReadMem(g, a, v, k).0 == ReadMem(g, b, v, k).0
    ensures Near(ReadMem(g, a, v, k).1, ReadMem(g, b, v, k).1)
  {
    NearModes(a, b);
    SameRest(a, b);
    hide Near, On, Raised, Read, Watched, Tlb.LookupStatus, Tlb.LookupAddress, Tlb.AfterLookup;
    var mmu := Tlb.AfterLookup(a.mmu, v, !k.Fetch?, false);
    NearMmu(a, b, mmu);
    NearRaised(a.(mmu := mmu), b.(mmu := mmu), if k.Fetch? then ITLB_MISS else DTLB_MISS);
    NearWatched(a, b, Physical(a, v, k), false);
    NearRaised(a, b, WATCHPOINT);
    NearRaised(a, b, if k.Fetch? then IBUSERROR else DBUSERROR);
  }

  lemma NearWrite(g: Geometry, a: State, b: State, v: u32, sz: Size, d: u32)
    requires Near(a, b) && Placed(g, a.mem)
    ensures Near(WriteMem(g, a, v, sz, d), WriteMem(g, b, v, sz, d))
  {
    NearModes(a, b);
    SameRest(a, b);
    hide Near, On, Raised, Write, Watched, Tlb.LookupStatus, Tlb.LookupAddress, Tlb.AfterLookup;
    var mmu := Tlb.AfterLookup(a.mmu, v, true, true);
    NearMmu(a, b, mmu);
    NearRaised(a.(mmu := mmu), b.(mmu := mmu), if WriteStatus(a, v) == Tlb.Miss then DTLB_MISS else DTLB_FAULT);
    NearRaised(a, b, DBUSERROR);
    var w := Write(g, a.mem, WritePhysical(a, v), sz, d);
    if w.Some? {
      NearMem(a, b, w.value);
      NearWatched(a.(mem := w.value), b.(mem := w.value), WritePhysical(a, v), true);
      NearRaised(a.(mem := w.value), b.(mem := w.value), WATCHPOINT);
    }
  }

  lemma NearFetch(g: Geometry, a: State, b: State)
    requires Near(a, b) && Placed(g, a.mem)
    ensures FetchWord(g, a).0 == FetchWord(g, b).0
    ensures Near(FetchWord(g, a).1, FetchWord(g, b).1)
  {
    NearConfig(a, b);
    SameRest(a, b);
    NearRaised(a, b, BREAKPOINT);
    hide Near, On, Raised, ReadMem;
    NearRead(g, CheckBreakpoint(a), CheckBreakpoint(b), a.pc, Fetch);
  }

  lemma NearSet(a: State, b: State, x: nat, v: u32)
    requires Near(a, b) && x < 32
    ensures Near(Next(SetReg(a, x, v)), Next(SetReg(b, x, v)))
  {
    hide SameModes;
    var c, d := SetReg(a, x, v), SetReg(b, x, v);
    assert d.r == c.r[EA_REG := d.r[EA_REG]];
  }

  lemma NearRaised(a: State, b: State, id: nat)
    requires Near(a, b)
    ensures Near(Raised(a, id), Raised(b, id)) && Near(Next(Raised(a, id)), Next(Raised(b, id)))
    ensures Near(Next(a), Next(b))
  {
    hide SameModes, Set, Flag;
  }

  lemma NearNext(a: State, b: State)
    requires Near(a, b)
    ensures Near(Next(a), Next(b))
  {
    hide SameModes;
  }

  lemma NearReserved(a: State, b: State)
    requires Near(a, b)
    ensures Near(ExecReserved(a), ExecReserved(b))
  {
    hide Near, Raised, Next;
    NearRaised(a, b, IBUSERROR);
  }

  lemma NearAlu(a: State, b: State, op: AluOp, u: u32, v: u32, x: nat)
    requires Near(a, b) && x < 32
    ensures ExecAlu(a, op, u, v, x).o == ExecAlu(b, op, u, v, x).o
    ensures Near(ExecAlu(a, op, u, v, x).a, ExecAlu(b, op, u, v, x).a)
  {
    assert AluPresent(a, op) == AluPresent(b, op) by { NearConfig(a, b); }
    hide Near, Next, SetReg, ExecReserved, AluPresent, AluValue, AluDefined;
    if !AluPresent(a, op) {
      NearReserved(a, b);
    } else if AluDefined(op, v) {
      NearSet(a, b, x, AluValue(op, u, v));
    }
  }

  lemma NearDivide(a: State, b: State, d: DivOp, u: u32, v: u32, x: nat)
    requires Near(a, b) && x < 32
    ensures ExecDivide(a, d, u, v, x).o == ExecDivide(b, d, u, v, x).o
    ensures Near(ExecDivide(a, d, u, v, x).a, ExecDivide(b, d, u, v, x).a)
  {
    NearConfig(a, b);
    hide Near, Next, SetReg, Raised, ExecReserved, On, DivValue, DivDefined;
    NearReserved(a, b);
    NearRaised(a, b, DIVZERO);
    if v != 0 {
      NearSet(a, b, x, DivValue(d, u, v));
    }
  }

  lemma NearSext(a: State, b: State, half: bool, y: nat, x: nat)
    requires Near(a, b) && y < 32 && x < 32 && y != EA_REG
    ensures Near(ExecSext(a, half, y, x), ExecSext(b, half, y, x))
  {
    NearConfig(a, b);
    SameReg(a, b, y);
    hide Near, Next, SetReg, ExecReserved, On, SextValue;
    NearReserved(a, b);
    NearSet(a, b, x, SextValue(half, a.r[y]));
  }

  lemma SameReg(a: State, b: State, y: nat)
    requires Near(a, b) && y < NUM_REGS && y != EA_REG
    ensures b.r[y] == a.r[y]
  {
    hide SameModes;
  }

  lemma SameRest(a: State, b: State)
    requires Near(a, b)
    ensures b.mem == a.mem && b.pc == a.pc && b.flags == a.flags && b.mmu == a.mmu
  {
    hide SameModes;
  }

  lemma NearLoad(g: Geometry, a: State, b: State, sz: Size, signed: bool, y: nat, x: nat, k: u32)
    requires Near(a, b) && Placed(g, a.mem) && y < 32 && x < 32 && y != EA_REG
    ensures Near(ExecLoad(g, a, sz, signed, y, x, k), ExecLoad(g, b, sz, signed, y, x, k))
  {
    hide Near, ExecLoad;
    SameReg(a, b, y);
    SameRest(a, b);
    var v := EffectiveAddress(a, y, k);
    LoadSteps(g, a, sz, signed, y, x, k, v);
    LoadSteps(g, b, sz, signed, y, x, k, v);
    hide Next, SetReg, ReadMem, Extended;
    NearRead(g, a, b, v, Data(sz));
    var a1, b1 := ReadMem(g, a, v, Data(sz)).1, ReadMem(g, b, v, Data(sz)).1;
    NearRead(g, a1, b1, v, Data(sz));
    var d1, d2 := ReadMem(g, a, v, Data(sz)).0, ReadMem(g, a1, v, Data(sz)).0;
    NearSet(a1, b1, x, d1);
    NearSet(ReadMem(g, a1, v, Data(sz)).1, ReadMem(g, b1, v, Data(sz)).1, x, Extended(sz, d1, d2));
  }

  lemma LoadSteps(g: Geometry, a: State, sz: Size, signed: bool, y: nat, x: nat, k: u32, v: u32)
    requires Placed(g, a.mem) && y < 32 && x < 32 && v == EffectiveAddress(a, y, k)
    ensures var r := ReadMem(g, a, v, Data(sz)); var q := ReadMem(g, r.1, v, Data(sz));
      ExecLoad(g, a, sz, signed, y, x, k)
      == if signed then Next(SetReg(q.1, x, Extended(sz, r.0, q.0))) else Next(SetReg(r.1, x, r.0))
  {
    hide ReadMem, Extended;
  }

  lemma NearStore(g: Geometry, a: State, b: State, sz: Size, y: nat, z: nat, k: u32)
    requires Near(a, b) && Placed(g, a.mem) && y < 32 && z < 32 && y != EA_REG && z != EA_REG
    ensures Near(ExecStore(g, a, sz, y, z, k), ExecStore(g, b, sz, y, z, k))
  {
    hide Near, ExecStore;
    SameReg(a, b, y);
    SameReg(a, b, z);
    SameRest(a, b);
    var v, d := EffectiveAddress(a, y, k), a.r[z] % Modulus(sz);
    StoreSteps(g, a, sz, y, z, k, v, d);
    StoreSteps(g, b, sz, y, z, k, v, d);
    hide WriteMem, Next;
    NearWrite(g, a, b, v, sz, d);
    NearNext(WriteMem(g, a, v, sz, d), WriteMem(g, b, v, sz, d));
  }

  lemma StoreSteps(g: Geometry, a: State, sz: Size, y: nat, z: nat, k: u32, v: u32, d: u32)
    requires Placed(g, a.mem) && y < 32 && z < 32 && v == EffectiveAddress(a, y, k) && d == a.r[z] % Modulus(sz)
    ensures ExecStore(g, a, sz, y, z, k) == Next(WriteMem(g, a, v, sz, d))
  {
    hide WriteMem, Modulus;
  }

  lemma NearMoved(a: State, b: State, pc: u32)
    requires Near(a, b)
    ensures Near(a.(pc := pc), b.(pc := pc))
  {
    hide SameModes;
  }

  lemma NearLinked(a: State, b: State, link: u32, pc: u32)
    requires Near(a, b)
    ensures Near(SetReg(a, RA_REG, link).(pc := pc), SetReg(b, RA_REG, link).(pc := pc))
  {
    hide SameModes;
    var c, d := SetReg(a, RA_REG, link), SetReg(b, RA_REG, link);
    assert d.r == c.r[EA_REG := d.r[EA_REG]];
  }

  lemma NearRestored(k: Csrs, l: Csrs)
    requires SameModes(k, l)
    ensures SameModes(RestoreB(k), RestoreB(l))
  {
    RestoreBits(k);
    RestoreBits(l);
    RestoredRest(k);
    RestoredRest(l);
    hide RestoreB, Current, BankB;
  }

  lemma RestoredRest(k: Csrs)
    ensures RestoreB(k) == k.(ie := RestoreB(k).ie, psw := RestoreB(k).psw)
  {
    hide CopyBit;
  }

  lemma NearReturn(a: State, b: State, y: nat)
    requires Near(a, b) && y < 32 && y != EA_REG
    ensures Near(ExecJumpReg(a, y), ExecJumpReg(b, y))
  {
    NearModes(a, b);
    NearRaised(a, b, PRIV_ACCESS);
    NearRestored(a.csr, b.csr);
    SameRest(a, b);
    SameReg(a, b, y);
    NearCsr(a, b, RestoreB(a.csr), RestoreB(b.csr), a.r[y]);
    NearCsr(a, b, a.csr, b.csr, a.r[y]);
    hide On, RestoreB, RestoreE, Near, Raised, SameModes;
  }

  lemma NearCsr(a: State, b: State, k: Csrs, l: Csrs, pc: u32)
    requires Near(a, b)
    ensures SameModes(a.csr, b.csr)
    ensures SameModes(k, l) ==> Near(a.(csr := k, pc := pc), b.(csr := l, pc := pc))
  {
    hide SameModes;
  }

  lemma NearBranch(a: State, b: State, c: Cond, y: nat, z: nat, k: u32)
    requires Near(a, b) && y < 32 && z < 32
    ensures y != EA_REG && z != EA_REG ==> Near(ExecBranch(a, c, y, z, k), ExecBranch(b, c, y, z, k))
    ensures Near(a.(pc := Wrap(a.pc + k)), b.(pc := Wrap(b.pc + k)))
    ensures Near(ExecCallI(a, k), ExecCallI(b, k))
    ensures y != EA_REG ==> Near(ExecCall(a, y), ExecCall(b, y))
  {
    SameRest(a, b);
    hide Near, SetReg, Taken, Wrap;
    NearMoved(a, b, Wrap(a.pc + k));
    NearMoved(a, b, Wrap(a.pc + 4));
    NearLinked(a, b, Wrap(a.pc + 4), Wrap(a.pc + k));
    NearLinked(a, b, Wrap(a.pc + 4), SetReg(a, RA_REG, Wrap(a.pc + 4)).r[y]);
    if y != EA_REG && z != EA_REG {
      SameReg(a, b, y);
      SameReg(a, b, z);
    }
    if y != EA_REG {
      LinkedRegs(a, b, Wrap(a.pc + 4), y);
    }
  }

  lemma NearRaise(a: State, b: State, kind: RaiseKind)
    requires Near(a, b)
    ensures Near(ExecRaise(a, kind), ExecRaise(b, kind))
  {
    NearConfig(a, b);
    hide Near, Raised, On;
    NearRaised(a, b, BREAKPOINT);
    NearRaised(a, b, SYSCALL);
  }

  lemma LinkedRegs(a: State, b: State, link: u32, y: nat)
    requires Near(a, b) && y < 32 && y != EA_REG
    ensures SetReg(a, RA_REG, link).r[y] == SetReg(b, RA_REG, link).r[y]
  {
    hide SameModes;
  }

  // ---------------------------------------------------------------------------
  // CSRs
  // ---------------------------------------------------------------------------

  lemma NearValue(a: State, b: State, csr: nat, cc: u32, cc': u32)
    requires Near(a, b) && ReadableCsr(csr) && csr != CSR_IE && csr != CSR_PSW && csr != CSR_CC
    ensures CsrValue(a, csr, cc) == CsrValue(b, csr, cc')
  {
    hide On, Set, InterruptCount, BreakpointCount, WatchpointCount, Implemented, FromBits, Current, BankB;
  }

  lemma NearTrimmed(k: Csrs, l: Csrs, csr: nat)
    requires SameModes(k, l)
    ensures SameModes(Trimmed(k, csr), Trimmed(l, csr))
  {
    hide On;
  }

  lemma NearWritten(k: Csrs, l: Csrs, csr: nat, w: u32)
    requires SameModes(k, l) && ReadableCsr(csr)
    ensures SameModes(CsrsWritten(k, csr, w), CsrsWritten(l, csr, w))
  {
    hide Current, BankB, Keep, Clear, ToBits;
    if csr == CSR_PSW {
      PswWritten(k, l, w);
    } else if csr == CSR_IE {
      IeWritten(k, l, w);
    } else {
      OthersWritten(k, csr, w);
      OthersWritten(l, csr, w);
      RestWritten(k, l, csr, w);
      SameBanks(k, CsrsWritten(k, csr, w));
      SameBanks(l, CsrsWritten(l, csr, w));
      hide CsrsWritten;
    }
  }

  lemma SameBanks(k: Csrs, l: Csrs)
    requires l.ie == k.ie && l.psw == k.psw
    ensures Current(l) == Current(k) && BankB(l) == BankB(k)
  {
    hide On;
  }

  lemma PswWritten(k: Csrs, l: Csrs, w: u32)
    requires SameModes(k, l)
    ensures SameModes(WithPsw(k, w), WithPsw(l, w))
  {
    hide On, Keep, Clear, ToBits;
  }

  lemma IeWritten(k: Csrs, l: Csrs, w: u32)
    requires SameModes(k, l)
    ensures SameModes(BasicWritten(k, 0, w), BasicWritten(l, 0, w))
  {
    hide On, Keep, ToBits;
  }

  lemma OthersWritten(k: Csrs, csr: nat, w: u32)
    requires ReadableCsr(csr) && csr != CSR_IE && csr != CSR_PSW
    ensures CsrsWritten(k, csr, w).ie == k.ie && CsrsWritten(k, csr, w).psw == k.psw
  {
    hide On, Keep, Clear, ToBits, InterruptCount, BreakpointCount, InterruptMask, Implemented;
  }

  lemma RestWritten(k: Csrs, l: Csrs, csr: nat, w: u32)
    requires l == k.(ie := l.ie, psw := l.psw) && ReadableCsr(csr) && csr != CSR_IE && csr != CSR_PSW
    ensures CsrsWritten(l, csr, w) == CsrsWritten(k, csr, w).(ie := l.ie, psw := l.psw)
  {
    hide On, Keep, Clear, ToBits, InterruptCount, BreakpointCount, InterruptMask, Implemented;
  }

  lemma NearRcsr(a: State, b: State, csr: nat, x: nat, cc: u32, cc': u32)
    requires Near(a, b) && x < 32 && csr != CSR_IE && csr != CSR_PSW && csr != CSR_CC
    ensures ExecRcsr(a, csr, x, cc).o == ExecRcsr(b, csr, x, cc').o
    ensures Near(ExecRcsr(a, csr, x, cc).a, ExecRcsr(b, csr, x, cc').a)
  {
    hide Near, SetReg, Next, SameModes, CsrValue, Trimmed, ReadableCsr;
    NearCsr(a, b, a.csr, b.csr, a.pc);
    SameRest(a, b);
    if ReadableCsr(csr) {
      NearValue(a, b, csr, cc, cc');
      NearTrimmed(a.csr, b.csr, csr);
      NearCsr(a, b, Trimmed(a.csr, csr), Trimmed(b.csr, csr), a.pc);
      NearSet(a.(csr := Trimmed(a.csr, csr)), b.(csr := Trimmed(b.csr, csr)), x, CsrValue(a, csr, cc));
    }
  }

  lemma NearWcsr(a: State, b: State, csr: nat, z: nat)
    requires Near(a, b) && z < 32 && z != EA_REG
    ensures ExecWcsr(a, csr, z).o == ExecWcsr(b, csr, z).o
    ensures Near(ExecWcsr(a, csr, z).a, ExecWcsr(b, csr, z).a)
  {
    NearModes(a, b);
    SameRest(a, b);
    SameReg(a, b, z);
    hide Near, Raised, Next, SameModes, On, CsrsWritten, MmuWritten, ReadableCsr;
    NearRaised(a, b, PRIV_ACCESS);
    if ReadableCsr(csr) {
      var w := a.r[z];
      NearCsr(a, b, a.csr, b.csr, a.pc);
      NearWritten(a.csr, b.csr, csr, w);
      NearCsr(a, b, CsrsWritten(a.csr, csr, w), CsrsWritten(b.csr, csr, w), a.pc);
      var c, d := a.(csr := CsrsWritten(a.csr, csr, w)), b.(csr := CsrsWritten(b.csr, csr, w));
      NearMmu(c, d, MmuWritten(a.mmu, csr, w));
      NearRaised(c.(mmu := MmuWritten(a.mmu, csr, w)), d.(mmu := MmuWritten(a.mmu, csr, w)), 0);
    }
  }

  lemma NearMem(a: State, b: State, mem: seq<u8>)
    requires Near(a, b)
    ensures Near(a.(mem := mem), b.(mem := mem))
  {
    hide SameModes;
  }

  lemma NearMmu(a: State, b: State, mmu: Tlb.Mmu)
    requires Near(a, b)
    ensures Near(a.(mmu := mmu), b.(mmu := mmu))
  {
    hide SameModes;
  }

  /** Such an instruction finds the same operands in registers. */
  lemma SameSources(a: State, b: State, i: Instr)
    requires Near(a, b) && Fields(i) && !LooksBack(i)
    ensures i.AluRR? || i.Divide? ==> b.r[i.y] == a.r[i.y] && b.r[i.z] == a.r[i.z]
    ensures i.AluRI? ==> b.r[i.y] == a.r[i.y]
  {
    hide SameModes;
  }

  lemma NearData(g: Geometry, a: State, b: State, i: Instr, cc: u32, cc': u32)
    requires Near(a, b) && Placed(g, a.mem) && Fields(i) && !LooksBack(i)
    requires i.AluRR? || i.AluRI? || i.Divide? || i.Sext? || i.Load? || i.Store?
    ensures Exec(g, a, i, cc).o == Exec(g, b, i, cc').o
    ensures Near(Exec(g, a, i, cc).a, Exec(g, b, i, cc').a)
  {
    hide Near, ExecAlu, ExecDivide, ExecSext, ExecLoad, ExecStore;
    SameRest(a, b);
    SameSources(a, b, i);
    match i
    case AluRR(op, y, z, x) => NearAlu(a, b, op, a.r[y], a.r[z], x);
    case AluRI(op, y, x, k) => NearAlu(a, b, op, a.r[y], k, x);
    case Divide(d, y, z, x) => NearDivide(a, b, d, a.r[y], a.r[z], x);
    case Sext(half, y, x) => NearSext(a, b, half, y, x);
    case Load(sz, signed, y, x, k) => NearLoad(g, a, b, sz, signed, y, x, k);
    case Store(sz, y, z, k) => NearStore(g, a, b, sz, y, z, k);
  }

  lemma NearControl(g: Geometry, a: State, b: State, i: Instr, cc: u32, cc': u32)
    requires Near(a, b) && Placed(g, a.mem) && Fields(i) && !LooksBack(i)
    requires i.Branch? || i.Jump? || i.JumpReg? || i.Call? || i.CallI? || i.Rcsr? || i.Wcsr? || i.Raise? || i.Reserved?
    ensures Exec(g, a, i, cc).o == Exec(g, b, i, cc').o
    ensures Near(Exec(g, a, i, cc).a, Exec(g, b, i, cc').a)
  {
    hide Near, ExecBranch, ExecJumpReg, ExecCall, ExecCallI, ExecRcsr, ExecWcsr, ExecRaise, ExecReserved, Wrap;
    match i
    case Branch(c, y, z, k) => NearBranch(a, b, c, y, z, k);
    case Jump(_, _, k) => NearBranch(a, b, Equal, 0, 0, k);
    case JumpReg(y) => NearReturn(a, b, y);
    case Call(y) => NearBranch(a, b, Equal, y, 0, 0);
    case CallI(k) => NearBranch(a, b, Equal, 0, 0, k);
    case Rcsr(csr, x) => NearRcsr(a, b, csr, x, cc, cc');
    case Wcsr(csr, z) => NearWcsr(a, b, csr, z);
    case Raise(kind) => NearRaise(a, b, kind);
    case Reserved => NearReserved(a, b);
  }

  /** An instruction that does not look back does the same in both. */
  lemma NearExec(g: Geometry, a: State, b: State, i: Instr, cc: u32, cc': u32)
    requires Near(a, b) && Placed(g, a.mem) && Fields(i) && !LooksBack(i)
    ensures Exec(g, a, i, cc).o == Exec(g, b, i, cc').o
    ensures Near(Exec(g, a, i, cc).a, Exec(g, b, i, cc').a)
  {
    hide Near, Exec, LooksBack;
    if i.AluRR? || i.AluRI? || i.Divide? || i.Sext? || i.Load? || i.Store? {
      NearData(g, a, b, i, cc, cc');
    } else {
      NearControl(g, a, b, i, cc, cc');
    }
  }

  /** Nothing is pending, and no callback is asked: a step is a fetch and an
      execution. */
  lemma NearStep(cfg: Config, m: Machine, n: Machine)
    requires Sound(cfg, m) && Sound(cfg, n) && Near(m.a, n.a) && IsZero(m.a.flags)
    requires !LooksBack(Decode(FetchWord(cfg.g, m.a).0))
    ensures var r, q := Step(cfg, m, NoCallback), Step(cfg, n, NoCallback);
      r.end == q.end && Near(r.m.a, q.m.a)
  {
    hide Near, FetchWord, Interrupt, Highest, CycleCounter, Exec, ExecTime, ReadTime, Decode, LooksBack, IsZero;
    SameRest(m.a, n.a);
    NearFetch(cfg.g, m.a, n.a);
    var (w, c) := FetchWord(cfg.g, m.a);
    var d := FetchWord(cfg.g, n.a).1;
    assert Entered(cfg, m) == m && Entered(cfg, n) == n && !Unknown(m.a) && !Unknown(n.a);
    var m1, n1 := Fetched(cfg, m).1, Fetched(cfg, n).1;
    assert m1.a == c && n1.a == d;
    NearExec(cfg.g, c, d, Decode(w), CycleCounter(m1.c), CycleCounter(n1.c));
  }
}
