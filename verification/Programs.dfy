/** Short programs: what a few instructions, one after the other, are good for. */
module Programs {
  import opened Words
  import opened Memory
  import opened Isa
  import opened Arch
  import Arithmetic
  import Instructions
  import Tlb
  import PageMap

  /** One instruction; none of these programs reads the cycle counter. */
  function Do(g: Geometry, a: State, i: Instr): (b: State)
    requires Placed(g, a.mem) && Fields(i)
    ensures Placed(g, b.mem)
  {
    Exec(g, a, i, 0).a
  }

  // ---------------------------------------------------------------------------
  // Arithmetic
  // ---------------------------------------------------------------------------

  /** An operation on registers: its result goes to x, and the pc moves on. */
  lemma OnRegisters(g: Geometry, a: State, op: AluOp, y: nat, z: nat, x: nat)
    requires Placed(g, a.mem) && y < 32 && z < 32 && x < 32
    requires !ShiftOp(op) && (op == Mul ==> Has(a, CFG_M))
    ensures Do(g, a, AluRR(op, y, z, x)) == Next(SetReg(a, x, AluValue(op, a.r[y], a.r[z])))
  {
    hide AluValue, On;
  }

  lemma OnImmediate(g: Geometry, a: State, op: AluOp, y: nat, x: nat, k: u32)
    requires Placed(g, a.mem) && y < 32 && x < 32 && !ShiftOp(op) && op != Mul
    ensures Do(g, a, AluRI(op, y, x, k)) == Next(SetReg(a, x, AluValue(op, a.r[y], k)))
  {
    hide AluValue, On;
  }

  /** sub x, y, z; add w, x, z: gives y back, and touches nothing but x, w and pc. */
  lemma SubThenAdd(g: Geometry, a: State, y: nat, z: nat, x: nat, w: nat)
    requires Placed(g, a.mem) && y < 32 && z < 32 && x < 32 && w < 32 && x != z
    ensures var b := Do(g, Do(g, a, AluRR(Sub, y, z, x)), AluRR(Add, x, z, w));
      b == a.(r := a.r[x := b.r[x]][w := a.r[y]], pc := Wrap(a.pc + 8))
  {
    hide AluValue, Do, Wrap;
    OnRegisters(g, a, Sub, y, z, x);
    OnRegisters(g, Do(g, a, AluRR(Sub, y, z, x)), Add, x, z, w);
    Arithmetic.AddCounts(a.r[y], a.r[z]);
    Arithmetic.WrapSum(a.pc + 4, 4);
  }

  /** addi x, y, k; addi w, x, -k: gives y back. */
  lemma AddImmediateBack(g: Geometry, a: State, y: nat, x: nat, w: nat, k: u32)
    requires Placed(g, a.mem) && y < 32 && x < 32 && w < 32
    ensures Do(g, Do(g, a, AluRI(Add, y, x, k)), AluRI(Add, x, w, Wrap(0 - k))).r[w] == a.r[y]
  {
    hide AluValue, Do;
    OnImmediate(g, a, Add, y, x, k);
    OnImmediate(g, Do(g, a, AluRI(Add, y, x, k)), Add, x, w, Wrap(0 - k));
    Arithmetic.SumIs(a.r[y], k);
    Arithmetic.SumIs(AluValue(Add, a.r[y], k), Wrap(0 - k));
    NegatedIs(k);
  }

  lemma NegatedIs(k: u32)
    ensures Wrap(0 - k) == if k == 0 then 0 else 0x1_0000_0000 - k
  {
  }

  /** A shift by a register or an immediate, with a shifter: dividing the unsigned or
      the signed number by a power of two, rounding down, or multiplying it. */
  lemma ShiftsScale(g: Geometry, a: State, op: AluOp, y: nat, x: nat, n: u32)
    requires Placed(g, a.mem) && y < 32 && x < 32 && n < 32 && ShiftOp(op) && Has(a, CFG_S)
    ensures var b := Do(g, a, AluRI(op, y, x, n)); var u := a.r[y];
      && (op == Sru ==> b.r[x] == u / Pow2(n))
      && (op == Sr ==> Signed(b.r[x]) == Signed(u) / Pow2(n))
      && (op == Sl ==> b.r[x] == Wrap(u * Pow2(n)))
      && b == a.(pc := Wrap(a.pc + 4), r := a.r[x := b.r[x]])
    ensures forall z :: 0 <= z < 32 && a.r[z] == n ==> Do(g, a, AluRR(op, y, z, x)) == Do(g, a, AluRI(op, y, x, n))
  {
    hide On, ShiftLeft, ShiftRight, ArithmeticShift, Pow2, BitAnd, Signed, Wrap;
    Instructions.ShiftRightDivides(a.r[y], n);
    Instructions.ArithmeticShiftIsFloor(a.r[y], n);
    Instructions.ShiftLeftMultiplies(a.r[y], n);
  }

  lemma OnDivision(g: Geometry, a: State, d: DivOp, y: nat, z: nat, x: nat)
    requires Placed(g, a.mem) && y < 32 && z < 32 && x < 32
    requires Has(a, CFG_D) && a.r[z] != 0 && DivDefined(d, a.r[y], a.r[z])
    ensures Do(g, a, Divide(d, y, z, x)) == Next(SetReg(a, x, DivValue(d, a.r[y], a.r[z])))
  {
    hide DivValue, DivDefined, On;
  }

  /** Quotient times divisor plus remainder, in wrapping arithmetic, is the dividend,
      signed or not. */
  lemma QuotientAndRemainder(a: u32, b: u32, signed: bool)
    requires b != 0 && (signed ==> DivDefined(Div, a, b))
    ensures var q, r := DivValue(if signed then Div else Divu, a, b), DivValue(if signed then Mod else Modu, a, b);
      AluValue(Add, AluValue(Mul, q, b), r) == a
  {
    hide ShiftLeft, ShiftRight, ArithmeticShift, BitAnd, TruncDiv, Wrap, Signed;
    if signed {
      Instructions.SignedRange(b);
      var x, y := Signed(a), Signed(b);
      var q := TruncDiv(x, y);
      var i, j := Arithmetic.SignBit(a), Arithmetic.SignBit(b);
      WrapProduct(q, b);
      WrapOfSum(q * b, x - y * q);
      assert q * b == q * y + 0x1_0000_0000 * (q * j) by {
        assert b == y + 0x1_0000_0000 * j;
        Distributes(q, y, j);
      }
      assert y * q == q * y;
      assert q * b + (x - y * q) == a + 0x1_0000_0000 * (q * j - i);
      Instructions.WrapAdds(a, q * j - i);
      Small(a);
    } else {
      Instructions.UnsignedDivisionIdentity(a, b);
      hide DivValue;
      var q, r := DivValue(Divu, a, b), DivValue(Modu, a, b);
      assert q * b == b * q;
      Small(q * b);
      Small(a);
    }
  }

  lemma Distributes(q: int, y: int, j: int)
    ensures q * (y + 0x1_0000_0000 * j) == q * y + 0x1_0000_0000 * (q * j)
  {
  }

  lemma Small(a: int)
    requires 0 <= a < 0x1_0000_0000
    ensures Wrap(a) == a
  {
  }

  lemma WrapProduct(q: int, b: int)
    ensures Wrap(Wrap(q) * b) == Wrap(q * b)
  {
    var n := q / 0x1_0000_0000;
    assert q == 0x1_0000_0000 * n + Wrap(q);
    hide Wrap;
    assert q * b == Wrap(q) * b + 0x1_0000_0000 * (n * b) by { Distributes2(q, n, Wrap(q), b); }
    Instructions.WrapAdds(Wrap(q) * b, n * b);
  }

  lemma Distributes2(q: int, n: int, r: int, b: int)
    requires q == 0x1_0000_0000 * n + r
    ensures q * b == r * b + 0x1_0000_0000 * (n * b)
  {
    assert (0x1_0000_0000 * n) * b == 0x1_0000_0000 * (n * b);
  }

  lemma WrapOfSum(x: int, y: int)
    ensures Wrap(Wrap(x) + Wrap(y)) == Wrap(x + y)
  {
    hide Wrap;
    Arithmetic.WrapSum(x, Wrap(y));
    Arithmetic.WrapSum(y, x);
    assert x + Wrap(y) == Wrap(y) + x && y + x == x + y;
  }

  /** div q, y, z; mod m, y, z; mul t, q, z; add u, t, m: gives y back - and so with
      divu and modu. */
  lemma DivideAndBack(g: Geometry, a: State, signed: bool, y: nat, z: nat, q: nat, m: nat, t: nat, u: nat)
    requires Placed(g, a.mem) && y < 32 && z < 32 && q < 32 && m < 32 && t < 32 && u < 32
    requires q != y && q != z && m != z && m != q && t != m
    requires Has(a, CFG_D) && Has(a, CFG_M) && a.r[z] != 0 && (signed ==> DivDefined(Div, a.r[y], a.r[z]))
    ensures var b := Do(g, a, Divide(if signed then Div else Divu, y, z, q));
      var c := Do(g, b, Divide(if signed then Mod else Modu, y, z, m));
      Do(g, Do(g, c, AluRR(Mul, q, z, t)), AluRR(Add, t, m, u)).r[u] == a.r[y]
  {
    DivisorsAlike(signed, a.r[y], a.r[z]);
    hide AluValue, DivValue, DivDefined, Do, On;
    OnDivision(g, a, if signed then Div else Divu, y, z, q);
    var b := Do(g, a, Divide(if signed then Div else Divu, y, z, q));
    OnDivision(g, b, if signed then Mod else Modu, y, z, m);
    var c := Do(g, b, Divide(if signed then Mod else Modu, y, z, m));
    OnRegisters(g, c, Mul, q, z, t);
    OnRegisters(g, Do(g, c, AluRR(Mul, q, z, t)), Add, t, m, u);
    QuotientAndRemainder(a.r[y], a.r[z], signed);
  }

  lemma DivisorsAlike(signed: bool, u: u32, v: u32)
    requires signed ==> DivDefined(Div, u, v)
    ensures DivDefined(if signed then Div else Divu, u, v) && DivDefined(if signed then Mod else Modu, u, v)
  {
  }

  // ---------------------------------------------------------------------------
  // Control
  // ---------------------------------------------------------------------------

  /** A call goes to its target, and b ra comes back behind it. */
  lemma CallAndBack(g: Geometry, a: State, y: nat)
    requires Placed(g, a.mem) && y < 32 && y != RA_REG
    ensures var b := Do(g, a, Call(y)); var c := Do(g, b, JumpReg(RA_REG));
      && b.pc == a.r[y] && c.pc == Wrap(a.pc + 4)
      && c == a.(pc := c.pc, r := a.r[RA_REG := c.pc])
  {
    hide On, RestoreB, RestoreE, Wrap;
  }

  lemma CallIAndBack(g: Geometry, a: State, k: u32)
    requires Placed(g, a.mem)
    ensures var b := Do(g, a, CallI(k)); var c := Do(g, b, JumpReg(RA_REG));
      && b.pc == Wrap(a.pc + Signed(k)) && c.pc == Wrap(a.pc + 4)
      && c == a.(pc := c.pc, r := a.r[RA_REG := c.pc])
  {
    Displaced(a.pc, k);
    hide On, RestoreB, RestoreE, Wrap, Signed;
  }

  lemma Displaced(pc: u32, k: u32)
    ensures Wrap(pc + k) == Wrap(pc + Signed(k))
  {
    if k >= 0x8000_0000 {
      Instructions.WrapAdds(pc + Signed(k), 1);
    }
  }

  /** A branch goes to its displacement, forwards or backwards, when the comparison
      says so, and otherwise on; nothing else changes. */
  lemma BranchGoes(g: Geometry, a: State, c: Cond, y: nat, z: nat, k: u32)
    requires Placed(g, a.mem) && y < 32 && z < 32
    ensures var yes := Arithmetic.Says(Arithmetic.ComparisonOf(c), a.r[y], a.r[z]);
      Do(g, a, Branch(c, y, z, k)) == a.(pc := Wrap(a.pc + (if yes then Signed(k) else 4)))
  {
    hide Taken, Wrap, Signed, Arithmetic.Says;
    Arithmetic.BranchesCompare(c, a.r[y], a.r[z]);
    Displaced(a.pc, k);
  }

  /** break is one word and scall another; the other words of their opcode do nothing,
      and do not even go on. */
  lemma RaiseWords(g: Geometry, a: State, w: u32)
    requires Placed(g, a.mem) && w / 0x400_0000 == 43
    ensures Do(g, a, Decode(w))
            == if w == 0xac00_0002 && On(a.csr.cfg, CFG_G) then a.(flags := Set(a.flags, 0x2))
               else if w == 0xac00_0007 then a.(flags := Set(a.flags, 0x80))
               else a
  {
    hide On, Set;
    RaiseDecodes(w);
    hide Decode;
  }

  lemma RaiseDecodes(w: u32)
    requires w / 0x400_0000 == 43
    ensures Decode(w) == Raise(if w == 0xac00_0002 then BreakCall else if w == 0xac00_0007 then SystemCall
                               else OtherRaise)
  {
  }

  /** There and back again. */
  lemma JumpAndBack(g: Geometry, a: State, y: nat, z: nat, k: u32)
    requires Placed(g, a.mem) && y < 32 && z < 32
    ensures Do(g, a, Jump(y, z, k)).pc == Wrap(a.pc + Signed(k))
    ensures Do(g, Do(g, a, Jump(y, z, k)), Jump(y, z, Wrap(0 - k))) == a
  {
    hide Wrap, Signed;
    Displaced(a.pc, k);
    Arithmetic.WrapSum(a.pc + k, Wrap(0 - k));
    Arithmetic.WrapSum(0 - k, a.pc + k);
    assert a.pc + k + Wrap(0 - k) == Wrap(0 - k) + (a.pc + k) && 0 - k + (a.pc + k) == a.pc;
    Small(a.pc);
  }

  // ---------------------------------------------------------------------------
  // Memory
  // ---------------------------------------------------------------------------

  /** The number that `n` bytes of a word stand for, as a signed one. */
  function SignedPart(v: u32, sz: Size): int {
    var m := Modulus(sz);
    var p := v % m;
    if p < m / 2 then p else p - m
  }

  /** The sign-extension macro, over two reads that agree. */
  lemma ExtendedIsSigned(sz: Size, d: u32)
    requires d < Modulus(sz)
    ensures Signed(Extended(sz, d, d)) == SignedPart(d, sz)
    ensures Extended(sz, d, d) % Modulus(sz) == d
  {
    match sz
    case Byte => ExtendedByte(d);
    case Half => ExtendedHalf(d);
    case Full => Small(d);
  }

  lemma ExtendedByte(d: u32)
    requires d < 0x100
    ensures Signed(Extended(Byte, d, d)) == SignedPart(d, Byte) && Extended(Byte, d, d) % 0x100 == d
  {
    if d >= 0x80 {
      Small(d + 0xffff_ff00);
    }
  }

  lemma ExtendedHalf(d: u32)
    requires d < 0x1_0000
    ensures Signed(Extended(Half, d, d)) == SignedPart(d, Half) && Extended(Half, d, d) % 0x1_0000 == d
  {
    if d >= 0x8000 {
      Small(d + 0xffff_0000);
    }
  }

  /** sextb and sexth give the signed number in the low part of a register. */
  lemma SextMeans(g: Geometry, a: State, half: bool, y: nat, x: nat)
    requires Placed(g, a.mem) && y < 32 && x < 32 && Has(a, CFG_X)
    ensures var b := Do(g, a, Sext(half, y, x));
      && Signed(b.r[x]) == SignedPart(a.r[y], if half then Half else Byte)
      && b == a.(pc := Wrap(a.pc + 4), r := a.r[x := b.r[x]])
  {
    hide On;
    ExtIsSigned(a.r[y]);
  }

  lemma ExtIsSigned(v: u32)
    ensures Signed(SextValue(false, v)) == SignedPart(v, Byte) && Signed(SextValue(true, v)) == SignedPart(v, Half)
  {
  }

  /** Loads and stores go to their base register plus a signed displacement. */
  lemma AddressIs(a: State, y: nat, k: u32)
    requires y < 32
    ensures EffectiveAddress(a, y, k) == Wrap(a.r[y] + Signed(k))
  {
    hide Wrap, Signed;
    Displaced(a.r[y], k);
  }

  /** Untranslated and where there is RAM. */
  predicate Reachable(g: Geometry, a: State, v: u32, sz: Size)
    requires Placed(g, a.mem)
  {
    !On(a.csr.psw, DTLBE) && Read(g, a.mem, v, sz).Some?
  }

  /** An untranslated write where there is RAM. */
  lemma PlainWrite(g: Geometry, a: State, v: u32, sz: Size, d: u32)
    requires Placed(g, a.mem) && !On(a.csr.psw, DTLBE) && Write(g, a.mem, v, sz, d).Some?
    ensures var b := WriteMem(g, a, v, sz, d);
      b.r == a.r && b.csr == a.csr && b.pc == a.pc && b.mem == Write(g, a.mem, v, sz, d).value
  {
    hide On, Raised, Read, Write, Watched, Tlb.LookupStatus, Tlb.LookupAddress;
    var b := a.(mem := Write(g, a.mem, v, sz, d).value);
    RaisedRest(b, WATCHPOINT);
  }

  lemma PlainStore(g: Geometry, a: State, sz: Size, y: nat, z: nat, k: u32)
    requires Placed(g, a.mem) && y < 32 && z < 32 && Reachable(g, a, EffectiveAddress(a, y, k), sz)
    ensures var v := EffectiveAddress(a, y, k); var b := Do(g, a, Store(sz, y, z, k));
      && b.r == a.r && b.csr == a.csr && Read(g, b.mem, v, sz) == Some(a.r[z] % Modulus(sz))
      && b.pc == Wrap(a.pc + 4)
  {
    hide On, WriteMem, Read, Write, Modulus, EffectiveAddress, Wrap;
    var v := EffectiveAddress(a, y, k);
    TwiceReduced(a.r[z], sz);
    var d: u32 := a.r[z] % Modulus(sz);
    WriteThenRead(g, a.mem, v, sz, d);
    PlainWrite(g, a, v, sz, d);
    assert Do(g, a, Store(sz, y, z, k)) == Next(WriteMem(g, a, v, sz, d));
  }

  lemma RaisedRest(a: State, id: nat)
    ensures Raised(a, id) == a.(flags := Raised(a, id).flags)
  {
    hide Set, Flag;
  }

  lemma TwiceReduced(d: u32, sz: Size)
    ensures d % Modulus(sz) % Modulus(sz) == d % Modulus(sz) < Modulus(sz)
  {
  }

  lemma PlainLoad(g: Geometry, a: State, sz: Size, signed: bool, y: nat, x: nat, k: u32, d: u32)
    requires Placed(g, a.mem) && y < 32 && x < 32 && !On(a.csr.psw, DTLBE)
    requires Read(g, a.mem, EffectiveAddress(a, y, k), sz) == Some(d)
    ensures var b := Do(g, a, Load(sz, signed, y, x, k));
      b.r == a.r[x := if signed then Extended(sz, d, d) else d] && b.mem == a.mem && b.pc == Wrap(a.pc + 4)
  {
    hide On, Raised, Read, Watched, Extended, Tlb.LookupStatus, Tlb.LookupAddress;
    RaisedRest(a, WATCHPOINT);
    RaisedRest(Raised(a, WATCHPOINT), WATCHPOINT);
  }

  /** What is stored is loaded again: the word, or its low part as an unsigned or as
      a signed number. */
  lemma StoreThenLoad(g: Geometry, a: State, sz: Size, signed: bool, y: nat, z: nat, x: nat, k: u32)
    requires Placed(g, a.mem) && y < 32 && z < 32 && x < 32 && Reachable(g, a, EffectiveAddress(a, y, k), sz)
    ensures var b := Do(g, Do(g, a, Store(sz, y, z, k)), Load(sz, signed, y, x, k));
      if signed then Signed(b.r[x]) == SignedPart(a.r[z], sz) else b.r[x] == a.r[z] % Modulus(sz)
  {
    hide Do, Read, On, Modulus, Signed, Extended, EffectiveAddress;
    var v := EffectiveAddress(a, y, k);
    PlainStore(g, a, sz, y, z, k);
    var b := Do(g, a, Store(sz, y, z, k));
    SameAddress(a, b, y, k);
    var d := a.r[z] % Modulus(sz);
    PlainLoad(g, b, sz, signed, y, x, k, d);
    TwiceReduced(a.r[z], sz);
    ExtendedIsSigned(sz, d);
  }

  lemma SameAddress(a: State, b: State, y: nat, k: u32)
    requires y < 32 && b.r == a.r
    ensures EffectiveAddress(b, y, k) == EffectiveAddress(a, y, k)
  {
  }

  // ---------------------------------------------------------------------------
  // Accesses that are refused
  // ---------------------------------------------------------------------------

  /** A misaligned access, or one outside of RAM, untranslated, leaves a data bus
      error pending and memory as it was. */
  lemma BadAccess(g: Geometry, a: State, i: Instr)
    requires Placed(g, a.mem) && Fields(i) && (i.Load? || i.Store?) && !On(a.csr.psw, DTLBE)
    requires g.base + g.size < 0x1_0000_0000
    requires var v := EffectiveAddress(a, i.y, i.k);
      (i.size != Byte && v % 2 == 1) || (i.size == Full && v % 4 != 0) || v < g.base || v > g.base + g.size
    ensures var b := Do(g, a, i); Pending(b.flags, DBUSERROR) && b.mem == a.mem && b.pc == Wrap(a.pc + 4)
  {
    var v := EffectiveAddress(a, i.y, i.k);
    NothingThere(g, a.mem, v, i.size);
    NowPending(a, DBUSERROR);
    NowPending(Raised(a, DBUSERROR), DBUSERROR);
    RaisedRest(a, DBUSERROR);
    RaisedRest(Raised(a, DBUSERROR), DBUSERROR);
    if i.Store? {
      WriteThenRead(g, a.mem, v, i.size, a.r[i.z] % Modulus(i.size));
    }
    hide On, Raised, Pending, Read, Write, Watched, Extended, Tlb.LookupStatus, Tlb.LookupAddress, Wrap;
  }

  lemma NothingThere(g: Geometry, mem: seq<u8>, v: u32, sz: Size)
    requires Placed(g, mem) && g.base + g.size < 0x1_0000_0000
    requires (sz != Byte && v % 2 == 1) || (sz == Full && v % 4 != 0) || v < g.base || v > g.base + g.size
    ensures Read(g, mem, v, sz).None?
  {
    hide Residue;
    MisalignedFails(g, mem, v);
  }

  lemma NowPending(a: State, id: nat)
    requires id < NUM_EXCEPTIONS
    ensures Pending(Raised(a, id).flags, id)
  {
    OneBit(id);
    SetBit(a.flags.w, Flag(id));
    hide Flag;
  }

  lemma OneBit(id: nat)
    requires id < NUM_EXCEPTIONS
    ensures Flag(id) != 0
  {
  }

  lemma SetBit(x: bv32, f: bv32)
    ensures (x | f) & f == f
  {
  }

  /** A store to a page that is mapped read-only leaves a fault pending, and a store
      to one that is not mapped a miss; neither changes memory. */
  lemma RefusedStore(g: Geometry, a: State, sz: Size, y: nat, z: nat, k: u32)
    requires Placed(g, a.mem) && y < 32 && z < 32 && On(a.csr.psw, DTLBE)
    ensures var v := EffectiveAddress(a, y, k); var b := Do(g, a, Store(sz, y, z, k));
      var pages, page := PageMap.Pages(a.mmu.dtlb), PageMap.PageOf(v);
      && (page !in pages ==> Pending(b.flags, DTLB_MISS) && b.mem == a.mem)
      && (page in pages && pages[page].readOnly ==> Pending(b.flags, DTLB_FAULT) && b.mem == a.mem)
  {
    var v := EffectiveAddress(a, y, k);
    PageMap.ProbeRefines(a.mmu.dtlb, v, true, true);
    var c := a.(mmu := Tlb.AfterLookup(a.mmu, v, true, true));
    NowPending(c, DTLB_MISS);
    NowPending(c, DTLB_FAULT);
    RaisedRest(c, DTLB_MISS);
    RaisedRest(c, DTLB_FAULT);
    hide On, Raised, Pending, Write, Watched, Tlb.AfterLookup, Wrap, PageMap.Pages, PageMap.PageOf, Tlb.Probe;
  }
}
