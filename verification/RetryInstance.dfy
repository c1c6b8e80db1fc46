/** Programs that miss in an empty data TLB, with a handler that maps the page and
    returns: a store to which the refill theorem applies, and a load and a store
    that are not carried out as they should have been. */
module RetryInstance {
  import opened Words
  import opened Memory
  import opened Isa
  import opened Arch
  import opened Timing
  import opened Execution
  import opened Exceptions
  import opened Retry
  import Instructions
  import Tlb

  lemma HandlerModesOff(k: Csrs)
    ensures !On(HandlerModes(SaveE(k)).psw, ITLBE) && HandlerModes(SaveE(k)).cfg == k.cfg
  {
    SaveBits(k);
    assert Current(HandlerModes(SaveE(k))).itlb == On(HandlerModes(SaveE(k)).psw, ITLBE);
    hide On, CopyBit, Clear;
  }

  /** The handler's first instruction is ready when its word is at the vector. */
  lemma HandlerReady(g: Geometry, a: State, i: Instr, w: u32)
    requires Placed(g, a.mem) && IsZero(a.flags) && !Has(a, CFG_R) && Accesses(i) && Fields(i)
    requires Read(g, a.mem, Vector(a.csr, DTLB_MISS), Full) == Some(w)
    ensures Ready(g, HandlerEntry(g, a, i), w)
  {
    EntryFromMiss(g, a, i);
    HandlerModesOff(a.csr);
    hide HandlerEntry, On, Ready, Read, Vector, HandlerModes, SaveE;
    FetchReady(g, HandlerEntry(g, a, i), w);
  }

  /** And so is the next one, after the refill. */
  lemma ReturnReady(g: Geometry, a: State, i: Instr, p: u32, w: u32)
    requires Placed(g, a.mem) && IsZero(a.flags) && !Has(a, CFG_R) && Accesses(i) && Fields(i)
    requires Read(g, a.mem, Wrap(Vector(a.csr, DTLB_MISS) + 4), Full) == Some(w)
    ensures var h := Refilled(HandlerEntry(g, a, i), p);
      h.mem == a.mem && Ready(g, h, w)
  {
    EntryFromMiss(g, a, i);
    HandlerModesOff(a.csr);
    hide HandlerEntry, On, Ready, Read, Vector, HandlerModes, SaveE, Tlb.AfterPaddrWrite;
    FetchReady(g, Refilled(HandlerEntry(g, a, i), p), w);
  }

  const RAM: Geometry := Geometry(0x400, 0, 0)

  // In the handler: wcsr TLBPADDR, r3; eret.
  const REFILL: Instr := Wcsr(CSR_TLBPADDR, 3)
  const ERET: Instr := JumpReg(EA_REG)

  function RefillWord(): u32 { Instructions.Encode(REFILL) }

  function EretWord(): u32 { Instructions.Encode(ERET) }

  /** The vector of data TLB misses with the exception base at 0. */
  const HANDLER_PC: u32 := 0x120

  /** Memory with an instruction at the bottom and the handler at its vector. */
  function ThreeWords(mem: seq<u8>, s: u32, r: u32, e: u32): (mem': seq<u8>)
    requires |mem| == 0x400
    ensures |mem'| == 0x400
  {
    WriteBytes(WriteBytes(WriteBytes(mem, 0, Full, s), HANDLER_PC, Full, r), HANDLER_PC + 4, Full, e)
  }

  function Program(w: u32): (mem: seq<u8>)
    ensures |mem| == 0x400
  {
    ThreeWords(seq(0x400, _ => 0), w, RefillWord(), EretWord())
  }

  /** A word written elsewhere leaves this one as it was. */
  lemma Survives(mem: seq<u8>, i: nat, j: nat, d: u32)
    requires i + 4 <= |mem| && j + 4 <= |mem| && (i + 4 <= j || j + 4 <= i)
    ensures ReadBytes(WriteBytes(mem, j, Full, d), i, Full) == ReadBytes(mem, i, Full)
  {
  }

  lemma InPlace(mem: seq<u8>, p: u32)
    requires |mem| == 0x400 && p + 4 <= 0x400 && p % 4 == 0
    ensures Read(RAM, mem, p, Full) == Some(ReadBytes(mem, p, Full))
  {
    hide ReadBytes;
  }

  lemma WordsPlaced(mem: seq<u8>, s: u32, r: u32, e: u32)
    requires |mem| == 0x400
    ensures var p := ThreeWords(mem, s, r, e);
      && Read(RAM, p, 0, Full) == Some(s)
      && Read(RAM, p, HANDLER_PC, Full) == Some(r)
      && Read(RAM, p, HANDLER_PC + 4, Full) == Some(e)
      && Read(RAM, p, 0x10, Full) == Read(RAM, mem, 0x10, Full)
  {
    hide WriteBytes, ReadBytes, Read;
    var one := WriteBytes(mem, 0, Full, s);
    var two := WriteBytes(one, HANDLER_PC, Full, r);
    WriteThenReadBytes(mem, 0, Full, s);
    WriteThenReadBytes(one, HANDLER_PC, Full, r);
    WriteThenReadBytes(two, HANDLER_PC + 4, Full, e);
    Survives(one, 0, HANDLER_PC, r);
    Survives(two, 0, HANDLER_PC + 4, e);
    Survives(two, HANDLER_PC, HANDLER_PC + 4, e);
    Survives(mem, 0x10, 0, s);
    Survives(one, 0x10, HANDLER_PC, r);
    Survives(two, 0x10, HANDLER_PC + 4, e);
    InPlace(mem, 0x10);
    var p := ThreeWords(mem, s, r, e);
    InPlace(p, 0);
    InPlace(p, 0x10);
    InPlace(p, HANDLER_PC);
    InPlace(p, HANDLER_PC + 4);
  }

  lemma WordsInPlace(mem: seq<u8>, w: u32)
    requires mem == Program(w)
    ensures |mem| == 0x400
    ensures Read(RAM, mem, 0, Full) == Some(w)
    ensures Read(RAM, mem, HANDLER_PC, Full) == Some(RefillWord())
    ensures Read(RAM, mem, HANDLER_PC + 4, Full) == Some(EretWord())
    ensures Read(RAM, mem, 0x10, Full) == Some(0)
  {
    hide RefillWord, EretWord, ThreeWords, Read;
    var zeros: seq<u8> := seq(0x400, _ => 0);
    WordsPlaced(zeros, w, RefillWord(), EretWord());
    InPlace(zeros, 0x10);
  }

  /** A CPU about to run the word `w` at address 0, with data translation on and
      nothing mapped.  The handler expects the refill value in r3. */
  function Start(r: Regs, w: u32): State {
    State(r, 0, ResetCsrs().(cfg := Bits(0), psw := Bits(DTLBE)), Bits(0), Program(w), Tlb.EmptyMmu())
  }

  lemma StartFacts(a: State, r: Regs, w: u32)
    requires a == Start(r, w)
    ensures IsZero(a.flags) && !Has(a, CFG_R) && !On(a.csr.psw, ITLBE) && On(a.csr.psw, DTLBE)
    ensures a.pc == 0 && Vector(a.csr, DTLB_MISS) == HANDLER_PC && a.r == r
    ensures a.mem == Program(w) && a.mmu == Tlb.EmptyMmu()
  {
    hide Program;
    assert !On(Bits(0), CFG_R) && !On(Bits(0), DC_REMAP);
    assert On(Bits(DTLBE), DTLBE) && !On(Bits(DTLBE), ITLBE);
    hide On;
  }

  lemma NothingMapped(a: State, i: Instr)
    requires Accesses(i) && Fields(i)
    requires On(a.csr.psw, DTLBE) && a.mmu == Tlb.EmptyMmu()
    ensures MissesData(a, i)
  {
    hide On, Address;
  }

  /** The refill value: frame 0, writable, data table. */
  const FRAME_ZERO: u32 := 1

  /** What the theorems about the refill ask of the start, apart from the miss. */
  ghost predicate ProgramInPlace(a: State, w: u32) {
    && Placed(RAM, a.mem) && IsZero(a.flags) && !Has(a, CFG_R) && !On(a.csr.psw, ITLBE)
    && Read(RAM, a.mem, a.pc, Full) == Some(w)
    && Read(RAM, a.mem, Vector(a.csr, DTLB_MISS), Full) == Some(RefillWord())
    && Read(RAM, a.mem, Wrap(Vector(a.csr, DTLB_MISS) + 4), Full) == Some(EretWord())
  }

  lemma ProgramRuns(a: State, r: Regs, w: u32)
    requires a == Start(r, w)
    ensures ProgramInPlace(a, w)
  {
    StartFacts(a, r, w);
    HandlerNext(Vector(a.csr, DTLB_MISS));
    hide Start, Program, RefillWord, EretWord, Read, Vector, On, Has, IsZero, Wrap;
    WordsInPlace(a.mem, w);
  }

  lemma HandlerNext(v: u32)
    requires v == HANDLER_PC
    ensures Wrap(v + 4) == HANDLER_PC + 4
  {
  }

  lemma HandlerDecodes()
    ensures Decode(RefillWord()) == REFILL && Decode(EretWord()) == ERET
  {
    Instructions.DecodeEncode(REFILL);
    Instructions.DecodeEncode(ERET);
    hide Decode, Instructions.Encode;
  }

  lemma HandlerRegister(g: Geometry, a: State, i: Instr)
    requires Accesses(i) && Fields(i) && IsZero(a.flags) && (i.Load? ==> i.x != 3)
    ensures HandlerEntry(g, a, i).r[3] == a.r[3] && HandlerEntry(g, a, i).mem == a.mem
  {
    EntryFromMiss(g, a, i);
    hide HandlerEntry;
  }

  /** The four steps from such a start lead to a second execution of the
      instruction. */
  lemma FourStepsRun(cfg: Config, m: Machine, r: Regs, w: u32, i: Instr)
    requires cfg.g == RAM && m.a == Start(r, w) && r[3] == FRAME_ZERO
    requires Decode(w) == i && Accesses(i) && (i.Load? ==> i.x != 3)
    ensures Sound(cfg, m) && Fields(i)
    ensures var q := Steps(cfg, m, [NoCallback, NoCallback, NoCallback, NoCallback]);
      var h := Refilled(HandlerEntry(RAM, m.a, i), FRAME_ZERO);
      && q.end == Ran(0) && Placed(RAM, Return(h, false).mem)
      && q.m.a == ExecAccess(RAM, Return(h, false), i)
  {
    Applies(m.a, r, w, i);
    HandlerDecodes();
    hide Start, RefillWord, EretWord, HandlerEntry, Ready, MissesData, Refilled, Decode, Steps, ExecAccess, Return;
    RefillRuns(cfg, m, w, RefillWord(), 3, EretWord());
  }

  /** The hypotheses of the refill theorems hold of such a start. */
  lemma Applies(a: State, r: Regs, w: u32, i: Instr)
    requires a == Start(r, w) && r[3] == FRAME_ZERO
    requires Accesses(i) && Fields(i) && (i.Load? ==> i.x != 3)
    ensures Placed(RAM, a.mem) && Ready(RAM, a, w) && MissesData(a, i)
    ensures var e := HandlerEntry(RAM, a, i);
      && e.r[3] == FRAME_ZERO && e.mem == a.mem && Ready(RAM, e, RefillWord())
      && Refilled(e, FRAME_ZERO).mem == a.mem && Ready(RAM, Refilled(e, FRAME_ZERO), EretWord())
  {
    StartFacts(a, r, w);
    NothingMapped(a, i);
    ProgramRuns(a, r, w);
    hide Start, Program, RefillWord, EretWord, HandlerEntry, Read, Ready, MissesData, Vector, Refilled, On;
    hide Has, IsZero;
    HandlerRegister(RAM, a, i);
    FetchReady(RAM, a, w);
    HandlerReady(RAM, a, i, RefillWord());
    ReturnReady(RAM, a, i, FRAME_ZERO, EretWord());
  }

  // ---------------------------------------------------------------------------
  // A store that is retried as it should be: sw (r1+0), r2
  // ---------------------------------------------------------------------------

  const STORE: Instr := Store(Full, 1, 2, 0)

  function StoreWord(): u32 { Instructions.Encode(STORE) }

  /** The refill theorem applies to this machine, whatever its registers. */
  lemma StoreIsRetried(cfg: Config, m: Machine, r: Regs)
    requires cfg.g == RAM && m.a == Start(r, StoreWord()) && r[3] == FRAME_ZERO
    ensures Sound(cfg, m)
    ensures var h := Refilled(HandlerEntry(RAM, m.a, STORE), FRAME_ZERO);
      var q := Steps(cfg, m, [NoCallback, NoCallback, NoCallback, NoCallback]);
      && q.end == Ran(0) && Placed(RAM, Ideal(m.a, h).mem)
      && SameEffect(Ideal(m.a, h), Return(h, false), ExecAccess(RAM, Ideal(m.a, h), STORE), q.m.a, STORE)
  {
    var i := STORE;
    Instructions.DecodeEncode(STORE);
    HandlerDecodes();
    Applies(m.a, r, StoreWord(), i);
    PlainStore(m.a, i);
    hide Start, StoreWord, RefillWord, EretWord, HandlerEntry, Ready, MissesData, Refilled, Decode, Steps;
    hide Restartable, SameEffect, ExecAccess, Return;
    hide Address, Ideal, Placed, On, Has, Tlb.LookupStatus, Tlb.LookupAddress;
    RefillEndToEnd(cfg, m, StoreWord(), RefillWord(), 3, EretWord());
  }

  lemma PlainStore(a: State, i: Instr)
    requires i == STORE
    ensures Restartable(a, i)
  {
  }

  // ---------------------------------------------------------------------------
  // Two accesses that are not
  // ---------------------------------------------------------------------------

  lemma Returned(a: State, r: Regs, w: u32, i: Instr)
    requires a == Start(r, w) && Accesses(i) && Fields(i)
    ensures var b := Return(Refilled(HandlerEntry(RAM, a, i), FRAME_ZERO), false);
      && b.r == (if i.Load? then r[i.x := 0] else r)[EA_REG := 0]
      && b.mem == a.mem == Program(w) && On(b.csr.psw, DTLBE) && !Has(b, CFG_R)
      && b.mmu == Refilled(HandlerEntry(RAM, a, i), FRAME_ZERO).mmu
  {
    StartFacts(a, r, w);
    EntryFromMiss(RAM, a, i);
    var e := HandlerEntry(RAM, a, i);
    var h := Refilled(e, FRAME_ZERO);
    HandlerIsPrivileged(e.csr);
    hide Start, Program, HandlerEntry, Return, Tlb.AfterPaddrWrite, On, Current, BankE, BankB, SaveE;
    hide HandlerModes, IsZero;
    ReturnFacts(h, false);
    ReturnCsrs(h);
    SavedCsrs(a.csr);
    CurrentDtlb(Return(h, false).csr, a.csr);
  }

  /** Addresses with one slot and tag are translated by one entry. */
  lemma OneEntry(m: Tlb.Mmu, u: u32, v: u32, write: bool)
    requires Tlb.SlotOf(u) == Tlb.SlotOf(v) && Tlb.TagOf(u) == Tlb.TagOf(v)
    ensures Tlb.LookupStatus(m, v, true, write) == Tlb.LookupStatus(m, u, true, write)
    ensures Tlb.LookupAddress(m, v, true) - v % 4096 == Tlb.LookupAddress(m, u, true) - u % 4096
  {
    hide Tlb.SlotOf, Tlb.TagOf, Tlb.EntryTag, Tlb.EntryReadOnly, Tlb.EntryFrame;
  }

  lemma PageZero(v: u32)
    requires v < 0x1000
    ensures Tlb.SlotOf(v) == 0 && Tlb.TagOf(v) == 0 && v % 4096 == v
  {
  }

  /** After the refill the page of the access is mapped to itself. */
  lemma PageMapped(a: State, i: Instr, v: u32)
    requires IsZero(a.flags) && Accesses(i) && Fields(i) && Address(a, i) < 0x1000 && v < 0x1000
    ensures var h := Refilled(HandlerEntry(RAM, a, i), FRAME_ZERO);
      Tlb.LookupStatus(h.mmu, v, true, i.Store?) == Tlb.Hit && Tlb.LookupAddress(h.mmu, v, true) == v
  {
    hide HandlerEntry, Refilled, Address, IsZero, Tlb.LookupStatus, Tlb.LookupAddress, Tlb.SlotOf, Tlb.TagOf;
    RefillMaps(RAM, a, i, FRAME_ZERO);
    var u := Address(a, i);
    PageZero(u);
    PageZero(v);
    OneEntry(Refilled(HandlerEntry(RAM, a, i), FRAME_ZERO).mmu, u, v, i.Store?);
  }

  lemma HitRead(a: State, v: u32, d: u32)
    requires Placed(RAM, a.mem) && On(a.csr.psw, DTLBE) && !Has(a, CFG_R)
    requires Tlb.LookupStatus(a.mmu, v, true, false) == Tlb.Hit && Tlb.LookupAddress(a.mmu, v, true) == v
    requires Read(RAM, a.mem, v, Full) == Some(d)
    ensures ReadMem(RAM, a, v, Data(Full)) == (d, a)
  {
    hide On, Read, Tlb.LookupStatus, Tlb.LookupAddress, Tlb.AfterLookup;
  }

  lemma HitWrite(a: State, v: u32, d: u32)
    requires Placed(RAM, a.mem) && On(a.csr.psw, DTLBE) && !Has(a, CFG_R)
    requires Tlb.LookupStatus(a.mmu, v, true, true) == Tlb.Hit && Tlb.LookupAddress(a.mmu, v, true) == v
    requires Read(RAM, a.mem, v, Full).Some?
    ensures Read(RAM, WriteMem(RAM, a, v, Full, d).mem, v, Full) == Some(d)
  {
    hide On, Read, Write, Tlb.LookupStatus, Tlb.LookupAddress, Tlb.AfterLookup;
    WriteThenRead(RAM, a.mem, v, Full, d);
  }

  /** lw r1, (r1+0) */
  const LOAD: Instr := Load(Full, false, 1, 1, 0)

  function LoadWord(): u32 { Instructions.Encode(LOAD) }

  lemma LoadDecodes()
    ensures Decode(LoadWord()) == LOAD && LoadWord() != 0
  {
    Instructions.DecodeEncode(LOAD);
    assert Instructions.Encode(LOAD) == Instructions.FormatI(10, 1, 1, 0);
    hide Decode, Instructions.Encode;
  }

  ghost predicate LoadReady(a: State, i: Instr, v: u32, d: u32) {
    && Placed(RAM, a.mem) && On(a.csr.psw, DTLBE) && !Has(a, CFG_R)
    && i.Load? && i.size == Full && !i.signed && Fields(i) && Address(a, i) == v
    && Tlb.LookupStatus(a.mmu, v, true, false) == Tlb.Hit && Tlb.LookupAddress(a.mmu, v, true) == v
    && Read(RAM, a.mem, v, Full) == Some(d)
  }

  lemma LoadLands(a: State, i: Instr, v: u32, d: u32)
    requires LoadReady(a, i, v, d)
    ensures ExecAccess(RAM, a, i).r[i.x] == d
  {
    hide On, Has, Read, ReadMem, Tlb.LookupStatus, Tlb.LookupAddress;
    HitRead(a, v, d);
  }

  /** A word load over its own base with no offset, whose base holds 0x10: both
      as it would have been, and retried with the base cleared. */
  lemma LoadSetup(a: State, r: Regs, w: u32, i: Instr)
    requires a == Start(r, w) && i.Load? && i.size == Full && !i.signed && Fields(i)
    requires i.x == i.y != EA_REG && r[i.y] == 0x10 && i.k == 0
    ensures var h := Refilled(HandlerEntry(RAM, a, i), FRAME_ZERO);
      && LoadReady(Ideal(a, h), i, 0x10, 0) && LoadReady(Return(h, false), i, 0, w)
  {
    StartFacts(a, r, w);
    hide Start, Program, HandlerEntry, Refilled, Return, On, Has, Read, Tlb.LookupStatus, Tlb.LookupAddress;
    hide IsZero, Vector;
    var h := Refilled(HandlerEntry(RAM, a, i), FRAME_ZERO);
    Returned(a, r, w, i);
    WordsInPlace(a.mem, w);
    RefilledMem(RAM, a, i, FRAME_ZERO);
    NoOffset(a, i);
    NoOffset(Ideal(a, h), i);
    NoOffset(Return(h, false), i);
    hide Address;
    PageMapped(a, i, 0x10);
    PageMapped(a, i, 0);
    assert LoadReady(Return(h, false), i, 0, w);
    assert LoadReady(Ideal(a, h), i, 0x10, 0);
  }

  lemma NoOffset(a: State, i: Instr)
    requires Accesses(i) && Fields(i) && i.k == 0
    ensures Address(a, i) == a.r[i.y]
  {
  }

  /** A load over its own base: the miss has cleared r1, so the retry reads the
      word at address 0 instead of the one at address 0x10. */
  lemma SpoiledLoad(cfg: Config, m: Machine, r: Regs)
    requires cfg.g == RAM && m.a == Start(r, LoadWord()) && r[1] == 0x10 && r[3] == FRAME_ZERO
    ensures Sound(cfg, m) && !Restartable(m.a, LOAD)
    ensures var h := Refilled(HandlerEntry(RAM, m.a, LOAD), FRAME_ZERO);
      var q := Steps(cfg, m, [NoCallback, NoCallback, NoCallback, NoCallback]);
      && q.end == Ran(0) && Placed(RAM, Ideal(m.a, h).mem)
      && ExecAccess(RAM, Ideal(m.a, h), LOAD).r[1] == 0
      && q.m.a.r[1] == LoadWord() != 0
  {
    var i := LOAD;
    LoadDecodes();
    assert !Restartable(m.a, i) by { StartFacts(m.a, r, LoadWord()); }
    hide Start, LoadWord, Restartable, HandlerEntry, Refilled, Return, ExecAccess, LoadReady, Steps, Decode, Placed;
    FourStepsRun(cfg, m, r, LoadWord(), i);
    LoadSetup(m.a, r, LoadWord(), i);
    var h := Refilled(HandlerEntry(RAM, m.a, i), FRAME_ZERO);
    assert Placed(RAM, Ideal(m.a, h).mem) by { RefilledMem(RAM, m.a, i, FRAME_ZERO); }
    LoadLands(Ideal(m.a, h), i, 0x10, 0);
    LoadLands(Return(h, false), i, 0, LoadWord());
  }

  /** sw (r1+0), ea */
  const STORE_EA: Instr := Store(Full, 1, EA_REG, 0)

  function StoreEaWord(): u32 { Instructions.Encode(STORE_EA) }

  /** A word store at address 0x10, retried, and as it would have been. */
  lemma Lands(a: State, r: Regs, w: u32, i: Instr)
    requires a == Start(r, w) && i.Store? && i.size == Full && Fields(i) && i.y != EA_REG && Address(a, i) == 0x10
    ensures var h := Refilled(HandlerEntry(RAM, a, i), FRAME_ZERO);
      && Placed(RAM, Ideal(a, h).mem) && Placed(RAM, Return(h, false).mem)
      && Read(RAM, ExecAccess(RAM, Ideal(a, h), i).mem, 0x10, Full) == Some(r[i.z])
      && Read(RAM, ExecAccess(RAM, Return(h, false), i).mem, 0x10, Full)
         == Some(if i.z == EA_REG then 0 else r[i.z])
  {
    LandsSetup(a, r, w, i);
    var h := Refilled(HandlerEntry(RAM, a, i), FRAME_ZERO);
    hide Start, HandlerEntry, Refilled, Return, ExecAccess, Ideal, Read;
    StoreLands(Ideal(a, h), i, 0x10);
    StoreLands(Return(h, false), i, 0x10);
  }

  ghost predicate StoreReady(a: State, i: Instr, v: u32) {
    && Placed(RAM, a.mem) && On(a.csr.psw, DTLBE) && !Has(a, CFG_R)
    && i.Store? && i.size == Full && Fields(i) && Address(a, i) == v
    && Tlb.LookupStatus(a.mmu, v, true, true) == Tlb.Hit && Tlb.LookupAddress(a.mmu, v, true) == v
    && Read(RAM, a.mem, v, Full).Some?
  }

  lemma LandsSetup(a: State, r: Regs, w: u32, i: Instr)
    requires a == Start(r, w) && i.Store? && i.size == Full && Fields(i) && i.y != EA_REG && Address(a, i) == 0x10
    ensures var h := Refilled(HandlerEntry(RAM, a, i), FRAME_ZERO);
      && StoreReady(Ideal(a, h), i, 0x10) && Ideal(a, h).r == r
      && StoreReady(Return(h, false), i, 0x10) && Return(h, false).r == r[EA_REG := 0]
  {
    StartFacts(a, r, w);
    hide Start, Program, HandlerEntry, Refilled, Return, On, Has, Read, Tlb.LookupStatus, Tlb.LookupAddress;
    hide IsZero, Address, Vector;
    var h := Refilled(HandlerEntry(RAM, a, i), FRAME_ZERO);
    Returned(a, r, w, i);
    WordsInPlace(a.mem, w);
    RefilledMem(RAM, a, i, FRAME_ZERO);
    PageMapped(a, i, 0x10);
    SameBase(a, Ideal(a, h), i);
    SameBase(a, Return(h, false), i);
    assert StoreReady(Return(h, false), i, 0x10);
    assert StoreReady(Ideal(a, h), i, 0x10);
  }

  lemma SameBase(a: State, b: State, i: Instr)
    requires Accesses(i) && Fields(i) && b.r[i.y] == a.r[i.y]
    ensures Address(b, i) == Address(a, i)
  {
  }

  lemma StoreLands(a: State, i: Instr, v: u32)
    requires StoreReady(a, i, v)
    ensures Read(RAM, ExecAccess(RAM, a, i).mem, v, Full) == Some(a.r[i.z])
  {
    hide On, Has, Read, WriteMem, Tlb.LookupStatus, Tlb.LookupAddress;
    HitWrite(a, v, a.r[i.z]);
  }

  lemma StoreEaDecodes()
    ensures Decode(StoreEaWord()) == STORE_EA
  {
    Instructions.DecodeEncode(STORE_EA);
    hide Decode, Instructions.Encode;
  }

  /** A store of ea: exception entry has put the restart pc there, so the retry
      stores 0 instead of what ea held. */
  lemma SpoiledStore(cfg: Config, m: Machine, r: Regs)
    requires cfg.g == RAM && m.a == Start(r, StoreEaWord())
    requires r[1] == 0x10 && r[3] == FRAME_ZERO && r[EA_REG] == 5
    ensures Sound(cfg, m) && !Restartable(m.a, STORE_EA)
    ensures var h := Refilled(HandlerEntry(RAM, m.a, STORE_EA), FRAME_ZERO);
      var q := Steps(cfg, m, [NoCallback, NoCallback, NoCallback, NoCallback]);
      && q.end == Ran(0) && Placed(RAM, Ideal(m.a, h).mem) && Placed(RAM, q.m.a.mem)
      && Read(RAM, ExecAccess(RAM, Ideal(m.a, h), STORE_EA).mem, 0x10, Full) == Some(5)
      && Read(RAM, q.m.a.mem, 0x10, Full) == Some(0)
  {
    var i := STORE_EA;
    StoreEaDecodes();
    StartFacts(m.a, r, StoreEaWord());
    EaSpoilt(m.a, i);
    NoOffset(m.a, i);
    hide Start, StoreEaWord, Restartable, Address, HandlerEntry, Refilled, Return, ExecAccess, Steps, Decode;
    hide Placed, Read, On, Has, IsZero, Vector;
    FourStepsRun(cfg, m, r, StoreEaWord(), i);
    Lands(m.a, r, StoreEaWord(), i);
  }

  lemma EaSpoilt(a: State, i: Instr)
    requires i == STORE_EA && a.pc == 0 && a.r[EA_REG] == 5
    ensures !Restartable(a, i)
  {
  }
}
