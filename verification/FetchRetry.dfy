/** Instruction TLB misses are precise: an instruction whose fetch misses, is
    trapped, has its page installed and is returned to, is fetched and does what it
    would have done with the page mapped all along. */
module FetchRetry {
  import opened Words
  import opened Memory
  import opened Isa
  import opened Arch
  import opened Timing
  import opened Execution
  import opened Exceptions
  import opened Retry
  import opened RetryInstance
  import opened SameClass
  import opened Resumed
  import Tlb
  import PageMap

  // ---------------------------------------------------------------------------
  // The miss
  // ---------------------------------------------------------------------------

  /** The fetch gives 0, which is executed: it shifts r0 by nothing and moves the pc
      on.  So what is left is the miss, pending, and the address in the TLB CSRs. */
  function FetchMissed(a: State): State {
    Next(Raised(a.(mmu := a.mmu.(badvaddr := a.pc, vaddr := a.pc - a.pc % 4096)), ITLB_MISS))
  }

  lemma MissedFetch(g: Geometry, a: State)
    requires Placed(g, a.mem) && !AtBreakpoint(a) && ReadMisses(a, a.pc, Fetch)
    ensures FetchWord(g, a)
            == (0, Raised(a.(mmu := a.mmu.(badvaddr := a.pc, vaddr := a.pc - a.pc % 4096)), ITLB_MISS))
  {
    hide On, Set, Flag, Tlb.LookupStatus;
  }

  lemma ZeroWord(g: Geometry, b: State, cc: u32)
    requires Placed(g, b.mem)
    ensures Exec(g, b, Decode(0), cc) == Result(if Has(b, CFG_S) then Next(b) else ExecReserved(b), Completes)
  {
    assert Decode(0) == AluRI(Sru, 0, 0, 0);
    assert AluValue(Sru, b.r[0], 0) == b.r[0];
    assert b.r[0 := b.r[0]] == b.r;
    hide Decode, AluValue, On, Raised;
  }

  lemma MissedFetchRuns(g: Geometry, a: State, cc: u32)
    requires Placed(g, a.mem) && !AtBreakpoint(a) && ReadMisses(a, a.pc, Fetch) && Has(a, CFG_S)
    ensures var (w, b) := FetchWord(g, a); w == 0 && Exec(g, b, Decode(w), cc) == Result(FetchMissed(a), Completes)
  {
    hide FetchWord, Exec, Decode, ReadMisses, AtBreakpoint, On, Set, Flag;
    MissedFetch(g, a);
    ZeroWord(g, FetchWord(g, a).1, cc);
  }

  lemma FetchMissStep(cfg: Config, m: Machine)
    requires Sound(cfg, m) && IsZero(m.a.flags) && Has(m.a, CFG_S)
    requires !AtBreakpoint(m.a) && ReadMisses(m.a, m.a.pc, Fetch)
    ensures var r := Step(cfg, m, NoCallback); r.end == Ran(0) && r.m.a == FetchMissed(m.a)
  {
    hide FetchWord, Exec, ExecTime, ReadTime, Decode, IsZero, FetchMissed, ReadMisses, AtBreakpoint, Interrupt, Highest;
    assert Entered(cfg, m) == m && !Unknown(m.a);
    var m2 := Fetched(cfg, m).1;
    MissedFetchRuns(cfg.g, m.a, CycleCounter(m2.c));
  }

  /** The state in which the handler starts. */
  function FetchHandler(g: Geometry, a: State): State {
    Interrupt(g, FetchMissed(a), ITLB_MISS)
  }

  lemma FetchEntered(g: Geometry, a: State)
    requires IsZero(a.flags)
    ensures OnlyPending(FetchMissed(a).flags, ITLB_MISS)
    ensures var e := FetchHandler(g, a);
      && e.r == a.r[EA_REG := a.pc] && e.mem == a.mem && IsZero(e.flags)
      && e.csr == HandlerModes(SaveE(a.csr)) && e.pc == Vector(a.csr, ITLB_MISS)
      && e.mmu == a.mmu.(badvaddr := a.pc, vaddr := a.pc - a.pc % 4096)
  {
    var b := a.(mmu := a.mmu.(badvaddr := a.pc, vaddr := a.pc - a.pc % 4096));
    RaisedFromNone(b, ITLB_MISS);
    RaisedRest(b, ITLB_MISS);
    TakesOnly(FetchMissed(a).flags, ITLB_MISS);
    assert Wrap(Wrap(a.pc + 4) - 4) == a.pc;
    hide HandlerModes, SaveE, Vector, Clear, Flag, IsZero, OnlyPending, Raised, Wrap;
  }

  // ---------------------------------------------------------------------------
  // The refill
  // ---------------------------------------------------------------------------

  lemma PageRounded(v: u32)
    ensures 0 <= v - v % 4096
    ensures Tlb.SlotOf(v - v % 4096) == Tlb.SlotOf(v) && Tlb.TagOf(v - v % 4096) == Tlb.TagOf(v)
  {
    var u := v - v % 4096;
    ModUnique(u, 4096, v / 4096, 0);
    assert u / 0x40_0000 == u / 4096 / 1024 && v / 0x40_0000 == v / 4096 / 1024;
  }

  /** With bit 0 of the refill value clear, the page of the pc is installed in the
      instruction TLB, and the data TLB is left alone. */
  lemma FetchRefillMaps(g: Geometry, a: State, p: u32)
    requires IsZero(a.flags) && p % 2 == 0
    ensures var h := Refilled(FetchHandler(g, a), p);
      && Tlb.LookupStatus(h.mmu, a.pc, false, false) == Tlb.Hit
      && Tlb.LookupAddress(h.mmu, a.pc, false) == 4096 * (p / 4096) + a.pc % 4096
      && h.mmu.dtlb == a.mmu.dtlb
  {
    hide FetchHandler;
    FetchEntered(g, a);
    var e := FetchHandler(g, a);
    PageRounded(a.pc);
    PageMap.PackedFields(p, e.mmu.vaddr);
  }

  /** The eret comes back to the missed pc in the interrupted modes: a state that
      differs from the first one, with the refilled TLBs, in ea and the E bank. */
  lemma ComesBack(g: Geometry, a: State, p: u32)
    requires IsZero(a.flags)
    ensures var h := Refilled(FetchHandler(g, a), p); var b := Return(h, false);
      b.pc == a.pc && Near(Ideal(a, h), b) && h.mem == a.mem && IsZero(b.flags)
  {
    hide FetchHandler, HandlerModes, SaveE, Return, Current, BankE, BankB, On, IsZero, Vector, Tlb.AfterPaddrWrite;
    FetchEntered(g, a);
    HandlerCsrs(a.csr);
    SaveBits(a.csr);
    var h := Refilled(FetchHandler(g, a), p);
    ReturnFacts(h, false);
    ReturnCsrs(h);
    SavedCsrs(a.csr);
    var b := Return(h, false);
    SameZero(a.flags, b.flags);
    assert b.r == a.r[EA_REG := b.r[EA_REG]];
  }

  lemma SameZero(x: Bits, y: Bits)
    ensures IsZero(x) && IsZero(y) ==> x == y
  {
  }

  /** The step that enters the handler and executes its wcsr. */
  lemma FetchRefillStep(cfg: Config, m: Machine, a: State, wcsr: u32, x: nat)
    requires Sound(cfg, m) && IsZero(a.flags) && m.a == FetchMissed(a) && a.mem == m.a.mem
    requires x < 32 && Decode(wcsr) == Wcsr(CSR_TLBPADDR, x)
    requires Ready(cfg.g, FetchHandler(cfg.g, a), wcsr)
    ensures var e := FetchHandler(cfg.g, a); var r := Step(cfg, m, NoCallback);
      r.end.Ran? && r.m.a == Refilled(e, e.r[x])
  {
    FetchEntered(cfg.g, a);
    HandlerCsrs(a.csr);
    hide Ready, Step, Decode, Exec, Interrupt, OnlyPending, FetchMissed, HandlerModes, SaveE, On, IsZero;
    hide Refilled, Vector;
    var e := FetchHandler(cfg.g, a);
    forall cc: u32
      ensures Exec(cfg.g, e, Decode(wcsr), cc) == Result(Refilled(e, e.r[x]), Completes)
    {
      WcsrRefills(cfg.g, e, x, cc);
    }
    EnterStep(cfg, m, ITLB_MISS, wcsr);
  }

  lemma ThreeSteps(cfg: Config, m: Machine, wcsr: u32, x: nat, eret: u32)
    requires Sound(cfg, m) && IsZero(m.a.flags) && Has(m.a, CFG_S)
    requires !AtBreakpoint(m.a) && ReadMisses(m.a, m.a.pc, Fetch)
    requires x < 32 && Decode(wcsr) == Wcsr(CSR_TLBPADDR, x) && Decode(eret) == JumpReg(EA_REG)
    requires var e := FetchHandler(cfg.g, m.a); e.mem == m.a.mem && Ready(cfg.g, e, wcsr)
    requires var h := Refilled(FetchHandler(cfg.g, m.a), FetchHandler(cfg.g, m.a).r[x]); Ready(cfg.g, h, eret)
    ensures var e := FetchHandler(cfg.g, m.a); var q := Steps(cfg, m, Quiet(3));
      q.end.Ran? && q.m.a == Return(Refilled(e, e.r[x]), false)
  {
    hide Ready, Step, Steps, Decode, FetchMissed, FetchHandler, Refilled, Return, IsZero, ReadMisses, AtBreakpoint;
    hide Quiet, Has;
    FetchMissStep(cfg, m);
    var m1 := Step(cfg, m, NoCallback).m;
    MissedMem(m.a);
    FetchRefillStep(cfg, m1, m.a, wcsr, x);
    var m2 := Step(cfg, m1, NoCallback).m;
    EretStep(cfg, m2, eret);
    TwoMore(cfg, m, m1, m2);
  }

  lemma MissedMem(a: State)
    ensures FetchMissed(a).mem == a.mem
  {
    hide Set, Flag;
  }

  // ---------------------------------------------------------------------------
  // The theorem
  // ---------------------------------------------------------------------------

  /** An instruction whose fetch misses, with nothing else pending.  Its handler
      stores register x into TLBPADDR and returns.  After three steps the machine is
      back at the same pc, with the page mapped to the installed frame; and the
      fourth step fetches the word, and - unless the instruction looks at ea, at the
      E bank or at the cycle counter - has the effect, which it would have had from
      the start with that mapping. */
  lemma RefetchEndToEnd(cfg: Config, m: Machine, wcsr: u32, x: nat, eret: u32)
    requires Sound(cfg, m) && IsZero(m.a.flags) && Has(m.a, CFG_S)
    requires !AtBreakpoint(m.a) && ReadMisses(m.a, m.a.pc, Fetch)
    requires x < 32 && Decode(wcsr) == Wcsr(CSR_TLBPADDR, x) && Decode(eret) == JumpReg(EA_REG)
    requires var e := FetchHandler(cfg.g, m.a); e.r[x] % 2 == 0 && Ready(cfg.g, e, wcsr)
    requires Ready(cfg.g, Refilled(FetchHandler(cfg.g, m.a), FetchHandler(cfg.g, m.a).r[x]), eret)
    ensures var p := FetchHandler(cfg.g, m.a).r[x];
      var ideal := Ideal(m.a, Refilled(FetchHandler(cfg.g, m.a), p));
      var q := Steps(cfg, m, Quiet(3));
      && q.end.Ran? && q.m.a.pc == m.a.pc && Near(ideal, q.m.a) && ideal.mem == m.a.mem
      && Tlb.LookupStatus(q.m.a.mmu, m.a.pc, false, false) == Tlb.Hit
      && Tlb.LookupAddress(q.m.a.mmu, m.a.pc, false) == 4096 * (p / 4096) + m.a.pc % 4096
      && FetchWord(cfg.g, q.m.a).0 == FetchWord(cfg.g, ideal).0
      && (!LooksBack(Decode(FetchWord(cfg.g, ideal).0)) ==>
            var r, i := Step(cfg, q.m, NoCallback), Step(cfg, m.(a := ideal), NoCallback);
            r.end == i.end && Near(i.m.a, r.m.a))
  {
    hide Ready, Step, Steps, Decode, FetchMissed, FetchHandler, Refilled, Return, IsZero, ReadMisses, AtBreakpoint;
    hide Quiet, Has, FetchWord, Near, LooksBack, Tlb.LookupStatus, Tlb.LookupAddress;
    FetchEntered(cfg.g, m.a);
    var p := FetchHandler(cfg.g, m.a).r[x];
    ThreeSteps(cfg, m, wcsr, x, eret);
    ComesBack(cfg.g, m.a, p);
    FetchRefillMaps(cfg.g, m.a, p);
    var ideal := Ideal(m.a, Refilled(FetchHandler(cfg.g, m.a), p));
    var q := Steps(cfg, m, Quiet(3)).m;
    SameRest(ideal, q.a);
    NearFetch(cfg.g, ideal, q.a);
    if !LooksBack(Decode(FetchWord(cfg.g, ideal).0)) {
      NearStep(cfg, m.(a := ideal), q);
    }
  }

  // ---------------------------------------------------------------------------
  // When it is not so
  // ---------------------------------------------------------------------------

  /** The exception that is taken after the miss of a fetch, and what it will resume
      at, is the missed pc if and only if there is a shifter to execute the word 0
      and no breakpoint was flagged at that pc: otherwise a bus error or the
      breakpoint comes first, with the pc already moved on. */
  lemma RefetchIff(g: Geometry, a: State, cc: u32)
    requires Placed(g, a.mem) && IsZero(a.flags) && ReadMisses(a, a.pc, Fetch)
    ensures var (w, b) := FetchWord(g, a); var c := Exec(g, b, Decode(w), cc).a;
      var id := Highest(c.flags, 0);
      && id < NUM_EXCEPTIONS
      && (Interrupt(g, c, id).r[ReturnReg(DebugClass(id))] == a.pc <==> Has(a, CFG_S) && !AtBreakpoint(a))
  {
    if AtBreakpoint(a) {
      BreakpointFirst(g, a, cc);
    } else if Has(a, CFG_S) {
      hide FetchWord, Exec, Decode, ReadMisses, AtBreakpoint, FetchMissed, Interrupt, OnlyPending, IsZero, On, Highest;
      MissedFetchRuns(g, a, cc);
      FetchEntered(g, a);
      TakesOnly(FetchMissed(a).flags, ITLB_MISS);
    } else {
      BusErrorFirst(g, a, cc);
    }
  }

  lemma FirstFlags(x: Bits)
    requires IsZero(x)
    ensures var b := Set(Set(x, Flag(BREAKPOINT)), Flag(ITLB_MISS));
      Highest(b, 0) == BREAKPOINT && Highest(Set(b, Flag(IBUSERROR)), 0) == BREAKPOINT
    ensures Highest(Set(Set(x, Flag(ITLB_MISS)), Flag(IBUSERROR)), 0) == IBUSERROR
  {
    var b := Set(Set(x, Flag(BREAKPOINT)), Flag(ITLB_MISS));
    var c := Set(Set(x, Flag(ITLB_MISS)), Flag(IBUSERROR));
    assert b == Bits(0x102) && Set(b, Flag(IBUSERROR)) == Bits(0x106) && c == Bits(0x104);
    assert Highest(c, 2) == 2;
  }

  lemma BreakpointFirst(g: Geometry, a: State, cc: u32)
    requires Placed(g, a.mem) && IsZero(a.flags) && ReadMisses(a, a.pc, Fetch) && AtBreakpoint(a)
    ensures var (w, b) := FetchWord(g, a); var c := Exec(g, b, Decode(w), cc).a;
      Highest(c.flags, 0) == BREAKPOINT && Interrupt(g, c, BREAKPOINT).r[BA_REG] != a.pc
  {
    MissAtBreakpoint(g, a);
    var b := FetchWord(g, a).1;
    hide FetchWord, Exec, Decode, ReadMisses, AtBreakpoint, Set, Flag, IsZero, Highest, Interrupt, On;
    ZeroWord(g, b, cc);
    FirstFlags(a.flags);
    var c := Exec(g, b, Decode(0), cc).a;
    RestartsAt(g, c, BREAKPOINT);
    MovedOn(a.pc);
  }

  lemma MissAtBreakpoint(g: Geometry, a: State)
    requires Placed(g, a.mem) && ReadMisses(a, a.pc, Fetch) && AtBreakpoint(a)
    ensures var (w, b) := FetchWord(g, a);
      w == 0 && b.pc == a.pc && b.mem == a.mem && b.flags == Set(Set(a.flags, Flag(BREAKPOINT)), Flag(ITLB_MISS))
  {
    hide On, Set, Flag, AtBreakpoint, Tlb.LookupStatus, Tlb.AfterLookup;
  }

  /** Bus errors and breakpoints are resumed at the pc as it is. */
  lemma RestartsAt(g: Geometry, c: State, id: nat)
    requires id == BREAKPOINT || id == IBUSERROR
    ensures Interrupt(g, c, id).r[ReturnReg(DebugClass(id))] == c.pc
  {
    hide SaveB, SaveE, HandlerModes, Vector, Clear, Flag;
  }

  lemma MovedOn(pc: u32)
    ensures Wrap(pc + 4) != pc
  {
  }

  lemma BusErrorFirst(g: Geometry, a: State, cc: u32)
    requires Placed(g, a.mem) && IsZero(a.flags) && ReadMisses(a, a.pc, Fetch)
    requires !AtBreakpoint(a) && !Has(a, CFG_S)
    ensures var (w, b) := FetchWord(g, a); var c := Exec(g, b, Decode(w), cc).a;
      Highest(c.flags, 0) == IBUSERROR && Interrupt(g, c, IBUSERROR).r[EA_REG] != a.pc
  {
    MissedFetch(g, a);
    var b := FetchWord(g, a).1;
    hide FetchWord, Exec, Decode, ReadMisses, AtBreakpoint, Set, Flag, IsZero, Highest, Interrupt, On;
    ZeroWord(g, b, cc);
    FirstFlags(a.flags);
    var c := Exec(g, b, Decode(0), cc).a;
    RestartsAt(g, c, IBUSERROR);
    MovedOn(a.pc);
  }

  // ---------------------------------------------------------------------------
  // Such a machine
  // ---------------------------------------------------------------------------

  /** The vector of instruction TLB misses. */
  const FETCH_PC: u32 := 0x100

  function HandlerWords(mem: seq<u8>): (mem': seq<u8>)
    requires |mem| == 0x400
    ensures |mem'| == 0x400
  {
    WriteBytes(WriteBytes(mem, FETCH_PC, Full, RefillWord()), FETCH_PC + 4, Full, EretWord())
  }

  lemma HandlerWordsInPlace(mem: seq<u8>)
    requires |mem| == 0x400
    ensures var p := HandlerWords(mem);
      Read(RAM, p, FETCH_PC, Full) == Some(RefillWord()) && Read(RAM, p, FETCH_PC + 4, Full) == Some(EretWord())
  {
    hide WriteBytes, ReadBytes, Read, RefillWord, EretWord;
    var one := WriteBytes(mem, FETCH_PC, Full, RefillWord());
    WriteThenReadBytes(mem, FETCH_PC, Full, RefillWord());
    WriteThenReadBytes(one, FETCH_PC + 4, Full, EretWord());
    Survives(one, FETCH_PC, FETCH_PC + 4, EretWord());
    InPlace(HandlerWords(mem), FETCH_PC);
    InPlace(HandlerWords(mem), FETCH_PC + 4);
  }

  /** A CPU with a shifter, instruction translation on and nothing mapped. */
  function FetchStart(r: Regs, mem: seq<u8>): State
    requires |mem| == 0x400
  {
    State(r, 0, ResetCsrs().(cfg := Bits(CFG_S), psw := Bits(ITLBE)), Bits(0), HandlerWords(mem), Tlb.EmptyMmu())
  }

  /** The hypotheses of the theorem hold of it, whatever memory holds otherwise. */
  lemma RefetchHappens(r: Regs, mem: seq<u8>)
    requires |mem| == 0x400 && r[3] % 2 == 0
    ensures var a := FetchStart(r, mem); var e := FetchHandler(RAM, a);
      && Placed(RAM, a.mem) && IsZero(a.flags) && Has(a, CFG_S) && !AtBreakpoint(a) && ReadMisses(a, a.pc, Fetch)
      && Decode(RefillWord()) == Wcsr(CSR_TLBPADDR, 3) && Decode(EretWord()) == JumpReg(EA_REG)
      && e.mem == a.mem && e.r[3] % 2 == 0 && Ready(RAM, e, RefillWord())
      && Refilled(e, e.r[3]).mem == a.mem && Ready(RAM, Refilled(e, e.r[3]), EretWord())
  {
    var a := FetchStart(r, mem);
    StartIsMissing(a);
    HandlerDecodes();
    HandlerWordsInPlace(mem);
    FetchEntered(RAM, a);
    HandlerCsrs(a.csr);
    hide FetchHandler, HandlerWords, RefillWord, EretWord, Read, Ready, On, IsZero, HandlerModes, SaveE, Vector, Decode;
    hide Tlb.AfterPaddrWrite, AtBreakpoint, ReadMisses;
    var e := FetchHandler(RAM, a);
    FetchReady(RAM, e, RefillWord());
    FetchReady(RAM, Refilled(e, e.r[3]), EretWord());
  }

  lemma StartIsMissing(a: State)
    requires a.pc == 0 && a.flags == Bits(0) && a.mmu == Tlb.EmptyMmu()
    requires a.csr == ResetCsrs().(cfg := Bits(CFG_S), psw := Bits(ITLBE))
    ensures IsZero(a.flags) && Has(a, CFG_S) && !Has(a, CFG_R) && !AtBreakpoint(a) && ReadMisses(a, a.pc, Fetch)
    ensures Vector(a.csr, ITLB_MISS) == FETCH_PC && Wrap(FETCH_PC + 4) == FETCH_PC + 4
  {
    assert On(Bits(ITLBE), ITLBE) && !On(Bits(CFG_S), CFG_R) && On(Bits(CFG_S), CFG_S) && !On(Bits(0), DC_REMAP);
    hide On;
  }
}
