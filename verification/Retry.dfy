/** Data TLB misses are precise: a load or store that misses, is trapped, has
    its page installed and is returned to, does what it would have done with
    the page mapped all along. */
module Retry {
  import opened Words
  import opened Memory
  import opened Isa
  import opened Arch
  import opened Timing
  import opened Execution
  import opened Exceptions
  import Tlb
  import PageMap

  /** Nothing is pending, and fetching at pc yields `w` without side effect. */
  ghost predicate Ready(g: Geometry, a: State, w: u32)
    requires Placed(g, a.mem)
  {
    IsZero(a.flags) && FetchWord(g, a) == (w, a)
  }

  /** Without hardware debug and with instruction translation off, a state with
      nothing pending is ready to run the word in memory at its pc. */
  lemma FetchReady(g: Geometry, a: State, w: u32)
    requires Placed(g, a.mem) && IsZero(a.flags)
    requires !Has(a, CFG_R) && !On(a.csr.psw, ITLBE)
    requires Read(g, a.mem, a.pc, Full) == Some(w)
    ensures Ready(g, a, w)
  {
    hide On, Read, Set, Flag;
  }

  /** A step from a ready state is the execution of the fetched instruction. */
  lemma ReadyStep(cfg: Config, m: Machine, w: u32)
    requires Sound(cfg, m) && Ready(cfg.g, m.a, w)
    requires forall cc :: Exec(cfg.g, m.a, Decode(w), cc).o == Completes
    ensures var r := Step(cfg, m, NoCallback);
      r.end == Ran(w) && exists cc :: r.m.a == Exec(cfg.g, m.a, Decode(w), cc).a
  {
    hide FetchWord, Exec, ExecTime, ReadTime, Decode, IsZero;
    assert Entered(cfg, m) == m && !Unknown(m.a);
    var m2 := Fetched(cfg, m).1;
    assert Step(cfg, m, NoCallback).m.a == Exec(cfg.g, m.a, Decode(w), CycleCounter(m2.c)).a;
  }

  /** Loads and stores, and their addresses. */
  predicate Accesses(i: Instr) {
    i.Load? || i.Store?
  }

  function Address(a: State, i: Instr): u32
    requires Accesses(i) && Fields(i)
  {
    EffectiveAddress(a, i.y, i.k)
  }

  function ExecAccess(g: Geometry, a: State, i: Instr): State
    requires Accesses(i) && Fields(i) && Placed(g, a.mem)
  {
    match i
    case Load(sz, signed, y, x, k) => ExecLoad(g, a, sz, signed, y, x, k)
    case Store(sz, y, z, k) => ExecStore(g, a, sz, y, z, k)
    case _ => a
  }

  predicate MissesData(a: State, i: Instr)
    requires Accesses(i) && Fields(i)
  {
    On(a.csr.psw, DTLBE) && Tlb.LookupStatus(a.mmu, Address(a, i), true, i.Store?) == Tlb.Miss
  }

  /** What a missing access leaves: the pc has moved on, the miss is pending, the
      TLB CSRs name the address, and a load has cleared its destination. */
  function Missed(a: State, i: Instr): State
    requires Accesses(i) && Fields(i)
  {
    var v := Address(a, i);
    var b := Raised(a.(mmu := a.mmu.(badvaddr := v, vaddr := v - v % 4096 + 1)), DTLB_MISS);
    Next(if i.Load? then SetReg(b, i.x, 0) else b)
  }

  lemma MissedLoad(g: Geometry, a: State, i: Instr)
    requires i.Load? && Fields(i) && Placed(g, a.mem) && MissesData(a, i)
    ensures ExecAccess(g, a, i) == Missed(a, i)
  {
    hide On, Set, Flag, Read, Watched, Tlb.Probe;
    var v := Address(a, i);
    var (d1, a1) := ReadMem(g, a, v, Data(i.size));
    assert a1 == Raised(a.(mmu := Tlb.AfterLookup(a.mmu, v, true, false)), DTLB_MISS);
    assert Tlb.LookupStatus(a1.mmu, v, true, false) == Tlb.Miss;
    var (d2, a2) := ReadMem(g, a1, v, Data(i.size));
    assert d1 == 0 && d2 == 0 && a2 == a1 by {
      RaisedTwice(a1, DTLB_MISS);
      RaisedAgain(a.(mmu := a1.mmu), DTLB_MISS);
    }
  }

  lemma RaisedAgain(a: State, id: nat)
    ensures Raised(Raised(a, id), id) == Raised(a, id)
  {
    hide Flag;
  }

  lemma RaisedTwice(a: State, id: nat)
    ensures Raised(a, id).(flags := a.flags) == a
  {
    hide Flag, Set;
  }

  lemma MissedStore(g: Geometry, a: State, i: Instr)
    requires i.Store? && Fields(i) && Placed(g, a.mem) && MissesData(a, i)
    ensures ExecAccess(g, a, i) == Missed(a, i)
  {
    hide On, Set, Flag, Write, Watched, Tlb.Probe;
  }

  lemma MissedAccess(g: Geometry, a: State, i: Instr)
    requires Accesses(i) && Fields(i) && Placed(g, a.mem) && MissesData(a, i)
    ensures ExecAccess(g, a, i) == Missed(a, i)
  {
    hide ExecAccess, Missed;
    if i.Load? {
      MissedLoad(g, a, i);
    } else {
      MissedStore(g, a, i);
    }
  }

  /** The state in which the handler starts. */
  function HandlerEntry(g: Geometry, a: State, i: Instr): State
    requires Accesses(i) && Fields(i)
  {
    Interrupt(g, Missed(a, i), DTLB_MISS)
  }

  lemma EntryFromMiss(g: Geometry, a: State, i: Instr)
    requires Accesses(i) && Fields(i) && IsZero(a.flags)
    ensures var e := HandlerEntry(g, a, i); var v := Address(a, i);
      && e.r == (if i.Load? then a.r[i.x := 0] else a.r)[EA_REG := a.pc]
      && BankE(e.csr) == Current(a.csr) && Current(e.csr) == HANDLER
      && e.csr == HandlerModes(SaveE(a.csr))
      && e.mem == a.mem
      && e.mmu == a.mmu.(badvaddr := v, vaddr := v - v % 4096 + 1)
      && IsZero(e.flags)
      && e.pc == Vector(a.csr, DTLB_MISS)
  {
    hide HandlerModes, SaveE, SaveB, Current, BankE, BankB, Vector, Address;
    SaveBits(a.csr);
    assert Wrap(Wrap(a.pc + 4) - 4) == a.pc;
    assert IsZero(Clear(Set(a.flags, Flag(DTLB_MISS)), Flag(DTLB_MISS)));
  }

  /** What is asked of the handler, from its entry `e` to the eret about to be
      executed in `h`: it keeps ea, the exception bank and the registers the
      instruction reads, changes no CSR but IE and PSW, stays privileged, and
      leaves nothing pending.  Memory, the TLBs and every other register are
      its own to use. */
  ghost predicate Handled(e: State, h: State, i: Instr)
    requires Accesses(i) && Fields(i)
  {
    && Keeps(e, h, false)
    && h.r[i.y] == e.r[i.y] && (i.Store? ==> h.r[i.z] == e.r[i.z])
    && h.csr == e.csr.(ie := h.csr.ie, psw := h.csr.psw)
    && !On(h.csr.psw, USR)
    && IsZero(h.flags)
  }

  /** The same access: the same address and, for a store, the same datum. */
  ghost predicate SameRequest(a: State, b: State, i: Instr)
    requires Accesses(i) && Fields(i)
  {
    && Address(b, i) == Address(a, i)
    && (i.Store? ==> b.r[i.z] % Modulus(i.size) == a.r[i.z] % Modulus(i.size))
  }

  /** Equal in all that an access to memory depends on. */
  ghost predicate SameAccess(a: State, b: State, i: Instr)
    requires Accesses(i) && Fields(i)
  {
    && SameRequest(a, b, i)
    && b.pc == a.pc && b.mem == a.mem && b.mmu == a.mmu && b.flags == a.flags
    && On(b.csr.psw, DTLBE) == On(a.csr.psw, DTLBE)
    && b.csr.cfg == a.csr.cfg && b.csr.dc == a.csr.dc && b.csr.wp == a.csr.wp
  }

  /** The same effect: equal pc, memory, TLBs and pending flags, and a load
      delivers the same word; the registers not involved, and the CSRs, are
      those each state had before. */
  ghost predicate SameEffect(a: State, b: State, a': State, b': State, i: Instr)
    requires Accesses(i) && Fields(i)
  {
    && b'.pc == a'.pc && b'.mem == a'.mem && b'.mmu == a'.mmu && b'.flags == a'.flags
    && a'.csr == a.csr && b'.csr == b.csr
    && (i.Load? ==> b'.r[i.x] == a'.r[i.x])
    && forall j :: 0 <= j < NUM_REGS && !(i.Load? && j == i.x) ==> a'.r[j] == a.r[j] && b'.r[j] == b.r[j]
  }

  lemma ReadDepends(g: Geometry, a: State, b: State, v: u32, k: Kind)
    requires Placed(g, a.mem) && !k.Fetch?
    requires b.mem == a.mem && b.mmu == a.mmu && b.flags == a.flags
    requires On(b.csr.psw, DTLBE) == On(a.csr.psw, DTLBE)
    requires b.csr.cfg == a.csr.cfg && b.csr.dc == a.csr.dc && b.csr.wp == a.csr.wp
    ensures var (d, a') := ReadMem(g, a, v, k); var (e, b') := ReadMem(g, b, v, k);
      && d == e
      && a' == a.(mmu := a'.mmu, flags := a'.flags)
      && b' == b.(mmu := a'.mmu, flags := a'.flags)
  {
    hide On, Set, Flag, Read, Tlb.LookupStatus, Tlb.LookupAddress, Tlb.AfterLookup;
  }

  lemma WriteDepends(g: Geometry, a: State, b: State, v: u32, sz: Size, d: u32)
    requires Placed(g, a.mem)
    requires b.mem == a.mem && b.mmu == a.mmu && b.flags == a.flags
    requires On(b.csr.psw, DTLBE) == On(a.csr.psw, DTLBE)
    requires b.csr.cfg == a.csr.cfg && b.csr.dc == a.csr.dc && b.csr.wp == a.csr.wp
    ensures var a', b' := WriteMem(g, a, v, sz, d), WriteMem(g, b, v, sz, d);
      && a' == a.(mem := a'.mem, mmu := a'.mmu, flags := a'.flags)
      && b' == b.(mem := a'.mem, mmu := a'.mmu, flags := a'.flags)
  {
    hide On, Set, Flag, Write, Tlb.LookupStatus, Tlb.LookupAddress, Tlb.AfterLookup;
  }

  /** Loads and stores depend on nothing else. */
  lemma AccessDepends(g: Geometry, a: State, b: State, i: Instr)
    requires Accesses(i) && Fields(i) && Placed(g, a.mem) && SameAccess(a, b, i)
    ensures SameEffect(a, b, ExecAccess(g, a, i), ExecAccess(g, b, i), i)
  {
    hide SameAccess, SameEffect, ExecAccess;
    if i.Load? {
      LoadDepends(g, a, b, i);
    } else {
      StoreDepends(g, a, b, i);
    }
  }

  lemma LoadDepends(g: Geometry, a: State, b: State, i: Instr)
    requires i.Load? && Fields(i) && Placed(g, a.mem) && SameAccess(a, b, i)
    ensures SameEffect(a, b, ExecAccess(g, a, i), ExecAccess(g, b, i), i)
  {
    hide On, ReadMem, Extended;
    var v := Address(a, i);
    ReadDepends(g, a, b, v, Data(i.size));
    ReadDepends(g, ReadMem(g, a, v, Data(i.size)).1, ReadMem(g, b, v, Data(i.size)).1, v, Data(i.size));
  }

  lemma StoreDepends(g: Geometry, a: State, b: State, i: Instr)
    requires i.Store? && Fields(i) && Placed(g, a.mem) && SameAccess(a, b, i)
    ensures SameEffect(a, b, ExecAccess(g, a, i), ExecAccess(g, b, i), i)
  {
    hide On, WriteMem;
    WriteDepends(g, a, b, Address(a, i), i.size, a.r[i.z] % Modulus(i.size));
  }

  /** The instruction as it would have run in `a` with the memory and TLBs that
      the handler left in `h` in place from the start. */
  function Ideal(a: State, h: State): State {
    a.(mem := h.mem, mmu := h.mmu)
  }

  /** The miss does not spoil what the access needs.  A load clears its
      destination, which may be its base, and exception entry puts the restart pc
      into ea, which may be the base or the register to be stored; no harm is done
      where those registers held such values before. */
  predicate Restartable(a: State, i: Instr)
    requires Accesses(i) && Fields(i)
  {
    && (if i.y == EA_REG then a.r[EA_REG] == a.pc else (i.Load? && i.x == i.y ==> a.r[i.y] == 0))
    && (i.Store? && i.z == EA_REG ==> a.r[EA_REG] % Modulus(i.size) == a.pc % Modulus(i.size))
  }

  /** How sharp the condition is: after the miss, the entry, the handler and the
      eret, the access is the original one exactly when it is met. */
  lemma RetryRequest(g: Geometry, a: State, i: Instr, h: State)
    requires Accesses(i) && Fields(i) && IsZero(a.flags)
    requires Handled(HandlerEntry(g, a, i), h, i)
    ensures SameRequest(a, Return(h, false), i) <==> Restartable(a, i)
  {
    hide HandlerEntry, Current, BankE, BankB, Return, Modulus;
    EntryFromMiss(g, a, i);
    ReturnFacts(h, false);
    WrapInjective(Return(h, false).r[i.y], a.r[i.y], i.k);
  }

  lemma IdealRequest(a: State, h: State, b: State, i: Instr)
    requires Accesses(i) && Fields(i) && SameRequest(a, b, i)
    ensures SameRequest(Ideal(a, h), b, i)
  {
  }

  lemma WrapInjective(u: u32, v: u32, k: u32)
    ensures Wrap(u + k) == Wrap(v + k) <==> u == v
  {
  }

  lemma AfterEret(g: Geometry, a: State, i: Instr, h: State)
    requires Accesses(i) && Fields(i) && IsZero(a.flags) && Restartable(a, i)
    requires Handled(HandlerEntry(g, a, i), h, i)
    ensures var r := Return(h, false);
      && SameAccess(Ideal(a, h), r, i)
      && r.r == h.r && Current(r.csr) == Current(a.csr)
  {
    hide HandlerEntry, Current, BankE, BankB, Return, Restartable, SameRequest;
    RetryRequest(g, a, i, h);
    EntryFromMiss(g, a, i);
    ReturnFacts(h, false);
    assert SameRequest(Ideal(a, h), Return(h, false), i) by { IdealRequest(a, h, Return(h, false), i); }
    ZeroFlags(a.flags, h.flags);
    SavedCsrs(a.csr);
    ReturnCsrs(h);
    assert Current(Return(h, false).csr) == Current(a.csr);
    assert On(Return(h, false).csr.psw, DTLBE) == On(a.csr.psw, DTLBE) by { CurrentDtlb(Return(h, false).csr, a.csr); }
  }

  lemma CurrentDtlb(k: Csrs, l: Csrs)
    requires Current(k) == Current(l)
    ensures On(k.psw, DTLBE) == On(l.psw, DTLBE)
  {
  }

  lemma ZeroFlags(x: Bits, y: Bits)
    requires IsZero(x) && IsZero(y)
    ensures x == y
  {
  }

  lemma SavedCsrs(k: Csrs)
    ensures var l := HandlerModes(SaveE(k)); l == k.(ie := l.ie, psw := l.psw)
  {
    hide CopyBit, Clear;
  }

  lemma ReturnCsrs(h: State)
    ensures var k := Return(h, false).csr; k == h.csr.(ie := k.ie, psw := k.psw)
  {
    hide CopyBit, On, Set, Flag;
  }

  /** Miss, refill, retry.  From a state in which nothing is pending, a load or
      store misses in the data TLB.  The handler is entered with the interrupted
      pc in ea; whatever it does within its duties, its eret comes back to the
      same instruction in the same modes, and the retry has exactly the effect
      the instruction would have had in the first place with the handler's TLB
      contents. */
  lemma MissRefillRetry(cfg: Config, m: Machine, w: u32, h: Machine, eret: u32)
    requires Sound(cfg, m) && Ready(cfg.g, m.a, w)
    requires var i := Decode(w); Accesses(i) && Restartable(m.a, i) && MissesData(m.a, i)
    requires Sound(cfg, h) && Ready(cfg.g, h.a, eret) && Decode(eret) == JumpReg(EA_REG)
    requires Handled(HandlerEntry(cfg.g, m.a, Decode(w)), h.a, Decode(w))
    requires Ready(cfg.g, Return(h.a, false), w)   // the instruction can still be fetched
    ensures var m1 := Step(cfg, m, NoCallback);
      && m1.end == Ran(w) && m1.m.a.mem == m.a.mem
      && Entered(cfg, m1.m).a == HandlerEntry(cfg.g, m.a, Decode(w))
    ensures var m2 := Step(cfg, h, NoCallback);
      && m2.end == Ran(eret) && m2.m.a.pc == m.a.pc && Current(m2.m.a.csr) == Current(m.a.csr)
      && var m3 := Step(cfg, m2.m, NoCallback);
      && m3.end == Ran(w)
      && SameEffect(Ideal(m.a, h.a), m2.m.a,
                    ExecAccess(cfg.g, Ideal(m.a, h.a), Decode(w)), m3.m.a, Decode(w))
  {
    hide Decode, Step, Entered, FetchWord, Interrupt, Handled, ExecAccess, Return, Restartable, MissesData;
    hide Current, SameEffect, SameAccess, HandlerEntry, Missed;
    var i := Decode(w);
    MissStep(cfg, m, w);
    EretStep(cfg, h, eret);
    AfterEret(cfg.g, m.a, i, h.a);
    var m2 := Step(cfg, h, NoCallback).m;
    AccessStep(cfg, m2, w);
    AccessDepends(cfg.g, Ideal(m.a, h.a), m2.a, i);
    assert m2.a.pc == m.a.pc by { SameAccessPc(Ideal(m.a, h.a), m2.a, i); }
  }

  lemma SameAccessPc(a: State, b: State, i: Instr)
    requires Accesses(i) && Fields(i) && SameAccess(a, b, i)
    ensures b.pc == a.pc
  {
  }

  lemma AccessStep(cfg: Config, m: Machine, w: u32)
    requires Sound(cfg, m) && Ready(cfg.g, m.a, w) && Accesses(Decode(w))
    ensures var r := Step(cfg, m, NoCallback);
      r.end == Ran(w) && r.m.a == ExecAccess(cfg.g, m.a, Decode(w))
  {
    hide Decode, Step, FetchWord, ExecLoad, ExecStore, IsZero;
    ReadyStep(cfg, m, w);
  }

  lemma EretStep(cfg: Config, h: Machine, eret: u32)
    requires Sound(cfg, h) && Ready(cfg.g, h.a, eret) && Decode(eret) == JumpReg(EA_REG)
    ensures var r := Step(cfg, h, NoCallback);
      r.end == Ran(eret) && r.m.a == Return(h.a, false)
  {
    hide Decode, Step, FetchWord, ExecJumpReg, IsZero;
    ReadyStep(cfg, h, eret);
  }

  lemma MissStep(cfg: Config, m: Machine, w: u32)
    requires Sound(cfg, m) && Ready(cfg.g, m.a, w)
    requires Accesses(Decode(w)) && MissesData(m.a, Decode(w))
    ensures var r := Step(cfg, m, NoCallback);
      && r.end == Ran(w) && r.m.a == Missed(m.a, Decode(w)) && r.m.a.mem == m.a.mem
      && Entered(cfg, r.m).a == HandlerEntry(cfg.g, m.a, Decode(w)) && !Unknown(r.m.a)
  {
    hide Decode, Step, FetchWord, ExecAccess, Interrupt, MissesData;
    AccessStep(cfg, m, w);
    MissedAccess(cfg.g, m.a, Decode(w));
    var r := Step(cfg, m, NoCallback);
    OnlyMissPending(m.a.flags);
    assert r.m.a.flags == Set(m.a.flags, Flag(DTLB_MISS)) by { hide Set, Flag; }
    TakesMostUrgent(cfg, r.m, DTLB_MISS);
  }

  lemma OnlyMissPending(x: Bits)
    requires IsZero(x)
    ensures Pending(Set(x, Flag(DTLB_MISS)), DTLB_MISS)
    ensures forall k :: 0 <= k < DTLB_MISS ==> !Pending(Set(x, Flag(DTLB_MISS)), k)
  {
  }

  // ---------------------------------------------------------------------------
  // The shortest handler: wcsr TLBPADDR, rX; eret
  // ---------------------------------------------------------------------------

  /** A fetch without side effects depends only on pc, memory, the instruction
      TLB and the registers that control fetching. */
  lemma FetchDepends(g: Geometry, a: State, b: State, w: u32)
    requires Placed(g, a.mem) && Ready(g, a, w)
    requires b.pc == a.pc && b.mem == a.mem && b.mmu.itlb == a.mmu.itlb && IsZero(b.flags)
    requires On(b.csr.psw, ITLBE) == On(a.csr.psw, ITLBE)
    requires b.csr == a.csr.(ie := b.csr.ie, psw := b.csr.psw)
    ensures Ready(g, b, w)
  {
    hide On, Read, Tlb.Probe, Set, IsZero;
    RaisedShows(a, BREAKPOINT);
    RaisedShows(a, WATCHPOINT);
    RaisedShows(a, IBUSERROR);
    assert CheckBreakpoint(a) == a by { CheckedFlags(g, a); }
    assert CheckBreakpoint(b) == b;
    var p := Physical(a, a.pc, Fetch);
    assert !ReadMisses(a, a.pc, Fetch) by {
      RaisedShows(a.(mmu := Tlb.AfterLookup(a.mmu, a.pc, false, false)), ITLB_MISS);
    }
    assert Read(g, a.mem, p, Full).Some? && !Watched(a, p, false);
    assert !ReadMisses(b, b.pc, Fetch) && Physical(b, b.pc, Fetch) == p && !Watched(b, p, false);
  }

  /** Raising an exception shows when nothing was pending. */
  lemma RaisedShows(a: State, id: nat)
    requires IsZero(a.flags) && id < NUM_EXCEPTIONS
    ensures !IsZero(Raised(a, id).flags)
  {
  }

  lemma CheckedFlags(g: Geometry, a: State)
    requires Placed(g, a.mem) && IsZero(a.flags) && FetchWord(g, a).1 == a
    ensures CheckBreakpoint(a) == a
  {
    hide ReadMem, AtBreakpoint, Pending;
    ReadKeepsPending(g, CheckBreakpoint(a), a.pc, Fetch);
    BreakpointPends(a);
  }

  lemma BreakpointPends(a: State)
    requires IsZero(a.flags)
    ensures Pending(Raised(a, BREAKPOINT).flags, BREAKPOINT) && !Pending(a.flags, BREAKPOINT)
  {
  }

  /** Reading never withdraws a pending exception. */
  lemma ReadKeepsPending(g: Geometry, a: State, v: u32, k: Kind)
    requires Placed(g, a.mem)
    ensures Pending(a.flags, BREAKPOINT) ==> Pending(ReadMem(g, a, v, k).1.flags, BREAKPOINT)
  {
    hide Read, Tlb.Probe, Watched, Translated;
  }

  /** The state after the handler's wcsr. */
  function Refilled(e: State, p: u32): State {
    Next(e.(mmu := Tlb.AfterPaddrWrite(e.mmu, p)))
  }

  /** The installed page is the one that missed. */
  lemma RefillMaps(g: Geometry, a: State, i: Instr, p: u32)
    requires Accesses(i) && Fields(i) && IsZero(a.flags) && p % 2 == 1
    ensures var h := Refilled(HandlerEntry(g, a, i), p); var v := Address(a, i);
      && Tlb.LookupStatus(h.mmu, v, true, i.Store?)
         == (if i.Store? && (p / 2) % 2 == 1 then Tlb.Fault else Tlb.Hit)
      && Tlb.LookupAddress(h.mmu, v, true) == 4096 * (p / 4096) + v % 4096
      && h.mmu.itlb == a.mmu.itlb
  {
    hide HandlerEntry, Address;
    EntryFromMiss(g, a, i);
    var v := Address(a, i);
    var e := HandlerEntry(g, a, i);
    SamePageRounded(v);
    PageMap.PackedFields(p, e.mmu.vaddr);
  }

  lemma SamePageRounded(v: u32)
    ensures 0 <= v - v % 4096 + 1 < 0x1_0000_0000
    ensures Tlb.SlotOf(v - v % 4096 + 1) == Tlb.SlotOf(v) && Tlb.TagOf(v - v % 4096 + 1) == Tlb.TagOf(v)
  {
    var u := v - v % 4096 + 1;
    ModUnique(u, 4096, v / 4096, 1);
    assert u / 0x40_0000 == u / 4096 / 1024 && v / 0x40_0000 == v / 4096 / 1024;
  }

  lemma RefillHandled(g: Geometry, a: State, i: Instr, p: u32, w: u32)
    requires Placed(g, a.mem) && Ready(g, a, w)
    requires Accesses(i) && Fields(i) && p % 2 == 1
    ensures var e := HandlerEntry(g, a, i); var h := Refilled(e, p);
      && Handled(e, h, i)
      && Ready(g, Return(h, false), w)
  {
    hide HandlerEntry, Current, BankE, BankB, Return, Ready, IsZero;
    assert IsZero(a.flags) by { ReadyFlags(g, a, w); }
    EntryFromMiss(g, a, i);
    var h := Refilled(HandlerEntry(g, a, i), p);
    assert !On(h.csr.psw, USR) by { HandlerIsPrivileged(h.csr); }
    ReturnFacts(h, false);
    ReturnCsrs(h);
    SavedCsrs(a.csr);
    var r := Return(h, false);
    CurrentItlb(r.csr, a.csr);
    FetchDepends(g, a, r, w);
  }

  lemma ReadyFlags(g: Geometry, a: State, w: u32)
    requires Placed(g, a.mem) && Ready(g, a, w)
    ensures IsZero(a.flags)
  {
  }

  lemma CurrentItlb(k: Csrs, l: Csrs)
    requires Current(k) == Current(l)
    ensures On(k.psw, ITLBE) == On(l.psw, ITLBE)
  {
  }

  /** Four steps, from the missing instruction through a two-instruction handler
      back to the instruction itself, which is then executed again. */
  lemma RefillRuns(cfg: Config, m: Machine, w: u32, wcsr: u32, x: nat, eret: u32)
    requires Sound(cfg, m) && Ready(cfg.g, m.a, w)
    requires var i := Decode(w); Accesses(i) && MissesData(m.a, i)
    requires x < 32 && Decode(wcsr) == Wcsr(CSR_TLBPADDR, x) && Decode(eret) == JumpReg(EA_REG)
    requires var e := HandlerEntry(cfg.g, m.a, Decode(w)); var p := e.r[x];
      && p % 2 == 1
      && Ready(cfg.g, e, wcsr) && Ready(cfg.g, Refilled(e, p), eret)
    ensures var r := Steps(cfg, m, [NoCallback, NoCallback, NoCallback, NoCallback]);
      var e := HandlerEntry(cfg.g, m.a, Decode(w)); var h := Refilled(e, e.r[x]);
      && r.end == Ran(0) && Placed(cfg.g, Return(h, false).mem)
      && r.m.a == ExecAccess(cfg.g, Return(h, false), Decode(w))
  {
    hide Decode, Step, FetchWord, Interrupt, Handled, ExecAccess, Return, MissesData, Current, Tlb.Probe;
    hide HandlerEntry, Missed, Ready, Refilled;
    var i := Decode(w);
    var e := HandlerEntry(cfg.g, m.a, i);
    MissStep(cfg, m, w);
    var m1 := Step(cfg, m, NoCallback).m;
    RefillStep(cfg, m, m1, w, wcsr, x);
    var m2 := Step(cfg, m1, NoCallback).m;
    RefillHandled(cfg.g, m.a, i, e.r[x], w);
    EretStep(cfg, m2, eret);
    var m3 := Step(cfg, m2, NoCallback).m;
    AccessStep(cfg, m3, w);
    FourSteps(cfg, m, m1, m2, m3);
  }

  /** In those four steps the handler stores register x into TLBPADDR; the retry
      then finds its page mapped to the installed frame (or, for a store, refused
      if it was installed read-only), and has the effect it would have had with
      that mapping from the start. */
  lemma RefillEndToEnd(cfg: Config, m: Machine, w: u32, wcsr: u32, x: nat, eret: u32)
    requires Sound(cfg, m) && Ready(cfg.g, m.a, w)
    requires var i := Decode(w); Accesses(i) && Restartable(m.a, i) && MissesData(m.a, i)
    requires x < 32 && Decode(wcsr) == Wcsr(CSR_TLBPADDR, x) && Decode(eret) == JumpReg(EA_REG)
    requires var e := HandlerEntry(cfg.g, m.a, Decode(w)); var p := e.r[x];
      && p % 2 == 1
      && Ready(cfg.g, e, wcsr) && Ready(cfg.g, Refilled(e, p), eret)
    ensures var r := Steps(cfg, m, [NoCallback, NoCallback, NoCallback, NoCallback]);
      var h := Refilled(HandlerEntry(cfg.g, m.a, Decode(w)), HandlerEntry(cfg.g, m.a, Decode(w)).r[x]);
      && r.end == Ran(0)
      && SameEffect(Ideal(m.a, h), Return(h, false),
                    ExecAccess(cfg.g, Ideal(m.a, h), Decode(w)), r.m.a, Decode(w))
      && Current(Return(h, false).csr) == Current(m.a.csr)
    ensures var i := Decode(w); var e := HandlerEntry(cfg.g, m.a, i); var p := e.r[x];
      var mmu := Ideal(m.a, Refilled(e, p)).mmu; var v := Address(m.a, i);
      && Tlb.LookupStatus(mmu, v, true, i.Store?)
         == (if i.Store? && (p / 2) % 2 == 1 then Tlb.Fault else Tlb.Hit)
      && Tlb.LookupAddress(mmu, v, true) == 4096 * (p / 4096) + v % 4096
  {
    hide Decode, Steps, FetchWord, Interrupt, Handled, ExecAccess, Return, Restartable, MissesData, Current;
    hide Tlb.Probe;
    hide SameEffect, SameAccess, HandlerEntry, Missed, Ready, Refilled;
    var i := Decode(w);
    var e := HandlerEntry(cfg.g, m.a, i);
    var p := e.r[x];
    var h := Refilled(e, p);
    RefillRuns(cfg, m, w, wcsr, x, eret);
    ReadyFlags(cfg.g, m.a, w);
    RefillMaps(cfg.g, m.a, i, p);
    RefillHandled(cfg.g, m.a, i, p, w);
    AfterEret(cfg.g, m.a, i, h);
    RefilledMem(cfg.g, m.a, i, p);
    AccessDepends(cfg.g, Ideal(m.a, h), Return(h, false), i);
  }

  lemma RefilledMem(g: Geometry, a: State, i: Instr, p: u32)
    requires Accesses(i) && Fields(i) && IsZero(a.flags)
    ensures Refilled(HandlerEntry(g, a, i), p).mem == a.mem
  {
    EntryFromMiss(g, a, i);
    hide HandlerEntry;
  }

  lemma FourSteps(cfg: Config, m: Machine, m1: Machine, m2: Machine, m3: Machine)
    requires Sound(cfg, m) && Sound(cfg, m1) && Sound(cfg, m2) && Sound(cfg, m3)
    requires Step(cfg, m, NoCallback).end.Ran? && Step(cfg, m, NoCallback).m == m1
    requires Step(cfg, m1, NoCallback).end.Ran? && Step(cfg, m1, NoCallback).m == m2
    requires Step(cfg, m2, NoCallback).end.Ran? && Step(cfg, m2, NoCallback).m == m3
    requires Step(cfg, m3, NoCallback).end.Ran?
    ensures Steps(cfg, m, [NoCallback, NoCallback, NoCallback, NoCallback])
            == StepResult(Step(cfg, m3, NoCallback).m, Ran(0))
  {
    hide Step;
    var q := [NoCallback, NoCallback, NoCallback, NoCallback];
    assert q[1..] == [NoCallback, NoCallback, NoCallback];
    assert q[1..][1..] == [NoCallback, NoCallback];
    assert q[1..][1..][1..] == [NoCallback];
    assert Steps(cfg, Step(cfg, m3, NoCallback).m, []) == StepResult(Step(cfg, m3, NoCallback).m, Ran(0));
    assert Steps(cfg, m3, [NoCallback]) == Steps(cfg, Step(cfg, m3, NoCallback).m, [NoCallback][1..]);
    assert Steps(cfg, m2, [NoCallback, NoCallback]) == Steps(cfg, m3, [NoCallback]);
    assert Steps(cfg, m1, [NoCallback, NoCallback, NoCallback]) == Steps(cfg, m2, [NoCallback, NoCallback]);
  }

  /** The step that takes the exception and runs the handler's wcsr. */
  lemma RefillStep(cfg: Config, m: Machine, m1: Machine, w: u32, wcsr: u32, x: nat)
    requires Sound(cfg, m) && Sound(cfg, m1) && Ready(cfg.g, m.a, w)
    requires Accesses(Decode(w)) && x < 32 && Decode(wcsr) == Wcsr(CSR_TLBPADDR, x)
    requires Entered(cfg, m1).a == HandlerEntry(cfg.g, m.a, Decode(w)) && !Unknown(m1.a)
    requires Ready(cfg.g, HandlerEntry(cfg.g, m.a, Decode(w)), wcsr)
    ensures var e := HandlerEntry(cfg.g, m.a, Decode(w)); var r := Step(cfg, m1, NoCallback);
      r.end == Ran(wcsr) && r.m.a == Refilled(e, e.r[x])
  {
    hide Decode, FetchWord, Entered, HandlerEntry, ReadTime, ExecTime, Unknown, IsZero, Current, BankE, BankB;
    var e := HandlerEntry(cfg.g, m.a, Decode(w));
    EntryFromMiss(cfg.g, m.a, Decode(w));
    HandlerIsPrivileged(e.csr);
    var e1 := Entered(cfg, m1);
    var m2 := Fetched(cfg, e1).1;
    assert m2.a == e && Fetched(cfg, e1).0 == wcsr;
    WcsrRefills(cfg.g, e, x, CycleCounter(m2.c));
  }

  lemma WcsrRefills(g: Geometry, e: State, x: nat, cc: u32)
    requires Placed(g, e.mem) && x < 32 && !On(e.csr.psw, USR)
    ensures Exec(g, e, Wcsr(CSR_TLBPADDR, x), cc) == Result(Refilled(e, e.r[x]), Completes)
  {
    hide On, Set, Flag, Tlb.AfterPaddrWrite;
  }
}
