/** The CPU object, updated in place statement by statement.  Every method is
    proved to take the machine exactly where the functions of Arch, Timing,
    Execution and RunLoop say. */
module Cpu {
  import opened Words
  import opened Memory
  import opened Isa
  import opened Arch
  import opened Timing
  import opened Execution
  import opened RunLoop
  import Tlb
  import Cache
  import Keeper

  datatype CacheConfig = CacheConfig(width: int, ways: int, sets: int, base: u32, limit: u32)

  predicate Buildable(k: CacheConfig) {
    Cache.MakeShape(k.width, k.ways, k.sets, k.base, k.limit).Some?
  }

  /** A cache is there when it is wanted, empty and of the shape configured. */
  ghost predicate CacheBuilt(c: Option<Cache.Contents>, wanted: bool, k: CacheConfig)
    requires Buildable(k)
  {
    && (wanted <==> c.Some?)
    && (wanted ==> Cache.Built(c.value, Cache.MakeShape(k.width, k.ways, k.sets, k.base, k.limit).value))
  }

  method MakeCache(wanted: bool, k: CacheConfig) returns (c: Cache.LineCache?)
    requires Buildable(k)
    ensures Cache.ValidOf(c) && fresh(Cache.ReprOf(c))
    ensures CacheBuilt(Cache.ViewOf(c), wanted, k)
  {
    c := null;
    if wanted {
      c := new Cache.LineCache(k.width, k.ways, k.sets, k.base, k.limit);
    }
  }

  /** The timing model of a new machine, with a cache for each that the
      configuration word asks for. */
  method MakeKeeper(waits: int, word: Bits, icfg: CacheConfig, dcfg: CacheConfig) returns (k: Keeper.Keeper)
    requires Buildable(icfg) && Buildable(dcfg)
    ensures k.Valid() && fresh(k.Repr) && k in k.Repr && k.rt in k.Repr && k.waits == waits
    ensures k.View() == InitialClock(k.View().icache, k.View().dcache)
    ensures CacheBuilt(k.View().icache, On(word, CFG_IC), icfg)
    ensures CacheBuilt(k.View().dcache, On(word, CFG_DC), dcfg)
  {
    hide On, CacheBuilt;
    var icache := MakeCache(On(word, CFG_IC), icfg);
    var dcache := MakeCache(On(word, CFG_DC), dcfg);
    k := new Keeper.Keeper(waits, icache, dcache);
  }

  function InitialClock(icache: Option<Cache.Contents>, dcache: Option<Cache.Contents>): Clock {
    Clock(0, seq(NUM_REGS, _ => 0), 0, icache, dcache, false, false, 0)
  }

  /** The configurable bits of CFG. */
  function Configured(word: Bits): Bits {
    Keep(word, 0x03ff_fdf7)
  }

  function RoundedGeometry(bytes: nat, offset: u32, entryPoint: u32): Geometry
    requires 0 < bytes <= 0xffff_fffc
  {
    Words4(bytes, offset);
    Geometry(4 * ((bytes + 3) / 4), offset - offset % 4, entryPoint)
  }

  lemma Words4(bytes: nat, offset: u32)
    ensures (4 * ((bytes + 3) / 4)) % 4 == 0 && (offset - offset % 4) % 4 == 0
  {
    assert offset - offset % 4 == 4 * (offset / 4);
  }

  /** A machine as constructed, around its caches. */
  function InitialMachine(g: Geometry, word: Bits, c: Clock): Machine {
    Machine(
      State(InitialRegisters(g), g.entryPoint, ResetCsrs().(cfg := Configured(word)), Bits(0),
            seq(g.size, _ => 0), Tlb.EmptyMmu()),
      c, 0, 0, 0)
  }

  /** The stack and frame pointers start at the top of memory. */
  function InitialRegisters(g: Geometry): Regs {
    var top := Wrap(g.base + g.size - 4);
    seq(NUM_REGS, i => if i == SP_REG || i == FP_REG then top else 0)
  }

  method MakeRegisters(g: Geometry) returns (r: array<u32>)
    ensures fresh(r) && r.Length == NUM_REGS && r[..] == InitialRegisters(g)
  {
    r := new u32[NUM_REGS](_ => 0);
    r[SP_REG] := Wrap(g.base + g.size - 4);
    r[FP_REG] := r[SP_REG];
  }

  method MakeMemory(g: Geometry) returns (mem: array<u8>)
    ensures fresh(mem) && mem.Length == g.size && mem[..] == seq(g.size, _ => 0)
  {
    mem := new u8[g.size](_ => 0);
    assert mem[..] == seq(g.size, _ => 0);
  }

  /** A read that misses only records its address and raises its flag. */
  lemma MissedRead(g: Geometry, a: State, v: u32, k: Kind)
    requires Placed(g, a.mem)
    ensures ReadMisses(a, v, k) ==>
      ReadMem(g, a, v, k).1 == Raised(a.(mmu := Tlb.AfterLookup(a.mmu, v, !k.Fetch?, false)),
                                      if k.Fetch? then ITLB_MISS else DTLB_MISS)
  {
    hide On, Read, Raised, Watched, Tlb.LookupStatus, Tlb.LookupAddress, Tlb.AfterLookup;
  }

  /** Saving modes does not touch the exception bases or DC. */
  lemma SavedBases(k: Csrs)
    ensures SaveB(k).deba == k.deba && SaveE(k).deba == k.deba && SaveE(k).eba == k.eba && SaveE(k).dc == k.dc
  {
  }

  class Lm32 {
    const g: Geometry
    const r: array<u32>
    var pc: u32
    var csr: Csrs
    var flags: Bits
    const mem: array<u8>
    const mmu: Tlb.MmuUnit
    const clock: Keeper.Keeper
    var clk: int
    var instrs: nat
    var breakPoint: nat

    ghost function Cfg(): Config {
      Config(g, clock.waits)
    }

    /** The objects the machine is made of. */
    ghost const Repr: set<object>

    ghost predicate Valid()
      reads Repr
    {
      && Repr == {this, r, mem} + mmu.Repr + clock.Repr
      && r.Length == NUM_REGS && mem.Length == g.size
      && mmu.Valid() && mmu in mmu.Repr && clock.Valid() && clock in clock.Repr && clock.rt in clock.Repr
      && r !in mmu.Repr && r !in clock.Repr && mem !in mmu.Repr && mem !in clock.Repr
      && this !in mmu.Repr && this !in clock.Repr && mmu.Repr !! clock.Repr
    }

    ghost function ViewA(): State
      requires Valid()
      reads Repr
    {
      State(r[..], pc, csr, flags, mem[..], mmu.View())
    }

    ghost function View(): (m: Machine)
      requires Valid()
      reads Repr
      ensures Sound(Cfg(), m)
    {
      Machine(ViewA(), clock.View(), clk, instrs, breakPoint)
    }

    /** Memory is rounded up to whole words and cleared; a cache is built for
        each that the configuration word asks for.  Registers other than the
        ones reset assigns are cleared here, where the program leaves them
        unset. */
    constructor (bytes: nat, offset: u32, waits: int, entryPoint: u32, word: Bits,
                 icfg: CacheConfig, dcfg: CacheConfig)
      requires 0 < bytes <= 0xffff_fffc && Buildable(icfg) && Buildable(dcfg)
      ensures Valid() && fresh(Repr)
      ensures g == RoundedGeometry(bytes, offset, entryPoint) && clock.waits == waits
      ensures View() == InitialMachine(g, word, clock.View())
      ensures clock.View() == InitialClock(clock.View().icache, clock.View().dcache)
      ensures CacheBuilt(clock.View().icache, On(Configured(word), CFG_IC), icfg)
      ensures CacheBuilt(clock.View().dcache, On(Configured(word), CFG_DC), dcfg)
    {
      hide On, CacheBuilt, Buildable, Cache.ReprOf, Cache.ViewOf, Cache.ValidOf, Configured, ResetCsrs, Tlb.EmptyMmu;
      hide InitialClock, RoundedGeometry, InitialRegisters;
      hide Tlb.MmuUnit.Valid, Tlb.MmuUnit.View, Keeper.Keeper.Valid, Keeper.Keeper.View;
      var keeper := MakeKeeper(waits, Configured(word), icfg, dcfg);
      var unit := new Tlb.MmuUnit();
      var geometry := RoundedGeometry(bytes, offset, entryPoint);
      g := geometry;
      var registers := MakeRegisters(geometry);
      r := registers;
      var ram := MakeMemory(geometry);
      mem := ram;
      mmu, clock := unit, keeper;
      Repr := {this, registers, ram} + unit.Repr + keeper.Repr;
      pc, csr, flags := geometry.entryPoint, ResetCsrs().(cfg := Configured(word)), Bits(0);
      clk, instrs, breakPoint := 0, 0, 0;
    }

    // -------------------------------------------------------------------------
    // Memory
    // -------------------------------------------------------------------------

    /** Flag a watchpoint if an access to p hits an enabled one. */
    method CheckWatch(p: u32, write: bool)
      requires Valid()
      modifies this`flags
      ensures Valid()
      ensures View() == old(View()).(a :=
        if Watched(old(ViewA()), p, write) then Raised(old(ViewA()), WATCHPOINT) else old(ViewA()))
    {
      hide On, Set, Flag, Tlb.MmuUnit.Valid, Tlb.MmuUnit.View, Keeper.Keeper.Valid, Keeper.Keeper.View;
      if On(csr.cfg, CFG_R) {
        if (On(csr.dc, if write then 0x8 else 0x4) && csr.wp[0] == p) ||
           (On(csr.dc, if write then 0x20 else 0x10) && csr.wp[1] == p) ||
           (On(csr.dc, if write then 0x80 else 0x40) && csr.wp[2] == p) ||
           (On(csr.dc, if write then 0x200 else 0x100) && csr.wp[3] == p)
        {
          flags := Set(flags, Flag(WATCHPOINT));
        }
      }
    }

    method RaiseFlag(id: nat)
      requires Valid()
      modifies this`flags
      ensures Valid() && View() == old(View()).(a := Raised(old(ViewA()), id))
    {
      hide Set, Flag, Tlb.MmuUnit.Valid, Tlb.MmuUnit.View, Keeper.Keeper.Valid, Keeper.Keeper.View;
      flags := Set(flags, Flag(id));
    }

    method Translate(v: u32, k: Kind) returns (ok: bool, p: u32)
      requires Valid()
      modifies this`flags, mmu
      ensures Valid()
      ensures ok == !ReadMisses(old(ViewA()), v, k)
      ensures ok ==> p == Physical(old(ViewA()), v, k) && View() == old(View())
      ensures !ok ==> View() == old(View()).(a := ReadMem(g, old(ViewA()), v, k).1)
    {
      Tlb.ReadsNeverFault(mmu.View(), v, !k.Fetch?);
      MissedRead(g, ViewA(), v, k);
      hide ReadMem, Raised, On, Set, Flag, Read, Tlb.LookupStatus, Tlb.LookupAddress, Tlb.AfterLookup, Watched;
      hide Tlb.MmuUnit.Valid, Tlb.MmuUnit.View, Keeper.Keeper.Valid, Keeper.Keeper.View;
      p := v;
      ok := true;
      if k.Fetch? && On(csr.psw, ITLBE) {
        var status, q := mmu.Lookup(v, false, false);
        p := q;
        if status == Tlb.Miss {
          RaiseFlag(ITLB_MISS);
          ok := false;
        }
      } else if !k.Fetch? && On(csr.psw, DTLBE) {
        var status, q := mmu.Lookup(v, true, false);
        p := q;
        if status == Tlb.Miss {
          RaiseFlag(DTLB_MISS);
          ok := false;
        }
      }
    }

    /** lm32_read_mem. */
    method ReadMemory(v: u32, k: Kind) returns (data: u32)
      requires Valid()
      modifies Repr
      ensures Valid()
      ensures data == ReadMem(g, old(ViewA()), v, k).0
      ensures View() == old(View()).(
        a := ReadMem(g, old(ViewA()), v, k).1,
        c := ReadTime(clock.waits, old(clock.View()), old(ViewA()), v, k))
    {
      hide On, Set, Flag, Read, Tlb.Probe, Watched, Timing.Charge, Timing.Settle;
      hide Tlb.MmuUnit.Valid, Tlb.MmuUnit.View, Keeper.Keeper.Valid, Keeper.Keeper.View;
      ghost var a := ViewA();
      var ok, p := Translate(v, k);
      if !ok {
        return 0;
      }
      clock.Settle();
      clock.Charge(k.Fetch?, p);
      var there;
      there, data := LocalRead(g, mem, p, SizeOf(k));
      if !there {
        if !k.Debug? {
          RaiseFlag(if k.Fetch? then IBUSERROR else DBUSERROR);
        }
        return 0;
      }
      CheckWatch(p, false);
    }

    /** The TLB part of a write. */
    method TranslateWrite(v: u32) returns (ok: bool, p: u32)
      requires Valid()
      modifies this`flags, mmu
      ensures Valid()
      ensures ok == (WriteStatus(old(ViewA()), v) == Tlb.Hit)
      ensures ok ==> p == WritePhysical(old(ViewA()), v) && View() == old(View())
      ensures !ok ==> forall sz, d: u32 :: View() == old(View()).(a := WriteMem(g, old(ViewA()), v, sz, d))
    {
      hide On, Set, Flag, Write, Tlb.Probe, Watched;
      hide Tlb.MmuUnit.Valid, Tlb.MmuUnit.View, Keeper.Keeper.Valid, Keeper.Keeper.View;
      p, ok := v, true;
      if On(csr.psw, DTLBE) {
        var status, q := mmu.Lookup(v, true, true);
        p := q;
        if status == Tlb.Miss {
          RaiseFlag(DTLB_MISS);
          ok := false;
        } else if status == Tlb.Fault {
          RaiseFlag(DTLB_FAULT);
          ok := false;
        }
      }
    }

    /** The rest of a write, at its physical address. */
    method StorePhysical(p: u32, data: u32, sz: Size)
      requires Valid()
      modifies this`flags, mem
      ensures Valid()
      ensures var a := old(ViewA());
        View() == old(View()).(a :=
          match Write(g, a.mem, p, sz, data)
          case Some(m) => if Watched(a.(mem := m), p, true) then Raised(a.(mem := m), WATCHPOINT) else a.(mem := m)
          case None => Raised(a, DBUSERROR))
    {
      hide Set, Flag, Write, Watched, Tlb.MmuUnit.Valid, Tlb.MmuUnit.View, Keeper.Keeper.Valid, Keeper.Keeper.View;
      var ok := LocalWrite(g, mem, p, sz, data);
      if ok {
        assert ViewA() == old(ViewA()).(mem := mem[..]);
        CheckWatch(p, true);
      } else {
        RaiseFlag(DBUSERROR);
      }
    }

    /** lm32_write_mem.  Loaders and debuggers write with `free` set, which costs
        no cycles. */
    method WriteMemory(v: u32, data: u32, sz: Size, free: bool)
      requires Valid()
      modifies Repr
      ensures Valid()
      ensures View() == old(View()).(
        a := WriteMem(g, old(ViewA()), v, sz, data),
        c := if free then old(clock.View()) else WriteTime(clock.waits, old(clock.View()), old(ViewA()), v))
    {
      hide Raised, Write, Watched, WriteStatus, WritePhysical, Spend;
      hide Tlb.MmuUnit.Valid, Tlb.MmuUnit.View, Keeper.Keeper.Valid, Keeper.Keeper.View;
      var ok, p := TranslateWrite(v);
      if ok {
        if !free {
          clock.Spend(clock.waits);
        }
        StorePhysical(p, data, sz);
      }
    }

    /** The debugger writing the state back with other breakpoint registers. */
    method SetBreakpoints(bp: Quad)
      requires Valid()
      modifies this`csr
      ensures Valid()
      ensures View() == old(View()).(a := old(ViewA()).(csr := old(csr).(bp := bp)))
    {
      csr := csr.(bp := bp);
    }

    // -------------------------------------------------------------------------
    // Exceptions
    // -------------------------------------------------------------------------

    /** internal_reset_cpu. */
    method ResetCpu()
      requires Valid()
      modifies Repr
      ensures Valid()
      ensures View() == old(View()).(
        a := Reset(g, old(ViewA())), c := ResetTime(old(clock.View())), breakPoint := 0)
    {
      hide Tlb.AfterReset, ResetTime, ResetCsrs;
      hide Tlb.MmuUnit.Valid, Tlb.MmuUnit.View, Keeper.Keeper.Valid, Keeper.Keeper.View;
      ResetMmu();
      ResetRegs();
      ResetControl();
      clock.Reset();
    }

    method ResetMmu()
      requires Valid()
      modifies mmu.Repr
      ensures Valid() && View() == old(View()).(a := old(ViewA()).(mmu := Tlb.AfterReset(old(mmu.View()))))
    {
      hide Tlb.AfterReset, Tlb.MmuUnit.View, Keeper.Keeper.Valid, Keeper.Keeper.View;
      mmu.Reset();
    }

    method ResetControl()
      requires Valid()
      modifies this`pc, this`csr, this`breakPoint
      ensures Valid()
      ensures View() == old(View()).(a := old(ViewA()).(pc := g.entryPoint, csr := ResetCsrs()), breakPoint := 0)
    {
      hide ResetCsrs, Tlb.MmuUnit.Valid, Tlb.MmuUnit.View, Keeper.Keeper.Valid, Keeper.Keeper.View;
      pc := g.entryPoint;
      csr := ResetCsrs();
      breakPoint := 0;
    }

    method ResetRegs()
      requires Valid()
      modifies r
      ensures Valid()
      ensures var top := Wrap(g.base + g.size - 4);
        View() == old(View()).(a := old(ViewA()).(r := old(r[..])[SP_REG := top][FP_REG := top][0 := 0]))
    {
      r[SP_REG] := Wrap(g.base + g.size - 4);
      r[FP_REG] := Wrap(g.base + g.size - 4);
      r[0] := 0;
    }

    /** The part of interrupt() that is particular to breakpoints and
        watchpoints: the pc goes to ba and the modes to the B bank. */
    method SaveInB(id: nat)
      requires Valid()
      modifies this`csr, this`pc, r
      ensures Valid()
      ensures View() == old(View()).(a := old(ViewA()).(
        r := old(r[..])[BA_REG := old(pc)], csr := SaveB(old(csr)), pc := Wrap(old(csr.deba) + 32 * id)))
    {
      hide SaveB, Tlb.MmuUnit.Valid, Tlb.MmuUnit.View, Keeper.Keeper.Valid, Keeper.Keeper.View;
      r[BA_REG] := pc;
      SaveModesInB();
      assert csr.deba == old(csr.deba) by { SavedBases(old(csr)); }
      pc := Wrap(csr.deba + 32 * id);
    }

    method SaveModesInB()
      modifies this`csr
      ensures csr == SaveB(old(csr))
    {
      hide CopyBit, Tlb.MmuUnit.Valid, Tlb.MmuUnit.View, Keeper.Keeper.Valid, Keeper.Keeper.View;
      csr := csr.(ie := CopyBit(csr.ie, IE_IE, IE_BIE));
      csr := csr.(psw := CopyBit(csr.psw, ITLBE, BITLBE));
      csr := csr.(psw := CopyBit(csr.psw, DTLBE, BDTLBE));
      csr := csr.(psw := CopyBit(csr.psw, USR, BUSR));
    }

    method SaveModesInE()
      modifies this`csr
      ensures csr == SaveE(old(csr))
    {
      hide CopyBit, Tlb.MmuUnit.Valid, Tlb.MmuUnit.View, Keeper.Keeper.Valid, Keeper.Keeper.View;
      csr := csr.(psw := CopyBit(csr.psw, ITLBE, EITLBE));
      csr := csr.(psw := CopyBit(csr.psw, DTLBE, EDTLBE));
      csr := csr.(psw := CopyBit(csr.psw, USR, EUSR));
      csr := csr.(ie := CopyBit(csr.ie, IE_IE, IE_EIE));
    }

    /** And for all other exceptions: the restart pc goes to ea and the modes to
        the E bank. */
    method SaveInE(id: nat)
      requires Valid() && !DebugClass(id)
      modifies this`csr, this`pc, r
      ensures Valid()
      ensures View() == old(View()).(a := old(ViewA()).(
        r := old(r[..])[EA_REG := RestartPc(old(ViewA()), id)],
        csr := SaveE(old(csr)), pc := Vector(old(csr), id)))
    {
      hide SaveE, On, Tlb.MmuUnit.Valid, Tlb.MmuUnit.View, Keeper.Keeper.Valid, Keeper.Keeper.View;
      if ITLB_MISS <= id <= DTLB_FAULT {
        pc := Wrap(pc - 4);
      }
      assert pc == RestartPc(old(ViewA()), id);
      SaveModesInE();
      assert View() == old(View()).(a := old(ViewA()).(pc := pc, csr := SaveE(old(csr))));
      WriteReg(EA_REG, pc);
      SavedBases(old(csr));
      GoTo(Wrap((if On(csr.dc, DC_REMAP) then csr.deba else csr.eba) + 32 * id));
    }

    /** Switch to the handler's modes and withdraw the exception's flag. */
    method SwitchModes(id: nat)
      requires Valid()
      modifies this`csr, this`flags
      ensures Valid()
      ensures View() == old(View()).(a := old(ViewA()).(
        csr := HandlerModes(old(csr)), flags := Clear(old(flags), Flag(id))))
    {
      hide Clear, Flag, Tlb.MmuUnit.Valid, Tlb.MmuUnit.View, Keeper.Keeper.Valid, Keeper.Keeper.View;
      csr := csr.(ie := Clear(csr.ie, IE_IE));
      csr := csr.(psw := Clear(csr.psw, MODE_BITS));
      flags := Clear(flags, Flag(id));
    }

    /** interrupt(). */
    method TakeInterrupt(id: nat)
      requires Valid() && id < NUM_EXCEPTIONS
      modifies Repr
      ensures Valid()
      ensures View() == old(View()).(
        a := Interrupt(g, old(ViewA()), id),
        c := if id == RESET then ResetTime(old(clock.View())) else old(clock.View()),
        breakPoint := if id == RESET then 0 else old(breakPoint))
    {
      hide Clear, Flag, Reset, SaveB, SaveE, HandlerModes, On;
      hide Tlb.MmuUnit.Valid, Tlb.MmuUnit.View, Keeper.Keeper.Valid, Keeper.Keeper.View;
      if DebugClass(id) {
        SaveInB(id);
      } else {
        if id == RESET {
          ResetCpu();
        }
        SaveInE(id);
      }
      SwitchModes(id);
    }

    /** Ask the interrupt callback, if there is one and it is due. */
    method PollCallback(ans: Answer) returns (stop: bool)
      requires Valid()
      modifies this`csr, this`flags, clock`wakeup
      ensures Valid()
      ensures stop == Stops(old(View()), ans)
      ensures View() == Polled(old(View()), ans)
    {
      hide On, Set, Clear, Keep, Meet, Flag, InterruptMask, InterruptCount;
      hide Tlb.MmuUnit.Valid, Tlb.MmuUnit.View, Keeper.Keeper.Valid;
      stop := false;
      if ans.Answer? && clock.cycle >= clock.wakeup {
        csr := csr.(ip := Set(csr.ip, Keep(ans.requests, InterruptMask(InterruptCount(csr.cfg))).w));
        clock.SetWakeup(ans.wakeup);
        if clock.wakeup < 0 {
          return true;
        }
        flags := if On(csr.ie, IE_IE) && Meet(csr.ip, csr.im) then Set(flags, Flag(EXTINT))
                 else Clear(flags, Flag(EXTINT));
      }
    }

    /** process_exceptions: ask the callback if it is due, then take the pending
        exception of highest priority.  `known` is false when only flags outside
        the twelve are set, which makes the program exit. */
    method ProcessExceptions(ans: Answer) returns (stop: bool, known: bool)
      requires Valid()
      modifies Repr
      ensures Valid()
      ensures stop == Stops(old(View()), ans)
      ensures !stop ==> known == !Unknown(Polled(old(View()), ans).a)
      ensures View() == if stop || !known then Polled(old(View()), ans)
                        else Entered(Cfg(), Polled(old(View()), ans))
    {
      hide IsZero, Interrupt, Pending, Polled;
      hide Tlb.MmuUnit.Valid, Tlb.MmuUnit.View, Keeper.Keeper.Valid, Keeper.Keeper.View;
      known := true;
      stop := PollCallback(ans);
      if stop {
        known := false;
        return;
      }
      if !IsZero(flags) {
        var id := 0;
        while id < NUM_EXCEPTIONS && !Pending(flags, id)
          invariant 0 <= id <= NUM_EXCEPTIONS
          invariant Highest(flags, 0) == Highest(flags, id)
        {
          id := id + 1;
        }
        assert Highest(flags, 0) == id;
        if id == NUM_EXCEPTIONS {
          known := false;
        } else {
          TakeInterrupt(id);
        }
      }
    }

    // -------------------------------------------------------------------------
    // Instructions, by shape
    // -------------------------------------------------------------------------

    /** lm32_rsrvd, also reached from instructions that are not built in. */
    method Unimplemented(i: Instr)
      requires Valid()
      modifies Repr
      ensures Valid()
      ensures View() == old(View()).(
        a := ExecReserved(old(ViewA())), c := Spend(old(clock.View()), IssueCycles(i)))
    {
      hide Set, Flag, IssueCycles, Tlb.MmuUnit.Valid, Tlb.MmuUnit.View, Keeper.Keeper.Valid, Keeper.Keeper.View;
      RaiseFlag(IBUSERROR);
      pc := Wrap(pc + 4);
      clock.Spend(IssueCycles(i));
    }

    /** The scoreboard part that ends most instructions: stall, note when the
        result is ready, and issue. */
    method IssueWith(stall: int, x: nat, i: Instr)
      requires Valid() && x < NUM_REGS
      modifies clock, clock.rt
      ensures Valid()
      ensures View() == old(View()).(
        c := Spend(Promise(Spend(old(clock.View()), stall), x, ResultCycles(i)), IssueCycles(i)))
    {
      hide ResultCycles, IssueCycles, Tlb.MmuUnit.Valid, Tlb.MmuUnit.View, Keeper.Keeper.Valid, Keeper.Keeper.View;
      clock.Spend(stall);
      clock.Promise(x, ResultCycles(i));
      clock.Spend(IssueCycles(i));
    }

    /** The common ending of instructions with one source and a destination. */
    method Retire(y: nat, x: nat, i: Instr)
      requires Valid() && y < NUM_REGS && x < NUM_REGS
      modifies this`pc, clock, clock.rt
      ensures Valid()
      ensures View() == old(View()).(
        a := Next(old(ViewA())),
        c := Spend(Promise(Spend(old(clock.View()), Stall(old(clock.View()), y)), x, ResultCycles(i)), IssueCycles(i)))
    {
      hide ResultCycles, IssueCycles, Spend, Promise, Stall;
      hide Tlb.MmuUnit.Valid, Tlb.MmuUnit.View, Keeper.Keeper.Valid, Keeper.Keeper.View;
      pc := Wrap(pc + 4);
      var stall := clock.CalcStall(y);
      IssueWith(stall, x, i);
    }

    /** And without a destination. */
    method RetireStore(y: nat, i: Instr)
      requires Valid() && y < NUM_REGS
      modifies this`pc, clock
      ensures Valid()
      ensures View() == old(View()).(
        a := Next(old(ViewA())),
        c := Spend(Spend(old(clock.View()), Stall(old(clock.View()), y)), IssueCycles(i)))
    {
      hide IssueCycles, Spend, Stall, Next;
      hide Tlb.MmuUnit.Valid, Tlb.MmuUnit.View, Keeper.Keeper.Valid, Keeper.Keeper.View;
      Advance();
      var stall := clock.CalcStall(y);
      clock.Spend(stall);
      clock.Spend(IssueCycles(i));
    }

    /** Divisions note their result only if the divisor register, as it is now,
        is not zero. */
    method RetireDivide(i: Instr)
      requires Valid() && i.Divide? && Fields(i)
      modifies this`pc, clock, clock.rt
      ensures Valid()
      ensures var d := Spend(old(clock.View()), Stall2(old(clock.View()), i.y, i.z));
        View() == old(View()).(
          a := Next(old(ViewA())),
          c := Spend(if old(r[i.z]) != 0 then Promise(d, i.x, ResultCycles(i)) else d, IssueCycles(i)))
    {
      hide ResultCycles, IssueCycles, Spend, Promise, Stall2, Next;
      hide Tlb.MmuUnit.Valid, Tlb.MmuUnit.View, Keeper.Keeper.Valid, Keeper.Keeper.View;
      Advance();
      IssueDivide(i);
    }

    method IssueDivide(i: Instr)
      requires Valid() && i.Divide? && Fields(i)
      modifies clock, clock.rt
      ensures Valid()
      ensures var d := Spend(old(clock.View()), Stall2(old(clock.View()), i.y, i.z));
        View() == old(View()).(c := Spend(if r[i.z] != 0 then Promise(d, i.x, ResultCycles(i)) else d, IssueCycles(i)))
    {
      hide ResultCycles, IssueCycles, Spend, Promise, Stall2;
      hide Tlb.MmuUnit.Valid, Tlb.MmuUnit.View, Keeper.Keeper.Valid, Keeper.Keeper.View;
      var stall := clock.CalcStall2(i.y, i.z);
      clock.Spend(stall);
      if r[i.z] != 0 {
        clock.Promise(i.x, ResultCycles(i));
      }
      clock.Spend(IssueCycles(i));
    }

    /** Write the result and retire. */
    method Complete(y: nat, x: nat, v: u32, i: Instr)
      requires Valid() && y < NUM_REGS && x < NUM_REGS
      modifies this`pc, r, clock, clock.rt
      ensures Valid()
      ensures View() == old(View()).(
        a := Next(SetReg(old(ViewA()), x, v)),
        c := Spend(Promise(Spend(old(clock.View()), Stall(old(clock.View()), y)), x, ResultCycles(i)), IssueCycles(i)))
    {
      hide ResultCycles, IssueCycles, Spend, Promise, Stall;
      hide Tlb.MmuUnit.Valid, Tlb.MmuUnit.View, Keeper.Keeper.Valid, Keeper.Keeper.View;
      r[x] := v;
      assert ViewA() == SetReg(old(ViewA()), x, v) && clock.View() == old(clock.View());
      Retire(y, x, i);
    }

    method WriteReg(x: nat, v: u32)
      requires Valid() && x < NUM_REGS
      modifies r
      ensures Valid() && View() == old(View()).(a := SetReg(old(ViewA()), x, v))
    {
      r[x] := v;
    }

    method Advance()
      requires Valid()
      modifies this`pc
      ensures Valid() && View() == old(View()).(a := Next(old(ViewA())))
    {
      pc := Wrap(pc + 4);
    }

    method Alu(i: Instr) returns (o: Outcome)
      requires Valid() && (i.AluRR? || i.AluRI?) && Fields(i)
      modifies Repr
      ensures Valid() && (View(), o) == Executed(Cfg(), old(View()), i)
    {
      hide AluValue, AluDefined, ResultCycles, IssueCycles, Executed, ExecReserved, Spend, Promise, Next, SetReg;
      hide Stall, Stall2;
      hide Tlb.MmuUnit.Valid, Tlb.MmuUnit.View, Keeper.Keeper.Valid, Keeper.Keeper.View;
      AluExecuted(Cfg(), View(), i);
      o := Completes;
      var built := BuiltIn(i.op);
      if !built {
        Unimplemented(i);
        return;
      }
      var v := if i.AluRR? then r[i.z] else i.k;
      if !AluDefined(i.op, v) {
        return Undefined;
      }
      WriteReg(i.x, AluValue(i.op, r[i.y], v));
      Advance();
      var stall;
      if i.AluRR? {
        stall := clock.CalcStall2(i.y, i.z);
      } else {
        stall := clock.CalcStall(i.y);
      }
      IssueWith(stall, i.x, i);
    }

    method BuiltIn(op: AluOp) returns (b: bool)
      requires Valid()
      ensures b == AluPresent(ViewA(), op)
    {
      hide On, Tlb.MmuUnit.Valid, Tlb.MmuUnit.View, Keeper.Keeper.Valid, Keeper.Keeper.View;
      b := !(op == Mul && !On(csr.cfg, CFG_M)) && !(ShiftOp(op) && !On(csr.cfg, CFG_S));
    }

    /** Divisions and remainders.  The divisor register is looked at again after
        the result has been written. */
    method DivideOp(i: Instr) returns (o: Outcome)
      requires Valid() && i.Divide? && Fields(i)
      modifies Repr
      ensures Valid() && (View(), o) == Executed(Cfg(), old(View()), i)
    {
      hide On, Set, Flag, DivValue, DivDefined, ResultCycles, IssueCycles, Executed, ExecReserved, Spend, Promise;
      hide Stall, Stall2;
      hide Tlb.MmuUnit.Valid, Tlb.MmuUnit.View, Keeper.Keeper.Valid, Keeper.Keeper.View;
      DivideExecuted(Cfg(), View(), i);
      o := Completes;
      if !On(csr.cfg, CFG_D) {
        Unimplemented(i);
        return;
      }
      var u, v := r[i.y], r[i.z];
      if v == 0 {
        RaiseFlag(DIVZERO);
      } else if !DivDefined(i.div, u, v) {
        return Undefined;
      } else {
        WriteReg(i.x, DivValue(i.div, u, v));
      }
      RetireDivide(i);
    }

    method SignExtend(i: Instr) returns (o: Outcome)
      requires Valid() && i.Sext? && Fields(i)
      modifies Repr
      ensures Valid() && (View(), o) == Executed(Cfg(), old(View()), i)
    {
      hide On, SextValue, ResultCycles, IssueCycles, Executed, ExecReserved, Spend, Promise, Next, SetReg, Stall;
      hide Tlb.MmuUnit.Valid, Tlb.MmuUnit.View, Keeper.Keeper.Valid, Keeper.Keeper.View;
      SextExecuted(Cfg(), View(), i);
      o := Completes;
      if !On(csr.cfg, CFG_X) {
        Unimplemented(i);
        return;
      }
      Complete(i.y, i.x, SextValue(i.half, r[i.y]), i);
    }

    /** The data of a load.  The signed ones read twice: the macro that extends
        the sign evaluates its argument, the memory access, twice. */
    method LoadData(v: u32, sz: Size, signed: bool) returns (data: u32)
      requires Valid()
      modifies Repr
      ensures Valid()
      ensures var (d1, a1) := ReadMem(g, old(ViewA()), v, Data(sz));
        var c1 := ReadTime(clock.waits, old(clock.View()), old(ViewA()), v, Data(sz));
        var (d2, a2) := ReadMem(g, a1, v, Data(sz));
        && data == (if signed then Extended(sz, d1, d2) else d1)
        && View() == old(View()).(
             a := if signed then a2 else a1,
             c := if signed then ReadTime(clock.waits, c1, a1, v, Data(sz)) else c1)
    {
      hide ReadMem, ReadTime, Extended, Tlb.MmuUnit.Valid, Tlb.MmuUnit.View, Keeper.Keeper.Valid, Keeper.Keeper.View;
      data := ReadMemory(v, Data(sz));
      if signed {
        var again := ReadMemory(v, Data(sz));
        data := Extended(sz, data, again);
      }
    }

    method LoadOp(i: Instr) returns (o: Outcome)
      requires Valid() && i.Load? && Fields(i)
      modifies Repr
      ensures Valid() && (View(), o) == Executed(Cfg(), old(View()), i)
    {
      hide ReadMem, ReadTime, Extended, ResultCycles, IssueCycles, Executed, Spend, Promise, Next, SetReg, Stall;
      hide Wrap;
      hide Tlb.MmuUnit.Valid, Tlb.MmuUnit.View, Keeper.Keeper.Valid, Keeper.Keeper.View;
      LoadExecuted(Cfg(), View(), i);
      o := Completes;
      var data := LoadData(Wrap(r[i.y] + i.k), i.size, i.signed);
      ghost var n := View();
      Complete(i.y, i.x, data, i);
      assert View() == n.(
        a := Next(SetReg(n.a, i.x, data)),
        c := Spend(Promise(Spend(n.c, Stall(n.c, i.y)), i.x, ResultCycles(i)), IssueCycles(i)));
    }

    method StoreOp(i: Instr) returns (o: Outcome)
      requires Valid() && i.Store? && Fields(i)
      modifies Repr
      ensures Valid() && (View(), o) == Executed(Cfg(), old(View()), i)
    {
      hide WriteMem, WriteTime, ResultCycles, IssueCycles, Executed, Spend, Next, Stall, Modulus;
      hide Tlb.MmuUnit.Valid, Tlb.MmuUnit.View, Keeper.Keeper.Valid, Keeper.Keeper.View;
      StoreExecuted(Cfg(), View(), i);
      o := Completes;
      WriteMemory(Wrap(r[i.y] + i.k), r[i.z] % Modulus(i.size), i.size, false);
      RetireStore(i.y, i);
    }

    method BranchOp(i: Instr) returns (o: Outcome)
      requires Valid() && i.Branch? && Fields(i)
      modifies Repr
      ensures Valid() && (View(), o) == Executed(Cfg(), old(View()), i)
    {
      hide Taken, IssueCycles, Executed, Spend, Stall2;
      hide Tlb.MmuUnit.Valid, Tlb.MmuUnit.View, Keeper.Keeper.Valid, Keeper.Keeper.View;
      BranchExecuted(Cfg(), View(), i);
      o := Completes;
      var taken := Taken(i.cond, r[i.y], r[i.z]);
      GoTo(Wrap(pc + (if taken then i.k else 4)));
      StallAndSpend(i.y, i.z, if taken then IssueCycles(i) else NOT_TAKEN_CYCLES);
    }

    method GoTo(target: u32)
      requires Valid()
      modifies this`pc
      ensures Valid() && View() == old(View()).(a := old(ViewA()).(pc := target))
    {
      pc := target;
    }

    /** The timing of an instruction with two sources and no result. */
    method StallAndSpend(y: nat, z: nat, n: nat)
      requires Valid() && y < NUM_REGS && z < NUM_REGS
      modifies clock.Repr
      ensures Valid()
      ensures View() == old(View()).(c := Spend(Spend(old(clock.View()), Stall2(old(clock.View()), y, z)), n))
    {
      hide Spend, Stall2, Tlb.MmuUnit.Valid, Tlb.MmuUnit.View, Keeper.Keeper.Valid, Keeper.Keeper.View;
      var stall := clock.CalcStall2(y, z);
      clock.Spend(stall);
      clock.Spend(n);
    }

    /** `bi`; the register fields of its word are immediate bits, but they are
        looked up in the scoreboard all the same. */
    method JumpOp(i: Instr) returns (o: Outcome)
      requires Valid() && i.Jump? && Fields(i)
      modifies Repr
      ensures Valid() && (View(), o) == Executed(Cfg(), old(View()), i)
    {
      hide IssueCycles, Executed, Spend, Stall2;
      hide Tlb.MmuUnit.Valid, Tlb.MmuUnit.View, Keeper.Keeper.Valid, Keeper.Keeper.View;
      FlowExecuted(Cfg(), View(), i);
      o := Completes;
      GoTo(Wrap(pc + i.k));
      StallAndSpend(i.y, i.z, IssueCycles(i));
    }

    /** `b`, `eret` and `bret`. */
    method JumpRegOp(i: Instr) returns (o: Outcome)
      requires Valid() && i.JumpReg? && Fields(i)
      modifies Repr
      ensures Valid() && (View(), o) == Executed(Cfg(), old(View()), i)
    {
      hide On, Set, Flag, RestoreB, RestoreE, IssueCycles, Executed, Spend;
      hide Tlb.MmuUnit.Valid, Tlb.MmuUnit.View, Keeper.Keeper.Valid, Keeper.Keeper.View;
      FlowExecuted(Cfg(), View(), i);
      o := Completes;
      if On(csr.psw, USR) && (i.y == BA_REG || i.y == EA_REG) {
        RaiseFlag(PRIV_ACCESS);
        return;
      }
      if i.y == BA_REG {
        RestoreModesFromB();
      } else if i.y == EA_REG {
        RestoreModesFromE();
      }
      pc := r[i.y];
      clock.Spend(IssueCycles(i));
    }

    method RestoreModesFromB()
      modifies this`csr
      ensures csr == RestoreB(old(csr))
    {
      hide CopyBit, Tlb.MmuUnit.Valid, Tlb.MmuUnit.View, Keeper.Keeper.Valid, Keeper.Keeper.View;
      csr := csr.(ie := CopyBit(csr.ie, IE_BIE, IE_IE));
      csr := csr.(psw := CopyBit(csr.psw, BITLBE, ITLBE));
      csr := csr.(psw := CopyBit(csr.psw, BDTLBE, DTLBE));
      csr := csr.(psw := CopyBit(csr.psw, BUSR, USR));
    }

    method RestoreModesFromE()
      modifies this`csr
      ensures csr == RestoreE(old(csr))
    {
      hide CopyBit, Tlb.MmuUnit.Valid, Tlb.MmuUnit.View, Keeper.Keeper.Valid, Keeper.Keeper.View;
      csr := csr.(ie := CopyBit(csr.ie, IE_EIE, IE_IE));
      csr := csr.(psw := CopyBit(csr.psw, EITLBE, ITLBE));
      csr := csr.(psw := CopyBit(csr.psw, EDTLBE, DTLBE));
      csr := csr.(psw := CopyBit(csr.psw, EUSR, USR));
    }

    /** `call` writes the link register before it reads its target. */
    method CallOp(i: Instr) returns (o: Outcome)
      requires Valid() && (i.Call? || i.CallI?) && Fields(i)
      modifies Repr
      ensures Valid() && (View(), o) == Executed(Cfg(), old(View()), i)
    {
      hide ResultCycles, IssueCycles, Executed, Spend, Promise, Stall;
      hide Tlb.MmuUnit.Valid, Tlb.MmuUnit.View, Keeper.Keeper.Valid, Keeper.Keeper.View;
      CallExecuted(Cfg(), View(), i);
      o := Completes;
      r[RA_REG] := Wrap(pc + 4);
      var stall := 0;
      if i.Call? {
        pc := r[i.y];
        stall := clock.CalcStall(i.y);
      } else {
        pc := Wrap(pc + i.k);
      }
      IssueWith(stall, RA_REG, i);
    }

    method RaiseOp(i: Instr) returns (o: Outcome)
      requires Valid() && i.Raise? && Fields(i)
      modifies Repr
      ensures Valid() && (View(), o) == Executed(Cfg(), old(View()), i)
    {
      hide On, Set, Flag, IssueCycles, Executed, Spend;
      hide Tlb.MmuUnit.Valid, Tlb.MmuUnit.View, Keeper.Keeper.Valid, Keeper.Keeper.View;
      FlowExecuted(Cfg(), View(), i);
      o := Completes;
      if i.kind == BreakCall {
        if On(csr.cfg, CFG_G) {
          RaiseFlag(BREAKPOINT);
        }
      } else if i.kind == SystemCall {
        RaiseFlag(SYSCALL);
      }
      clock.Spend(IssueCycles(i));
    }

    method ReadCsr(i: Instr) returns (o: Outcome)
      requires Valid() && i.Rcsr? && Fields(i)
      modifies Repr
      ensures Valid() && (View(), o) == Executed(Cfg(), old(View()), i)
    {
      hide On, CsrValue, Trimmed, ResultCycles, IssueCycles, Executed, Spend, Promise, ReadableCsr, Next, SetReg;
      hide Tlb.MmuUnit.Valid, Tlb.MmuUnit.View, Keeper.Keeper.Valid, Keeper.Keeper.View;
      CsrExecuted(Cfg(), View(), i);
      o := Completes;
      var ok, value := ReadSwitch(i.csr);
      if !ok {
        return Exits;
      }
      PutCsr(i.csr);
      WriteReg(i.x, value);
      Advance();
      RetireCsr(i.x, i);
    }

    /** The switch of rcsr, for the word read; `ok` is false on an unknown CSR. */
    method ReadSwitch(n: nat) returns (ok: bool, v: u32)
      requires Valid()
      ensures ok == ReadableCsr(n)
      ensures ok ==> v == CsrValue(ViewA(), n, CycleCounter(clock.View()))
    {
      hide On, Set, Implemented, BreakpointCount, WatchpointCount;
      ok, v := true, 0;
      match n {
        case 0 => v := FromBits(csr.ie);
        case 1 => v := FromBits(csr.im);
        case 2 => v := FromBits(csr.ip);
        case 3 => v := 0;
        case 4 => v := 0;
        case 5 => v := if On(csr.cfg, CFG_CC) then Wrap(clock.cycle + clock.ccAdjust) else 0;
        case 6 => v := FromBits(csr.cfg);
        case 7 => v := csr.eba;
        case 8 => v := FromBits(csr.dc);
        case 9 => v := csr.deba;
        case 10 => v := csr.cfg2;
        case 14 => v := if On(csr.cfg, CFG_J) then csr.jtx % 0x200 else 0;
        case 15 => v := if On(csr.cfg, CFG_J) then csr.jrx % 0x200 else 0;
        case 16 => v := if Implemented(BreakpointCount(csr.cfg), 0) then csr.bp[0] else 0;
        case 17 => v := if Implemented(BreakpointCount(csr.cfg), 1) then csr.bp[1] else 0;
        case 18 => v := if Implemented(BreakpointCount(csr.cfg), 2) then csr.bp[2] else 0;
        case 19 => v := if Implemented(BreakpointCount(csr.cfg), 3) then csr.bp[3] else 0;
        case 24 => v := if Implemented(WatchpointCount(csr.cfg), 0) then csr.wp[0] else 0;
        case 25 => v := if Implemented(WatchpointCount(csr.cfg), 1) then csr.wp[1] else 0;
        case 26 => v := if Implemented(WatchpointCount(csr.cfg), 2) then csr.wp[2] else 0;
        case 27 => v := if Implemented(WatchpointCount(csr.cfg), 3) then csr.wp[3] else 0;
        case 29 => v := FromBits(Set(csr.psw, csr.ie.w));
        case 30 => v := mmu.tlbvaddr;
        case 31 => v := mmu.tlbbadvaddr;
        case _ => ok := false;
      }
    }

    /** The JTAG registers are trimmed when they are read. */
    method PutCsr(n: nat)
      requires Valid()
      modifies this`csr
      ensures Valid() && View() == old(View()).(a := old(ViewA()).(csr := Trimmed(old(csr), n)))
    {
      hide On, Tlb.MmuUnit.Valid, Tlb.MmuUnit.View, Keeper.Keeper.Valid, Keeper.Keeper.View;
      if On(csr.cfg, CFG_J) {
        if n == CSR_JTX {
          csr := csr.(jtx := csr.jtx % 0x200);
        } else if n == CSR_JRX {
          csr := csr.(jrx := csr.jrx % 0x200);
        }
      }
    }

    /** The timing of an instruction with a result and no operands. */
    method RetireCsr(x: nat, i: Instr)
      requires Valid() && x < NUM_REGS
      modifies clock, clock.rt
      ensures Valid()
      ensures View() == old(View()).(c := Spend(Promise(old(clock.View()), x, ResultCycles(i)), IssueCycles(i)))
    {
      hide ResultCycles, IssueCycles, Spend, Promise;
      hide Tlb.MmuUnit.Valid, Tlb.MmuUnit.View, Keeper.Keeper.Valid, Keeper.Keeper.View;
      clock.Promise(x, ResultCycles(i));
      clock.Spend(IssueCycles(i));
    }

    method WriteCsr(i: Instr) returns (o: Outcome)
      requires Valid() && i.Wcsr? && Fields(i)
      modifies Repr
      ensures Valid() && (View(), o) == Executed(Cfg(), old(View()), i)
    {
      hide On, Set, Flag, CsrWritten, WcsrTime, IssueCycles, Executed, Spend;
      hide Tlb.MmuUnit.Valid, Tlb.MmuUnit.View, Keeper.Keeper.Valid, Keeper.Keeper.View;
      CsrExecuted(Cfg(), View(), i);
      o := Completes;
      if On(csr.psw, USR) {
        RaiseFlag(PRIV_ACCESS);
        return;
      }
      if !ReadableCsr(i.csr) {
        return Exits;
      }
      var w := r[i.z];
      StoreCsr(i.csr, w);
      clock.WriteCsr(i.csr, w);
      clock.Spend(IssueCycles(i));
    }

    /** The effect of wcsr on the registers and the TLBs. */
    method StoreCsr(n: nat, w: u32)
      requires Valid() && ReadableCsr(n)
      modifies this`csr, this`pc, mmu.Repr
      ensures Valid() && View() == old(View()).(a := Next(CsrWritten(old(ViewA()), n, w).value))
    {
      hide CsrsWritten, Tlb.AfterVaddrWrite, Tlb.AfterPaddrWrite, ReadableCsr;
      hide Tlb.MmuUnit.View, Keeper.Keeper.Valid, Keeper.Keeper.View;
      WriteSwitch(n, w);
      if n == CSR_TLBVADDR {
        mmu.VaddrUpdate(w);
      } else if n == CSR_TLBPADDR {
        mmu.PaddrUpdate(w);
      }
      assert ViewA() == CsrWritten(old(ViewA()), n, w).value && clock.View() == old(clock.View());
      hide CsrWritten, Next;
      Advance();
    }

    /** The switch of wcsr, as far as the registers kept here are concerned. */
    method WriteSwitch(n: nat, w: u32)
      modifies this`csr
      ensures csr == CsrsWritten(old(csr), n, w)
    {
      hide On, Keep, Clear, ToBits, Implemented, InterruptCount, BreakpointCount, InterruptMask;
      hide Tlb.MmuUnit.Valid, Tlb.MmuUnit.View, Keeper.Keeper.Valid, Keeper.Keeper.View;
      match n {
        case 0 => csr := csr.(ie := Keep(ToBits(w), 0x7));
        case 1 =>
          var lines := InterruptCount(csr.cfg);
          if Implemented(lines, 0) {
            csr := csr.(im := Keep(ToBits(w), InterruptMask(lines)));
          }
        case 2 => csr := csr.(ip := Clear(csr.ip, ToBits(w).w));
        case 7 => csr := csr.(eba := w - w % 0x100);
        case 8 => csr := csr.(dc := ToBits(w));
        case 9 => csr := csr.(deba := w - w % 0x100);
        case 14 =>
          if On(csr.cfg, CFG_J) {
            csr := csr.(jtx := w % 0x100);
          }
        case 16 => SetBp(0, w);
        case 17 => SetBp(1, w);
        case 18 => SetBp(2, w);
        case 19 => SetBp(3, w);
        case 24 => SetWp(0, w);
        case 25 => SetWp(1, w);
        case 26 => SetWp(2, w);
        case 27 => SetWp(3, w);
        case 29 =>
          csr := csr.(psw := Clear(ToBits(w), 0x7));
          csr := csr.(ie := Keep(ToBits(w), 0x7));
        case _ =>
      }
    }

    method SetBp(i: nat, w: u32)
      requires i < 4
      modifies this`csr
      ensures csr == WithBreakpoint(old(csr), i, w)
    {
      hide Implemented, BreakpointCount, Tlb.MmuUnit.Valid, Tlb.MmuUnit.View, Keeper.Keeper.Valid, Keeper.Keeper.View;
      var value := if Implemented(BreakpointCount(csr.cfg), i) then w - 2 * (w / 2 % 2) else 0;
      csr := csr.(bp := csr.bp[i := value]);
    }

    method SetWp(i: nat, w: u32)
      requires i < 4
      modifies this`csr
      ensures csr == WithWatchpoint(old(csr), i, w)
    {
      hide Implemented, BreakpointCount, Tlb.MmuUnit.Valid, Tlb.MmuUnit.View, Keeper.Keeper.Valid, Keeper.Keeper.View;
      var value := if Implemented(BreakpointCount(csr.cfg), i) then w else 0;
      csr := csr.(wp := csr.wp[i := value]);
    }

    // -------------------------------------------------------------------------
    // One instruction, and the run loop
    // -------------------------------------------------------------------------

    /** The jump through the instruction table. */
    method Execute(i: Instr) returns (o: Outcome)
      requires Valid() && Fields(i)
      modifies Repr
      ensures Valid() && (View(), o) == Executed(Cfg(), old(View()), i)
    {
      hide Executed, Tlb.MmuUnit.Valid, Tlb.MmuUnit.View, Keeper.Keeper.Valid, Keeper.Keeper.View;
      match i
      case AluRR(_, _, _, _) => o := Alu(i);
      case AluRI(_, _, _, _) => o := Alu(i);
      case Divide(_, _, _, _) => o := DivideOp(i);
      case Sext(_, _, _) => o := SignExtend(i);
      case Load(_, _, _, _, _) => o := LoadOp(i);
      case Store(_, _, _, _) => o := StoreOp(i);
      case Branch(_, _, _, _) => o := BranchOp(i);
      case Jump(_, _, _) => o := JumpOp(i);
      case JumpReg(_) => o := JumpRegOp(i);
      case Call(_) => o := CallOp(i);
      case CallI(_) => o := CallOp(i);
      case Rcsr(_, _) => o := ReadCsr(i);
      case Wcsr(_, _) => o := WriteCsr(i);
      case Raise(_) => o := RaiseOp(i);
      case Reserved =>
        FlowExecuted(Cfg(), View(), i);
        Unimplemented(i);
        o := Completes;
    }

    method CheckHwBreakpoints()
      requires Valid()
      modifies this`flags
      ensures Valid() && View() == old(View()).(a := CheckBreakpoint(old(ViewA())))
    {
      hide On, Raised, Tlb.MmuUnit.Valid, Tlb.MmuUnit.View, Keeper.Keeper.Valid, Keeper.Keeper.View;
      if On(csr.cfg, CFG_R) {
        if (csr.bp[0] % 2 == 1 && csr.bp[0] - csr.bp[0] % 4 == pc) ||
           (csr.bp[1] % 2 == 1 && csr.bp[1] - csr.bp[1] % 4 == pc) ||
           (csr.bp[2] % 2 == 1 && csr.bp[2] - csr.bp[2] % 4 == pc) ||
           (csr.bp[3] % 2 == 1 && csr.bp[3] - csr.bp[3] % 4 == pc)
        {
          RaiseFlag(BREAKPOINT);
        }
      }
    }

    /** execute_instruction. */
    method ExecuteInstruction(ans: Answer) returns (end: End)
      requires Valid()
      modifies Repr
      ensures Valid() && StepResult(View(), end) == Step(Cfg(), old(View()), ans)
    {
      hide Polled, Entered, Unknown, Stops, CheckBreakpoint, ReadMem, ReadTime, Executed, Decode;
      hide Tlb.MmuUnit.Valid, Tlb.MmuUnit.View, Keeper.Keeper.Valid, Keeper.Keeper.View;
      var stop, known := ProcessExceptions(ans);
      if stop {
        return Terminated;
      }
      if !known {
        return Exited;
      }
      ghost var m := View();
      CheckHwBreakpoints();
      assert ViewA().pc == m.a.pc by { BreakpointKeepsPc(m.a); }
      var w := ReadMemory(pc, Fetch);
      assert (w, View()) == Fetched(Cfg(), m);
      var o := Execute(Decode(w));
      end := match o case Completes => Ran(w) case Exits => Exited case Undefined => Undefd;
    }

    /** What the loop does before an instruction, and after it. */
    method Prepare(s: Setup)
      requires Valid()
      modifies this`clk, this`breakPoint
      ensures Valid() && View() == Prepared(s, old(View()))
    {
      if s.mode == Tick {
        breakPoint := TICK_BREAK;
      } else {
        clk := clock.cycle;
      }
    }

    /** The break conditions, in the order in which the loop tests them. */
    method FindBreak(s: Setup, end: End) returns (code: nat)
      requires Valid()
      ensures code == BreakAfter(s, View(), end)
    {
      hide Pending, AtBreakAddress, Tlb.MmuUnit.Valid, Tlb.MmuUnit.View, Keeper.Keeper.Valid;
      code := 0;
      if s.lockBreak && end.Ran? && LockWord(end.word) {
        code := LOCK_BREAK;
      } else if (AtBreakAddress(s, pc) || (s.cycles != FOREVER && clock.cycle >= s.cycles) || end.Terminated?)
                && breakPoint == 0
      {
        code := USER_BREAK;
      } else if s.hwBreak && Pending(flags, BREAKPOINT) {
        code := HW_BREAKPOINT_BREAK;
      } else if s.hwBreak && Pending(flags, WATCHPOINT) {
        code := HW_WATCHPOINT_BREAK;
      } else if s.intBreak && Pending(flags, EXTINT) {
        code := INT_BREAK;
      } else if Pending(flags, DIVZERO) {
        code := DIV_ZERO_BREAK;
      } else if Pending(flags, IBUSERROR) || Pending(flags, DBUSERROR) {
        code := BUS_ERROR_BREAK;
      } else if s.resetBreak && Pending(flags, RESET) {
        code := RESET_BREAK;
      } else if s.mode == SingleStep {
        code := SINGLE_STEP_BREAK;
      }
    }

    method Finish(s: Setup, end: End) returns (code: nat)
      requires Valid()
      modifies this`instrs, this`breakPoint
      ensures Valid()
      ensures var n := Counted(old(View()));
        code == BreakAfter(s, n, end) && View() == if code != 0 then n.(breakPoint := code) else n
    {
      hide BreakAfter, Tlb.MmuUnit.Valid, Tlb.MmuUnit.View, Keeper.Keeper.Valid, Keeper.Keeper.View;
      instrs := instrs + 1;
      code := FindBreak(s, end);
      if code != 0 {
        breakPoint := code;
      }
    }

    /** One execution of the loop body. */
    method Iterate(s: Setup, ans: Answer) returns (stop: bool, status: Status)
      requires Valid()
      modifies Repr
      ensures Valid()
      ensures var e := Step(Cfg(), Prepared(s, old(View())), ans);
        var n := Counted(e.m);
        var code := BreakAfter(s, n, e.end);
        if e.end.Exited? || e.end.Undefd? then stop && status == Halted(e.end) && View() == e.m
        else if code != 0 then stop && status == Returned(code) && View() == n.(breakPoint := code)
        else !stop && View() == n
    {
      hide Step, BreakAfter, Prepared, Tlb.MmuUnit.Valid, Tlb.MmuUnit.View, Keeper.Keeper.Valid, Keeper.Keeper.View;
      Prepare(s);
      var end := ExecuteInstruction(ans);
      if end.Exited? || end.Undefd? {
        return true, Halted(end);
      }
      var code := Finish(s, end);
      stop, status := code != 0, Returned(code);
    }

    /** lm32_run_program, with the answers that the interrupt callback will give
        in `script`. */
    method RunProgram(s: Setup, script: seq<Answer>) returns (status: Status, used: nat)
      requires Valid()
      modifies Repr
      ensures Valid() && RunResult(View(), status, used) == RunLoop.Call(Cfg(), s, old(View()), script)
    {
      hide Step, BreakAfter, Loop, Tlb.MmuUnit.Valid, Tlb.MmuUnit.View, Keeper.Keeper.Valid;
      breakPoint := 0;
      used := 0;
      ghost var whole := Loop(Cfg(), s, View(), script);
      assert script[0..] == script;
      while (s.cycles == FOREVER || clock.cycle < s.cycles) && breakPoint == 0
        invariant Valid() && used <= |script|
        invariant whole == After(Loop(Cfg(), s, View(), script[used..]), used)
        decreases |script| - used
      {
        ghost var m := View();
        LoopUnfolds(Cfg(), s, m, script[used..]);
        if s.mode == Tick && clk < clock.cycle {
          clk := clk + 1;
          return Returned(TICK_BREAK), used;
        }
        if used == |script| {
          return Suspended, used;
        }
        assert script[used..][0] == script[used] && script[used..][1..] == script[used + 1..];
        var stop;
        stop, status := Iterate(s, script[used]);
        used := used + 1;
        if stop {
          return;
        }
      }
      LoopUnfolds(Cfg(), s, View(), script[used..]);
      status := Returned(breakPoint);
    }
  }

  // ---------------------------------------------------------------------------
  // What Executed means for each shape
  // ---------------------------------------------------------------------------

  lemma AluExecuted(cfg: Config, m: Machine, i: Instr)
    requires Sound(cfg, m) && (i.AluRR? || i.AluRI?) && Fields(i)
    ensures Executed(cfg, m, i) ==
      var v := if i.AluRR? then m.a.r[i.z] else i.k;
      var stall := if i.AluRR? then Stall2(m.c, i.y, i.z) else Stall(m.c, i.y);
      if !AluPresent(m.a, i.op) then
        (m.(a := ExecReserved(m.a), c := Spend(m.c, IssueCycles(i))), Completes)
      else if !AluDefined(i.op, v) then (m, Undefined)
      else
        (m.(a := Next(SetReg(m.a, i.x, AluValue(i.op, m.a.r[i.y], v))),
            c := Spend(Promise(Spend(m.c, stall), i.x, ResultCycles(i)), IssueCycles(i))), Completes)
  {
    hide AluValue, AluDefined, AluPresent, ExecReserved, ResultCycles, IssueCycles;
  }

  /** A result seen from `n` answers earlier. */
  ghost function After(q: RunResult, n: nat): RunResult {
    RunResult(q.m, q.status, n + q.used)
  }

  lemma LoopUnfolds(cfg: Config, s: Setup, m: Machine, script: seq<Answer>)
    requires Sound(cfg, m)
    ensures var q := Loop(cfg, s, m, script);
      if !GoesOn(s, m) then q == RunResult(m, Returned(m.breakPoint), 0)
      else if OnlyTicks(s, m) then q == RunResult(m.(clk := m.clk + 1), Returned(TICK_BREAK), 0)
      else if script == [] then q == RunResult(m, Suspended, 0)
      else
        var e := Step(cfg, Prepared(s, m), script[0]);
        var n := Counted(e.m);
        if e.end.Exited? || e.end.Undefd? then q == RunResult(e.m, Halted(e.end), 1)
        else if BreakAfter(s, n, e.end) != 0 then
          q == RunResult(n.(breakPoint := BreakAfter(s, n, e.end)), Returned(BreakAfter(s, n, e.end)), 1)
        else q == After(Loop(cfg, s, n, script[1..]), 1)
  {
    hide Step, BreakAfter;
  }

  lemma DivideExecuted(cfg: Config, m: Machine, i: Instr)
    requires Sound(cfg, m) && i.Divide? && Fields(i)
    ensures Executed(cfg, m, i) ==
      var u, v := m.a.r[i.y], m.a.r[i.z];
      if !Has(m.a, CFG_D) then (m.(a := ExecReserved(m.a), c := Spend(m.c, IssueCycles(i))), Completes)
      else if v != 0 && !DivDefined(i.div, u, v) then (m, Undefined)
      else
        var b := Next(if v == 0 then Raised(m.a, DIVZERO) else SetReg(m.a, i.x, DivValue(i.div, u, v)));
        var d := Spend(m.c, Stall2(m.c, i.y, i.z));
        (m.(a := b, c := Spend(if b.r[i.z] != 0 then Promise(d, i.x, ResultCycles(i)) else d, IssueCycles(i))),
         Completes)
  {
    hide Has, DivValue, DivDefined, Raised, ExecReserved, ResultCycles, IssueCycles, Stall2;
  }

  lemma SextExecuted(cfg: Config, m: Machine, i: Instr)
    requires Sound(cfg, m) && i.Sext? && Fields(i)
    ensures Executed(cfg, m, i) ==
      if !Has(m.a, CFG_X) then (m.(a := ExecReserved(m.a), c := Spend(m.c, IssueCycles(i))), Completes)
      else
        (m.(a := Next(SetReg(m.a, i.x, SextValue(i.half, m.a.r[i.y]))),
            c := Spend(Promise(Spend(m.c, Stall(m.c, i.y)), i.x, ResultCycles(i)), IssueCycles(i))), Completes)
  {
    hide Has, SextValue, ExecReserved, ResultCycles, IssueCycles, Stall;
  }

  lemma LoadExecuted(cfg: Config, m: Machine, i: Instr)
    requires Sound(cfg, m) && i.Load? && Fields(i)
    ensures Executed(cfg, m, i) ==
      var v := Wrap(m.a.r[i.y] + i.k);
      var (d1, a1) := ReadMem(cfg.g, m.a, v, Data(i.size));
      var c1 := ReadTime(cfg.waits, m.c, m.a, v, Data(i.size));
      var (d2, a2) := if i.signed then ReadMem(cfg.g, a1, v, Data(i.size)) else (0, a1);
      var c2 := if i.signed then ReadTime(cfg.waits, c1, a1, v, Data(i.size)) else c1;
      (m.(a := Next(SetReg(a2, i.x, if i.signed then Extended(i.size, d1, d2) else d1)),
          c := Spend(Promise(Spend(c2, Stall(c2, i.y)), i.x, ResultCycles(i)), IssueCycles(i))), Completes)
  {
    hide ReadMem, ReadTime, Extended, ResultCycles, IssueCycles, Stall;
  }

  lemma StoreExecuted(cfg: Config, m: Machine, i: Instr)
    requires Sound(cfg, m) && i.Store? && Fields(i)
    ensures Executed(cfg, m, i) ==
      var v := Wrap(m.a.r[i.y] + i.k);
      var c1 := WriteTime(cfg.waits, m.c, m.a, v);
      (m.(a := Next(WriteMem(cfg.g, m.a, v, i.size, m.a.r[i.z] % Modulus(i.size))),
          c := Spend(Spend(c1, Stall(c1, i.y)), IssueCycles(i))), Completes)
  {
    hide WriteMem, WriteTime, IssueCycles, Stall;
  }

  lemma BranchExecuted(cfg: Config, m: Machine, i: Instr)
    requires Sound(cfg, m) && i.Branch? && Fields(i)
    ensures Executed(cfg, m, i) ==
      var taken := Taken(i.cond, m.a.r[i.y], m.a.r[i.z]);
      (m.(a := m.a.(pc := Wrap(m.a.pc + (if taken then i.k else 4))),
          c := Spend(Spend(m.c, Stall2(m.c, i.y, i.z)), if taken then IssueCycles(i) else NOT_TAKEN_CYCLES)),
       Completes)
  {
    hide Taken, IssueCycles, Stall2;
  }

  lemma CallExecuted(cfg: Config, m: Machine, i: Instr)
    requires Sound(cfg, m) && (i.Call? || i.CallI?) && Fields(i)
    ensures Executed(cfg, m, i) ==
      var b := SetReg(m.a, RA_REG, Wrap(m.a.pc + 4));
      var stall := if i.Call? then Stall(m.c, i.y) else 0;
      (m.(a := b.(pc := if i.Call? then b.r[i.y] else Wrap(m.a.pc + i.k)),
          c := Spend(Promise(Spend(m.c, stall), RA_REG, ResultCycles(i)), IssueCycles(i))), Completes)
  {
    hide ResultCycles, IssueCycles, Stall;
  }

  /** Jumps, returns, raises and reserved instructions. */
  lemma FlowExecuted(cfg: Config, m: Machine, i: Instr)
    requires Sound(cfg, m) && Fields(i)
    requires i.Jump? || i.JumpReg? || i.Raise? || i.Reserved?
    ensures Executed(cfg, m, i) ==
      (m.(a := match i
               case Jump(_, _, k) => m.a.(pc := Wrap(m.a.pc + k))
               case JumpReg(y) => ExecJumpReg(m.a, y)
               case Raise(kind) => ExecRaise(m.a, kind)
               case _ => ExecReserved(m.a),
          c := if i.JumpReg? && ReturnTrapped(m.a, i.y) then m.c
               else Spend(if i.Jump? then Spend(m.c, Stall2(m.c, i.y, i.z)) else m.c, IssueCycles(i))),
       Completes)
  {
    hide ExecJumpReg, ExecRaise, ExecReserved, ReturnTrapped, IssueCycles, Stall2;
  }

  lemma CsrExecuted(cfg: Config, m: Machine, i: Instr)
    requires Sound(cfg, m) && (i.Rcsr? || i.Wcsr?) && Fields(i)
    ensures Executed(cfg, m, i) ==
      if i.Rcsr? then
        var q := ExecRcsr(m.a, i.csr, i.x, CycleCounter(m.c));
        if q.o != Completes then (m, q.o)
        else (m.(a := q.a, c := Spend(Promise(m.c, i.x, ResultCycles(i)), IssueCycles(i))), q.o)
      else if On(m.a.csr.psw, USR) then (m.(a := Raised(m.a, PRIV_ACCESS)), Completes)
      else
        var q := ExecWcsr(m.a, i.csr, i.z);
        if q.o != Completes then (m, q.o)
        else (m.(a := q.a, c := Spend(WcsrTime(m.c, i.csr, m.a.r[i.z]), IssueCycles(i))), q.o)
  {
    hide On, Raised, CsrWritten, CsrValue, ResultCycles, IssueCycles, ReadableCsr;
  }

  lemma BreakpointKeepsPc(a: State)
    ensures CheckBreakpoint(a).pc == a.pc
  {
  }
}
