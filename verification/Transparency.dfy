/** Timing is invisible: caches, wait states, the cycle count and the scoreboard
    never influence what a program computes, unless it reads CC or CFG. */
module Transparency {
  import opened Words
  import opened Memory
  import opened Isa
  import opened Arch
  import opened Timing
  import opened Execution

  const CACHE_BITS: bv32 := 0xc0

  /** Equal but for the two cache-enable bits of CFG. */
  ghost predicate Alike(a: State, b: State) {
    b == a.(csr := a.csr.(cfg := b.csr.cfg)) && Set(a.csr.cfg, CACHE_BITS) == Set(b.csr.cfg, CACHE_BITS)
  }

  /** Everything else in CFG is then equal. */
  lemma AlikeFeatures(a: State, b: State)
    requires Alike(a, b)
    ensures Has(a, CFG_M) == Has(b, CFG_M) && Has(a, CFG_D) == Has(b, CFG_D)
    ensures Has(a, CFG_S) == Has(b, CFG_S) && Has(a, CFG_X) == Has(b, CFG_X)
    ensures Has(a, CFG_CC) == Has(b, CFG_CC) && Has(a, CFG_G) == Has(b, CFG_G)
    ensures Has(a, CFG_R) == Has(b, CFG_R) && Has(a, CFG_J) == Has(b, CFG_J)
  {
  }

  lemma AlikeCounts(a: State, b: State)
    requires Alike(a, b)
    ensures InterruptCount(a.csr.cfg) == InterruptCount(b.csr.cfg)
    ensures BreakpointCount(a.csr.cfg) == BreakpointCount(b.csr.cfg)
    ensures WatchpointCount(a.csr.cfg) == WatchpointCount(b.csr.cfg)
  {
  }

  lemma AlikeCsrs(k: Csrs, l: Csrs)
    requires l == k.(cfg := l.cfg)
    ensures SaveB(l) == SaveB(k).(cfg := l.cfg) && SaveE(l) == SaveE(k).(cfg := l.cfg)
    ensures RestoreB(l) == RestoreB(k).(cfg := l.cfg) && RestoreE(l) == RestoreE(k).(cfg := l.cfg)
    ensures HandlerModes(l) == HandlerModes(k).(cfg := l.cfg)
  {
    hide On, Set, Clear, CopyBit;
  }

  lemma AlikeEnter(a: State, b: State, id: nat)
    requires Alike(a, b) && id < NUM_EXCEPTIONS
    ensures Alike(Enter(a, id), Enter(b, id))
  {
    hide On, Set, Clear, Flag, SaveB, SaveE, HandlerModes;
    KeepsCfg(a.csr);
    KeepsCfg(b.csr);
    var k, l := if DebugClass(id) then SaveB(a.csr) else SaveE(a.csr),
                if DebugClass(id) then SaveB(b.csr) else SaveE(b.csr);
    KeepsCfg(k);
    KeepsCfg(l);
    AlikeCsrs(a.csr, b.csr);
    AlikeCsrs(k, l);
  }

  lemma AlikeInterrupt(g: Geometry, a: State, b: State, id: nat)
    requires Alike(a, b) && id < NUM_EXCEPTIONS
    ensures Alike(Interrupt(g, a, id), Interrupt(g, b, id))
  {
    hide Enter, Set, Tlb.AfterReset;
    if id == RESET {
      AlikeEnter(Reset(g, a), Reset(g, b), id);
    } else {
      AlikeEnter(a, b, id);
    }
  }

  lemma AlikeWatched(a: State, b: State, p: u32, write: bool)
    requires Alike(a, b)
    ensures Watched(a, p, write) == Watched(b, p, write)
  {
    AlikeFeatures(a, b);
    hide On, Set;
  }

  lemma AlikeRead(g: Geometry, a: State, b: State, v: u32, k: Kind)
    requires Alike(a, b) && Placed(g, a.mem)
    ensures ReadMem(g, a, v, k).0 == ReadMem(g, b, v, k).0
    ensures Alike(ReadMem(g, a, v, k).1, ReadMem(g, b, v, k).1)
  {
    hide On, Set, Flag, Watched, Read, Tlb.LookupStatus, Tlb.LookupAddress, Tlb.AfterLookup;
    AlikeWatched(a, b, Physical(a, v, k), false);
  }

  lemma AlikeWrite(g: Geometry, a: State, b: State, v: u32, sz: Size, d: u32)
    requires Alike(a, b) && Placed(g, a.mem)
    ensures Alike(WriteMem(g, a, v, sz, d), WriteMem(g, b, v, sz, d))
  {
    hide On, Set, Flag, Write, Tlb.LookupStatus, Tlb.LookupAddress, Tlb.AfterLookup;
    var p := WritePhysical(a, v);
    match Write(g, a.mem, p, sz, d)
    case Some(mem) => hide Watched; AlikeWatched(a.(mem := mem), b.(mem := mem), p, true);
    case None =>
  }

  lemma AlikeLoad(g: Geometry, a: State, b: State, sz: Size, signed: bool, y: nat, x: nat, k: u32)
    requires Alike(a, b) && Placed(g, a.mem) && y < 32 && x < 32
    ensures Alike(ExecLoad(g, a, sz, signed, y, x, k), ExecLoad(g, b, sz, signed, y, x, k))
  {
    hide On, Set, ReadMem, Extended;
    var v := EffectiveAddress(a, y, k);
    AlikeRead(g, a, b, v, Data(sz));
    AlikeRead(g, ReadMem(g, a, v, Data(sz)).1, ReadMem(g, b, v, Data(sz)).1, v, Data(sz));
  }

  lemma AlikeCsrValue(a: State, b: State, csr: nat, cc: u32, cc': u32)
    requires Alike(a, b) && ReadableCsr(csr) && csr != CSR_CC && csr != CSR_CFG
    ensures CsrValue(a, csr, cc) == CsrValue(b, csr, cc')
  {
    AlikeFeatures(a, b);
    AlikeCounts(a, b);
    hide On, Set, InterruptCount, BreakpointCount, WatchpointCount, Implemented, FromBits;
  }

  lemma AlikeRcsr(a: State, b: State, csr: nat, x: nat, cc: u32, cc': u32)
    requires Alike(a, b) && x < 32 && csr != CSR_CC && csr != CSR_CFG
    ensures Alike(ExecRcsr(a, csr, x, cc).a, ExecRcsr(b, csr, x, cc').a)
    ensures ExecRcsr(a, csr, x, cc).o == ExecRcsr(b, csr, x, cc').o
  {
    AlikeFeatures(a, b);
    hide On, Set, CsrValue;
    if ReadableCsr(csr) {
      AlikeCsrValue(a, b, csr, cc, cc');
    }
  }

  lemma AlikeBasicWrite(k: Csrs, l: Csrs, csr: nat, w: u32)
    requires l == k.(cfg := l.cfg) && InterruptCount(k.cfg) == InterruptCount(l.cfg)
    ensures BasicWritten(l, csr, w) == BasicWritten(k, csr, w).(cfg := l.cfg)
    ensures BasicWritten(k, csr, w).cfg == k.cfg
  {
    hide Keep, Clear, Implemented, InterruptCount, InterruptMask, ToBits;
  }

  lemma AlikeCsrsWrite(k: Csrs, l: Csrs, csr: nat, w: u32)
    requires l == k.(cfg := l.cfg) && InterruptCount(k.cfg) == InterruptCount(l.cfg)
    requires BreakpointCount(k.cfg) == BreakpointCount(l.cfg)
    requires On(k.cfg, CFG_J) == On(l.cfg, CFG_J)
    ensures CsrsWritten(l, csr, w) == CsrsWritten(k, csr, w).(cfg := l.cfg)
    ensures CsrsWritten(k, csr, w).cfg == k.cfg
  {
    hide On, Keep, Clear, Implemented, InterruptCount, BreakpointCount, BasicWritten, InterruptMask, ToBits;
    AlikeBasicWrite(k, l, csr, w);
  }

  lemma AlikeWcsr(a: State, b: State, csr: nat, z: nat)
    requires Alike(a, b) && z < 32
    ensures ExecWcsr(a, csr, z).o == ExecWcsr(b, csr, z).o
    ensures Alike(ExecWcsr(a, csr, z).a, ExecWcsr(b, csr, z).a)
  {
    AlikeFeatures(a, b);
    AlikeCounts(a, b);
    hide On, Set, Flag, CsrsWritten, MmuWritten, InterruptCount, BreakpointCount;
    AlikeCsrsWrite(a.csr, b.csr, csr, a.r[z]);
  }

  lemma AlikeJumpReg(a: State, b: State, y: nat)
    requires Alike(a, b) && y < 32
    ensures Alike(ExecJumpReg(a, y), ExecJumpReg(b, y))
  {
    hide On, Set, Flag, RestoreB, RestoreE;
    AlikeCsrs(a.csr, b.csr);
    KeepsCfg(a.csr);
    KeepsCfg(b.csr);
  }

  lemma KeepsCfg(k: Csrs)
    ensures RestoreB(k).cfg == k.cfg && RestoreE(k).cfg == k.cfg
    ensures SaveB(k).cfg == k.cfg && SaveE(k).cfg == k.cfg && HandlerModes(k).cfg == k.cfg
  {
    hide CopyBit, Clear;
  }

  /** Reading the cycle counter or the configuration. */
  predicate ReadsTiming(i: Instr) {
    i.Rcsr? && (i.csr == CSR_CC || i.csr == CSR_CFG)
  }

  lemma AlikeAlu(a: State, b: State, op: AluOp, u: u32, v: u32, x: nat)
    requires Alike(a, b) && x < 32
    ensures ExecAlu(a, op, u, v, x).o == ExecAlu(b, op, u, v, x).o
    ensures Alike(ExecAlu(a, op, u, v, x).a, ExecAlu(b, op, u, v, x).a)
  {
    AlikeFeatures(a, b);
    assert AluPresent(a, op) == AluPresent(b, op) by { hide Has; }
    hide AluPresent, AluValue, AluDefined, SetReg, Next, Raised, Alike;
    if !AluPresent(a, op) {
      AlikeRaise(a, b, OtherRaise);
    } else if AluDefined(op, v) {
      AlikeResult(a, b, AluValue(op, u, v), x);
    }
  }

  lemma AlikeResult(a: State, b: State, v: u32, x: nat)
    requires Alike(a, b) && x < 32
    ensures Alike(Next(SetReg(a, x, v)), Next(SetReg(b, x, v)))
  {
    hide Set;
  }

  lemma AlikeDivide(a: State, b: State, d: DivOp, u: u32, v: u32, x: nat)
    requires Alike(a, b) && x < 32
    ensures ExecDivide(a, d, u, v, x).o == ExecDivide(b, d, u, v, x).o
    ensures Alike(ExecDivide(a, d, u, v, x).a, ExecDivide(b, d, u, v, x).a)
  {
    AlikeFeatures(a, b);
    hide Has, On, Set, Flag, DivValue, DivDefined;
  }

  lemma AlikeSext(a: State, b: State, half: bool, y: nat, x: nat)
    requires Alike(a, b) && y < 32 && x < 32
    ensures Alike(ExecSext(a, half, y, x), ExecSext(b, half, y, x))
  {
    AlikeFeatures(a, b);
    hide Has, On, Set, Flag, SextValue;
  }

  lemma AlikeRaise(a: State, b: State, kind: RaiseKind)
    requires Alike(a, b)
    ensures Alike(ExecRaise(a, kind), ExecRaise(b, kind))
    ensures Alike(ExecReserved(a), ExecReserved(b))
  {
    AlikeFeatures(a, b);
    hide Has, On, Set, Flag;
  }

  lemma AlikeExec(g: Geometry, a: State, b: State, i: Instr, cc: u32, cc': u32)
    requires Alike(a, b) && Placed(g, a.mem) && Fields(i) && !ReadsTiming(i)
    ensures Exec(g, a, i, cc).o == Exec(g, b, i, cc').o
    ensures Alike(Exec(g, a, i, cc).a, Exec(g, b, i, cc').a)
  {
    hide On, Set, Flag, ExecAlu, ExecDivide, ExecSext, ExecLoad, ExecStore;
    hide ExecJumpReg, ExecRcsr, ExecWcsr, ExecRaise, ExecReserved;
    match i
    case AluRR(op, y, z, x) => AlikeAlu(a, b, op, a.r[y], a.r[z], x);
    case AluRI(op, y, x, k) => AlikeAlu(a, b, op, a.r[y], k, x);
    case Divide(d, y, z, x) => AlikeDivide(a, b, d, a.r[y], a.r[z], x);
    case Sext(half, y, x) => AlikeSext(a, b, half, y, x);
    case Load(sz, signed, y, x, k) => AlikeLoad(g, a, b, sz, signed, y, x, k);
    case Store(sz, y, z, k) => AlikeStore(g, a, b, sz, y, z, k);
    case Rcsr(csr, x) => AlikeRcsr(a, b, csr, x, cc, cc');
    case Wcsr(csr, z) => AlikeWcsr(a, b, csr, z);
    case _ => AlikeControl(g, a, b, i, cc, cc');
  }

  lemma AlikeControl(g: Geometry, a: State, b: State, i: Instr, cc: u32, cc': u32)
    requires Alike(a, b) && Placed(g, a.mem) && Fields(i)
    requires i.Branch? || i.Jump? || i.JumpReg? || i.Call? || i.CallI? || i.Raise? || i.Reserved?
    ensures Exec(g, a, i, cc).o == Exec(g, b, i, cc').o
    ensures Alike(Exec(g, a, i, cc).a, Exec(g, b, i, cc').a)
  {
    hide On, Set, Flag, Has, ExecAlu, ExecDivide, ExecSext, ExecLoad, ExecStore, ExecRcsr, ExecWcsr;
    hide ExecBranch, ExecJumpReg, ExecCall, ExecCallI, ExecRaise, ExecReserved, Wrap, Alike;
    match i
    case Branch(c, y, z, k) => AlikeMove(a, b, c, y, z, k);
    case Jump(_, _, k) => AlikeJump(a, b, k);
    case JumpReg(y) => AlikeJumpReg(a, b, y);
    case Call(y) => AlikeMove(a, b, Equal, y, y, 0);
    case CallI(k) => AlikeMove(a, b, Equal, 0, 0, k);
    case Raise(kind) => AlikeRaise(a, b, kind);
    case Reserved => AlikeRaise(a, b, OtherRaise);
  }

  lemma AlikeJump(a: State, b: State, k: u32)
    requires Alike(a, b)
    ensures Alike(a.(pc := Wrap(a.pc + k)), b.(pc := Wrap(b.pc + k)))
  {
    hide Set;
  }

  lemma AlikeMove(a: State, b: State, c: Cond, y: nat, z: nat, k: u32)
    requires Alike(a, b) && y < 32 && z < 32
    ensures Alike(ExecBranch(a, c, y, z, k), ExecBranch(b, c, y, z, k))
    ensures Alike(ExecCall(a, y), ExecCall(b, y))
    ensures Alike(ExecCallI(a, k), ExecCallI(b, k))
  {
    hide Set, Taken;
  }

  lemma AlikeStore(g: Geometry, a: State, b: State, sz: Size, y: nat, z: nat, k: u32)
    requires Alike(a, b) && Placed(g, a.mem) && y < 32 && z < 32
    ensures Alike(ExecStore(g, a, sz, y, z, k), ExecStore(g, b, sz, y, z, k))
  {
    hide On, Set, WriteMem;
    AlikeWrite(g, a, b, EffectiveAddress(a, y, k), sz, a.r[z] % Modulus(sz));
  }

  // ---------------------------------------------------------------------------
  // Steps and runs
  // ---------------------------------------------------------------------------

  lemma AlikeFetch(g: Geometry, a: State, b: State)
    requires Alike(a, b) && Placed(g, a.mem)
    ensures FetchWord(g, a).0 == FetchWord(g, b).0
    ensures Alike(FetchWord(g, a).1, FetchWord(g, b).1)
  {
    hide On, Set, Flag, ReadMem;
    assert AtBreakpoint(a) == AtBreakpoint(b) by { AlikeFeatures(a, b); }
    AlikeRead(g, CheckBreakpoint(a), CheckBreakpoint(b), a.pc, Fetch);
  }

  /** The instruction word that the next step will execute, no interrupt
      callback being registered. */
  function NextWord(cfg: Config, m: Machine): u32
    requires Sound(cfg, m)
  {
    Fetched(cfg, Entered(cfg, m)).0
  }

  /** Two machines that differ only in what concerns time. */
  ghost predicate SameProgram(cfg: Config, m: Machine, cfg': Config, m': Machine) {
    cfg'.g == cfg.g && Alike(m.a, m'.a)
  }

  lemma SameEntry(cfg: Config, m: Machine, cfg': Config, m': Machine)
    requires SameProgram(cfg, m, cfg', m')
    ensures Unknown(m.a) == Unknown(m'.a)
    ensures SameProgram(cfg, Entered(cfg, m), cfg', Entered(cfg', m'))
  {
    hide Interrupt, Highest, On, Set;
    if Urgent(m.a).Some? && !Unknown(m.a) {
      AlikeInterrupt(cfg.g, m.a, m'.a, Urgent(m.a).value);
    }
  }

  lemma SameFetch(cfg: Config, m: Machine, cfg': Config, m': Machine)
    requires Sound(cfg, m) && SameProgram(cfg, m, cfg', m')
    ensures Fetched(cfg, m).0 == Fetched(cfg', m').0
    ensures SameProgram(cfg, Fetched(cfg, m).1, cfg', Fetched(cfg', m').1)
  {
    hide FetchWord, ReadTime, On, Set;
    AlikeFetch(cfg.g, m.a, m'.a);
  }

  /** One step of either machine does the same to the program's state. */
  lemma SameStep(cfg: Config, m: Machine, cfg': Config, m': Machine)
    requires Sound(cfg, m) && SameProgram(cfg, m, cfg', m')
    requires !ReadsTiming(Decode(NextWord(cfg, m)))
    ensures Step(cfg, m, NoCallback).end == Step(cfg', m', NoCallback).end
    ensures SameProgram(cfg, Step(cfg, m, NoCallback).m, cfg', Step(cfg', m', NoCallback).m)
  {
    hide Entered, Fetched, Exec, ExecTime, Decode, On, Set, Unknown;
    SameEntry(cfg, m, cfg', m');
    if !Unknown(m.a) {
      var e, e' := Entered(cfg, m), Entered(cfg', m');
      SameFetch(cfg, e, cfg', e');
      var (w, d) := Fetched(cfg, e);
      var d' := Fetched(cfg', e').1;
      AlikeExec(cfg.g, d.a, d'.a, Decode(w), CycleCounter(d.c), CycleCounter(d'.c));
    }
  }

  /** No instruction of the next `n` reads the cycle counter or CFG. */
  ghost predicate NeverReadsTiming(cfg: Config, m: Machine, n: nat)
    requires Sound(cfg, m)
    decreases n
  {
    hide Step, NextWord, Decode;
    n == 0 ||
    (!ReadsTiming(Decode(NextWord(cfg, m))) &&
     var r := Step(cfg, m, NoCallback);
     (r.end.Ran? ==> NeverReadsTiming(cfg, r.m, n - 1)))
  }

  /** Timing transparency.  Two machines with the same memory geometry whose
      states differ at most in caches, wait states, cycle count, scoreboard, CC
      and the cache-enable bits of CFG stay equal in everything else, for as
      long as the program does not look at CC or CFG; they also stop together,
      and for the same reason. */
  lemma {:induction false} TimingTransparency(cfg: Config, m: Machine, cfg': Config, m': Machine, n: nat)
    requires Sound(cfg, m) && SameProgram(cfg, m, cfg', m') && NeverReadsTiming(cfg, m, n)
    ensures var quiet := seq(n, _ => NoCallback);
      var r, r' := Steps(cfg, m, quiet), Steps(cfg', m', quiet);
      r.end == r'.end && SameProgram(cfg, r.m, cfg', r'.m)
    decreases n
  {
    hide Step, NextWord, Decode, On, Set;
    if n > 0 {
      SameStep(cfg, m, cfg', m');
      var quiet := seq(n, _ => NoCallback);
      assert quiet[1..] == seq(n - 1, _ => NoCallback);
      var r, r' := Step(cfg, m, NoCallback), Step(cfg', m', NoCallback);
      if r.end.Ran? {
        TimingTransparency(cfg, r.m, cfg', r'.m, n - 1);
      }
    }
  }
}
