/** Exactly when a tick call goes round twice: a reset is pending, nothing else
    that the call breaks on is, and the instruction at the reset vector gives no
    cause to break either. */
module ResetTicks {
  import opened Words
  import opened Memory
  import opened Isa
  import opened Arch
  import opened Timing
  import opened Execution
  import opened Exceptions
  import opened RunLoop
  import opened Ticks
  import Tlb

  // ---------------------------------------------------------------------------
  // Nothing in the machine raises a reset
  // ---------------------------------------------------------------------------

  lemma RaisedPending(a: State, id: nat, k: nat)
    requires id < NUM_EXCEPTIONS && k < NUM_EXCEPTIONS
    ensures Pending(Raised(a, id).flags, k) == (k == id || Pending(a.flags, k))
  {
    DistinctFlags(id, k);
    FlagIsBit(id);
    hide Flag, On, Set;
    SetThenOn(a.flags, Flag(id), Flag(k));
  }

  lemma FlagIsBit(id: nat)
    requires id < NUM_EXCEPTIONS
    ensures Flag(id) != 0
  {
  }

  lemma SetThenOn(x: Bits, f: bv32, g: bv32)
    ensures f & g == 0 ==> On(Set(x, f), g) == On(x, g)
    ensures f == g && f != 0 ==> On(Set(x, f), g)
  {
    Distribute(x.w, f, g);
    Absorb(x.w, f);
  }

  lemma Distribute(x: bv32, f: bv32, g: bv32)
    ensures (x | f) & g == (x & g) | (f & g)
  {
  }

  lemma Absorb(x: bv32, f: bv32)
    ensures (x | f) & f == f
  {
  }

  lemma ReadKeepsReset(g: Geometry, a: State, v: u32, k: Kind)
    requires Placed(g, a.mem)
    ensures Pending(ReadMem(g, a, v, k).1.flags, RESET) == Pending(a.flags, RESET)
  {
    var m := Tlb.AfterLookup(a.mmu, v, !k.Fetch?, false);
    RaisedPending(a.(mmu := m), ITLB_MISS, RESET);
    RaisedPending(a.(mmu := m), DTLB_MISS, RESET);
    RaisedPending(a, WATCHPOINT, RESET);
    RaisedPending(a, IBUSERROR, RESET);
    RaisedPending(a, DBUSERROR, RESET);
    hide Pending, Raised, Read, Watched, ReadMisses, Physical, Tlb.AfterLookup;
  }

  lemma WriteKeepsReset(g: Geometry, a: State, v: u32, sz: Size, d: u32)
    requires Placed(g, a.mem)
    ensures Pending(WriteMem(g, a, v, sz, d).flags, RESET) == Pending(a.flags, RESET)
  {
    var m := Tlb.AfterLookup(a.mmu, v, true, true);
    RaisedPending(a.(mmu := m), DTLB_MISS, RESET);
    RaisedPending(a.(mmu := m), DTLB_FAULT, RESET);
    RaisedPending(a, DBUSERROR, RESET);
    match Write(g, a.mem, WritePhysical(a, v), sz, d)
    case Some(mem) =>
      RaisedPending(a.(mem := mem), WATCHPOINT, RESET);
      hide Pending, Raised, Write, Watched, WriteStatus, WritePhysical, Tlb.AfterLookup;
    case None =>
      hide Pending, Raised, Write, Watched, WriteStatus, WritePhysical, Tlb.AfterLookup;
  }

  lemma LoadKeepsReset(g: Geometry, a: State, sz: Size, signed: bool, y: nat, x: nat, k: u32)
    requires Placed(g, a.mem) && y < 32 && x < 32
    ensures Pending(ExecLoad(g, a, sz, signed, y, x, k).flags, RESET) == Pending(a.flags, RESET)
  {
    hide Pending, ReadMem, Extended;
    var v := EffectiveAddress(a, y, k);
    ReadKeepsReset(g, a, v, Data(sz));
    ReadKeepsReset(g, ReadMem(g, a, v, Data(sz)).1, v, Data(sz));
  }

  lemma UnitKeepsReset(a: State, i: Instr)
    requires Fields(i)
    ensures i.AluRR? ==> Pending(ExecAlu(a, i.op, a.r[i.y], a.r[i.z], i.x).a.flags, RESET) == Pending(a.flags, RESET)
    ensures i.AluRI? ==> Pending(ExecAlu(a, i.op, a.r[i.y], i.k, i.x).a.flags, RESET) == Pending(a.flags, RESET)
    ensures i.Divide? ==>
      Pending(ExecDivide(a, i.div, a.r[i.y], a.r[i.z], i.x).a.flags, RESET) == Pending(a.flags, RESET)
    ensures i.Sext? ==> Pending(ExecSext(a, i.half, i.y, i.x).flags, RESET) == Pending(a.flags, RESET)
    ensures Pending(ExecReserved(a).flags, RESET) == Pending(a.flags, RESET)
  {
    RaisedPending(a, IBUSERROR, RESET);
    RaisedPending(a, DIVZERO, RESET);
    hide Pending, Raised, Has, AluPresent, AluValue, AluDefined, DivValue, DivDefined, SextValue;
  }

  lemma ControlKeepsReset(a: State, i: Instr)
    requires Fields(i)
    ensures i.JumpReg? ==> Pending(ExecJumpReg(a, i.y).flags, RESET) == Pending(a.flags, RESET)
    ensures i.Raise? ==> Pending(ExecRaise(a, i.kind).flags, RESET) == Pending(a.flags, RESET)
    ensures i.Wcsr? ==> Pending(ExecWcsr(a, i.csr, i.z).a.flags, RESET) == Pending(a.flags, RESET)
  {
    RaisedPending(a, BREAKPOINT, RESET);
    RaisedPending(a, SYSCALL, RESET);
    RaisedPending(a, PRIV_ACCESS, RESET);
    hide Pending, Raised, Has, On, CsrsWritten, MmuWritten, ReadableCsr, RestoreE, RestoreB;
  }

  lemma ExecKeepsReset(g: Geometry, a: State, i: Instr, cc: u32)
    requires Placed(g, a.mem) && Fields(i)
    ensures Pending(Exec(g, a, i, cc).a.flags, RESET) == Pending(a.flags, RESET)
  {
    UnitKeepsReset(a, i);
    ControlKeepsReset(a, i);
    hide Pending, ExecAlu, ExecDivide, ExecSext, ExecReserved, ExecJumpReg, ExecRaise, ExecWcsr, ExecLoad;
    hide WriteMem, Taken, CsrValue, Trimmed, ReadableCsr;
    match i
    case Load(sz, signed, y, x, k) => LoadKeepsReset(g, a, sz, signed, y, x, k);
    case Store(sz, y, z, k) =>
      WriteKeepsReset(g, a, EffectiveAddress(a, y, k), sz, a.r[z] % Modulus(sz));
    case _ =>
  }

  /** The poll changes no flag but EXTINT. */
  lemma PolledFlags(m: Machine, ans: Answer)
    ensures var x := Polled(m, ans).a.flags;
      x == m.a.flags || x == Raised(m.a, EXTINT).flags || x == Clear(m.a.flags, Flag(EXTINT))
  {
    hide On, Meet, Requested, Set, Clear, Flag;
  }

  lemma PollKeepsReset(m: Machine, ans: Answer)
    ensures Pending(Polled(m, ans).a.flags, RESET) == Pending(m.a.flags, RESET)
  {
    hide Pending, Polled, Raised, Clear, Flag;
    PolledFlags(m, ans);
    RaisedPending(m.a, EXTINT, RESET);
    FlagBits(m.a.flags, EXTINT, RESET);
  }

  /** A reset is taken exactly when it is pending, since nothing is more urgent. */
  lemma TakesIffPending(m: Machine, ans: Answer)
    ensures TakesReset(m, ans) <==> !Stops(m, ans) && Pending(m.a.flags, RESET)
  {
    PollKeepsReset(m, ans);
    NonePending(Polled(m, ans).a.flags);
    hide Polled, Stops, On, Flag;
  }

  /** After a step a reset is pending only if it was before and the callback
      ended the run. */
  lemma StepReset(cfg: Config, m: Machine, ans: Answer)
    requires Sound(cfg, m)
    ensures Pending(Step(cfg, m, ans).m.a.flags, RESET) == (Stops(m, ans) && Pending(m.a.flags, RESET))
  {
    PollKeepsReset(m, ans);
    var m1 := Polled(m, ans);
    EntryReset(cfg, m1);
    hide Polled, Stops, Entered, Fetched, Executed, Pending, Unknown, Decode;
    if !Stops(m, ans) && !Unknown(m1.a) {
      var m2 := Entered(cfg, m1);
      FetchKeepsReset(cfg, m2);
      var (w, m3) := Fetched(cfg, m2);
      ExecutedKeepsReset(cfg, m3, Decode(w));
    }
  }

  lemma EntryReset(cfg: Config, m: Machine)
    ensures !Pending(Entered(cfg, m).a.flags, RESET)
    ensures Unknown(m.a) ==> !Pending(m.a.flags, RESET)
  {
    NonePending(m.a.flags);
    match Urgent(m.a)
    case None =>
    case Some(id) =>
      if id < NUM_EXCEPTIONS {
        FlagBits(m.a.flags, id, RESET);
        InterruptFlags(cfg.g, m.a, id);
      }
      hide Pending, Interrupt;
  }

  lemma InterruptFlags(g: Geometry, a: State, id: nat)
    requires id < NUM_EXCEPTIONS
    ensures Interrupt(g, a, id).flags == Clear(a.flags, Flag(id))
  {
    hide Clear, Flag, SaveB, SaveE, HandlerModes, Vector, RestartPc, ResetCsrs, Tlb.AfterReset;
  }

  lemma FetchKeepsReset(cfg: Config, m: Machine)
    requires Sound(cfg, m)
    ensures Pending(Fetched(cfg, m).1.a.flags, RESET) == Pending(m.a.flags, RESET)
  {
    RaisedPending(m.a, BREAKPOINT, RESET);
    ReadKeepsReset(cfg.g, CheckBreakpoint(m.a), m.a.pc, Fetch);
    hide Pending, Raised, ReadMem, ReadTime, AtBreakpoint;
  }

  lemma ExecutedKeepsReset(cfg: Config, m: Machine, i: Instr)
    requires Sound(cfg, m) && Fields(i)
    ensures Pending(Executed(cfg, m, i).0.a.flags, RESET) == Pending(m.a.flags, RESET)
  {
    ExecKeepsReset(cfg.g, m.a, i, CycleCounter(m.c));
    hide Pending, Exec, ExecTime;
  }

  // ---------------------------------------------------------------------------
  // The state in which a reset CPU starts to run
  // ---------------------------------------------------------------------------

  /** Reset is entered like any exception: execution starts at the reset vector,
      and the entry point is only what ea holds then. */
  lemma ResetEntry(g: Geometry, a: State)
    ensures var b := Interrupt(g, a, RESET); var top := Wrap(g.base + g.size - 4);
      && b.pc == 0 && b.r == a.r[SP_REG := top][FP_REG := top][0 := 0][EA_REG := g.entryPoint]
      && b.r[EA_REG] == g.entryPoint
      && b.flags == Clear(a.flags, Flag(RESET)) && b.mem == a.mem
      && b.csr == HandlerModes(SaveE(ResetCsrs()))
  {
    assert !On(Bits(0), DC_REMAP);
    hide Clear, Flag, SaveE, HandlerModes, Tlb.AfterReset, On;
  }

  /** Everything built in, and nothing translated, watched or trapped. */
  predicate Pristine(b: State) {
    && Has(b, CFG_M) && Has(b, CFG_D) && Has(b, CFG_S) && Has(b, CFG_X) && Has(b, CFG_G)
    && !On(b.csr.psw, ITLBE) && !On(b.csr.psw, DTLBE) && !On(b.csr.psw, USR)
    && IsZero(b.csr.dc) && b.csr.bp == [0, 0, 0, 0]
  }

  lemma ResetIsPristine(g: Geometry, a: State)
    ensures Pristine(Interrupt(g, a, RESET))
  {
    ResetEntry(g, a);
    DefaultFeatures();
    SaveKeeps(ResetCsrs());
    SaveBits(ResetCsrs());
    var k := HandlerModes(SaveE(ResetCsrs()));
    assert Current(k) == HANDLER;
    hide Interrupt, SaveE, HandlerModes, ResetCsrs, On, IsZero;
  }

  lemma DefaultFeatures()
    ensures var c := ResetCsrs().cfg;
      On(c, CFG_M) && On(c, CFG_D) && On(c, CFG_S) && On(c, CFG_X) && On(c, CFG_G)
    ensures IsZero(ResetCsrs().dc) && ResetCsrs().bp == [0, 0, 0, 0]
  {
  }

  lemma SaveKeeps(k: Csrs)
    ensures var h := HandlerModes(SaveE(k)); h.cfg == k.cfg && h.dc == k.dc && h.bp == k.bp
  {
    hide CopyBit, Clear;
  }

  // ---------------------------------------------------------------------------
  // What a tick call would break on
  // ---------------------------------------------------------------------------

  /** Nothing is pending that the call breaks on. */
  predicate Calm(s: Setup, flags: Bits) {
    && !(s.hwBreak && (Pending(flags, BREAKPOINT) || Pending(flags, WATCHPOINT)))
    && !(s.intBreak && Pending(flags, EXTINT))
    && !Pending(flags, DIVZERO) && !Pending(flags, IBUSERROR) && !Pending(flags, DBUSERROR)
  }

  /** Does the call let the exception pass? */
  predicate Harmless(s: Setup, id: nat) {
    match id
    case 1 => !s.hwBreak
    case 3 => !s.hwBreak
    case 6 => !s.intBreak
    case _ => id != DIVZERO && id != IBUSERROR && id != DBUSERROR
  }

  lemma RaisedCalm(s: Setup, a: State, id: nat)
    requires id < NUM_EXCEPTIONS
    ensures Calm(s, Raised(a, id).flags) <==> Calm(s, a.flags) && Harmless(s, id)
  {
    RaisedPending(a, id, BREAKPOINT);
    RaisedPending(a, id, WATCHPOINT);
    RaisedPending(a, id, EXTINT);
    RaisedPending(a, id, DIVZERO);
    RaisedPending(a, id, IBUSERROR);
    RaisedPending(a, id, DBUSERROR);
    hide Pending, Raised;
  }

  lemma ClearedCalm(s: Setup, x: Bits)
    ensures Calm(s, Clear(x, Flag(RESET))) <==> Calm(s, x)
  {
    FlagBits(x, RESET, BREAKPOINT);
    FlagBits(x, RESET, WATCHPOINT);
    FlagBits(x, RESET, EXTINT);
    FlagBits(x, RESET, DIVZERO);
    FlagBits(x, RESET, IBUSERROR);
    FlagBits(x, RESET, DBUSERROR);
    hide Pending, Clear, Flag;
  }

  /** The instruction can be carried out, in a pristine state, without a break:
      its accesses are good, its operands are in range, and it is known. */
  predicate Unremarkable(g: Geometry, s: Setup, b: State, i: Instr)
    requires Placed(g, b.mem) && Fields(i)
  {
    match i
    case AluRR(op, _, z, _) => AluDefined(op, b.r[z])
    case AluRI(op, _, _, k) => AluDefined(op, k)
    case Divide(d, y, z, _) => b.r[z] != 0 && DivDefined(d, b.r[y], b.r[z])
    case Load(sz, _, y, _, k) => Read(g, b.mem, EffectiveAddress(b, y, k), sz).Some?
    case Store(sz, y, _, k) => Read(g, b.mem, EffectiveAddress(b, y, k), sz).Some?
    case Rcsr(csr, _) => ReadableCsr(csr)
    case Wcsr(csr, _) => ReadableCsr(csr)
    case Raise(kind) => kind == BreakCall ==> !s.hwBreak
    case Reserved => false
    case _ => true
  }

  /** Where execution goes on after an instruction that is not trapped. */
  function Successor(b: State, i: Instr): u32
    requires Fields(i)
  {
    match i
    case Branch(c, y, z, k) => Wrap(b.pc + (if Taken(c, b.r[y], b.r[z]) then k else 4))
    case Jump(_, _, k) => Wrap(b.pc + k)
    case CallI(k) => Wrap(b.pc + k)
    case JumpReg(y) => b.r[y]
    case Call(y) => if y == RA_REG then Wrap(b.pc + 4) else b.r[y]
    case Raise(_) => b.pc
    case _ => Wrap(b.pc + 4)
  }

  /** The first instruction after a reset of a machine in state `a` gives the
      call no cause to break. */
  predicate QuietStart(g: Geometry, s: Setup, a: State)
    requires Placed(g, a.mem)
  {
    hide Interrupt, Read;
    var b := Interrupt(g, a, RESET);
    match Read(g, a.mem, b.pc, Full)
    case None => false
    case Some(w) =>
      && !(s.lockBreak && LockWord(w))
      && Unremarkable(g, s, b, Decode(w))
      && !AtBreakAddress(s, Successor(b, Decode(w)))
  }

  // ---------------------------------------------------------------------------
  // One instruction in a pristine state
  // ---------------------------------------------------------------------------

  lemma Unwatched(b: State, p: u32, write: bool)
    requires Pristine(b)
    ensures !Watched(b, p, write)
  {
    ZeroWatches(b.csr.dc);
    hide On;
  }

  lemma ZeroWatches(x: Bits)
    requires IsZero(x)
    ensures forall mask: bv32 :: !On(x, mask)
  {
    forall mask: bv32
      ensures !On(x, mask)
    {
      NothingOn(mask);
    }
  }

  lemma NothingOn(mask: bv32)
    ensures (0 as bv32) & mask == 0
  {
  }

  lemma PristineRead(g: Geometry, b: State, v: u32, sz: Size)
    requires Pristine(b) && Placed(g, b.mem)
    ensures ReadMem(g, b, v, Data(sz)).1 == if Read(g, b.mem, v, sz).Some? then b else Raised(b, DBUSERROR)
  {
    Unwatched(b, v, false);
    hide Watched, Read, Raised, On;
  }

  lemma PristineWrite(g: Geometry, b: State, v: u32, sz: Size, d: u32)
    requires Pristine(b) && Placed(g, b.mem)
    ensures var c := WriteMem(g, b, v, sz, d);
      c == if Read(g, b.mem, v, sz).Some? then b.(mem := c.mem) else Raised(b, DBUSERROR)
  {
    WriteThenRead(g, b.mem, v, sz, d);
    var w := Write(g, b.mem, v, sz, d);
    if w.Some? {
      Unwatched(b.(mem := w.value), v, true);
    }
    hide Watched, Read, Write, Raised, On;
  }

  /** What the instruction does for the call: it runs without a cause to break,
      and goes on where it should. */
  ghost predicate FirstDone(g: Geometry, s: Setup, b: State, i: Instr, r: Result)
    requires Placed(g, b.mem) && Fields(i)
  {
    && (r.o == Completes && Calm(s, r.a.flags) <==> Calm(s, b.flags) && Unremarkable(g, s, b, i))
    && (Unremarkable(g, s, b, i) ==> r.a.pc == Successor(b, i))
  }

  lemma RaisedKeeps(b: State, id: nat)
    ensures var c := Raised(b, id); c.pc == b.pc && c.mem == b.mem && (Pristine(b) ==> Pristine(c))
  {
    hide On, IsZero, Set, Flag;
  }

  lemma FirstUnit(g: Geometry, s: Setup, b: State, i: Instr, cc: u32)
    requires Pristine(b) && Placed(g, b.mem) && Fields(i)
    requires i.AluRR? || i.AluRI? || i.Divide? || i.Sext? || i.Reserved?
    ensures FirstDone(g, s, b, i, Exec(g, b, i, cc))
  {
    hide Calm, Raised, On, IsZero, AluValue, AluDefined, DivValue, DivDefined, SextValue, ShiftOp, Read, Taken;
    hide ExecLoad, ExecStore, ExecBranch, ExecJumpReg, ExecCall, ExecCallI, ExecRcsr, ExecWcsr, ExecRaise;
    hide EffectiveAddress, ReadableCsr;
    RaisedCalm(s, b, DIVZERO);
    RaisedCalm(s, b, IBUSERROR);
  }

  lemma FirstControl(g: Geometry, s: Setup, b: State, i: Instr, cc: u32)
    requires Pristine(b) && Placed(g, b.mem) && Fields(i)
    requires i.Branch? || i.Jump? || i.JumpReg? || i.Call? || i.CallI? || i.Raise? || i.Rcsr? || i.Wcsr?
    ensures FirstDone(g, s, b, i, Exec(g, b, i, cc))
  {
    hide Calm, Raised, On, IsZero, Taken, RestoreE, RestoreB, CsrsWritten, MmuWritten, CsrValue, Trimmed, ReadableCsr;
    hide ExecAlu, ExecDivide, ExecSext, ExecLoad, ExecStore, ExecReserved;
    hide EffectiveAddress, Read, AluDefined, DivDefined;
    RaisedCalm(s, b, BREAKPOINT);
    RaisedCalm(s, b, SYSCALL);
    RaisedKeeps(b, BREAKPOINT);
    RaisedKeeps(b, SYSCALL);
  }

  lemma FirstAccess(g: Geometry, s: Setup, b: State, i: Instr, cc: u32)
    requires Pristine(b) && Placed(g, b.mem) && Fields(i)
    requires i.Load? || i.Store?
    ensures FirstDone(g, s, b, i, Exec(g, b, i, cc))
  {
    hide Calm, Raised, Pristine, ReadMem, WriteMem, Read, Extended, EffectiveAddress, Modulus;
    hide ExecAlu, ExecDivide, ExecSext, ExecBranch, ExecJumpReg, ExecCall, ExecCallI, ExecRcsr, ExecWcsr, ExecRaise;
    hide ExecReserved, Taken, AluDefined, DivDefined, ReadableCsr;
    var v := EffectiveAddress(b, i.y, i.k);
    var c := Raised(b, DBUSERROR);
    RaisedKeeps(b, DBUSERROR);
    RaisedKeeps(c, DBUSERROR);
    PristineRead(g, b, v, i.size);
    PristineRead(g, c, v, i.size);
    RaisedCalm(s, b, DBUSERROR);
    RaisedCalm(s, c, DBUSERROR);
    if i.Store? {
      PristineWrite(g, b, v, i.size, b.r[i.z] % Modulus(i.size));
    }
  }

  lemma FirstInstruction(g: Geometry, s: Setup, b: State, i: Instr, cc: u32)
    requires Pristine(b) && Placed(g, b.mem) && Fields(i)
    ensures FirstDone(g, s, b, i, Exec(g, b, i, cc))
  {
    hide Pristine, FirstDone, Exec;
    if i.Load? || i.Store? {
      FirstAccess(g, s, b, i, cc);
    } else if i.AluRR? || i.AluRI? || i.Divide? || i.Sext? || i.Reserved? {
      FirstUnit(g, s, b, i, cc);
    } else {
      FirstControl(g, s, b, i, cc);
    }
  }

  lemma PristineFetch(g: Geometry, b: State)
    requires Pristine(b) && Placed(g, b.mem)
    ensures FetchWord(g, b) == match Read(g, b.mem, b.pc, Full)
                               case Some(w) => (w, b)
                               case None => (0, Raised(b, IBUSERROR))
  {
    Unwatched(b, b.pc, false);
    hide Watched, Read, Raised, On;
  }

  // ---------------------------------------------------------------------------
  // The condition is exact
  // ---------------------------------------------------------------------------

  lemma SameGuards(g: Geometry, s: Setup, a: State, b: State, i: Instr)
    requires Placed(g, a.mem) && Fields(i) && b == a.(flags := b.flags)
    ensures Unremarkable(g, s, b, i) == Unremarkable(g, s, a, i) && Successor(b, i) == Successor(a, i)
  {
    hide Read, Taken, AluDefined, DivDefined, ReadableCsr, Wrap;
  }

  lemma QuietEntry(g: Geometry, s: Setup, a: State, b: State, w: u32)
    requires Placed(g, a.mem) && b == Interrupt(g, a, RESET).(flags := b.flags)
    requires Read(g, a.mem, b.pc, Full) == Some(w)
    ensures QuietStart(g, s, a) <==>
      && !(s.lockBreak && LockWord(w)) && Unremarkable(g, s, b, Decode(w))
      && !AtBreakAddress(s, Successor(b, Decode(w)))
  {
    hide Interrupt, Read, Decode, Unremarkable, Successor, AtBreakAddress;
    SameGuards(g, s, Interrupt(g, a, RESET), b, Decode(w));
  }

  /** What the poll changes, a reset overwrites, except for the flags. */
  lemma EntryAfterPoll(g: Geometry, m: Machine, ans: Answer)
    ensures var b := Interrupt(g, Polled(m, ans).a, RESET);
      b == Interrupt(g, m.a, RESET).(flags := b.flags)
  {
    hide On, Meet, Requested, Set, Clear, Flag, SaveE, HandlerModes, Tlb.AfterReset;
  }

  lemma NoBreak(s: Setup, n: Machine, w: u32)
    requires Ticking(s) && n.breakPoint == 0 && !Pending(n.a.flags, RESET)
    ensures BreakAfter(s, n, Ran(w)) == 0 <==>
      !(s.lockBreak && LockWord(w)) && !AtBreakAddress(s, n.a.pc) && Calm(s, n.a.flags)
  {
    hide Pending, AtBreakAddress;
  }

  /** A step that is not stopped is an entry, a fetch and an execution. */
  lemma StepParts(cfg: Config, m: Machine, ans: Answer)
    requires Sound(cfg, m) && !Stops(m, ans) && !Unknown(Polled(m, ans).a)
    ensures var (w, f) := FetchWord(cfg.g, Entered(cfg, Polled(m, ans)).a); var r := Step(cfg, m, ans);
      exists cc: u32 :: var x := Exec(cfg.g, f, Decode(w), cc);
        && (r.end.Ran? <==> x.o == Completes)
        && (r.end.Ran? ==> r.end == Ran(w) && r.m.a == x.a)
  {
    hide Polled, Entered, Stops, Unknown, FetchWord, Exec, ExecTime, ReadTime, Decode;
    var e := Entered(cfg, Polled(m, ans));
    var (w, f) := FetchWord(cfg.g, e.a);
    var m2 := Fetched(cfg, e).1;
    var x := Exec(cfg.g, f, Decode(w), CycleCounter(m2.c));
    assert Step(cfg, m, ans).end.Ran? <==> x.o == Completes;
  }

  /** With a reset pending, the step finds nothing to break on if and only if
      nothing was pending that it would break on and the start is quiet. */
  lemma QuietStep(cfg: Config, s: Setup, m: Machine, ans: Answer)
    requires Sound(cfg, m) && Ticking(s) && Pending(m.a.flags, RESET) && !Stops(m, ans)
    ensures var r := Step(cfg, m, ans);
      r.end.Ran? && BreakAfter(s, Counted(r.m), r.end) == 0
      <==> Calm(s, Polled(m, ans).a.flags) && QuietStart(cfg.g, s, m.a)
  {
    hide Polled, Entered, Stops, Unknown, Step, Interrupt, Pending, BreakAfter, Calm, QuietStart, Pristine;
    hide Read, Exec, Decode, FetchWord, AtBreakAddress, LockWord, Unremarkable, Successor, Raised, Clear, Flag;
    var p := Polled(m, ans);
    ResetUrgent(cfg, m, ans);
    var b := Interrupt(cfg.g, p.a, RESET);
    ResetEntry(cfg.g, p.a);
    ClearedCalm(s, p.a.flags);
    ResetIsPristine(cfg.g, p.a);
    EntryAfterPoll(cfg.g, m, ans);
    PristineFetch(cfg.g, b);
    StepParts(cfg, m, ans);
    StepReset(cfg, m, ans);
    StepBreakPoint(cfg, m, ans);
    var (w, f) := FetchWord(cfg.g, b);
    var r := Step(cfg, m, ans);
    var cc: u32 :| var x := Exec(cfg.g, f, Decode(w), cc);
        && (r.end.Ran? <==> x.o == Completes)
        && (r.end.Ran? ==> r.end == Ran(w) && r.m.a == x.a);
    RaisedKeeps(b, IBUSERROR);
    RaisedCalm(s, b, IBUSERROR);
    FirstInstruction(cfg.g, s, f, Decode(w), cc);
    if r.end.Ran? {
      NoBreak(s, Counted(r.m), w);
    }
    if Read(cfg.g, m.a.mem, b.pc, Full).Some? {
      QuietEntry(cfg.g, s, m.a, b, w);
    } else {
      NoWord(cfg.g, s, m.a);
    }
  }

  lemma NoWord(g: Geometry, s: Setup, a: State)
    requires Placed(g, a.mem) && Read(g, a.mem, Interrupt(g, a, RESET).pc, Full).None?
    ensures !QuietStart(g, s, a)
  {
  }

  lemma ResetUrgent(cfg: Config, m: Machine, ans: Answer)
    requires Pending(m.a.flags, RESET) && !Stops(m, ans)
    ensures TakesReset(m, ans) && !Unknown(Polled(m, ans).a)
    ensures Entered(cfg, Polled(m, ans)).a == Interrupt(cfg.g, Polled(m, ans).a, RESET)
  {
    TakesIffPending(m, ans);
    hide Polled, Stops, Interrupt, Highest, IsZero, Pending;
  }

  // ---------------------------------------------------------------------------
  // Calls and series of calls
  // ---------------------------------------------------------------------------

  /** For one call: a reset is pending, the callback does not end the run, nothing
      else is pending that the call breaks on, and the first instruction after the
      reset gives it no cause to break. */
  predicate GoesTwice(g: Geometry, s: Setup, m: Machine, ans: Answer)
    requires Placed(g, m.a.mem)
  {
    && Pending(m.a.flags, RESET) && !Stops(m, ans)
    && Calm(s, Polled(m, ans).a.flags)
    && QuietStart(g, s, m.a)
  }

  lemma TwiceIff(cfg: Config, s: Setup, m: Machine, script: seq<Answer>)
    requires Sound(cfg, m) && Ticking(s) && script != []
    ensures ResetTick(cfg, s, m, script) <==> m.clk >= m.c.cycle && GoesTwice(cfg.g, s, m, script[0])
  {
    var p := m.(breakPoint := TICK_BREAK);
    PollIgnoresLoop(m, p, script[0]);
    hide Polled, Stops, Step, Pending, BreakAfter, Calm, QuietStart, TakesReset;
    TakesIffPending(p, script[0]);
    if Pending(m.a.flags, RESET) && !Stops(m, script[0]) {
      QuietStep(cfg, s, p, script[0]);
    }
  }

  lemma PollIgnoresLoop(m: Machine, n: Machine, ans: Answer)
    requires SameCpu(m, n)
    ensures Stops(m, ans) == Stops(n, ans) && Polled(m, ans).a == Polled(n, ans).a
  {
    hide Poll, Requested;
  }

  lemma {:induction false} StepsReset(cfg: Config, m: Machine, script: seq<Answer>)
    requires Sound(cfg, m)
    requires !Pending(m.a.flags, RESET) || (script != [] && Steps(cfg, m, script).end.Ran?)
    ensures !Pending(Steps(cfg, m, script).m.a.flags, RESET)
    decreases |script|
  {
    hide Step, Pending;
    if script != [] {
      StepReset(cfg, m, script[0]);
      StoppedStep(cfg, m, script[0]);
      if Step(cfg, m, script[0]).end.Ran? {
        StepsReset(cfg, Step(cfg, m, script[0]).m, script[1..]);
      }
    }
  }

  lemma StoppedStep(cfg: Config, m: Machine, ans: Answer)
    requires Sound(cfg, m)
    ensures Stops(m, ans) ==> !Step(cfg, m, ans).end.Ran?
  {
  }

  lemma {:induction false} NoResets(cfg: Config, setups: seq<Setup>, m: Machine, script: seq<Answer>)
    requires Sound(cfg, m) && !Pending(m.a.flags, RESET)
    requires forall k :: 0 <= k < |setups| ==> Ticking(setups[k])
    ensures Resets(cfg, setups, m, script) == 0
    decreases |setups|
  {
    hide RunLoop.Call, ResetTick, CallTerminated, Ticking, Steps, Pending, GoesTwice;
    if setups != [] {
      var first := RunLoop.Call(cfg, setups[0], m, script);
      if script != [] {
        TwiceIff(cfg, setups[0], m, script);
        NotTwice(cfg.g, setups[0], m, script[0]);
      }
      CallIsSteps(cfg, setups[0], m, script);
      StepsReset(cfg, m, script[..first.used]);
      NoResets(cfg, setups[1..], first.m, script[first.used..]);
    }
  }

  lemma NotTwice(g: Geometry, s: Setup, m: Machine, ans: Answer)
    requires Placed(g, m.a.mem) && !Pending(m.a.flags, RESET)
    ensures !GoesTwice(g, s, m, ans)
  {
  }

  /** A call that only moves the clock count. */
  lemma OnlyMoves(cfg: Config, s: Setup, m: Machine, script: seq<Answer>)
    requires Sound(cfg, m) && Ticking(s) && m.clk < m.c.cycle
    ensures RunLoop.Call(cfg, s, m, script) == RunResult(m.(breakPoint := 0, clk := m.clk + 1), Returned(TICK_BREAK), 0)
    ensures !CallTerminated(cfg, m, script[..0])
  {
    hide Step, BreakAfter;
  }

  lemma TwiceIgnoresLoop(g: Geometry, s: Setup, m: Machine, n: Machine, ans: Answer)
    requires Placed(g, m.a.mem) && SameCpu(m, n)
    ensures GoesTwice(g, s, m, ans) == GoesTwice(g, s, n, ans)
  {
    hide Polled, Stops, Pending, Calm, QuietStart;
    PollIgnoresLoop(m, n, ans);
  }

  /** The call of a series that executes the first instruction: those before it
      only move the clock count up to the cycle count. */
  function FirstExecuting(m: Machine): int {
    m.c.cycle - m.clk
  }

  /** In any series at most one call goes round twice, and it is known beforehand
      which, and whether it does. */
  lemma {:induction false} ResetsExactly(cfg: Config, setups: seq<Setup>, m: Machine, script: seq<Answer>)
    requires Sound(cfg, m) && m.clk <= m.c.cycle && script != []
    requires forall k :: 0 <= k < |setups| ==> Ticking(setups[k])
    ensures var n := FirstExecuting(m);
      Resets(cfg, setups, m, script)
        == if n < |setups| && GoesTwice(cfg.g, setups[n], m, script[0]) then 1 else 0
    decreases |setups|
  {
    hide RunLoop.Call, ResetTick, CallTerminated, Ticking, GoesTwice;
    if setups != [] {
      var first := RunLoop.Call(cfg, setups[0], m, script);
      TwiceIff(cfg, setups[0], m, script);
      if m.clk < m.c.cycle {
        OnlyMoves(cfg, setups[0], m, script);
        assert script[0..] == script;
        ResetsExactly(cfg, setups[1..], first.m, script);
        var n := FirstExecuting(m);
        if n < |setups| {
          TwiceIgnoresLoop(cfg.g, setups[n], m, first.m, script[0]);
        }
      } else {
        AfterExecuting(cfg, setups[0], m, script);
        if !first.status.Halted? && !CallTerminated(cfg, m, script[..first.used]) {
          NoResets(cfg, setups[1..], first.m, script[first.used..]);
        }
      }
    }
  }

  /** Once an instruction has been executed there is no reset pending. */
  lemma AfterExecuting(cfg: Config, s: Setup, m: Machine, script: seq<Answer>)
    requires Sound(cfg, m) && Ticking(s) && script != [] && m.clk >= m.c.cycle
    ensures var r := RunLoop.Call(cfg, s, m, script);
      !CallTerminated(cfg, m, script[..r.used]) ==> !Pending(r.m.a.flags, RESET)
  {
    var r := RunLoop.Call(cfg, s, m, script);
    assert r.used >= 1 by { hide Step, BreakAfter; }
    hide Steps, RunLoop.Call, Pending;
    CallIsSteps(cfg, s, m, script);
    if !CallTerminated(cfg, m, script[..r.used]) {
      StepsReset(cfg, m, script[..r.used]);
    }
  }

  /** The plain count - one call, one unit of the clock count or one instruction -
      holds of a series of tick calls if and only if the first one that executes
      does not go round twice.  In particular it holds when no reset is pending
      to begin with. */
  lemma PlainCountIff(cfg: Config, setups: seq<Setup>, m: Machine, script: seq<Answer>)
    requires Sound(cfg, m) && cfg.waits >= 0 && m.clk <= m.c.cycle && |script| >= |setups| > 0
    requires forall k :: 0 <= k < |setups| ==> Ticking(setups[k])
    ensures var r := Calls(cfg, setups, m, script); var n := FirstExecuting(m);
      CallsMade(cfg, setups, m, script)
        == (r.m.clk - m.clk) + (r.m.instrs - m.instrs) + (if r.status.Halted? then 1 else 0)
      <==> !(n < |setups| && GoesTwice(cfg.g, setups[n], m, script[0]))
  {
    hide Calls, CallsMade, Resets, GoesTwice;
    TickSeries(cfg, setups, m, script);
    ResetsExactly(cfg, setups, m, script);
  }

  lemma PlainCount(cfg: Config, setups: seq<Setup>, m: Machine, script: seq<Answer>)
    requires Sound(cfg, m) && cfg.waits >= 0 && m.clk <= m.c.cycle && |script| >= |setups|
    requires forall k :: 0 <= k < |setups| ==> Ticking(setups[k])
    requires !Pending(m.a.flags, RESET)
    ensures var r := Calls(cfg, setups, m, script);
      CallsMade(cfg, setups, m, script)
        == (r.m.clk - m.clk) + (r.m.instrs - m.instrs) + (if r.status.Halted? then 1 else 0)
  {
    hide Calls, CallsMade, Resets, Pending;
    TickSeries(cfg, setups, m, script);
    NoResets(cfg, setups, m, script);
  }

  /** A call that goes round twice: only a reset is pending, and at the reset
      vector is a word that does nothing but shift r0. */
  lemma TwiceHappens(cfg: Config, s: Setup, m: Machine)
    requires Sound(cfg, m) && cfg.waits >= 0 && Ticking(s) && !AtBreakAddress(s, 4)
    requires m.a.flags == Bits(0x1) && m.clk == m.c.cycle
    requires Read(cfg.g, m.a.mem, 0, Full) == Some(0)
    ensures var r := RunLoop.Call(cfg, s, m, [NoCallback]);
      (r.m.clk - m.clk) + (r.m.instrs - m.instrs) == 2
  {
    OnlyReset(s, m.a.flags);
    ResetEntry(cfg.g, m.a);
    ShiftIsQuiet(cfg.g, s, Interrupt(cfg.g, m.a, RESET));
    hide Pending, Calm, Interrupt, Read, Decode, Unremarkable, Successor, RunLoop.Call, ResetTick, AtBreakAddress;
    assert GoesTwice(cfg.g, s, m, NoCallback);
    hide GoesTwice;
    TwiceIff(cfg, s, m, [NoCallback]);
    TickCall(cfg, s, m, [NoCallback]);
  }

  lemma OnlyReset(s: Setup, x: Bits)
    requires x == Bits(0x1)
    ensures Pending(x, RESET) && Calm(s, x)
  {
  }

  lemma ShiftIsQuiet(g: Geometry, s: Setup, b: State)
    requires Placed(g, b.mem) && b.pc == 0
    ensures Unremarkable(g, s, b, Decode(0)) && Successor(b, Decode(0)) == 4 && !LockWord(0)
  {
    assert Decode(0) == AluRI(Sru, 0, 0, 0);
    hide Decode, Read;
  }
}
