/** Where a program goes on after an exception that one of its instructions raised. */
module Restart {
  import opened Words
  import opened Memory
  import opened Isa
  import opened Arch
  import opened Exceptions
  import Programs
  import Tlb

  lemma OtherBit(w: bv32, f: bv32, g: bv32)
    requires f & g == 0
    ensures (w | f) & g == w & g
  {
  }

  lemma SetOther(x: Bits, f: bv32, g: bv32)
    requires f & g == 0
    ensures On(Set(x, f), g) == On(x, g)
  {
    OtherBit(x.w, f, g);
  }

  lemma OwnBit(w: bv32, f: bv32)
    ensures (w | f) & f == f
  {
  }

  lemma SetOwn(x: Bits, f: bv32)
    requires f != 0
    ensures On(Set(x, f), f)
  {
    OwnBit(x.w, f);
  }

  /** Raising one exception leaves the others as they are. */
  lemma RaisedPending(a: State, id: nat, k: nat)
    requires id < NUM_EXCEPTIONS && k < NUM_EXCEPTIONS
    ensures Pending(Raised(a, id).flags, k) <==> k == id || Pending(a.flags, k)
    ensures Raised(a, id) == a.(flags := Raised(a, id).flags)
  {
    hide Flag, On, Set;
    DistinctFlags(id, k);
    Programs.OneBit(id);
    if k == id {
      SetOwn(a.flags, Flag(id));
    } else {
      SetOther(a.flags, Flag(id), Flag(k));
    }
  }

  /** `b` comes about from `a` by nothing but raising exceptions of a list, and moving
      registers, memory and TLB registers. */
  predicate OnlyRaises(a: State, b: State, ids: set<nat>) {
    forall k :: 0 <= k < NUM_EXCEPTIONS && k !in ids && Pending(b.flags, k) ==> Pending(a.flags, k)
  }

  lemma ReadRaises(g: Geometry, a: State, v: u32, sz: Size)
    requires Placed(g, a.mem)
    ensures OnlyRaises(a, ReadMem(g, a, v, Data(sz)).1, {3, 4, 9}) && ReadMem(g, a, v, Data(sz)).1.pc == a.pc
  {
    hide Pending, Raised, Translated, Watched, Read, Tlb.LookupStatus, Tlb.LookupAddress, Tlb.AfterLookup;
    var c := a.(mmu := Tlb.AfterLookup(a.mmu, v, true, false));
    forall k | 0 <= k < NUM_EXCEPTIONS
      ensures Pending(Raised(c, DTLB_MISS).flags, k) <==> k == DTLB_MISS || Pending(a.flags, k)
      ensures Pending(Raised(a, WATCHPOINT).flags, k) <==> k == WATCHPOINT || Pending(a.flags, k)
      ensures Pending(Raised(a, DBUSERROR).flags, k) <==> k == DBUSERROR || Pending(a.flags, k)
    {
      RaisedPending(c, DTLB_MISS, k);
      RaisedPending(a, WATCHPOINT, k);
      RaisedPending(a, DBUSERROR, k);
    }
    RaisedPending(c, DTLB_MISS, 0);
    RaisedPending(a, WATCHPOINT, 0);
    RaisedPending(a, DBUSERROR, 0);
  }

  lemma WriteRaises(g: Geometry, a: State, v: u32, sz: Size, d: u32)
    requires Placed(g, a.mem)
    ensures OnlyRaises(a, WriteMem(g, a, v, sz, d), {3, 4, 9, 10}) && WriteMem(g, a, v, sz, d).pc == a.pc
  {
    hide Pending, Raised, Watched, Write, On, Tlb.LookupStatus, Tlb.LookupAddress, Tlb.AfterLookup;
    var c := a.(mmu := Tlb.AfterLookup(a.mmu, v, true, true));
    var r := Write(g, a.mem, WritePhysical(a, v), sz, d);
    var b := a.(mem := if r.Some? then r.value else a.mem);
    forall k | 0 <= k < NUM_EXCEPTIONS
      ensures Pending(Raised(c, DTLB_MISS).flags, k) <==> k == DTLB_MISS || Pending(a.flags, k)
      ensures Pending(Raised(c, DTLB_FAULT).flags, k) <==> k == DTLB_FAULT || Pending(a.flags, k)
      ensures Pending(Raised(b, WATCHPOINT).flags, k) <==> k == WATCHPOINT || Pending(a.flags, k)
      ensures Pending(Raised(a, DBUSERROR).flags, k) <==> k == DBUSERROR || Pending(a.flags, k)
    {
      RaisedPending(c, DTLB_MISS, k);
      RaisedPending(c, DTLB_FAULT, k);
      RaisedPending(b, WATCHPOINT, k);
      RaisedPending(a, DBUSERROR, k);
    }
    RaisedPending(c, DTLB_MISS, 0);
    RaisedPending(c, DTLB_FAULT, 0);
    RaisedPending(b, WATCHPOINT, 0);
    RaisedPending(a, DBUSERROR, 0);
  }

  lemma LoadRaises(g: Geometry, a: State, sz: Size, signed: bool, y: nat, x: nat, k: u32)
    requires Placed(g, a.mem) && y < 32 && x < 32
    ensures var b := ExecLoad(g, a, sz, signed, y, x, k); OnlyRaises(a, b, {3, 4, 9}) && b.pc == Wrap(a.pc + 4)
  {
    hide ReadMem, Pending, Extended, Wrap;
    var v := EffectiveAddress(a, y, k);
    ReadRaises(g, a, v, sz);
    ReadRaises(g, ReadMem(g, a, v, Data(sz)).1, v, sz);
  }

  lemma StoreRaises(g: Geometry, a: State, sz: Size, y: nat, z: nat, k: u32)
    requires Placed(g, a.mem) && y < 32 && z < 32
    ensures var b := ExecStore(g, a, sz, y, z, k); OnlyRaises(a, b, {3, 4, 9, 10}) && b.pc == Wrap(a.pc + 4)
  {
    hide WriteMem, Pending, Wrap, Modulus;
    WriteRaises(g, a, EffectiveAddress(a, y, k), sz, Cut(a.r[z], sz));
  }

  function Cut(d: u32, sz: Size): u32 {
    d % Modulus(sz)
  }

  /** The other instructions raise one exception at most. */
  function Only(i: Instr): set<nat> {
    match i
    case AluRR(_, _, _, _) => {2}
    case AluRI(_, _, _, _) => {2}
    case Divide(_, _, _, _) => {2, 5}
    case Sext(_, _, _) => {2}
    case Load(_, _, _, _, _) => {3, 4, 9}
    case Store(_, _, _, _) => {3, 4, 9, 10}
    case JumpReg(_) => {11}
    case Wcsr(_, _) => {11}
    case Raise(BreakCall) => {1}
    case Raise(SystemCall) => {7}
    case Reserved => {2}
    case _ => {}
  }

  /** Once raised or not, three exceptions that take no more than that. */
  lemma OneRaised(a: State, id: nat)
    requires id < NUM_EXCEPTIONS
    ensures OnlyRaises(a, Raised(a, id), {id}) && Raised(a, id) == a.(flags := Raised(a, id).flags)
  {
    hide Pending, Raised;
    forall k | 0 <= k < NUM_EXCEPTIONS && k !in {id} && Pending(Raised(a, id).flags, k)
      ensures Pending(a.flags, k)
    {
      RaisedPending(a, id, k);
    }
    RaisedPending(a, id, id);
  }

  /** What arithmetic does to the flags. */
  lemma AluRaises(a: State, op: AluOp, u: u32, v: u32, x: nat)
    requires x < 32
    ensures OnlyRaises(a, ExecAlu(a, op, u, v, x).a, {2})
  {
    OneRaised(a, IBUSERROR);
    hide Pending, Raised, AluPresent, AluDefined, AluValue, Wrap;
  }

  lemma DivideRaises(a: State, d: DivOp, u: u32, v: u32, x: nat)
    requires x < 32
    ensures OnlyRaises(a, ExecDivide(a, d, u, v, x).a, {2, 5})
  {
    OneRaised(a, IBUSERROR);
    OneRaised(a, DIVZERO);
    hide Pending, Raised, On, DivDefined, DivValue, Wrap;
  }

  lemma OtherRaises(g: Geometry, a: State, i: Instr, cc: u32)
    requires Placed(g, a.mem) && Fields(i)
    requires i.Sext? || i.Branch? || i.Jump? || i.Call? || i.CallI? || i.Rcsr? || i.Reserved? || i.Raise?
    ensures OnlyRaises(a, Exec(g, a, i, cc).a, Only(i))
  {
    OneRaised(a, IBUSERROR);
    OneRaised(a, BREAKPOINT);
    OneRaised(a, SYSCALL);
    hide Pending, Raised, On, SextValue, Taken, CsrValue, ReadableCsr, Trimmed, Wrap;
  }

  lemma PrivilegedRaises(g: Geometry, a: State, i: Instr, cc: u32)
    requires Placed(g, a.mem) && Fields(i) && (i.JumpReg? || i.Wcsr?)
    ensures OnlyRaises(a, Exec(g, a, i, cc).a, {11})
  {
    OneRaised(a, PRIV_ACCESS);
    hide Pending, Raised, On, RestoreB, RestoreE, CsrsWritten, MmuWritten, ReadableCsr, Wrap;
  }

  lemma ExecRaises(g: Geometry, a: State, i: Instr, cc: u32)
    requires Placed(g, a.mem) && Fields(i)
    ensures OnlyRaises(a, Exec(g, a, i, cc).a, Only(i))
  {
    hide OnlyRaises, ExecAlu, ExecDivide, ExecSext, ExecLoad, ExecStore, ExecBranch, ExecJumpReg, ExecCall, ExecCallI,
      ExecRcsr, ExecWcsr, ExecRaise, ExecReserved, Wrap;
    match i
    case AluRR(op, y, z, x) => AluRaises(a, op, a.r[y], a.r[z], x);
    case AluRI(op, y, x, k) => AluRaises(a, op, a.r[y], k, x);
    case Divide(d, y, z, x) => DivideRaises(a, d, a.r[y], a.r[z], x);
    case Load(sz, signed, y, x, k) => LoadRaises(g, a, sz, signed, y, x, k);
    case Store(sz, y, z, k) => StoreRaises(g, a, sz, y, z, k);
    case JumpReg(_) => PrivilegedRaises(g, a, i, cc);
    case Wcsr(_, _) => PrivilegedRaises(g, a, i, cc);
    case _ => OtherRaises(g, a, i, cc);
  }

  // ---------------------------------------------------------------------------
  // Where it goes on
  // ---------------------------------------------------------------------------

  lemma PcAfterOthers(g: Geometry, a: State, i: Instr, cc: u32, id: nat)
    requires Placed(g, a.mem) && Fields(i) && !i.Load? && !i.Store? && Exec(g, a, i, cc).o == Completes
    requires id in Only(i) && !Pending(a.flags, id) && Pending(Exec(g, a, i, cc).a.flags, id)
    ensures Exec(g, a, i, cc).a.pc == if id in {1, 7, 11} then a.pc else Wrap(a.pc + 4)
  {
    RaisedSame(a);
    hide Pending, Raised, On, AluPresent, AluDefined, AluValue, DivDefined, DivValue, SextValue, ReturnTrapped,
      RestoreB, RestoreE, CsrsWritten, MmuWritten, ReadableCsr, ExecLoad, ExecStore, Wrap;
  }

  lemma RaisedSame(a: State)
    ensures forall id :: 0 <= id < NUM_EXCEPTIONS ==> Raised(a, id) == a.(flags := Raised(a, id).flags)
  {
    hide Set, Flag;
  }

  /** The pc after an instruction that has raised an exception. */
  lemma PcAfter(g: Geometry, a: State, i: Instr, cc: u32, id: nat)
    requires Placed(g, a.mem) && Fields(i) && Exec(g, a, i, cc).o == Completes
    requires id in Only(i) && !Pending(a.flags, id) && Pending(Exec(g, a, i, cc).a.flags, id)
    ensures Exec(g, a, i, cc).a.pc == if id in {1, 7, 11} then a.pc else Wrap(a.pc + 4)
  {
    hide Pending, ExecLoad, ExecStore, ExecAlu, ExecDivide, ExecSext, ExecBranch, ExecJumpReg, ExecCall, ExecCallI,
      ExecRcsr, ExecWcsr, ExecRaise, ExecReserved, Wrap, OnlyRaises;
    match i
    case Load(sz, signed, y, x, k) => LoadRaises(g, a, sz, signed, y, x, k);
    case Store(sz, y, z, k) => StoreRaises(g, a, sz, y, z, k);
    case _ => PcAfterOthers(g, a, i, cc, id);
  }

  /** Bus errors, watchpoints and divisions by zero are come back from behind the
      instruction, and so is an instruction that is not built in; TLB misses and
      faults, calls and breaks, and privileged instructions are come back to. */
  function Resumes(pc: u32, id: nat): u32 {
    if id in {2, 3, 4, 5} then Wrap(pc + 4) else pc
  }

  lemma RestartIs(pc: u32, b: State, id: nat)
    requires id in {1, 2, 3, 4, 5, 7, 9, 10, 11}
    requires b.pc == if id in {1, 7, 11} then pc else Wrap(pc + 4)
    ensures RestartPc(b, id) == Resumes(pc, id)
  {
  }

  lemma RaisesSome(i: Instr)
    ensures Only(i) <= {1, 2, 3, 4, 5, 7, 9, 10, 11}
  {
  }

  /** An instruction raises an exception; its handler is entered, keeps the bank that
      it will return by - ba and bret for breakpoints and watchpoints, ea and eret for
      all the others - and returns.  The program goes on at the instruction itself or
      behind it, by the kind of the exception alone. */
  lemma ComesBackTo(g: Geometry, a: State, i: Instr, cc: u32, id: nat, h: State)
    requires Placed(g, a.mem) && Fields(i) && id < NUM_EXCEPTIONS && Exec(g, a, i, cc).o == Completes
    requires !Pending(a.flags, id) && Pending(Exec(g, a, i, cc).a.flags, id)
    requires Keeps(Interrupt(g, Exec(g, a, i, cc).a, id), h, id in {1, 3}) && !On(h.csr.psw, USR)
    ensures id in Only(i)
    ensures Return(h, id in {1, 3}).pc == Resumes(a.pc, id)
    ensures Current(Return(h, id in {1, 3}).csr) == Current(Exec(g, a, i, cc).a.csr)
  {
    hide Pending, Exec, Interrupt, Return, Current, Keeps, Resumes, RestartPc, On, Only;
    ExecRaises(g, a, i, cc);
    assert id in Only(i);
    RaisesSome(i);
    var b := Exec(g, a, i, cc).a;
    PcAfter(g, a, i, cc, id);
    RestartIs(a.pc, b, id);
    EntryReturn(g, b, id, h);
  }
}
