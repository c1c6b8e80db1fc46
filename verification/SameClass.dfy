/** What becomes of a program when an exception strikes in the handler of another
    one of its class: a system call handler that divides by zero before it has
    saved ea never gets back to the call. */
module SameClass {
  import opened Words
  import opened Memory
  import opened Isa
  import opened Arch
  import opened Timing
  import opened Execution
  import opened Exceptions
  import opened Retry
  import opened RetryInstance
  import Instructions
  import Tlb

  /** Exactly one exception is pending. */
  predicate OnlyPending(x: Bits, id: nat) {
    x == Bits(Flag(id))
  }

  lemma RaisedFromNone(a: State, id: nat)
    ensures IsZero(a.flags) ==> OnlyPending(Raised(a, id).flags, id)
  {
    NoneOr(a.flags, Flag(id));
    hide Flag, Set;
  }

  lemma NoneOr(x: Bits, f: bv32)
    ensures IsZero(x) ==> Set(x, f) == Bits(f)
  {
  }

  lemma TakesOnly(x: Bits, id: nat)
    requires id < NUM_EXCEPTIONS && OnlyPending(x, id)
    ensures !IsZero(x) && Highest(x, 0) == id && IsZero(Clear(x, Flag(id)))
  {
    hide Highest, Flag, Pending;
    OnlyThat(id);
    var h := Highest(x, 0);
    assert Pending(x, id);
    assert h < NUM_EXCEPTIONS ==> Pending(x, h);
  }

  lemma OnlyThat(id: nat)
    requires id < NUM_EXCEPTIONS
    ensures Flag(id) != 0 && Flag(id) & !Flag(id) == 0
    ensures forall k :: 0 <= k < NUM_EXCEPTIONS ==> (Pending(Bits(Flag(id)), k) <==> k == id)
  {
    Cancels(Flag(id));
    forall k | 0 <= k < NUM_EXCEPTIONS
      ensures Pending(Bits(Flag(id)), k) <==> k == id
    {
      DistinctFlags(id, k);
    }
  }

  lemma Cancels(f: bv32)
    ensures f & !f == 0 && f & f == f
  {
  }

  /** The step that enters the handler of the only pending exception. */
  lemma EnterStep(cfg: Config, m: Machine, id: nat, w: u32)
    requires Sound(cfg, m) && id < NUM_EXCEPTIONS && OnlyPending(m.a.flags, id)
    requires Ready(cfg.g, Interrupt(cfg.g, m.a, id), w)
    requires forall cc :: Exec(cfg.g, Interrupt(cfg.g, m.a, id), Decode(w), cc).o == Completes
    ensures var r := Step(cfg, m, NoCallback);
      r.end == Ran(w) && exists cc :: r.m.a == Exec(cfg.g, Interrupt(cfg.g, m.a, id), Decode(w), cc).a
  {
    hide FetchWord, Exec, ExecTime, ReadTime, Decode, IsZero, Interrupt, Highest, OnlyPending, Clear, Flag;
    TakesOnly(m.a.flags, id);
    var e := Entered(cfg, m);
    assert e.a == Interrupt(cfg.g, m.a, id) && !Unknown(m.a);
    var m2 := Fetched(cfg, e).1;
    assert Step(cfg, m, NoCallback).m.a == Exec(cfg.g, e.a, Decode(w), CycleCounter(m2.c)).a;
  }

  /** Entry to a handler of the normal class when nothing else is pending. */
  lemma Entry(g: Geometry, a: State, id: nat)
    requires id == SYSCALL || id == DIVZERO
    requires OnlyPending(a.flags, id)
    ensures var h := Interrupt(g, a, id);
      && h.pc == Vector(a.csr, id) && h.r == a.r[EA_REG := a.pc] && h.mem == a.mem && h.mmu == a.mmu
      && h.csr == HandlerModes(SaveE(a.csr)) && IsZero(h.flags)
  {
    TakesOnly(a.flags, id);
    hide HandlerModes, SaveE, Vector, Clear, Flag, IsZero, OnlyPending;
  }

  lemma HandlerCsrs(k: Csrs)
    ensures var h := HandlerModes(SaveE(k));
      && h.cfg == k.cfg && (forall id :: Vector(h, id) == Vector(k, id))
      && Current(h) == HANDLER && !On(h.psw, ITLBE) && !On(h.psw, USR)
  {
    hide HandlerModes, SaveE, On;
    SaveBits(k);
    HandlerRest(k);
  }

  lemma HandlerRest(k: Csrs)
    ensures var h := HandlerModes(SaveE(k)); h.cfg == k.cfg && h.dc == k.dc && h.eba == k.eba && h.deba == k.deba
  {
    hide CopyBit, Clear;
  }

  // ---------------------------------------------------------------------------
  // The program
  // ---------------------------------------------------------------------------

  /** At pc is a system call; its handler starts with a division by a register
      that holds 0, followed by eret; the handler of divisions by zero is an
      eret. */
  ghost predicate NestedProgram(g: Geometry, a: State, call: u32, divide: u32, eret: u32)
    requires Placed(g, a.mem)
  {
    && IsZero(a.flags) && Has(a, CFG_D) && !Has(a, CFG_R) && !On(a.csr.psw, ITLBE)
    && Decode(call) == Raise(SystemCall) && Decode(eret) == JumpReg(EA_REG)
    && Decode(divide).Divide? && Decode(divide).z != EA_REG && a.r[Decode(divide).z] == 0
    && Read(g, a.mem, a.pc, Full) == Some(call)
    && Read(g, a.mem, Vector(a.csr, SYSCALL), Full) == Some(divide)
    && Read(g, a.mem, Wrap(Vector(a.csr, SYSCALL) + 4), Full) == Some(eret)
    && Read(g, a.mem, Vector(a.csr, DIVZERO), Full) == Some(eret)
  }

  /** The states it goes through: the call's handler, the division's handler, and
      the return from that. */
  function CallHandler(g: Geometry, a: State): State {
    Interrupt(g, Raised(a, SYSCALL), SYSCALL)
  }

  function DivideHandler(g: Geometry, a: State): State {
    Interrupt(g, Next(Raised(CallHandler(g, a), DIVZERO)), DIVZERO)
  }

  function BackInHandler(g: Geometry, a: State): State {
    Return(DivideHandler(g, a), false)
  }

  lemma CallEntered(g: Geometry, a: State)
    requires IsZero(a.flags)
    ensures OnlyPending(Raised(a, SYSCALL).flags, SYSCALL)
    ensures var h := CallHandler(g, a);
      && h.pc == Vector(a.csr, SYSCALL) && h.r == a.r[EA_REG := a.pc] && h.mem == a.mem && h.mmu == a.mmu
      && h.csr == HandlerModes(SaveE(a.csr)) && IsZero(h.flags)
  {
    hide Raised, OnlyPending, IsZero, HandlerModes, SaveE, Vector, Interrupt;
    RaisedFromNone(a, SYSCALL);
    RaisedRest(a, SYSCALL);
    Entry(g, Raised(a, SYSCALL), SYSCALL);
  }

  lemma RaisedRest(a: State, id: nat)
    ensures Raised(a, id) == a.(flags := Raised(a, id).flags)
  {
    hide Set, Flag;
  }

  lemma DivideEntered(g: Geometry, a: State)
    requires IsZero(a.flags)
    ensures var h := CallHandler(g, a); var d := Next(Raised(h, DIVZERO)); var e := DivideHandler(g, a);
      && OnlyPending(d.flags, DIVZERO)
      && e.pc == Vector(a.csr, DIVZERO) && e.r == a.r[EA_REG := Wrap(h.pc + 4)] && e.mem == a.mem
      && e.csr == HandlerModes(SaveE(h.csr)) && IsZero(e.flags)
  {
    hide Raised, OnlyPending, IsZero, HandlerModes, SaveE, Vector, Interrupt, CallHandler;
    CallEntered(g, a);
    HandlerCsrs(a.csr);
    var h := CallHandler(g, a);
    RaisedFromNone(h, DIVZERO);
    RaisedRest(h, DIVZERO);
    Entry(g, Next(Raised(h, DIVZERO)), DIVZERO);
  }

  /** From then on the machine stays where it is: ea holds the address of the
      eret itself. */
  lemma BackAndStuck(g: Geometry, a: State)
    requires IsZero(a.flags)
    ensures var h := CallHandler(g, a); var b := BackInHandler(g, a);
      && b.pc == Wrap(h.pc + 4) && b.mem == a.mem && b.csr.cfg == a.csr.cfg && IsZero(b.flags)
      && !On(b.csr.psw, ITLBE) && !On(b.csr.psw, USR)
      && Return(b, false) == b
  {
    hide IsZero, HandlerModes, SaveE, Vector, CallHandler, DivideHandler, RestoreE, BankE, BankB, On;
    CallEntered(g, a);
    DivideEntered(g, a);
    var h, e := CallHandler(g, a), DivideHandler(g, a);
    HandlerCsrs(a.csr);
    HandlerCsrs(h.csr);
    SaveBits(h.csr);
    ReturnFacts(e, false);
    RestoreBits(e.csr);
    RestoredTwice(e.csr);
    var b := BackInHandler(g, a);
    assert Current(b.csr) == HANDLER;
  }

  lemma RestoredTwice(k: Csrs)
    ensures RestoreE(RestoreE(k)) == RestoreE(k) && RestoreE(k).cfg == k.cfg
  {
    RestoreBits(k);
    var r := RestoreE(k);
    assert r.cfg == k.cfg by { hide CopyBit; }
    assert Current(r) == BankE(r);
    hide CopyBit, On;
    Agreed(r.ie);
    Agreed(r.psw);
    assert RestoreE(r) == r;
  }

  /** Copying between bits that agree changes nothing. */
  lemma Agreed(x: Bits)
    ensures On(x, IE_EIE) == On(x, IE_IE) ==> CopyBit(x, IE_EIE, IE_IE) == x
    ensures On(x, EITLBE) == On(x, ITLBE) ==> CopyBit(x, EITLBE, ITLBE) == x
    ensures On(x, EDTLBE) == On(x, DTLBE) ==> CopyBit(x, EDTLBE, DTLBE) == x
    ensures On(x, EUSR) == On(x, USR) ==> CopyBit(x, EUSR, USR) == x
  {
    hide On, Set, Clear;
    EnableBit(x);
    InstructionBit(x);
    DataBit(x);
    UserBit(x);
  }

  lemma EnableBit(x: Bits)
    ensures On(x, IE_IE) ==> Set(x, IE_IE) == x
    ensures !On(x, IE_IE) ==> Clear(x, IE_IE) == x
  {
  }

  lemma InstructionBit(x: Bits)
    ensures On(x, ITLBE) ==> Set(x, ITLBE) == x
    ensures !On(x, ITLBE) ==> Clear(x, ITLBE) == x
  {
  }

  lemma DataBit(x: Bits)
    ensures On(x, DTLBE) ==> Set(x, DTLBE) == x
    ensures !On(x, DTLBE) ==> Clear(x, DTLBE) == x
  {
  }

  lemma UserBit(x: Bits)
    ensures On(x, USR) ==> Set(x, USR) == x
    ensures !On(x, USR) ==> Clear(x, USR) == x
  {
  }

  // ---------------------------------------------------------------------------
  // The run
  // ---------------------------------------------------------------------------

  function Quiet(n: nat): (script: seq<Answer>)
    ensures |script| == n
  {
    if n == 0 then [] else [NoCallback] + Quiet(n - 1)
  }

  /** An eret that returns to itself is the end of all progress. */
  lemma {:induction false} StaysPut(cfg: Config, m: Machine, eret: u32, n: nat)
    requires Sound(cfg, m) && Ready(cfg.g, m.a, eret) && Decode(eret) == JumpReg(EA_REG)
    requires Return(m.a, false) == m.a
    ensures Steps(cfg, m, Quiet(n)).end.Ran? && Steps(cfg, m, Quiet(n)).m.a == m.a
    decreases n
  {
    hide Ready, Return, Step, Decode;
    if n > 0 {
      EretRuns(cfg, m, eret);
      assert Quiet(n)[0] == NoCallback && Quiet(n)[1..] == Quiet(n - 1);
      StaysPut(cfg, Step(cfg, m, NoCallback).m, eret, n - 1);
    }
  }

  lemma EretRuns(cfg: Config, m: Machine, eret: u32)
    requires Sound(cfg, m) && Ready(cfg.g, m.a, eret) && Decode(eret) == JumpReg(EA_REG)
    ensures var r := Step(cfg, m, NoCallback); r.end.Ran? && r.m.a == Return(m.a, false)
  {
    hide Ready, Step, Decode, ExecJumpReg;
    ReadyStep(cfg, m, eret);
  }

  lemma DivideRaises(g: Geometry, h: State, i: Instr, cc: u32)
    requires Placed(g, h.mem) && i.Divide? && Fields(i) && Has(h, CFG_D) && h.r[i.z] == 0
    ensures Exec(g, h, i, cc) == Result(Next(Raised(h, DIVZERO)), Completes)
  {
    hide On, Raised;
  }

  lemma CallRaises(g: Geometry, a: State, cc: u32)
    requires Placed(g, a.mem)
    ensures Exec(g, a, Raise(SystemCall), cc) == Result(Raised(a, SYSCALL), Completes)
  {
    hide On, Raised;
  }

  lemma ProgramReady(g: Geometry, a: State, call: u32, divide: u32, eret: u32)
    requires Placed(g, a.mem) && NestedProgram(g, a, call, divide, eret)
    ensures var h, e, b := CallHandler(g, a), DivideHandler(g, a), BackInHandler(g, a);
      && h.mem == e.mem == b.mem == a.mem
      && Ready(g, a, call) && Ready(g, h, divide) && Ready(g, e, eret) && Ready(g, b, eret)
      && Has(h, CFG_D) && h.r[Decode(divide).z] == 0
  {
    hide Read, Decode, On, Vector, CallHandler, DivideHandler, BackInHandler, HandlerModes, SaveE, Ready, IsZero, Wrap;
    CallEntered(g, a);
    DivideEntered(g, a);
    BackAndStuck(g, a);
    var h, e, b := CallHandler(g, a), DivideHandler(g, a), BackInHandler(g, a);
    HandlerCsrs(a.csr);
    HandlerCsrs(h.csr);
    FetchReady(g, a, call);
    FetchReady(g, h, divide);
    FetchReady(g, e, eret);
    FetchReady(g, b, eret);
  }

  /** The first step executes the call. */
  lemma CallStep(cfg: Config, m: Machine, call: u32)
    requires Sound(cfg, m) && Ready(cfg.g, m.a, call) && Decode(call) == Raise(SystemCall)
    ensures var r := Step(cfg, m, NoCallback); r.end.Ran? && r.m.a == Raised(m.a, SYSCALL)
  {
    hide Ready, Step, Decode, Raised, Exec;
    forall cc: u32
      ensures Exec(cfg.g, m.a, Raise(SystemCall), cc) == Result(Raised(m.a, SYSCALL), Completes)
    {
      CallRaises(cfg.g, m.a, cc);
    }
    ReadyStep(cfg, m, call);
  }

  /** The second enters its handler and divides. */
  lemma DivideStep(cfg: Config, m: Machine, divide: u32)
    requires Sound(cfg, m) && OnlyPending(m.a.flags, SYSCALL)
    requires var h := Interrupt(cfg.g, m.a, SYSCALL);
      && Ready(cfg.g, h, divide) && Decode(divide).Divide? && Has(h, CFG_D) && h.r[Decode(divide).z] == 0
    ensures var r := Step(cfg, m, NoCallback);
      r.end.Ran? && r.m.a == Next(Raised(Interrupt(cfg.g, m.a, SYSCALL), DIVZERO))
  {
    hide Ready, Step, Decode, Raised, Next, Exec, Interrupt, OnlyPending;
    var h := Interrupt(cfg.g, m.a, SYSCALL);
    forall cc: u32
      ensures Exec(cfg.g, h, Decode(divide), cc) == Result(Next(Raised(h, DIVZERO)), Completes)
    {
      DivideRaises(cfg.g, h, Decode(divide), cc);
    }
    EnterStep(cfg, m, SYSCALL, divide);
  }

  /** The third enters the handler of that exception, which returns. */
  lemma ReturnStep(cfg: Config, m: Machine, eret: u32)
    requires Sound(cfg, m) && OnlyPending(m.a.flags, DIVZERO)
    requires Ready(cfg.g, Interrupt(cfg.g, m.a, DIVZERO), eret) && Decode(eret) == JumpReg(EA_REG)
    ensures var r := Step(cfg, m, NoCallback);
      r.end.Ran? && r.m.a == Return(Interrupt(cfg.g, m.a, DIVZERO), false)
  {
    hide Ready, Step, Decode, Exec, Return, Interrupt, OnlyPending;
    var e := Interrupt(cfg.g, m.a, DIVZERO);
    forall cc: u32
      ensures Exec(cfg.g, e, JumpReg(EA_REG), cc) == Result(Return(e, false), Completes)
    {
      EretExec(cfg.g, e, cc);
    }
    EnterStep(cfg, m, DIVZERO, eret);
  }

  lemma ThreeSteps(cfg: Config, m: Machine, call: u32, divide: u32, eret: u32)
    requires Sound(cfg, m) && NestedProgram(cfg.g, m.a, call, divide, eret)
    ensures var r := Steps(cfg, m, Quiet(3)); r.end.Ran? && r.m.a == BackInHandler(cfg.g, m.a)
  {
    assert Decode(call) == Raise(SystemCall) && Decode(divide).Divide? && Decode(eret) == JumpReg(EA_REG);
    assert IsZero(m.a.flags);
    hide NestedProgram, Ready, Step, Steps, Decode, Interrupt, Return, OnlyPending, Raised, Next, IsZero, Has, Quiet;
    ProgramReady(cfg.g, m.a, call, divide, eret);
    CallEntered(cfg.g, m.a);
    DivideEntered(cfg.g, m.a);
    CallStep(cfg, m, call);
    var m1 := Step(cfg, m, NoCallback).m;
    DivideStep(cfg, m1, divide);
    var m2 := Step(cfg, m1, NoCallback).m;
    ReturnStep(cfg, m2, eret);
    TwoMore(cfg, m, m1, m2);
  }

  lemma EretExec(g: Geometry, e: State, cc: u32)
    requires Placed(g, e.mem)
    ensures Exec(g, e, JumpReg(EA_REG), cc) == Result(Return(e, false), Completes)
  {
    hide ExecJumpReg;
  }

  lemma TwoMore(cfg: Config, m: Machine, m1: Machine, m2: Machine)
    requires Sound(cfg, m) && Sound(cfg, m1) && Sound(cfg, m2)
    requires Step(cfg, m, NoCallback).end.Ran? && Step(cfg, m, NoCallback).m == m1
    requires Step(cfg, m1, NoCallback).end.Ran? && Step(cfg, m1, NoCallback).m == m2
    requires Step(cfg, m2, NoCallback).end.Ran?
    ensures Steps(cfg, m, Quiet(3)).end.Ran? && Steps(cfg, m, Quiet(3)).m == Step(cfg, m2, NoCallback).m
  {
    hide Step;
    Advance(cfg, m, 3);
    Advance(cfg, m1, 2);
    Advance(cfg, m2, 1);
  }

  lemma Advance(cfg: Config, m: Machine, n: nat)
    requires Sound(cfg, m) && n > 0 && Step(cfg, m, NoCallback).end.Ran?
    ensures Steps(cfg, m, Quiet(n)) == Steps(cfg, Step(cfg, m, NoCallback).m, Quiet(n - 1))
  {
    hide Step;
    assert Quiet(n)[1..] == Quiet(n - 1);
  }

  lemma ElsewhereThanCall(g: Geometry, a: State, call: u32, divide: u32, eret: u32)
    requires Placed(g, a.mem) && NestedProgram(g, a, call, divide, eret)
    ensures Wrap(Vector(a.csr, SYSCALL) + 4) != RestartPc(a, SYSCALL)
  {
    hide Read, Decode, Vector, Wrap;
  }

  lemma StuckInHandler(cfg: Config, m: Machine, call: u32, divide: u32, eret: u32, n: nat)
    requires Sound(cfg, m) && NestedProgram(cfg.g, m.a, call, divide, eret)
    ensures var r := Steps(cfg, m, Quiet(3 + n)); r.end.Ran? && r.m.a == BackInHandler(cfg.g, m.a)
  {
    assert IsZero(m.a.flags) && Decode(eret) == JumpReg(EA_REG);
    hide NestedProgram, Ready, Steps, Decode, Return, BackInHandler, IsZero, Quiet;
    ProgramReady(cfg.g, m.a, call, divide, eret);
    ThreeSteps(cfg, m, call, divide, eret);
    StuckState(cfg.g, m.a);
    StaysPut(cfg, Steps(cfg, m, Quiet(3)).m, eret, n);
    RunsOn(cfg, m, 3, n);
  }

  /** From the third step on the machine is at the eret of the call's handler, for
      ever: the division has put the address of that eret into ea, and the call is
      never gone back to. */
  lemma SameClassGoesWrong(cfg: Config, m: Machine, call: u32, divide: u32, eret: u32, n: nat)
    requires Sound(cfg, m) && NestedProgram(cfg.g, m.a, call, divide, eret)
    ensures var r := Steps(cfg, m, Quiet(3 + n));
      r.end.Ran? && r.m.a.pc == Wrap(Vector(m.a.csr, SYSCALL) + 4) != RestartPc(m.a, SYSCALL)
  {
    hide Steps, BackInHandler, Quiet, Vector, Wrap, Has, On, Read, Decode, IsZero;
    ElsewhereThanCall(cfg.g, m.a, call, divide, eret);
    StuckInHandler(cfg, m, call, divide, eret, n);
    StuckState(cfg.g, m.a);
  }

  lemma StuckState(g: Geometry, a: State)
    requires IsZero(a.flags)
    ensures var b := BackInHandler(g, a); Return(b, false) == b && b.pc == Wrap(Vector(a.csr, SYSCALL) + 4)
  {
    CallEntered(g, a);
    BackAndStuck(g, a);
  }

  lemma {:induction false} RunsOn(cfg: Config, m: Machine, k: nat, n: nat)
    requires Sound(cfg, m) && Steps(cfg, m, Quiet(k)).end.Ran?
    ensures Steps(cfg, m, Quiet(k + n)) == Steps(cfg, Steps(cfg, m, Quiet(k)).m, Quiet(n))
    decreases k
  {
    hide Step;
    if k > 0 {
      assert Quiet(k)[0] == NoCallback && Quiet(k)[1..] == Quiet(k - 1);
      assert Quiet(k + n)[0] == NoCallback && Quiet(k + n)[1..] == Quiet(k - 1 + n);
      RunsOn(cfg, Step(cfg, m, NoCallback).m, k - 1, n);
    }
  }

  // ---------------------------------------------------------------------------
  // Such a program
  // ---------------------------------------------------------------------------

  // divu r1, r2, r0
  const DIVIDE: Instr := Divide(Divu, 2, 0, 1)

  function DivideWord(): u32 { Instructions.Encode(DIVIDE) }

  // The vectors of system calls and of divisions by zero.
  const CALL_PC: u32 := 0xe0
  const DIVZERO_PC: u32 := 0xa0

  /** The call at the bottom of memory, and the two handlers at their vectors. */
  function FourWords(mem: seq<u8>, call: u32, divide: u32, eret: u32): (mem': seq<u8>)
    requires |mem| == 0x400
    ensures |mem'| == 0x400
  {
    WriteBytes(WriteBytes(WriteBytes(WriteBytes(mem, 0, Full, call), DIVZERO_PC, Full, eret),
                          CALL_PC, Full, divide), CALL_PC + 4, Full, eret)
  }

  lemma FourInPlace(mem: seq<u8>, call: u32, divide: u32, eret: u32)
    requires |mem| == 0x400
    ensures var p := FourWords(mem, call, divide, eret);
      && Read(RAM, p, 0, Full) == Some(call) && Read(RAM, p, DIVZERO_PC, Full) == Some(eret)
      && Read(RAM, p, CALL_PC, Full) == Some(divide) && Read(RAM, p, CALL_PC + 4, Full) == Some(eret)
  {
    hide WriteBytes, ReadBytes, Read;
    var one := WriteBytes(mem, 0, Full, call);
    var two := WriteBytes(one, DIVZERO_PC, Full, eret);
    var three := WriteBytes(two, CALL_PC, Full, divide);
    WriteThenReadBytes(mem, 0, Full, call);
    WriteThenReadBytes(one, DIVZERO_PC, Full, eret);
    WriteThenReadBytes(two, CALL_PC, Full, divide);
    WriteThenReadBytes(three, CALL_PC + 4, Full, eret);
    Survives(one, 0, DIVZERO_PC, eret);
    Survives(two, 0, CALL_PC, divide);
    Survives(three, 0, CALL_PC + 4, eret);
    Survives(two, DIVZERO_PC, CALL_PC, divide);
    Survives(three, DIVZERO_PC, CALL_PC + 4, eret);
    Survives(three, CALL_PC, CALL_PC + 4, eret);
    var p := FourWords(mem, call, divide, eret);
    InPlace(p, 0);
    InPlace(p, DIVZERO_PC);
    InPlace(p, CALL_PC);
    InPlace(p, CALL_PC + 4);
  }

  /** A CPU with a divider about to execute the call, with r0 holding 0. */
  function NestedStart(r: Regs): State {
    State(r, 0, ResetCsrs().(cfg := Bits(CFG_D)), Bits(0),
          FourWords(seq(0x400, _ => 0), SCALL_WORD, DivideWord(), EretWord()), Tlb.EmptyMmu())
  }

  lemma NestedProgramHappens(r: Regs)
    requires r[0] == 0
    ensures Placed(RAM, NestedStart(r).mem)
    ensures NestedProgram(RAM, NestedStart(r), SCALL_WORD, DivideWord(), EretWord())
  {
    var a := NestedStart(r);
    StartModes(a);
    Instructions.DecodeEncode(DIVIDE);
    HandlerDecodes();
    CallDecodes();
    hide Decode, DivideWord, EretWord, FourWords, Read, Has, On, IsZero, Vector, Instructions.Encode;
    FourInPlace(seq(0x400, _ => 0), SCALL_WORD, DivideWord(), EretWord());
  }

  lemma CallDecodes()
    ensures Decode(SCALL_WORD) == Raise(SystemCall)
  {
  }

  lemma StartModes(a: State)
    requires a.flags == Bits(0) && a.csr == ResetCsrs().(cfg := Bits(CFG_D))
    ensures IsZero(a.flags) && Has(a, CFG_D) && !Has(a, CFG_R) && !On(a.csr.psw, ITLBE)
    ensures Vector(a.csr, SYSCALL) == CALL_PC && Vector(a.csr, DIVZERO) == DIVZERO_PC
    ensures Wrap(CALL_PC + 4) == CALL_PC + 4
  {
  }
}
