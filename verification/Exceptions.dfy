/** Exception entry and return: what the two save banks guarantee. */
module Exceptions {
  import opened Words
  import opened Memory
  import opened Isa
  import opened Arch
  import opened Timing
  import opened Execution

  /** Interrupt enable, the two translation enables, and user mode. */
  datatype Modes = Modes(ie: bool, itlb: bool, dtlb: bool, user: bool)

  function Current(k: Csrs): Modes {
    Modes(On(k.ie, IE_IE), On(k.psw, ITLBE), On(k.psw, DTLBE), On(k.psw, USR))
  }

  function BankE(k: Csrs): Modes {
    Modes(On(k.ie, IE_EIE), On(k.psw, EITLBE), On(k.psw, EDTLBE), On(k.psw, EUSR))
  }

  function BankB(k: Csrs): Modes {
    Modes(On(k.ie, IE_BIE), On(k.psw, BITLBE), On(k.psw, BDTLBE), On(k.psw, BUSR))
  }

  function Bank(k: Csrs, debug: bool): Modes {
    if debug then BankB(k) else BankE(k)
  }

  const HANDLER: Modes := Modes(false, false, false, false)

  lemma SaveBits(k: Csrs)
    ensures BankE(HandlerModes(SaveE(k))) == Current(k) && BankB(HandlerModes(SaveE(k))) == BankB(k)
    ensures BankB(HandlerModes(SaveB(k))) == Current(k) && BankE(HandlerModes(SaveB(k))) == BankE(k)
    ensures Current(HandlerModes(SaveE(k))) == HANDLER && Current(HandlerModes(SaveB(k))) == HANDLER
  {
    hide HandlerModes, SaveE, SaveB, Current, BankE, BankB;
    SavedE(k);
    SavedB(k);
    SwitchModes(SaveE(k));
    SwitchModes(SaveB(k));
  }

  lemma SavedE(k: Csrs)
    ensures BankE(SaveE(k)) == Current(k) && BankB(SaveE(k)) == BankB(k)
  {
  }

  lemma SavedB(k: Csrs)
    ensures BankB(SaveB(k)) == Current(k) && BankE(SaveB(k)) == BankE(k)
  {
  }

  lemma SwitchModes(k: Csrs)
    ensures BankE(HandlerModes(k)) == BankE(k) && BankB(HandlerModes(k)) == BankB(k)
    ensures Current(HandlerModes(k)) == HANDLER
  {
  }

  lemma RestoreBits(k: Csrs)
    ensures Current(RestoreE(k)) == BankE(k) && BankE(RestoreE(k)) == BankE(k) && BankB(RestoreE(k)) == BankB(k)
    ensures Current(RestoreB(k)) == BankB(k) && BankE(RestoreB(k)) == BankE(k) && BankB(RestoreB(k)) == BankB(k)
  {
  }

  function ReturnReg(debug: bool): nat {
    if debug then BA_REG else EA_REG
  }

  /** The handler kept the bank that the return will read. */
  ghost predicate Keeps(a: State, b: State, debug: bool) {
    b.r[ReturnReg(debug)] == a.r[ReturnReg(debug)] && Bank(b.csr, debug) == Bank(a.csr, debug)
  }

  /** eret or bret. */
  function Return(a: State, debug: bool): State {
    ExecJumpReg(a, ReturnReg(debug))
  }

  /** Entry saves the interrupted modes and pc in its own bank and leaves the
      other bank alone. */
  lemma EntryFacts(g: Geometry, a: State, id: nat)
    requires id < NUM_EXCEPTIONS && id != RESET
    ensures var e := Interrupt(g, a, id);
      && e.r[ReturnReg(DebugClass(id))] == RestartPc(a, id)
      && Bank(e.csr, DebugClass(id)) == Current(a.csr)
      && Keeps(a, e, !DebugClass(id))
      && Current(e.csr) == HANDLER
  {
    hide HandlerModes, SaveE, SaveB, Current, BankE, BankB, RestartPc, Vector, Flag, Clear;
    SaveBits(a.csr);
  }

  lemma ReturnFacts(a: State, debug: bool)
    requires !On(a.csr.psw, USR)
    ensures var r := Return(a, debug);
      && r.pc == a.r[ReturnReg(debug)]
      && Current(r.csr) == Bank(a.csr, debug)
      && Keeps(a, r, !debug)
      && r.r == a.r && r.mem == a.mem && r.mmu == a.mmu && r.flags == a.flags
  {
    hide RestoreE, RestoreB, Current, BankE, BankB, On, Set, Flag;
    RestoreBits(a.csr);
  }

  /** Entry followed by the matching return resumes at the saved pc in the saved
      modes, whatever else the handler did. */
  lemma EntryReturn(g: Geometry, a: State, id: nat, h: State)
    requires id < NUM_EXCEPTIONS && id != RESET
    requires Keeps(Interrupt(g, a, id), h, DebugClass(id)) && !On(h.csr.psw, USR)
    ensures Return(h, DebugClass(id)).pc == RestartPc(a, id)
    ensures Current(Return(h, DebugClass(id)).csr) == Current(a.csr)
  {
    hide Interrupt, Return, RestartPc, Bank, Current, On;
    EntryFacts(g, a, id);
    ReturnFacts(h, DebugClass(id));
  }

  /** Nesting.  An exception `outer` is entered from `a`; its handler reaches
      `h1`, where an exception `inner` of the other class is entered; that
      handler reaches `h2` and returns; the outer handler goes on to `h3` and
      returns.  Nothing is lost: the inner return resumes `h1` and the outer
      return resumes `a`, in their own modes. */
  lemma NestingIsLossless(g: Geometry, a: State, outer: nat, h1: State, inner: nat, h2: State, h3: State)
    requires outer < NUM_EXCEPTIONS && inner < NUM_EXCEPTIONS && outer != RESET && inner != RESET
    requires DebugClass(inner) != DebugClass(outer)
    requires Keeps(Interrupt(g, a, outer), h1, DebugClass(outer))
    requires Keeps(Interrupt(g, h1, inner), h2, true) && Keeps(Interrupt(g, h1, inner), h2, false)
    requires Keeps(Return(h2, DebugClass(inner)), h3, DebugClass(outer))
    requires !On(h2.csr.psw, USR) && !On(h3.csr.psw, USR)
    ensures Return(h2, DebugClass(inner)).pc == RestartPc(h1, inner)
    ensures Current(Return(h2, DebugClass(inner)).csr) == Current(h1.csr)
    ensures Return(h3, DebugClass(outer)).pc == RestartPc(a, outer)
    ensures Current(Return(h3, DebugClass(outer)).csr) == Current(a.csr)
  {
    hide Interrupt, Return, RestartPc, Bank, Current, On;
    EntryFacts(g, a, outer);
    EntryFacts(g, h1, inner);
    ReturnFacts(h2, DebugClass(inner));
    ReturnFacts(h3, DebugClass(outer));
  }

  /** With both exceptions of one class there is only one bank, and the outer
      return resumes where the inner exception struck instead: it is right
      exactly when that happens to be the same place in the same modes. */
  lemma SameClassOverwrites(g: Geometry, a: State, outer: nat, h1: State, inner: nat, h2: State, h3: State)
    requires outer < NUM_EXCEPTIONS && inner < NUM_EXCEPTIONS && outer != RESET && inner != RESET
    requires DebugClass(inner) == DebugClass(outer)
    requires Keeps(Interrupt(g, h1, inner), h2, DebugClass(inner))
    requires Keeps(Return(h2, DebugClass(inner)), h3, DebugClass(outer))
    requires !On(h2.csr.psw, USR) && !On(h3.csr.psw, USR)
    ensures Return(h3, DebugClass(outer)).pc == RestartPc(a, outer)
            <==> RestartPc(h1, inner) == RestartPc(a, outer)
    ensures Current(Return(h3, DebugClass(outer)).csr) == Current(a.csr)
            <==> Current(h1.csr) == Current(a.csr)
  {
    hide Interrupt, RestartPc, Current, On, BankE, BankB;
    EntryFacts(g, h1, inner);
    ReturnFacts(h2, DebugClass(inner));
    ReturnKeepsOwn(h2, DebugClass(inner));
    ReturnFacts(h3, DebugClass(outer));
  }

  lemma HandlerIsPrivileged(k: Csrs)
    requires Current(k) == HANDLER
    ensures !On(k.psw, USR)
  {
  }

  lemma ReturnKeepsOwn(a: State, debug: bool)
    ensures Keeps(a, Return(a, debug), debug)
  {
    hide RestoreE, RestoreB, BankE, BankB, On, Set, Flag;
    RestoreBits(a.csr);
  }

  // ---------------------------------------------------------------------------
  // Priorities
  // ---------------------------------------------------------------------------

  /** Twelve flags that are all clear mean that no known exception is pending. */
  lemma NonePending(x: Bits)
    ensures IsZero(x) ==> forall id :: 0 <= id < NUM_EXCEPTIONS ==> !Pending(x, id)
  {
  }

  /** Exactly one exception is taken, the pending one of smallest number, and
      every other flag stays as it was. */
  lemma TakesMostUrgent(cfg: Config, m: Machine, id: nat)
    requires id < NUM_EXCEPTIONS && Pending(m.a.flags, id)
    requires forall k :: 0 <= k < id ==> !Pending(m.a.flags, k)
    ensures Urgent(m.a) == Some(id)
    ensures Entered(cfg, m).a == Interrupt(cfg.g, m.a, id)
    ensures !Pending(Entered(cfg, m).a.flags, id)
    ensures forall k :: 0 <= k < NUM_EXCEPTIONS && k != id ==>
      Pending(Entered(cfg, m).a.flags, k) == Pending(m.a.flags, k)
  {
    NonePending(m.a.flags);
    var e := Interrupt(cfg.g, m.a, id);
    assert e.flags == Clear(m.a.flags, Flag(id)) by { hide Clear, Flag; }
    forall k | 0 <= k < NUM_EXCEPTIONS
      ensures Pending(Clear(m.a.flags, Flag(id)), k) == (k != id && Pending(m.a.flags, k))
    {
      FlagBits(m.a.flags, id, k);
    }
  }

  lemma FlagBits(x: Bits, id: nat, k: nat)
    requires id < NUM_EXCEPTIONS && k < NUM_EXCEPTIONS
    ensures Pending(Clear(x, Flag(id)), k) == (k != id && Pending(x, k))
  {
    DistinctFlags(id, k);
    hide Flag, On, Clear;
    ClearedBit(x, Flag(id), Flag(k));
    ClearedBit(x, Flag(id), Flag(id));
  }

  lemma DistinctFlags(id: nat, k: nat)
    requires id < NUM_EXCEPTIONS && k < NUM_EXCEPTIONS
    ensures id != k ==> Flag(id) & Flag(k) == 0
  {
  }

  lemma ClearedBit(x: Bits, f: bv32, g: bv32)
    ensures f & g == 0 ==> On(Clear(x, f), g) == On(x, g)
    ensures !On(Clear(x, f), f)
  {
    MaskedTwice(x.w, !f, g);
    MaskedTwice(x.w, !f, f);
    Complement(f, g);
    Complement(f, f);
  }

  lemma MaskedTwice(x: bv32, f: bv32, g: bv32)
    ensures (x & f) & g == x & (f & g)
  {
  }

  lemma Complement(f: bv32, g: bv32)
    ensures f & g == 0 ==> !f & g == g
    ensures !f & f == 0
  {
  }
}
