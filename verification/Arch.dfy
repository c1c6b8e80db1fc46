/** What software can see of the CPU, and how one instruction changes it.

    Nothing here depends on cycle counts, caches or wait states, apart from the
    value that an `rcsr CC` is about to read, which is a parameter. */
module Arch {
  import opened Words
  import opened Memory
  import opened Isa
  import Tlb

  type Regs = s: seq<u32> | |s| == NUM_REGS
    witness seq(NUM_REGS, _ => 0)

  type Quad = s: seq<u32> | |s| == 4
    witness [0, 0, 0, 0]

  /** General registers, CSRs, pending exceptions, memory and TLBs. */
  datatype State = State(r: Regs, pc: u32, csr: Csrs, flags: Bits, mem: seq<u8>, mmu: Tlb.Mmu)

  datatype Csrs = Csrs(
    ie: Bits, im: Bits, ip: Bits, cfg: Bits, cfg2: u32, psw: Bits,
    eba: u32, deba: u32, dc: Bits, bp: Quad, wp: Quad, jtx: u32, jrx: u32)

  // Exception numbers, highest priority first.
  const RESET: nat := 0
  const BREAKPOINT: nat := 1
  const IBUSERROR: nat := 2
  const WATCHPOINT: nat := 3
  const DBUSERROR: nat := 4
  const DIVZERO: nat := 5
  const EXTINT: nat := 6
  const SYSCALL: nat := 7
  const ITLB_MISS: nat := 8
  const DTLB_MISS: nat := 9
  const DTLB_FAULT: nat := 10
  const PRIV_ACCESS: nat := 11
  const NUM_EXCEPTIONS: nat := 12

  /** The pending flag of an exception. */
  function Flag(id: nat): (f: bv32) {
    match id
    case 0 => 0x1 case 1 => 0x2 case 2 => 0x4 case 3 => 0x8
    case 4 => 0x10 case 5 => 0x20 case 6 => 0x40 case 7 => 0x80
    case 8 => 0x100 case 9 => 0x200 case 10 => 0x400 case 11 => 0x800
    case _ => 0
  }

  predicate Pending(flags: Bits, id: nat) {
    On(flags, Flag(id))
  }

  // IE and PSW bits.
  const IE_IE: bv32 := 0x1
  const IE_EIE: bv32 := 0x2
  const IE_BIE: bv32 := 0x4
  const ITLBE: bv32 := 0x8
  const EITLBE: bv32 := 0x10
  const BITLBE: bv32 := 0x20
  const DTLBE: bv32 := 0x40
  const EDTLBE: bv32 := 0x80
  const BDTLBE: bv32 := 0x100
  const USR: bv32 := 0x200
  const EUSR: bv32 := 0x400
  const BUSR: bv32 := 0x800

  /** The PSW bits that a handler starts with off. */
  const MODE_BITS: bv32 := 0x248

  // CFG bits.
  const CFG_M: bv32 := 0x1
  const CFG_D: bv32 := 0x2
  const CFG_S: bv32 := 0x4
  const CFG_X: bv32 := 0x10
  const CFG_CC: bv32 := 0x20
  const CFG_DC: bv32 := 0x40
  const CFG_IC: bv32 := 0x80
  const CFG_G: bv32 := 0x100
  const CFG_R: bv32 := 0x400
  const CFG_J: bv32 := 0x800

  /** LM32_DEFAULT_CONFIG: all feature bits but U, H and J, 32 interrupts, four
      breakpoints and four watchpoints. */
  const DEFAULT_CONFIG: bv32 := 0x0112_05f7

  function InterruptCount(cfg: Bits): bv32 { (cfg.w >> 12) & 0x3f }

  function BreakpointCount(cfg: Bits): bv32 { (cfg.w >> 18) & 0x7 }

  function WatchpointCount(cfg: Bits): bv32 { (cfg.w >> 22) & 0x7 }

  /** Is register number `i` of a bank of `n` implemented? */
  predicate Implemented(n: bv32, i: nat) {
    match i
    case 0 => n > 0
    case 1 => n > 1
    case 2 => n > 2
    case _ => n > 3
  }

  /** A count of interrupts as a mask. */
  function InterruptMask(n: bv32): bv32 {
    if n >= 32 then 0xffff_ffff else ((1 as bv32) << n) - 1
  }

  const DC_REMAP: bv32 := 0x2

  /** Is a unit built in, according to CFG? */
  predicate Has(a: State, feature: bv32) {
    On(a.csr.cfg, feature)
  }

  // ---------------------------------------------------------------------------
  // Exceptions
  // ---------------------------------------------------------------------------

  function ResetCsrs(): Csrs {
    Csrs(Bits(0), Bits(0), Bits(0), Bits(DEFAULT_CONFIG), 0, Bits(0), 0, 0, Bits(0), [0, 0, 0, 0], [0, 0, 0, 0], 0, 0)
  }

  /** internal_reset_cpu: note that the pending flags, the general registers
      other than r0, fp and sp, and memory survive. */
  function Reset(g: Geometry, a: State): (a': State)
    ensures a'.mem == a.mem
  {
    var top := Wrap(g.base + g.size - 4);
    a.(pc := g.entryPoint, csr := ResetCsrs(),
       mmu := Tlb.AfterReset(a.mmu),
       r := a.r[SP_REG := top][FP_REG := top][0 := 0])
  }

  /** Exceptions that are returned from with bret. */
  predicate DebugClass(id: nat) {
    id == BREAKPOINT || id == WATCHPOINT
  }

  /** TLB exceptions are raised after the pc has moved on, so it is put back. */
  function RestartPc(a: State, id: nat): u32 {
    if ITLB_MISS <= id <= DTLB_FAULT then Wrap(a.pc - 4) else a.pc
  }

  /** Save the current modes in the B bank, or in the E bank. */
  function SaveB(k: Csrs): Csrs {
    k.(ie := CopyBit(k.ie, IE_IE, IE_BIE),
       psw := CopyBit(CopyBit(CopyBit(k.psw, ITLBE, BITLBE), DTLBE, BDTLBE), USR, BUSR))
  }

  function SaveE(k: Csrs): Csrs {
    k.(ie := CopyBit(k.ie, IE_IE, IE_EIE),
       psw := CopyBit(CopyBit(CopyBit(k.psw, ITLBE, EITLBE), DTLBE, EDTLBE), USR, EUSR))
  }

  /** And back again, for bret and eret. */
  function RestoreB(k: Csrs): Csrs {
    k.(ie := CopyBit(k.ie, IE_BIE, IE_IE),
       psw := CopyBit(CopyBit(CopyBit(k.psw, BITLBE, ITLBE), BDTLBE, DTLBE), BUSR, USR))
  }

  function RestoreE(k: Csrs): Csrs {
    k.(ie := CopyBit(k.ie, IE_EIE, IE_IE),
       psw := CopyBit(CopyBit(CopyBit(k.psw, EITLBE, ITLBE), EDTLBE, DTLBE), EUSR, USR))
  }

  /** Interrupts, translation and user mode off. */
  function HandlerModes(k: Csrs): Csrs {
    k.(ie := Clear(k.ie, IE_IE), psw := Clear(k.psw, MODE_BITS))
  }

  function Vector(k: Csrs, id: nat): u32 {
    Wrap((if DebugClass(id) || On(k.dc, DC_REMAP) then k.deba else k.eba) + 32 * id)
  }

  /** Entry to the handler of exception `id`: the handler runs in its own modes,
      and its own flag is no longer pending. */
  function Enter(a: State, id: nat): (a': State)
    ensures a'.mem == a.mem
  {
    a.(r := a.r[(if DebugClass(id) then BA_REG else EA_REG) := RestartPc(a, id)],
       pc := Vector(a.csr, id),
       csr := HandlerModes(if DebugClass(id) then SaveB(a.csr) else SaveE(a.csr)),
       flags := Clear(a.flags, Flag(id)))
  }

  function Interrupt(g: Geometry, a: State, id: nat): (a': State)
    requires id < NUM_EXCEPTIONS
    ensures a'.mem == a.mem
  {
    Enter(if id == RESET then Reset(g, a) else a, id)
  }

  /** The pending exception of highest priority at or after `from`. */
  function Highest(flags: Bits, from: nat): (id: nat)
    requires from <= NUM_EXCEPTIONS
    ensures from <= id <= NUM_EXCEPTIONS
    ensures id < NUM_EXCEPTIONS ==> Pending(flags, id)
    ensures forall k :: from <= k < id ==> !Pending(flags, k)
    decreases NUM_EXCEPTIONS - from
  {
    if from == NUM_EXCEPTIONS || Pending(flags, from) then from else Highest(flags, from + 1)
  }

  /** Pending external interrupts, with those of the callback's requests that
      the configured number of lines lets through. */
  function Requested(a: State, requests: Bits): Bits {
    Set(a.csr.ip, Keep(requests, InterruptMask(InterruptCount(a.csr.cfg))).w)
  }

  /** What the interrupt callback's answer does to the pending state. */
  function Poll(a: State, requests: Bits): (a': State)
    ensures a'.mem == a.mem
  {
    var ip := Requested(a, requests);
    a.(csr := a.csr.(ip := ip),
       flags := if On(a.csr.ie, IE_IE) && Meet(ip, a.csr.im) then Set(a.flags, Flag(EXTINT))
                else Clear(a.flags, Flag(EXTINT)))
  }

  // ---------------------------------------------------------------------------
  // Memory accesses
  // ---------------------------------------------------------------------------

  function Raised(a: State, id: nat): State {
    a.(flags := Set(a.flags, Flag(id)))
  }

  /** Does an access to `p` hit an enabled watchpoint?  `mask` selects the read
      or the write enables in DC. */
  predicate Watched(a: State, p: u32, write: bool) {
    Has(a, CFG_R) &&
    ((On(a.csr.dc, if write then 0x8 else 0x4) && a.csr.wp[0] == p) ||
     (On(a.csr.dc, if write then 0x20 else 0x10) && a.csr.wp[1] == p) ||
     (On(a.csr.dc, if write then 0x80 else 0x40) && a.csr.wp[2] == p) ||
     (On(a.csr.dc, if write then 0x200 else 0x100) && a.csr.wp[3] == p))
  }

  datatype Kind = Fetch | Data(size: Size) | Debug

  function SizeOf(k: Kind): Size {
    match k case Fetch => Full case Data(sz) => sz case Debug => Byte
  }

  /** Is this kind of access translated at the moment? */
  predicate Translated(a: State, k: Kind) {
    if k.Fetch? then On(a.csr.psw, ITLBE) else On(a.csr.psw, DTLBE)
  }

  predicate ReadMisses(a: State, v: u32, k: Kind) {
    Translated(a, k) && Tlb.LookupStatus(a.mmu, v, !k.Fetch?, false) == Tlb.Miss
  }

  function Physical(a: State, v: u32, k: Kind): u32 {
    if Translated(a, k) then Tlb.LookupAddress(a.mmu, v, !k.Fetch?) else v
  }

  /** lm32_read_mem: the data (0 when there is none) and the state after it. */
  function ReadMem(g: Geometry, a: State, v: u32, k: Kind): (r: (u32, State))
    requires Placed(g, a.mem)
    ensures r.1.mem == a.mem
  {
    if ReadMisses(a, v, k) then
      (0, Raised(a.(mmu := Tlb.AfterLookup(a.mmu, v, !k.Fetch?, false)),
                 if k.Fetch? then ITLB_MISS else DTLB_MISS))
    else
      var p := Physical(a, v, k);
      match Read(g, a.mem, p, SizeOf(k))
      case Some(d) => (d, if Watched(a, p, false) then Raised(a, WATCHPOINT) else a)
      case None =>
        (0, if k.Debug? then a else Raised(a, if k.Fetch? then IBUSERROR else DBUSERROR))
  }

  function WriteStatus(a: State, v: u32): Tlb.Status {
    if On(a.csr.psw, DTLBE) then Tlb.LookupStatus(a.mmu, v, true, true) else Tlb.Hit
  }

  function WritePhysical(a: State, v: u32): u32 {
    if On(a.csr.psw, DTLBE) then Tlb.LookupAddress(a.mmu, v, true) else v
  }

  /** lm32_write_mem. */
  function WriteMem(g: Geometry, a: State, v: u32, sz: Size, d: u32): (a': State)
    requires Placed(g, a.mem)
    ensures Placed(g, a'.mem)
  {
    if WriteStatus(a, v) != Tlb.Hit then
      Raised(a.(mmu := Tlb.AfterLookup(a.mmu, v, true, true)),
             if WriteStatus(a, v) == Tlb.Miss then DTLB_MISS else DTLB_FAULT)
    else
      var p := WritePhysical(a, v);
      match Write(g, a.mem, p, sz, d)
      case Some(mem) =>
        var b := a.(mem := mem);
        if Watched(b, p, true) then Raised(b, WATCHPOINT) else b
      case None => Raised(a, DBUSERROR)
  }

  // ---------------------------------------------------------------------------
  // Instructions
  // ---------------------------------------------------------------------------

  /** How an instruction ends: it ran, the program exits (an unknown CSR), or
      the host language leaves its effect undefined. */
  datatype Outcome = Completes | Exits | Undefined

  datatype Result = Result(a: State, o: Outcome)

  function Next(a: State): State {
    a.(pc := Wrap(a.pc + 4))
  }

  function SetReg(a: State, x: nat, v: u32): State
    requires x < 32
  {
    a.(r := a.r[x := v])
  }

  predicate AluPresent(a: State, op: AluOp) {
    (op == Mul ==> Has(a, CFG_M)) && (ShiftOp(op) ==> Has(a, CFG_S))
  }

  function ExecReserved(a: State): (a': State)
    ensures a'.mem == a.mem
  {
    Next(Raised(a, IBUSERROR))
  }

  function ExecAlu(a: State, op: AluOp, u: u32, v: u32, x: nat): (r: Result)
    requires x < 32
    ensures r.a.mem == a.mem
  {
    if !AluPresent(a, op) then Result(ExecReserved(a), Completes)
    else if !AluDefined(op, v) then Result(a, Undefined)
    else Result(Next(SetReg(a, x, AluValue(op, u, v))), Completes)
  }

  function ExecDivide(a: State, d: DivOp, u: u32, v: u32, x: nat): (r: Result)
    requires x < 32
    ensures r.a.mem == a.mem
  {
    if !Has(a, CFG_D) then Result(ExecReserved(a), Completes)
    else if v == 0 then Result(Next(Raised(a, DIVZERO)), Completes)
    else if !DivDefined(d, u, v) then Result(a, Undefined)
    else Result(Next(SetReg(a, x, DivValue(d, u, v))), Completes)
  }

  function SextValue(half: bool, v: u32): u32 {
    if half then SignExt16(v % 0x1_0000) else SignExt8(v % 0x100)
  }

  function ExecSext(a: State, half: bool, y: nat, x: nat): (a': State)
    requires y < 32 && x < 32
    ensures a'.mem == a.mem
  {
    if !Has(a, CFG_X) then ExecReserved(a)
    else Next(SetReg(a, x, SextValue(half, a.r[y])))
  }

  function EffectiveAddress(a: State, y: nat, k: u32): u32
    requires y < 32
  {
    Wrap(a.r[y] + k)
  }

  /** The sign-extension macro over two reads of the same location. */
  function Extended(sz: Size, first: u32, second: u32): u32 {
    match sz
    case Byte => if second % 0x100 >= 0x80 then Wrap(first % 0x100 + 0xffff_ff00) else first
    case Half => if second % 0x1_0000 >= 0x8000 then Wrap(first % 0x1_0000 + 0xffff_0000) else first
    case Full => first
  }

  /** Loads.  The signed ones read memory twice, since the macro that extends
      the sign evaluates its argument twice. */
  function ExecLoad(g: Geometry, a: State, sz: Size, signed: bool, y: nat, x: nat, k: u32): (a': State)
    requires Placed(g, a.mem) && y < 32 && x < 32
    ensures a'.mem == a.mem
  {
    var v := EffectiveAddress(a, y, k);
    var (d1, a1) := ReadMem(g, a, v, Data(sz));
    if signed then
      var (d2, a2) := ReadMem(g, a1, v, Data(sz));
      Next(SetReg(a2, x, Extended(sz, d1, d2)))
    else Next(SetReg(a1, x, d1))
  }

  function ExecStore(g: Geometry, a: State, sz: Size, y: nat, z: nat, k: u32): (a': State)
    requires Placed(g, a.mem) && y < 32 && z < 32
    ensures Placed(g, a'.mem)
  {
    Next(WriteMem(g, a, EffectiveAddress(a, y, k), sz, a.r[z] % Modulus(sz)))
  }

  function ExecBranch(a: State, c: Cond, y: nat, z: nat, k: u32): (a': State)
    requires y < 32 && z < 32
    ensures a'.mem == a.mem
  {
    if Taken(c, a.r[y], a.r[z]) then a.(pc := Wrap(a.pc + k)) else Next(a)
  }

  /** Returning from exceptions is refused in user mode. */
  predicate ReturnTrapped(a: State, y: nat) {
    On(a.csr.psw, USR) && (y == EA_REG || y == BA_REG)
  }

  /** `b`, including eret (through ea) and bret (through ba). */
  function ExecJumpReg(a: State, y: nat): (a': State)
    requires y < 32
    ensures a'.mem == a.mem
  {
    if ReturnTrapped(a, y) then Raised(a, PRIV_ACCESS)
    else
      var k := if y == BA_REG then RestoreB(a.csr)
               else if y == EA_REG then RestoreE(a.csr)
               else a.csr;
      a.(csr := k, pc := a.r[y])
  }

  /** The link register is written before the target is read. */
  function ExecCall(a: State, y: nat): (a': State)
    requires y < 32
    ensures a'.mem == a.mem
  {
    var b := SetReg(a, RA_REG, Wrap(a.pc + 4));
    b.(pc := b.r[y])
  }

  function ExecCallI(a: State, k: u32): (a': State)
    ensures a'.mem == a.mem
  {
    SetReg(a, RA_REG, Wrap(a.pc + 4)).(pc := Wrap(a.pc + k))
  }

  function ExecRaise(a: State, kind: RaiseKind): (a': State)
    ensures a'.mem == a.mem
  {
    match kind
    case BreakCall => if Has(a, CFG_G) then Raised(a, BREAKPOINT) else a
    case SystemCall => Raised(a, SYSCALL)
    case OtherRaise => a
  }

  // CSR numbers.
  const CSR_IE: nat := 0
  const CSR_IM: nat := 1
  const CSR_IP: nat := 2
  const CSR_ICC: nat := 3
  const CSR_DCC: nat := 4
  const CSR_CC: nat := 5
  const CSR_CFG: nat := 6
  const CSR_EBA: nat := 7
  const CSR_DC: nat := 8
  const CSR_DEBA: nat := 9
  const CSR_CFG2: nat := 10
  const CSR_JTX: nat := 14
  const CSR_JRX: nat := 15
  const CSR_BP0: nat := 16
  const CSR_WP0: nat := 24
  const CSR_PSW: nat := 29
  const CSR_TLBVADDR: nat := 30
  const CSR_TLBPADDR: nat := 31   // TLBBADVADDR when read

  predicate ReadableCsr(csr: nat) {
    csr <= CSR_CFG2 || csr == CSR_JTX || csr == CSR_JRX || CSR_BP0 <= csr < CSR_BP0 + 4 ||
    CSR_WP0 <= csr < CSR_WP0 + 4 || CSR_PSW <= csr <= CSR_TLBPADDR
  }

  /** The word an rcsr returns; `cc` is the cycle counter at that moment. */
  function CsrValue(a: State, csr: nat, cc: u32): u32
    requires ReadableCsr(csr)
  {
    if csr == CSR_IE then FromBits(a.csr.ie)
    else if csr == CSR_IM then FromBits(a.csr.im)
    else if csr == CSR_IP then FromBits(a.csr.ip)
    else if csr == CSR_ICC || csr == CSR_DCC then 0
    else if csr == CSR_CC then (if Has(a, CFG_CC) then cc else 0)
    else if csr == CSR_CFG then FromBits(a.csr.cfg)
    else if csr == CSR_EBA then a.csr.eba
    else if csr == CSR_DC then FromBits(a.csr.dc)
    else if csr == CSR_DEBA then a.csr.deba
    else if csr == CSR_CFG2 then a.csr.cfg2
    else if csr == CSR_JTX then (if Has(a, CFG_J) then a.csr.jtx % 0x200 else 0)
    else if csr == CSR_JRX then (if Has(a, CFG_J) then a.csr.jrx % 0x200 else 0)
    else if csr < CSR_WP0 then
      (if Implemented(BreakpointCount(a.csr.cfg), csr - CSR_BP0) then a.csr.bp[csr - CSR_BP0] else 0)
    else if csr < CSR_PSW then
      (if Implemented(WatchpointCount(a.csr.cfg), csr - CSR_WP0) then a.csr.wp[csr - CSR_WP0] else 0)
    else if csr == CSR_PSW then FromBits(Set(a.csr.psw, a.csr.ie.w))
    else if csr == CSR_TLBVADDR then a.mmu.vaddr
    else a.mmu.badvaddr
  }

  /** Reading a JTAG register also trims it. */
  function Trimmed(k: Csrs, csr: nat): Csrs {
    if On(k.cfg, CFG_J) && csr == CSR_JTX then k.(jtx := k.jtx % 0x200)
    else if On(k.cfg, CFG_J) && csr == CSR_JRX then k.(jrx := k.jrx % 0x200)
    else k
  }

  function ExecRcsr(a: State, csr: nat, x: nat, cc: u32): (r: Result)
    requires x < 32
    ensures r.a.mem == a.mem
  {
    if !ReadableCsr(csr) then Result(a, Exits)
    else
      Result(Next(SetReg(a.(csr := Trimmed(a.csr, csr)), x, CsrValue(a, csr, cc))), Completes)
  }

  function WithBreakpoint(k: Csrs, i: nat, w: u32): Csrs
    requires i < 4
  {
    k.(bp := k.bp[i := if Implemented(BreakpointCount(k.cfg), i) then w - 2 * (w / 2 % 2) else 0])
  }

  /** Gated by the number of breakpoints, as the program has it. */
  function WithWatchpoint(k: Csrs, i: nat, w: u32): Csrs
    requires i < 4
  {
    k.(wp := k.wp[i := if Implemented(BreakpointCount(k.cfg), i) then w else 0])
  }

  /** Writes to the interrupt and base registers, CSRs 0 to 10. */
  function BasicWritten(k: Csrs, csr: nat, w: u32): Csrs {
    match csr
    case 0 => k.(ie := Keep(ToBits(w), 0x7))
    case 1 =>
      var lines := InterruptCount(k.cfg);
      if Implemented(lines, 0) then k.(im := Keep(ToBits(w), InterruptMask(lines))) else k
    case 2 => k.(ip := Clear(k.ip, ToBits(w).w))
    case 7 => k.(eba := w - w % 0x100)
    case 8 => k.(dc := ToBits(w))
    case 9 => k.(deba := w - w % 0x100)
    case _ => k   // ICC, DCC, CC, CFG and CFG2
  }

  function WithPsw(k: Csrs, w: u32): Csrs {
    k.(psw := Clear(ToBits(w), 0x7), ie := Keep(ToBits(w), 0x7))
  }

  /** The registers kept in Csrs; the rest are left as they are. */
  function CsrsWritten(k: Csrs, csr: nat, w: u32): Csrs {
    if csr <= CSR_CFG2 then BasicWritten(k, csr, w)
    else if csr == CSR_JTX then (if On(k.cfg, CFG_J) then k.(jtx := w % 0x100) else k)
    else if CSR_BP0 <= csr < CSR_BP0 + 4 then WithBreakpoint(k, csr - CSR_BP0, w)
    else if CSR_WP0 <= csr < CSR_WP0 + 4 then WithWatchpoint(k, csr - CSR_WP0, w)
    else if csr == CSR_PSW then WithPsw(k, w)
    else k
  }

  function MmuWritten(m: Tlb.Mmu, csr: nat, w: u32): Tlb.Mmu {
    if csr == CSR_TLBVADDR then Tlb.AfterVaddrWrite(m, w)
    else if csr == CSR_TLBPADDR then Tlb.AfterPaddrWrite(m, w)
    else m
  }

  /** State after writing `w` to a CSR; `None` is the exit on an unknown one. */
  function CsrWritten(a: State, csr: nat, w: u32): (r: Option<State>)
    ensures r.Some? <==> ReadableCsr(csr)
  {
    if ReadableCsr(csr) then
      Some(a.(csr := CsrsWritten(a.csr, csr, w), mmu := MmuWritten(a.mmu, csr, w)))
    else None
  }

  function ExecWcsr(a: State, csr: nat, z: nat): (r: Result)
    requires z < 32
    ensures r.a.mem == a.mem
  {
    if On(a.csr.psw, USR) then Result(Raised(a, PRIV_ACCESS), Completes)
    else
      match CsrWritten(a, csr, a.r[z])
      case Some(b) => Result(Next(b), Completes)
      case None => Result(a, Exits)
  }

  function Exec(g: Geometry, a: State, i: Instr, cc: u32): (r: Result)
    requires Placed(g, a.mem) && Fields(i)
    ensures Placed(g, r.a.mem)
  {
    match i
    case AluRR(op, y, z, x) => ExecAlu(a, op, a.r[y], a.r[z], x)
    case AluRI(op, y, x, k) => ExecAlu(a, op, a.r[y], k, x)
    case Divide(d, y, z, x) => ExecDivide(a, d, a.r[y], a.r[z], x)
    case Sext(half, y, x) => Result(ExecSext(a, half, y, x), Completes)
    case Load(sz, signed, y, x, k) => Result(ExecLoad(g, a, sz, signed, y, x, k), Completes)
    case Store(sz, y, z, k) => Result(ExecStore(g, a, sz, y, z, k), Completes)
    case Branch(c, y, z, k) => Result(ExecBranch(a, c, y, z, k), Completes)
    case Jump(_, _, k) => Result(a.(pc := Wrap(a.pc + k)), Completes)
    case JumpReg(y) => Result(ExecJumpReg(a, y), Completes)
    case Call(y) => Result(ExecCall(a, y), Completes)
    case CallI(k) => Result(ExecCallI(a, k), Completes)
    case Rcsr(csr, x) => ExecRcsr(a, csr, x, cc)
    case Wcsr(csr, z) => ExecWcsr(a, csr, z)
    case Raise(kind) => Result(ExecRaise(a, kind), Completes)
    case Reserved => Result(ExecReserved(a), Completes)
  }

  // ---------------------------------------------------------------------------
  // Fetching
  // ---------------------------------------------------------------------------

  /** Hardware breakpoints are flagged before the instruction they mark runs. */
  predicate AtBreakpoint(a: State) {
    Has(a, CFG_R) &&
    exists i :: 0 <= i < 4 && a.csr.bp[i] % 2 == 1 && a.csr.bp[i] - a.csr.bp[i] % 4 == a.pc
  }

  function CheckBreakpoint(a: State): State {
    if AtBreakpoint(a) then Raised(a, BREAKPOINT) else a
  }

  /** The instruction word at pc, and the state after fetching it. */
  function FetchWord(g: Geometry, a: State): (r: (u32, State))
    requires Placed(g, a.mem)
    ensures r.1.mem == a.mem
  {
    ReadMem(g, CheckBreakpoint(a), a.pc, Fetch)
  }
}
