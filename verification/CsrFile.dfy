/** The CSRs as a register file: what is written to one of them is what it then
    reads as, as far as the register keeps it, and no other register changes. */
module CsrFile {
  import opened Words
  import opened Memory
  import opened Arch
  import opened Exceptions
  import PageMap
  import Tlb

  /** What each register reads as once `w` has been written to it. */
  function Kept(a: State, csr: nat, w: u32, cc: u32): u32
    requires ReadableCsr(csr)
  {
    match csr
    case 0 => FromBits(Keep(ToBits(w), 0x7))                                  // IE
    case 1 =>                                                                 // IM: the lines there are
      var lines := InterruptCount(a.csr.cfg);
      FromBits(if lines > 0 then Keep(ToBits(w), InterruptMask(lines)) else a.csr.im)
    case 2 => FromBits(Clear(a.csr.ip, ToBits(w).w))                          // IP: ones acknowledge
    case 7 => w - w % 0x100                                                   // EBA
    case 8 => FromBits(ToBits(w))                                             // DC
    case 9 => w - w % 0x100                                                   // DEBA
    case 14 => if Has(a, CFG_J) then w % 0x100 else 0                         // JTX
    case 29 => FromBits(ToBits(w))                                            // PSW, with IE in its low bits
    case 30 => w                                                              // TLBVADDR
    case _ =>
      if 16 <= csr < 20 then                                                  // BP0 to BP3, bit 1 left out
        (if Implemented(BreakpointCount(a.csr.cfg), csr - 16) then w - 2 * (w / 2 % 2) else 0)
      else if 24 <= csr < 28 then                                             // WP0 to WP3
        (if Implemented(BreakpointCount(a.csr.cfg), csr - 24) && Implemented(WatchpointCount(a.csr.cfg), csr - 24)
         then w else 0)
      else CsrValue(a, csr, cc)                                               // ICC, DCC, CC, CFG, CFG2, JRX, TLBPADDR
  }

  /** Do the two registers share bits?  The low bits of PSW are those of IE. */
  predicate Shared(csr: nat, n: nat) {
    (csr == CSR_IE && n == CSR_PSW) || (csr == CSR_PSW && n == CSR_IE)
  }

  lemma PswWhole(x: Bits)
    ensures Set(Clear(x, 0x7), Keep(x, 0x7).w) == x
  {
  }

  lemma BasicReadsBack(a: State, csr: nat, w: u32, cc: u32)
    requires csr <= CSR_CFG2 || csr == CSR_JTX || csr == CSR_JRX
    ensures CsrValue(CsrWritten(a, csr, w).value, csr, cc) == Kept(a, csr, w, cc)
  {
    hide On, InterruptCount, BreakpointCount, WatchpointCount, InterruptMask, FromBits, ToBits, Set, Keep, Clear;
    hide MmuWritten;
  }

  lemma DebugReadsBack(a: State, csr: nat, w: u32, cc: u32)
    requires CSR_BP0 <= csr < CSR_BP0 + 4 || CSR_WP0 <= csr < CSR_WP0 + 4
    ensures CsrValue(CsrWritten(a, csr, w).value, csr, cc) == Kept(a, csr, w, cc)
  {
    hide On, InterruptCount, BreakpointCount, WatchpointCount, InterruptMask, FromBits, ToBits, Set, Keep, Clear;
    hide Implemented, BasicWritten, MmuWritten;
  }

  lemma ModesReadBack(a: State, csr: nat, w: u32, cc: u32)
    requires CSR_PSW <= csr <= CSR_TLBPADDR
    ensures CsrValue(CsrWritten(a, csr, w).value, csr, cc) == Kept(a, csr, w, cc)
  {
    hide On, InterruptCount, BreakpointCount, WatchpointCount, InterruptMask, FromBits, ToBits, BasicWritten;
    hide Set, Keep, Clear, Tlb.SlotOf, Tlb.Installed, Tlb.Invalidated, Tlb.Flushed, Tlb.PackEntry, Implemented;
    PswWhole(ToBits(w));
  }

  /** Reading back: every register. */
  lemma ReadsBack(a: State, csr: nat, w: u32, cc: u32)
    requires ReadableCsr(csr)
    ensures CsrValue(CsrWritten(a, csr, w).value, csr, cc) == Kept(a, csr, w, cc)
  {
    hide CsrValue, CsrWritten, Kept;
    if csr <= CSR_CFG2 || csr == CSR_JTX || csr == CSR_JRX {
      BasicReadsBack(a, csr, w, cc);
    } else if csr >= CSR_PSW {
      ModesReadBack(a, csr, w, cc);
    } else {
      DebugReadsBack(a, csr, w, cc);
    }
  }

  /** The other registers. */
  lemma OthersKept(a: State, csr: nat, w: u32, n: nat, cc: u32)
    requires ReadableCsr(csr) && ReadableCsr(n) && n != csr && !Shared(csr, n)
    ensures CsrValue(CsrWritten(a, csr, w).value, n, cc) == CsrValue(a, n, cc)
  {
    hide On, InterruptCount, BreakpointCount, WatchpointCount, InterruptMask, Implemented;
    hide FromBits, ToBits, Set, Keep, Clear;
    hide Tlb.SlotOf, Tlb.Installed, Tlb.Invalidated, Tlb.Flushed, Tlb.PackEntry;
  }

  /** Reading is harmless: it changes nothing but the register it goes to, the pc and
      bits of the JTAG registers that no read shows. */
  lemma ReadingKeeps(a: State, csr: nat, x: nat, cc: u32, n: nat, cc': u32)
    requires ReadableCsr(csr) && ReadableCsr(n) && x < 32
    ensures var b := ExecRcsr(a, csr, x, cc).a;
      && CsrValue(b, n, cc') == CsrValue(a, n, cc')
      && b == a.(r := a.r[x := CsrValue(a, csr, cc)], pc := Wrap(a.pc + 4),
                 csr := a.csr.(jtx := b.csr.jtx, jrx := b.csr.jrx))
  {
    hide On, BreakpointCount, WatchpointCount, Implemented, FromBits, Set, Wrap;
  }

  /** The low bits of PSW are IE's: reading the one after writing the other. */
  lemma SharedBits(a: State, w: u32, cc: u32)
    ensures CsrValue(CsrWritten(a, CSR_PSW, w).value, CSR_IE, cc) == FromBits(Keep(ToBits(w), 0x7))
    ensures CsrValue(CsrWritten(a, CSR_IE, w).value, CSR_PSW, cc) == FromBits(Set(a.csr.psw, Keep(ToBits(w), 0x7).w))
  {
    hide On, InterruptCount, InterruptMask, FromBits, ToBits, Set, Keep, Clear;
  }

  /** As many registers of a bank are there as CFG says, up to four. */
  lemma ImplementedCount(n: bv32)
    ensures n == 0 ==> forall i: nat :: i < 4 ==> !Implemented(n, i)
    ensures n == 1 ==> forall i: nat :: i < 4 ==> (Implemented(n, i) <==> i < 1)
    ensures n == 2 ==> forall i: nat :: i < 4 ==> (Implemented(n, i) <==> i < 2)
    ensures n == 3 ==> forall i: nat :: i < 4 ==> (Implemented(n, i) <==> i < 3)
    ensures n >= 4 ==> forall i: nat :: i < 4 ==> Implemented(n, i)
  {
  }

  // ---------------------------------------------------------------------------
  // What software relies on
  // ---------------------------------------------------------------------------

  /** A handler table: after a write to EBA exceptions of the normal class go to it,
      32 bytes apart, unless DC sends them to DEBA; those of the debug class go to
      DEBA always. */
  lemma VectorsMove(k: Csrs, w: u32, id: nat)
    ensures var table := w - w % 0x100;
      && (!DebugClass(id) && !On(k.dc, DC_REMAP) ==> Vector(CsrsWritten(k, CSR_EBA, w), id) == Wrap(table + 32 * id))
      && (DebugClass(id) || On(k.dc, DC_REMAP) ==> Vector(CsrsWritten(k, CSR_DEBA, w), id) == Wrap(table + 32 * id))
      && (DebugClass(id) || On(k.dc, DC_REMAP) ==> Vector(CsrsWritten(k, CSR_EBA, w), id) == Vector(k, id))
      && (!DebugClass(id) && !On(k.dc, DC_REMAP) ==> Vector(CsrsWritten(k, CSR_DEBA, w), id) == Vector(k, id))
  {
    hide On, InterruptCount, BreakpointCount, InterruptMask, FromBits, ToBits, Set, Keep, Clear;
  }

  /** A write to PSW sets the modes, the banks and the interrupt enable, bit by bit. */
  lemma PswSetsModes(k: Csrs, w: u32)
    ensures var l, x := CsrsWritten(k, CSR_PSW, w), ToBits(w);
      && Current(l) == Modes(On(x, IE_IE), On(x, ITLBE), On(x, DTLBE), On(x, USR))
      && BankE(l) == Modes(On(x, IE_EIE), On(x, EITLBE), On(x, EDTLBE), On(x, EUSR))
      && BankB(l) == Modes(On(x, IE_BIE), On(x, BITLBE), On(x, BDTLBE), On(x, BUSR))
  {
    var x := ToBits(w);
    LowBits(x);
    HighBits(x);
    hide On, Keep, Clear, ToBits;
  }

  lemma LowBits(x: Bits)
    ensures var l := Keep(x, 0x7);
      On(l, IE_IE) == On(x, IE_IE) && On(l, IE_EIE) == On(x, IE_EIE) && On(l, IE_BIE) == On(x, IE_BIE)
  {
  }

  lemma HighBits(x: Bits)
    ensures var h := Clear(x, 0x7);
      && On(h, ITLBE) == On(x, ITLBE) && On(h, DTLBE) == On(x, DTLBE) && On(h, USR) == On(x, USR)
      && On(h, EITLBE) == On(x, EITLBE) && On(h, EDTLBE) == On(x, EDTLBE) && On(h, EUSR) == On(x, EUSR)
      && On(h, BITLBE) == On(x, BITLBE) && On(h, BDTLBE) == On(x, BDTLBE) && On(h, BUSR) == On(x, BUSR)
  {
    hide On, Clear;
    ClearedBit(x, 0x7, ITLBE);
    ClearedBit(x, 0x7, DTLBE);
    ClearedBit(x, 0x7, USR);
    ClearedBit(x, 0x7, EITLBE);
    ClearedBit(x, 0x7, EDTLBE);
    ClearedBit(x, 0x7, EUSR);
    ClearedBit(x, 0x7, BITLBE);
    ClearedBit(x, 0x7, BDTLBE);
    ClearedBit(x, 0x7, BUSR);
  }

  // ---------------------------------------------------------------------------
  // Which registers there are, and what they show
  // ---------------------------------------------------------------------------

  /** rcsr and wcsr of any other number end the simulation. */
  lemma KnownCsrs(n: nat)
    ensures ReadableCsr(n) <==>
      n in {0, 1, 2, 3, 4, 5, 6, 7, 8, 9, 10, 14, 15, 16, 17, 18, 19, 24, 25, 26, 27, 29, 30, 31}
    ensures forall a: State, w :: (CsrWritten(a, n, w).Some? <==> ReadableCsr(n))
  {
    hide CsrsWritten, MmuWritten;
  }

  /** After a reset every register reads as zero but CFG, which describes the default
      configuration, and the cycle counter. */
  lemma ResetReads(g: Geometry, a: State, n: nat, cc: u32)
    requires ReadableCsr(n)
    ensures CsrValue(Reset(g, a), n, cc) == if n == 6 then 0x0112_05f7 else if n == 5 then cc else 0
  {
    DefaultWord();
    hide BreakpointCount, WatchpointCount, Implemented, FromBits, Set, Tlb.Flushed;
  }

  /** And both TLBs map nothing. */
  lemma ResetUnmaps(g: Geometry, a: State)
    ensures PageMap.Empty(Reset(g, a).mmu)
  {
    hide PageMap.Empty;
    PageMap.EmptyToBeginWith(a.mmu);
  }

  lemma DefaultWord()
    ensures FromBits(Bits(0x0112_05f7)) == 0x0112_05f7 && FromBits(Bits(0)) == 0
    ensures On(Bits(0x0112_05f7), CFG_CC) && !On(Bits(0x0112_05f7), CFG_J)
    ensures Set(Bits(0), 0) == Bits(0)
  {
  }

  /** The cycle counter reads as zero if it is not built in. */
  lemma CounterShown(a: State, cc: u32)
    ensures CsrValue(a, 5, cc) == if On(a.csr.cfg, 0x20) then cc else 0
  {
    hide On;
  }

  /** The JTAG registers show a data byte and the flag above it, if they are built in. */
  lemma JtagShown(a: State, cc: u32)
    ensures CsrValue(a, 14, cc) == if On(a.csr.cfg, 0x800) then a.csr.jtx % 512 else 0
    ensures CsrValue(a, 15, cc) == if On(a.csr.cfg, 0x800) then a.csr.jrx % 512 else 0
  {
    hide On;
  }

  /** A TLB miss shows: TLBBADVADDR reads as the address and TLBVADDR as its page, with
      bit 0 set for data. */
  lemma MissShows(g: Geometry, a: State, v: u32, k: Kind, cc: u32)
    requires Placed(g, a.mem) && ReadMisses(a, v, k)
    ensures var b := ReadMem(g, a, v, k).1;
      CsrValue(b, 31, cc) == v && CsrValue(b, 30, cc) == v - v % 4096 + if k.Fetch? then 0 else 1
  {
    hide On, Set, Flag, Tlb.Probe;
  }
}
