/** External interrupts line by line, and the fields of the configuration that say
    how many lines, breakpoints and watchpoints there are. */
module Interrupts {
  import opened Words
  import opened Arch
  import opened BitLines

  // ---------------------------------------------------------------------------
  // The configuration word
  // ---------------------------------------------------------------------------

  /** A configuration with `f` for its feature bits. */
  function Assembled(f: bv32, lines: bv32, breakpoints: bv32, watchpoints: bv32): Bits {
    Bits((f & 0xfff) | (lines * 0x1000) | (breakpoints * 0x4_0000) | (watchpoints * 0x40_0000))
  }

  /** Every field is read back from where it was put. */
  lemma ConfigFields(f: bv32, lines: bv32, breakpoints: bv32, watchpoints: bv32)
    requires lines < 64 && breakpoints < 8 && watchpoints < 8
    ensures var cfg := Assembled(f, lines, breakpoints, watchpoints);
      && InterruptCount(cfg) == lines && BreakpointCount(cfg) == breakpoints && WatchpointCount(cfg) == watchpoints
  {
  }

  /** As delivered: everything but user breaks, hardware-assisted reads and the JTAG
      UART, with 32 lines, four breakpoints and four watchpoints. */
  lemma DefaultConfiguration()
    ensures var cfg := Bits(DEFAULT_CONFIG);
      InterruptCount(cfg) == 32 && BreakpointCount(cfg) == 4 && WatchpointCount(cfg) == 4
    ensures var cfg := Bits(DEFAULT_CONFIG);
      && On(cfg, CFG_M) && On(cfg, CFG_D) && On(cfg, CFG_S) && On(cfg, CFG_X) && On(cfg, CFG_CC)
      && On(cfg, CFG_DC) && On(cfg, CFG_IC) && On(cfg, CFG_G) && On(cfg, CFG_R) && !On(cfg, CFG_J)
  {
  }

  // ---------------------------------------------------------------------------
  // Lines
  // ---------------------------------------------------------------------------

  /** Is line i up in a map of lines? */
  /** The mask of `n` lines has the first n. */
  lemma MaskIsLines(n: bv32, i: bv32)
    requires i < 32
    ensures Hits(InterruptMask(n), 1 << i) <==> i < n
  {
  }

  /** A line is pending after the callback if it was before, or if the callback asks
      for it and it is one of those configured. */
  lemma PendingLines(a: State, requests: Bits, i: bv32)
    requires i < 32
    ensures LineOn(Poll(a, requests).csr.ip, i)
      <==> LineOn(a.csr.ip, i) || (LineOn(requests, i) && i < InterruptCount(a.csr.cfg))
  {
    hide On, LineOn, Hits, Meet, Set, Keep, Clear, InterruptCount, InterruptMask;
    var n := InterruptCount(a.csr.cfg);
    MaskIsLines(n, i);
    LinesMerged(a.csr.ip, requests, InterruptMask(n), i);
  }

  /** The external interrupt is pending after the callback exactly when interrupts
      are enabled and some line is both enabled and pending; nothing else changes
      but the pending lines. */
  lemma ExternalInterrupt(a: State, requests: Bits)
    ensures var b := Poll(a, requests);
      && (Pending(b.flags, EXTINT) <==>
          On(a.csr.ie, IE_IE) && exists i: bv32 :: i < 32 && LineOn(a.csr.im, i) && LineOn(b.csr.ip, i))
      && b == a.(csr := a.csr.(ip := b.csr.ip), flags := b.flags)
      && Clear(b.flags, Flag(EXTINT)) == Clear(a.flags, Flag(EXTINT))
  {
    hide On, LineOn, Meet, Set, Clear, InterruptCount, InterruptMask;
    MeetIsLine(Poll(a, requests).csr.ip, a.csr.im);
    ExtBit(a.flags);
  }

  lemma ExtBit(x: Bits)
    ensures var f := Flag(EXTINT);
      && On(Set(x, f), f) && !On(Clear(x, f), f)
      && Clear(Set(x, f), f) == Clear(x, f) && Clear(Clear(x, f), f) == Clear(x, f)
  {
    hide On, Set, Clear;
    assert Flag(EXTINT) == 0x40;
    SeventhOn(x);
    SeventhOff(x);
    SeventhGone(x);
  }

  lemma SeventhOn(x: Bits)
    ensures On(Set(x, 0x40), 0x40)
  {
  }

  lemma SeventhOff(x: Bits)
    ensures !On(Clear(x, 0x40), 0x40)
  {
  }

  lemma SeventhGone(x: Bits)
    ensures Clear(Set(x, 0x40), 0x40) == Clear(x, 0x40) == Clear(Clear(x, 0x40), 0x40)
  {
  }
}
