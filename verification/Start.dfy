/** A machine as it is built: what its arguments make of it. */
module Start {
  import opened Words
  import opened Memory
  import opened Arch
  import opened Timing
  import Cpu
  import Tlb

  /** RAM is rounded up, and its base down, to whole words; the entry point is taken as
      it is. */
  lemma RamRounded(bytes: nat, offset: u32, entryPoint: u32)
    requires 0 < bytes <= 0xffff_fffc
    ensures var g := Cpu.RoundedGeometry(bytes, offset, entryPoint);
      && bytes <= g.size < bytes + 4 && g.size % 4 == 0
      && g.base <= offset < g.base + 4 && g.base % 4 == 0
      && g.entryPoint == entryPoint
  {
  }

  /** A new machine is in the state of a reset one, but for its configuration. */
  lemma NewIsReset(g: Geometry, word: Bits, c: Clock)
    ensures var a := Cpu.InitialMachine(g, word, c).a;
      Reset(g, a) == a.(csr := a.csr.(cfg := Bits(DEFAULT_CONFIG)))
  {
    hide Cpu.Configured;
    var a := Cpu.InitialMachine(g, word, c).a;
    assert Tlb.AfterReset(a.mmu) == a.mmu;
    assert Reset(g, a).r == a.r;
  }

  /** It has the units that its configuration word asks for. */
  lemma ConfiguredUnits(word: Bits)
    ensures var cfg := Cpu.Configured(word);
      && On(cfg, CFG_M) == On(word, CFG_M) && On(cfg, CFG_D) == On(word, CFG_D) && On(cfg, CFG_S) == On(word, CFG_S)
      && On(cfg, CFG_X) == On(word, CFG_X) && On(cfg, CFG_CC) == On(word, CFG_CC)
      && On(cfg, CFG_DC) == On(word, CFG_DC) && On(cfg, CFG_IC) == On(word, CFG_IC)
      && On(cfg, CFG_G) == On(word, CFG_G) && On(cfg, CFG_R) == On(word, CFG_R) && On(cfg, CFG_J) == On(word, CFG_J)
  {
    KeptUnits(word);
  }

  lemma KeptUnits(word: Bits)
    ensures var k := Keep(word, 0x03ff_fdf7);
      && On(k, 0x1) == On(word, 0x1) && On(k, 0x2) == On(word, 0x2) && On(k, 0x4) == On(word, 0x4)
      && On(k, 0x10) == On(word, 0x10) && On(k, 0x20) == On(word, 0x20) && On(k, 0x40) == On(word, 0x40)
      && On(k, 0x80) == On(word, 0x80) && On(k, 0x100) == On(word, 0x100) && On(k, 0x400) == On(word, 0x400)
      && On(k, 0x800) == On(word, 0x800)
  {
  }

  /** And as many lines, breakpoints and watchpoints. */
  lemma ConfiguredCounts(word: Bits)
    ensures var cfg := Cpu.Configured(word);
      && InterruptCount(cfg) == InterruptCount(word) && BreakpointCount(cfg) == BreakpointCount(word)
      && WatchpointCount(cfg) == WatchpointCount(word)
  {
  }

  /** User instructions, bit H and the revision cannot be asked for. */
  lemma NeverConfigured(word: Bits)
    ensures !On(Cpu.Configured(word), 0xfc00_0208)
  {
  }
}
