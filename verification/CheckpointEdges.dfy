/** Checkpoint files that end too early, and writes that are not for RAM. */
module CheckpointEdges {
  import opened Words
  import opened Memory
  import opened Checkpoint

  function Ones(n: nat): (s: seq<u8>)
    ensures |s| == n
  {
    seq(n, _ => 0xff)
  }

  lemma SameByte(file: seq<u8>, m: nat, i: nat)
    ensures Get(file + Ones(m), i) == Get(file, i)
  {
  }

  lemma {:induction false} PouredPadded(fast: bool, s: Image, addr: u32, file: seq<u8>, m: nat, i: nat, n: nat)
    ensures Poured(fast, s, addr, file, i, n) == Poured(fast, s, addr, file + Ones(m), i, n)
    decreases n
  {
    hide Written, Get, Wrap;
    if n > 0 {
      PouredPadded(fast, s, addr, file, m, i, n - 1);
      SameByte(file, m, i + (n - 1));
    }
  }

  /** A file that breaks off within a page fills the rest of the page with ones, and
      leaves every other page as it is. */
  lemma CutOff(fast: bool, s: Image, k: nat, file: seq<u8>, i: nat)
    requires k < NUM_PAGES && i + 4 <= |file| <= i + RECORD_SIZE && AddressAt(file, i) == PageBase(k)
    ensures Loaded(fast, s, file, i)
            == WithBytes(s, k, file[i + 4..] + Ones(i + RECORD_SIZE - |file|))
  {
    hide Poured, WithBytes, AddressAt, PageBase;
    var m := i + RECORD_SIZE - |file|;
    var whole := file + Ones(m);
    PouredPadded(fast, s, PageBase(k), file, m, i + 4, PAGE_SIZE);
    PouredBytes(fast, s, k, whole, i + 4, PAGE_SIZE);
    assert whole[i + 4..i + 4 + PAGE_SIZE] == file[i + 4..] + Ones(m);
  }

  /** The register pages of the two UARTs and of the timers. */
  predicate InDevices(p: u32) {
    0x8000_0000 <= p < 0x8000_1000 || 0x8000_2000 <= p < 0x8000_3000 || 0x8100_0000 <= p < 0x8100_1000
  }

  lemma DevicesAre(p: u32)
    ensures IsDevice(p) <==> InDevices(p)
  {
  }

  /** Nothing is written to RAM, and no page is marked, for an access to a device. */
  lemma DevicesApart(fast: bool, s: Image, p: u32, t: Access, d: u32)
    requires InDevices(p)
    ensures Written(fast, s, p, t, d) == s
  {
    DevicesAre(p);
  }

  /** In the fast build every other address in the world is a byte of RAM. */
  lemma EverythingElseIsRam(s: Image, p: u32, d: u32)
    requires !InDevices(p)
    ensures Written(true, s, p, Store(Byte), d).ram == s.ram[p % RAM_SIZE := d % 0x100]
  {
    DevicesAre(p);
    FastIndexAgrees(LNX_RAM, p, 26);
    ResidueIsMod(p, RAM_SIZE);
    assert Pow2(26) == RAM_SIZE by {
      assert Pow2(10) == 0x400;
      assert Pow2(20) == 0x10_0000;
    }
    hide BitAnd, IsDevice, Marked;
  }

  // ---------------------------------------------------------------------------
  // What a started system finds in RAM
  // ---------------------------------------------------------------------------

  lemma {:induction false} RunBytes(fast: bool, s: Image, off: nat, text: seq<u8>)
    requires off + |text| <= RAM_SIZE
    ensures Run(fast, s, ByteWrites(RAM_BASE + off, text)).ram == Overlaid(s.ram, off, text)
    decreases |text|
  {
    hide Written;
    var es := ByteWrites(RAM_BASE + off, text);
    if text == [] {
      assert Overlaid(s.ram, off, text) == s.ram;
    } else {
      assert es[1..] == ByteWrites(RAM_BASE + off + 1, text[1..]);
      ByteWritten(fast, s, off, text[0]);
      var t := Written(fast, s, es[0].p, es[0].t, es[0].d);
      RunBytes(fast, t, off + 1, text[1..]);
      assert Overlaid(t.ram, off + 1, text[1..]) == Overlaid(s.ram, off, text);
    }
  }

  /** On every start the command line, ended by a zero, is at 0x0bfff000 and the
      hardware description at 0x0bffe000; the rest is the base image. */
  lemma SetupInPlace(fast: bool, base: seq<u8>, cmdline: seq<u8>, hardware: seq<u8>)
    requires |base| == RAM_SIZE && |cmdline| < 0x1000 && |hardware| <= 0x1000
    ensures Booted(fast, base, SetupWrites(cmdline, hardware)).ram
            == Overlaid(Overlaid(base, 0xbff_f000 - 0x800_0000, cmdline + [0]), 0xbff_e000 - 0x800_0000, hardware)
  {
    hide Run, Overlaid;
    var first := ByteWrites(CMDLINE_BASE, cmdline + [0]);
    RunBytes(fast, Fresh(base), CMDLINE_BASE - RAM_BASE, cmdline + [0]);
    var s := Run(fast, Fresh(base), first);
    RunBytes(fast, s, HWSETUP_BASE - RAM_BASE, hardware);
    RunJoins(fast, Fresh(base), first, ByteWrites(HWSETUP_BASE, hardware));
  }
}
