/** Saving and reloading the Linux system: pages of RAM are marked as they are
    written, and a checkpoint holds only the marked ones. */
module Checkpoint {
  import opened Words
  import opened Memory

  const RAM_BASE: u32 := 0x0800_0000
  const RAM_END: u32 := 0x0c00_0000
  const RAM_SIZE: nat := 0x400_0000
  const PAGE_SIZE: nat := 0x400
  const NUM_PAGES: nat := 0x1_0000

  const RECORD_SIZE: nat := 0x404

  // Register pages of the devices, which are not memory.
  const UART0_BASE: u32 := 0x8000_0000
  const UART1_BASE: u32 := 0x8100_0000
  const TIMER0_BASE: u32 := 0x8000_2000

  /** Loading program text has an access type of its own. */
  datatype Access = Store(size: Size) | Text

  function SizeOf(t: Access): Size {
    if t.Store? then t.size else Full
  }

  datatype RawImage = Image(ram: seq<u8>, wr: seq<bool>)

  predicate Sized(s: RawImage) {
    |s.ram| == RAM_SIZE && |s.wr| == NUM_PAGES
  }

  type Image = s: RawImage | Sized(s)
    witness Image(seq(RAM_SIZE, _ => 0), seq(NUM_PAGES, _ => false))

  /** The system with a RAM image just loaded and nothing written to it. */
  function Fresh(base: seq<u8>): Image
    requires |base| == RAM_SIZE
  {
    Image(base, seq(NUM_PAGES, _ => false))
  }

  // ---------------------------------------------------------------------------
  // Values
  // ---------------------------------------------------------------------------

  predicate IsDevice(p: u32) {
    var page := p - p % 0x1000;
    page == UART0_BASE || page == UART1_BASE || page == TIMER0_BASE
  }

  function Marked(wr: seq<bool>, p: u32, t: Access): (r: seq<bool>)
    requires |wr| == NUM_PAGES
    ensures |r| == NUM_PAGES
  {
    if RAM_BASE <= p < RAM_END && t.Store? then wr[(p % 0x0800_0000) / PAGE_SIZE := true] else wr
  }

  /** A write at a physical address, in the checked or in the fast build. */
  function Written(fast: bool, s: Image, p: u32, t: Access, d: u32): Image {
    if IsDevice(p) then s
    else
      var r := if fast then FastWrite(LNX_RAM, s.ram, p, SizeOf(t), d)
               else Write(LNX_RAM, s.ram, p, SizeOf(t), d);
      Image(if r.Some? then r.value else s.ram, Marked(s.wr, p, t))
  }

  /** The four bytes of a page address, most significant first. */
  function AddressBytes(p: u32): (r: seq<u8>)
    ensures |r| == 4
  {
    [p / 0x100_0000, p / 0x1_0000 % 0x100, p / 0x100 % 0x100, p % 0x100]
  }

  function PageBase(k: nat): u32
    requires k < NUM_PAGES
  {
    RAM_BASE + PAGE_SIZE * k
  }

  function PageOf(ram: seq<u8>, k: nat): (r: seq<u8>)
    requires |ram| == RAM_SIZE && k < NUM_PAGES
    ensures |r| == PAGE_SIZE
  {
    ram[PAGE_SIZE * k..PAGE_SIZE * (k + 1)]
  }

  function Record(s: Image, k: nat): (r: seq<u8>)
    requires k < NUM_PAGES
    ensures |r| == RECORD_SIZE
  {
    AddressBytes(PageBase(k)) + PageOf(s.ram, k)
  }

  /** The records of the marked pages from page k on. */
  function Records(s: Image, k: nat): seq<u8>
    requires k <= NUM_PAGES
    decreases NUM_PAGES - k
  {
    if k == NUM_PAGES then []
    else (if s.wr[k] then Record(s, k) else []) + Records(s, k + 1)
  }

  /** getc, with the end of the file masked to a byte. */
  function Get(file: seq<u8>, i: nat): u8 {
    if i < |file| then file[i] else 0xff
  }

  function AddressAt(file: seq<u8>, i: nat): u32 {
    WordOf(Get(file, i), Get(file, i + 1), Get(file, i + 2), Get(file, i + 3))
  }

  /** The first n bytes of a page written from position i of the file. */
  function Poured(fast: bool, s: Image, addr: u32, file: seq<u8>, i: nat, n: nat): Image {
    if n == 0 then s
    else
      Written(fast, Poured(fast, s, addr, file, i, n - 1), Wrap(addr + (n - 1)), Store(Byte), Get(file, i + (n - 1)))
  }

  /** Everything from position i of the file loaded, record by record. */
  function Loaded(fast: bool, s: Image, file: seq<u8>, i: nat): Image
    decreases |file| - i
  {
    if i >= |file| then s
    else Loaded(fast, Poured(fast, s, AddressAt(file, i), file, i + 4, PAGE_SIZE), file, i + RECORD_SIZE)
  }

  // ---------------------------------------------------------------------------
  // The system, updated in place.  Save and Load run with the data TLB off, so
  // their addresses are physical.
  // ---------------------------------------------------------------------------

  class LinuxSystem {
    /** Was it built with LM32_FAST_COMPILE? */
    const fast: bool
    const mem: array<u8>
    const memWr: array<bool>

    predicate Valid() {
      mem.Length == RAM_SIZE && memWr.Length == NUM_PAGES
    }

    ghost function View(): Image
      requires Valid()
      reads mem, memWr
    {
      Image(mem[..], memWr[..])
    }

    /** The fast build leaves RAM as it was allocated; here it is cleared. */
    constructor (fast: bool)
      ensures Valid() && fresh(mem) && fresh(memWr) && this.fast == fast
      ensures View() == Fresh(seq(RAM_SIZE, _ => 0))
    {
      this.fast := fast;
      mem := new u8[RAM_SIZE](_ => 0);
      memWr := new bool[NUM_PAGES](_ => false);
      new;
      assert mem[..] == seq(RAM_SIZE, _ => 0);
      assert memWr[..] == seq(NUM_PAGES, _ => false);
    }

    /** lm32_write_mem after translation, with the system's callback in place. */
    method WriteMem(p: u32, t: Access, d: u32)
      requires Valid()
      modifies mem, memWr
      ensures View() == Written(fast, old(View()), p, t, d)
    {
      hide Write, FastWrite;
      if IsDevice(p) {
        return;
      }
      LnxPower();
      if RAM_BASE <= p < RAM_END && t.Store? {
        memWr[(p % 0x0800_0000) / PAGE_SIZE] := true;
      }
      if fast {
        UncheckedWrite(LNX_RAM, mem, p, SizeOf(t), d, LNX_RAM_BITS);
      } else {
        var _ := LocalWrite(LNX_RAM, mem, p, SizeOf(t), d);
      }
    }

    /** save_system_state, on the records of the CPU and the devices as bytes. */
    method Save(devices: seq<u8>) returns (file: seq<u8>)
      requires Valid()
      ensures file == devices + Records(View(), 0)
    {
      hide Records, Record;
      file := devices;
      var k := 0;
      while k < NUM_PAGES
        invariant k <= NUM_PAGES
        invariant file + Records(View(), k) == devices + Records(View(), 0)
      {
        RecordsStep(file, View(), k);
        if memWr[k] {
          file := SavePage(file, k);
        }
        k := k + 1;
      }
      NoRecords(file, View());
    }

    /** lm32_read_mem of a byte of RAM. */
    method ReadByte(p: u32) returns (data: u8)
      requires Valid() && Read(LNX_RAM, mem[..], p, Byte).Some?
      ensures Read(LNX_RAM, mem[..], p, Byte) == Some(data as u32)
    {
      LnxPower();
      if fast {
        FastReadAgrees(LNX_RAM, mem[..], p, Byte, LNX_RAM_BITS);
        data := UncheckedRead(LNX_RAM, mem, p, LNX_RAM_BITS);
      } else {
        ByteIsSmall(mem[..], p);
        var _, d := LocalRead(LNX_RAM, mem, p, Byte);
        data := d;
      }
    }

    method SavePage(before: seq<u8>, k: nat) returns (file: seq<u8>)
      requires Valid() && k < NUM_PAGES
      ensures file == before + Record(View(), k)
    {
      hide Read, FastRead, AddressBytes;
      file := before + AddressBytes(PageBase(k));
      ghost var page := PageOf(mem[..], k);
      var i := 0;
      while i < PAGE_SIZE
        invariant i <= PAGE_SIZE
        invariant file == before + AddressBytes(PageBase(k)) + page[..i]
      {
        ByteInRam(mem[..], PAGE_SIZE * k + i);
        var data := ReadByte(PageBase(k) + i);
        assert page[..i + 1] == page[..i] + [page[i]];
        file := file + [data];
        i := i + 1;
      }
      assert page[..i] == page;
    }

    /** load_system_state; `n` is the size of the CPU and device records. */
    method Load(file: seq<u8>, n: nat) returns (devices: seq<u8>)
      requires Valid()
      modifies mem, memWr
      ensures |devices| == n && forall i :: 0 <= i < n ==> devices[i] == Get(file, i)
      ensures View() == Loaded(fast, old(View()), file, n)
    {
      hide Poured, Get;
      devices := [];
      var pos := 0;
      while pos < n
        invariant pos <= n && |devices| == pos
        invariant forall i :: 0 <= i < pos ==> devices[i] == Get(file, i)
      {
        devices := devices + [Get(file, pos)];
        pos := pos + 1;
      }
      while pos < |file|
        invariant n <= pos
        invariant Loaded(fast, View(), file, pos) == Loaded(fast, old(View()), file, n)
        decreases |file| - pos
      {
        var addr := AddressAt(file, pos);
        LoadPage(file, pos + 4, addr);
        pos := pos + RECORD_SIZE;
      }
    }

    method LoadPage(file: seq<u8>, pos: nat, start: u32)
      requires Valid()
      modifies mem, memWr
      ensures View() == Poured(fast, old(View()), start, file, pos, PAGE_SIZE)
    {
      hide Written, Get;
      var addr := start;
      var i := 0;
      while i < PAGE_SIZE
        invariant i <= PAGE_SIZE
        invariant addr == Wrap(start + i)
        invariant View() == Poured(fast, old(View()), start, file, pos, i)
      {
        WriteMem(addr, Store(Byte), Get(file, pos + i));
        WrapStep(start + i);
        addr := Wrap((addr as int) + 1);
        i := i + 1;
      }
    }
  }

  // ---------------------------------------------------------------------------
  // What a write does to RAM and to the marks
  // ---------------------------------------------------------------------------

  lemma RamIndex(i: nat)
    requires i < RAM_SIZE
    ensures Index(LNX_RAM, RAM_BASE + i) == i
  {
    ResidueIsMod(RAM_BASE + i, RAM_SIZE);
    ModUnique(RAM_BASE + i, RAM_SIZE, 2, i);
  }

  lemma ByteIsSmall(ram: seq<u8>, p: u32)
    requires |ram| == RAM_SIZE && Read(LNX_RAM, ram, p, Byte).Some?
    ensures Read(LNX_RAM, ram, p, Byte).value < 0x100
  {
    hide Residue;
  }

  lemma ByteInRam(ram: seq<u8>, i: nat)
    requires |ram| == RAM_SIZE && i < RAM_SIZE
    ensures Read(LNX_RAM, ram, RAM_BASE + i, Byte) == Some(ram[i])
  {
    RamIndex(i);
    hide Residue;
  }

  /** A byte store in RAM changes that byte and marks its page. */
  lemma ByteWritten(fast: bool, s: Image, i: nat, d: u8)
    requires i < RAM_SIZE
    ensures Written(fast, s, RAM_BASE + i, Store(Byte), d) == Image(s.ram[i := d], s.wr[i / PAGE_SIZE := true])
  {
    var p := RAM_BASE + i;
    RamIndex(i);
    ByteLands(fast, s.ram, p, d);
    ModUnique(p, 0x0800_0000, 1, i);
    NotDevice(p);
    hide Residue, Write, FastWrite, IsDevice;
  }

  lemma NotDevice(p: u32)
    requires p < 0x8000_0000
    ensures !IsDevice(p)
  {
  }

  lemma ByteLands(fast: bool, ram: seq<u8>, p: u32, d: u8)
    requires |ram| == RAM_SIZE && RAM_BASE <= p < RAM_END
    ensures (if fast then FastWrite(LNX_RAM, ram, p, Byte, d) else Write(LNX_RAM, ram, p, Byte, d))
            == Some(ram[Index(LNX_RAM, p) := d])
  {
    LnxPower();
    FastWriteAgrees(LNX_RAM, ram, p, Byte, d, LNX_RAM_BITS);
    hide Residue, FastWrite;
  }

  lemma RecordsStep(file: seq<u8>, s: Image, k: nat)
    requires k < NUM_PAGES
    ensures file + Records(s, k) == (if s.wr[k] then file + Record(s, k) else file) + Records(s, k + 1)
  {
    hide Record;
    if s.wr[k] {
      assert Records(s, k) == Record(s, k) + Records(s, k + 1);
    } else {
      assert Records(s, k) == [] + Records(s, k + 1) == Records(s, k + 1);
    }
  }

  lemma NoRecords(file: seq<u8>, s: Image)
    ensures file + Records(s, NUM_PAGES) == file
  {
  }

  lemma WrapStep(x: int)
    ensures Wrap(Wrap(x) + 1) == Wrap(x + 1)
  {
  }

  // ---------------------------------------------------------------------------
  // Loading what was saved
  // ---------------------------------------------------------------------------

  /** `s` with some bytes from the start of page k replaced, and the page marked. */
  function WithBytes(s: Image, k: nat, bytes: seq<u8>): Image
    requires k < NUM_PAGES && 0 < |bytes| <= PAGE_SIZE
  {
    var i := PAGE_SIZE * k;
    Image(s.ram[..i] + bytes + s.ram[i + |bytes|..], s.wr[k := true])
  }

  lemma {:induction false} PouredBytes(fast: bool, s: Image, k: nat, file: seq<u8>, i: nat, n: nat)
    requires k < NUM_PAGES && 0 < n <= PAGE_SIZE && i + n <= |file|
    ensures Poured(fast, s, PageBase(k), file, i, n) == WithBytes(s, k, file[i..i + n])
    decreases n
  {
    hide Written, Wrap;
    var start, j := PAGE_SIZE * k, PAGE_SIZE * k + (n - 1);
    var before := Poured(fast, s, PageBase(k), file, i, n - 1);
    assert j / PAGE_SIZE == k;
    SmallWrap(RAM_BASE + j);
    ByteWritten(fast, before, j, file[i + (n - 1)]);
    assert Poured(fast, s, PageBase(k), file, i, n) == Image(before.ram[j := file[i + (n - 1)]], before.wr[k := true]);
    hide Poured, WithBytes;
    if n == 1 {
      assert file[i..i + n] == [file[i]];
      FirstByte(s, k, file[i]);
      assert before == s by { NothingPoured(fast, s, PageBase(k), file, i); }
    } else {
      PouredBytes(fast, s, k, file, i, n - 1);
      assert file[i..i + n] == file[i..i + (n - 1)] + [file[i + (n - 1)]];
      OneMoreByte(s, k, file[i..i + (n - 1)], file[i + (n - 1)]);
    }
  }

  lemma NothingPoured(fast: bool, s: Image, addr: u32, file: seq<u8>, i: nat)
    ensures Poured(fast, s, addr, file, i, 0) == s
  {
  }

  lemma FirstByte(s: Image, k: nat, b: u8)
    requires k < NUM_PAGES
    ensures Image(s.ram[PAGE_SIZE * k := b], s.wr[k := true]) == WithBytes(s, k, [b])
  {
    var i := PAGE_SIZE * k;
    assert s.ram[i := b] == s.ram[..i] + [b] + s.ram[i + 1..];
  }

  lemma OneMoreByte(s: Image, k: nat, bytes: seq<u8>, b: u8)
    requires k < NUM_PAGES && 0 < |bytes| < PAGE_SIZE
    ensures var t := WithBytes(s, k, bytes);
      Image(t.ram[PAGE_SIZE * k + |bytes| := b], t.wr[k := true]) == WithBytes(s, k, bytes + [b])
  {
    var i, t, u := PAGE_SIZE * k, WithBytes(s, k, bytes), WithBytes(s, k, bytes + [b]);
    assert t.ram[i + |bytes| := b] == u.ram;
  }

  lemma SmallWrap(x: u32)
    ensures Wrap(x) == x
  {
  }

  lemma RecordLoads(fast: bool, s: Image, a: Image, k: nat, file: seq<u8>, i: nat)
    requires k < NUM_PAGES && i + RECORD_SIZE <= |file|
    requires file[i..i + RECORD_SIZE] == Record(a, k)
    ensures Poured(fast, s, AddressAt(file, i), file, i + 4, PAGE_SIZE) == WithBytes(s, k, PageOf(a.ram, k))
  {
    var r := Record(a, k);
    assert forall m :: 0 <= m < 4 ==> file[i + m] == file[i..i + RECORD_SIZE][m] == r[m];
    SplitWord(PageBase(k));
    assert AddressAt(file, i) == PageBase(k);
    hide Poured, WithBytes, AddressBytes;
    assert r[4..] == PageOf(a.ram, k);
    assert file[i + 4..i + RECORD_SIZE] == file[i..i + RECORD_SIZE][4..];
    PouredBytes(fast, s, k, file, i + 4, PAGE_SIZE);
  }

  /** `s` after taking over the pages from k on that are marked in `a`. */
  function Merged(s: Image, a: Image, k: nat): Image {
    Image(
      seq(RAM_SIZE, j requires 0 <= j < RAM_SIZE =>
        if j / PAGE_SIZE >= k && a.wr[j / PAGE_SIZE] then a.ram[j] else s.ram[j]),
      seq(NUM_PAGES, q requires 0 <= q < NUM_PAGES => s.wr[q] || (q >= k && a.wr[q])))
  }

  lemma MergedPage(s: Image, a: Image, k: nat)
    requires k < NUM_PAGES
    ensures Merged(if a.wr[k] then WithBytes(s, k, PageOf(a.ram, k)) else s, a, k + 1) == Merged(s, a, k)
  {
    var t := if a.wr[k] then WithBytes(s, k, PageOf(a.ram, k)) else s;
    var l, r := Merged(t, a, k + 1), Merged(s, a, k);
    assert forall j :: 0 <= j < RAM_SIZE ==> l.ram[j] == r.ram[j];
    assert l.ram == r.ram;
    assert l.wr == r.wr;
  }

  lemma {:induction false} RecordsLoad(fast: bool, s: Image, a: Image, k: nat, file: seq<u8>, i: nat)
    requires k <= NUM_PAGES && i <= |file| && file[i..] == Records(a, k)
    ensures Loaded(fast, s, file, i) == Merged(s, a, k)
    decreases NUM_PAGES - k
  {
    hide Poured, WithBytes, AddressAt, Record;
    if k == NUM_PAGES {
      var m := Merged(s, a, k);
      assert m.ram == s.ram && m.wr == s.wr;
    } else {
      hide Merged;
      MergedPage(s, a, k);
      if a.wr[k] {
        assert file[i..i + RECORD_SIZE] == file[i..][..RECORD_SIZE] == Record(a, k);
        assert file[i + RECORD_SIZE..] == file[i..][RECORD_SIZE..];
        RecordLoads(fast, s, a, k, file, i);
        RecordsLoad(fast, WithBytes(s, k, PageOf(a.ram, k)), a, k + 1, file, i + RECORD_SIZE);
      } else {
        RecordsLoad(fast, s, a, k + 1, file, i);
      }
    }
  }

  /** What load_system_state makes of a file written by save_system_state. */
  function Restored(fast: bool, s: Image, a: Image, devices: seq<u8>): Image {
    Loaded(fast, s, devices + Records(a, 0), |devices|)
  }

  lemma RestoredIsMerged(fast: bool, s: Image, a: Image, devices: seq<u8>)
    ensures Restored(fast, s, a, devices) == Merged(s, a, 0)
  {
    var file := devices + Records(a, 0);
    assert file[|devices|..] == Records(a, 0);
    RecordsLoad(fast, s, a, 0, file, |devices|);
  }

  /** Every byte that differs from the base image lies on a marked page. */
  predicate Covered(base: seq<u8>, s: Image)
    requires |base| == RAM_SIZE
  {
    forall j :: 0 <= j < RAM_SIZE && s.ram[j] != base[j] ==> s.wr[j / PAGE_SIZE]
  }

  /** Every page marked in `u` is marked in `a`. */
  predicate MarksWithin(u: Image, a: Image) {
    forall q :: 0 <= q < NUM_PAGES && u.wr[q] ==> a.wr[q]
  }

  /** A checkpoint reloaded over a system `u` that has only been set up - one with
      nothing written to it yet, or with some covered changes on pages that the
      saved system has marked as well - reproduces the saved system, marks
      included, if and only if the marks covered what had changed. */
  lemma CheckpointRoundTrip(fast: bool, base: seq<u8>, u: Image, a: Image, devices: seq<u8>)
    requires |base| == RAM_SIZE && Covered(base, u) && MarksWithin(u, a)
    ensures Restored(fast, u, a, devices) == a <==> Covered(base, a)
  {
    hide Covered, Merged, Restored, MarksWithin;
    RestoredIsMerged(fast, u, a, devices);
    MergedMarks(u, a);
    if Covered(base, a) {
      MergedCovered(base, u, a);
    } else {
      MergedUncovered(base, u, a);
    }
  }

  lemma MergedMarks(u: Image, a: Image)
    requires MarksWithin(u, a)
    ensures Merged(u, a, 0).wr == a.wr
  {
    var m := Merged(u, a, 0);
    assert forall q :: 0 <= q < NUM_PAGES ==> m.wr[q] == a.wr[q];
  }

  lemma MergedCovered(base: seq<u8>, u: Image, a: Image)
    requires |base| == RAM_SIZE && Covered(base, u) && MarksWithin(u, a) && Covered(base, a)
    ensures Merged(u, a, 0).ram == a.ram
  {
    var m := Merged(u, a, 0);
    assert forall j :: 0 <= j < RAM_SIZE ==> m.ram[j] == a.ram[j];
  }

  lemma MergedUncovered(base: seq<u8>, u: Image, a: Image)
    requires |base| == RAM_SIZE && Covered(base, u) && MarksWithin(u, a) && !Covered(base, a)
    ensures Merged(u, a, 0) != a
  {
    var j :| 0 <= j < RAM_SIZE && a.ram[j] != base[j] && !a.wr[j / PAGE_SIZE];
    assert Merged(u, a, 0).ram[j] == base[j];
  }

  // ---------------------------------------------------------------------------
  // Which writes keep the marks honest
  // ---------------------------------------------------------------------------

  /** Writes that reach RAM without marking a page.  In the checked build they are
      those at the address one past the end, which the bounds check lets through
      to byte 0, and of program text.  The fast build makes no checks: there any
      address outside RAM will do that is not a device's, and program text at
      any alignment. */
  predicate Hole(fast: bool, p: u32, t: Access) {
    if fast then !IsDevice(p) && (!(RAM_BASE <= p < RAM_END) || t.Text?)
    else p == RAM_END || (t.Text? && RAM_BASE <= p < RAM_END && p % 4 == 0)
  }

  /** An aligned access does not cross a page. */
  lemma WithinPage(i: nat, sz: Size)
    ensures Fits(i, sz) ==> forall j :: i <= j < i + Width(sz) ==> j / PAGE_SIZE == i / PAGE_SIZE
  {
    if Fits(i, sz) {
      forall j | i <= j < i + Width(sz)
        ensures j / PAGE_SIZE == i / PAGE_SIZE
      {
        if sz == Half {
          EvenRoom(i);
        }
        SamePage(i, j - i);
      }
    }
  }

  lemma SamePage(i: nat, e: nat)
    requires i % 4 + e < 4
    ensures (i + e) / PAGE_SIZE == i / PAGE_SIZE
  {
    var q, s, r := i / 4 / 0x100, i / 4 % 0x100, i % 4;
    assert i == 4 * (0x100 * q + s) + r;
    ModUnique(i, PAGE_SIZE, q, 4 * s + r);
    ModUnique(i + e, PAGE_SIZE, q, 4 * s + r + e);
  }

  /** A write in RAM marks the page it is on, unless it is program text. */
  lemma MarksPage(fast: bool, s: Image, p: u32, t: Access, d: u32)
    requires RAM_BASE <= p < RAM_END
    ensures var u := Written(fast, s, p, t, d);
      u.wr == if t.Store? then s.wr[(p - RAM_BASE) / PAGE_SIZE := true] else s.wr
  {
    hide Write, FastWrite;
    ModUnique(p, 0x0800_0000, 1, p - RAM_BASE);
    NotDevice(p);
    hide IsDevice;
  }

  /** And changes no byte of any other page. */
  lemma StaysOnPage(fast: bool, s: Image, p: u32, t: Access, d: u32)
    requires RAM_BASE <= p < RAM_END
    ensures OthersKept(s.ram, Written(fast, s, p, t, d).ram, (p - RAM_BASE) / PAGE_SIZE)
  {
    RamIndex(p - RAM_BASE);
    var sz := SizeOf(t);
    hide Residue, Write, FastWrite, IsDevice, Marked, OthersKept, WriteBytes;
    KeepsItself(s.ram, (p - RAM_BASE) / PAGE_SIZE);
    if fast {
      LnxPower();
      FastWriteAgrees(LNX_RAM, s.ram, p, sz, d, LNX_RAM_BITS);
      OnOnePage(s.ram, p - RAM_BASE, sz, d);
    } else if Write(LNX_RAM, s.ram, p, sz, d).Some? {
      WriteLands(s.ram, p, sz, d);
      OnOnePage(s.ram, p - RAM_BASE, sz, d);
    }
  }

  /** Equal in all bytes outside page k. */
  predicate OthersKept(ram: seq<u8>, ram': seq<u8>, k: nat)
    requires |ram| == |ram'| == RAM_SIZE
  {
    forall j :: 0 <= j < RAM_SIZE && j / PAGE_SIZE != k ==> ram'[j] == ram[j]
  }

  lemma KeepsItself(ram: seq<u8>, k: nat)
    requires |ram| == RAM_SIZE
    ensures OthersKept(ram, ram, k)
  {
  }

  lemma OnOnePage(ram: seq<u8>, i: nat, sz: Size, d: u32)
    requires |ram| == RAM_SIZE && i < RAM_SIZE
    ensures var j := CutTo(i, sz);
      j + Width(sz) <= RAM_SIZE && OthersKept(ram, WriteBytes(ram, j, sz, d), i / PAGE_SIZE)
  {
    CutDown(i, RAM_SIZE, sz);
    var j := CutTo(i, sz);
    WriteThenReadBytes(ram, j, sz, d);
    WithinPage(j, sz);
    hide ReadBytes, WriteBytes;
  }

  lemma WriteLands(ram: seq<u8>, p: u32, sz: Size, d: u32)
    requires |ram| == RAM_SIZE && Write(LNX_RAM, ram, p, sz, d).Some?
    ensures var i := Index(LNX_RAM, p);
      && i == CutTo(i, sz) && i + Width(sz) <= RAM_SIZE
      && Write(LNX_RAM, ram, p, sz, d) == Some(WriteBytes(ram, i, sz, d))
  {
    hide Residue, WriteBytes;
    CutDown(Index(LNX_RAM, p), RAM_SIZE, sz);
  }

  lemma TextMisaligned(s: Image, p: u32, d: u32)
    requires p % 4 != 0
    ensures Written(false, s, p, Text, d) == s
  {
    MisalignedFails(LNX_RAM, s.ram, p);
    WriteThenRead(LNX_RAM, s.ram, p, Full, d);
  }

  lemma WriteKeepsCovered(fast: bool, base: seq<u8>, s: Image, p: u32, t: Access, d: u32)
    requires |base| == RAM_SIZE && Covered(base, s) && !Hole(fast, p, t)
    ensures Covered(base, Written(fast, s, p, t, d))
  {
    if RAM_BASE <= p < RAM_END && t.Store? {
      MarksPage(fast, s, p, t, d);
      StaysOnPage(fast, s, p, t, d);
      hide Written;
    } else if !fast {
      if t.Text? && p % 4 != 0 && RAM_BASE <= p < RAM_END {
        TextMisaligned(s, p, d);
      } else {
        OutsideRam(s, p, t, d);
      }
    }
  }

  lemma OutsideRam(s: Image, p: u32, t: Access, d: u32)
    requires p < RAM_BASE || p > RAM_END
    ensures Written(false, s, p, t, d) == s
  {
  }

  /** Every hole loses data: here, ones written into a fresh image of zeros. */
  lemma HoleLosesData(fast: bool, p: u32, t: Access)
    requires Hole(fast, p, t)
    ensures var base := seq(RAM_SIZE, _ => 0);
      Covered(base, Fresh(base)) && !Covered(base, Written(fast, Fresh(base), p, t, 0xffff_ffff))
  {
    var base: seq<u8> := seq(RAM_SIZE, _ => 0);
    var s := Fresh(base);
    var i := HoleWrites(fast, base, p, t);
    OnesWritten(base, i, SizeOf(t));
    HoleIsNoDevice(fast, p, t);
    hide IsDevice, WriteBytes, Write, FastWrite;
    var u := Written(fast, s, p, t, 0xffff_ffff);
    assert u.ram == WriteBytes(base, i, SizeOf(t), 0xffff_ffff);
    assert u.wr == s.wr;
    assert u.ram[i] != base[i] && !u.wr[i / PAGE_SIZE];
  }

  lemma HoleIsNoDevice(fast: bool, p: u32, t: Access)
    requires Hole(fast, p, t)
    ensures !IsDevice(p)
  {
    if !fast {
      NotDevice(p);
    }
  }

  /** A write through a hole goes through, at some index of the array. */
  lemma HoleWrites(fast: bool, ram: seq<u8>, p: u32, t: Access) returns (i: nat)
    requires |ram| == RAM_SIZE && Hole(fast, p, t)
    ensures i + Width(SizeOf(t)) <= RAM_SIZE
    ensures (if fast then FastWrite(LNX_RAM, ram, p, SizeOf(t), 0xffff_ffff)
             else Write(LNX_RAM, ram, p, SizeOf(t), 0xffff_ffff))
            == Some(WriteBytes(ram, i, SizeOf(t), 0xffff_ffff))
  {
    if fast {
      LnxPower();
      FastWriteAgrees(LNX_RAM, ram, p, SizeOf(t), 0xffff_ffff, LNX_RAM_BITS);
      i := CutTo(Index(LNX_RAM, p), SizeOf(t));
    } else {
      HoleIndex(p, t);
      i := Index(LNX_RAM, p);
      hide Residue, WriteBytes;
      assert InBounds(LNX_RAM, p);
      RoomFor(LNX_RAM, i, SizeOf(t));
    }
  }

  lemma HoleIndex(p: u32, t: Access)
    requires Hole(false, p, t)
    ensures var i := if p == RAM_END then 0 else p - RAM_BASE;
      Index(LNX_RAM, p) == i && Fits(i, SizeOf(t))
  {
    if p == RAM_END {
      ResidueIsMod(p, RAM_SIZE);
    } else {
      RamIndex(p - RAM_BASE);
    }
  }

  lemma OnesWritten(ram: seq<u8>, i: nat, sz: Size)
    requires i + Width(sz) <= |ram|
    ensures WriteBytes(ram, i, sz, 0xffff_ffff)[i] == 0xff
  {
  }

  /** A write is safe for checkpoints, whatever the state and the data, exactly
      when it is not one of the holes. */
  lemma SafeIffNoHole(fast: bool, p: u32, t: Access)
    ensures (forall base: seq<u8>, s: Image, d: u32 ::
               |base| == RAM_SIZE && Covered(base, s) ==> Covered(base, Written(fast, s, p, t, d)))
            <==> !Hole(fast, p, t)
  {
    if Hole(fast, p, t) {
      HoleLosesData(fast, p, t);
    } else {
      forall base: seq<u8>, s: Image, d: u32 | |base| == RAM_SIZE && Covered(base, s)
        ensures Covered(base, Written(fast, s, p, t, d))
      {
        WriteKeepsCovered(fast, base, s, p, t, d);
      }
    }
  }

  // ---------------------------------------------------------------------------
  // Whole histories
  // ---------------------------------------------------------------------------

  datatype Event = Poke(p: u32, t: Access, d: u32)

  function Run(fast: bool, s: Image, es: seq<Event>): Image
    decreases |es|
  {
    if es == [] then s else Run(fast, Written(fast, s, es[0].p, es[0].t, es[0].d), es[1..])
  }

  predicate Safe(fast: bool, es: seq<Event>) {
    forall i :: 0 <= i < |es| ==> !Hole(fast, es[i].p, es[i].t)
  }

  lemma {:induction false} RunKeepsCovered(fast: bool, base: seq<u8>, s: Image, es: seq<Event>)
    requires |base| == RAM_SIZE && Covered(base, s) && Safe(fast, es)
    ensures Covered(base, Run(fast, s, es))
    decreases |es|
  {
    hide Covered, Written, Hole;
    if es != [] {
      assert !Hole(fast, es[0].p, es[0].t);
      WriteKeepsCovered(fast, base, s, es[0].p, es[0].t, es[0].d);
      assert forall i :: 0 <= i < |es[1..]| ==> es[1..][i] == es[i + 1];
      RunKeepsCovered(fast, base, Written(fast, s, es[0].p, es[0].t, es[0].d), es[1..]);
    }
  }

  lemma {:induction false} RunJoins(fast: bool, s: Image, es: seq<Event>, more: seq<Event>)
    ensures Run(fast, s, es + more) == Run(fast, Run(fast, s, es), more)
    decreases |es|
  {
    hide Written;
    if es == [] {
      assert es + more == more;
    } else {
      assert (es + more)[0] == es[0] && (es + more)[1..] == es[1..] + more;
      RunJoins(fast, Written(fast, s, es[0].p, es[0].t, es[0].d), es[1..], more);
    }
  }

  // What the program writes into RAM on every start, after it has loaded the base
  // image and cleared the marks: the command line and the hardware set-up.
  const CMDLINE_BASE: u32 := 0x0bff_f000
  const HWSETUP_BASE: u32 := 0x0bff_e000

  function ByteWrites(addr: u32, text: seq<u8>): (es: seq<Event>)
    requires addr + |text| <= RAM_END
    ensures |es| == |text|
  {
    seq(|text|, i requires 0 <= i < |text| => Poke(addr + i, Store(Byte), text[i]))
  }

  function SetupWrites(cmdline: seq<u8>, hardware: seq<u8>): seq<Event>
    requires |cmdline| < 0x1000 && |hardware| <= 0x1000
  {
    ByteWrites(CMDLINE_BASE, cmdline + [0]) + ByteWrites(HWSETUP_BASE, hardware)
  }

  lemma SetupIsSafe(fast: bool, cmdline: seq<u8>, hardware: seq<u8>)
    requires |cmdline| < 0x1000 && |hardware| <= 0x1000
    ensures Safe(fast, SetupWrites(cmdline, hardware))
  {
    var es := SetupWrites(cmdline, hardware);
    forall i | 0 <= i < |es|
      ensures !Hole(fast, es[i].p, es[i].t)
    {
      assert RAM_BASE <= es[i].p < RAM_END && es[i].t == Store(Byte);
    }
  }

  /** A system that has been started and not run. */
  function Booted(fast: bool, base: seq<u8>, setup: seq<Event>): Image
    requires |base| == RAM_SIZE
  {
    Run(fast, Fresh(base), setup)
  }

  /** One run after another, each on a newly started system that loads the
      checkpoint which the previous one left. */
  function Sessions(fast: bool, base: seq<u8>, setup: seq<Event>, s: Image, runs: seq<seq<Event>>,
                    devices: seq<u8>): Image
    requires |base| == RAM_SIZE
    decreases |runs|
  {
    hide Run, Restored, Booted;
    if runs == [] then s
    else
      var loaded := Restored(fast, Booted(fast, base, setup), s, devices);
      Sessions(fast, base, setup, Run(fast, loaded, runs[0]), runs[1..], devices)
  }

  function Joined(runs: seq<seq<Event>>): seq<Event> {
    if runs == [] then [] else runs[0] + Joined(runs[1..])
  }

  lemma {:induction false} RunKeepsMarks(fast: bool, s: Image, es: seq<Event>)
    ensures MarksWithin(s, Run(fast, s, es))
    decreases |es|
  {
    hide Write, FastWrite, IsDevice;
    if es != [] {
      RunKeepsMarks(fast, Written(fast, s, es[0].p, es[0].t, es[0].d), es[1..]);
    }
  }

  lemma MarksOn(s: Image, t: Image, u: Image)
    requires MarksWithin(s, t) && MarksWithin(t, u)
    ensures MarksWithin(s, u)
  {
  }

  /** Stopping and resuming any number of times is the same as never stopping. */
  lemma {:induction false} ResumingIsSeamless(fast: bool, base: seq<u8>, setup: seq<Event>, s: Image,
                                              runs: seq<seq<Event>>, devices: seq<u8>)
    requires |base| == RAM_SIZE && Safe(fast, setup)
    requires Covered(base, s) && MarksWithin(Booted(fast, base, setup), s)
    requires forall r :: 0 <= r < |runs| ==> Safe(fast, runs[r])
    ensures Sessions(fast, base, setup, s, runs, devices) == Run(fast, s, Joined(runs))
    decreases |runs|
  {
    hide Covered, Restored, Safe, MarksWithin, Booted;
    if runs != [] {
      var b := Booted(fast, base, setup);
      BootIsCovered(fast, base, setup);
      CheckpointRoundTrip(fast, base, b, s, devices);
      assert Safe(fast, runs[0]);
      RunKeepsCovered(fast, base, s, runs[0]);
      RunKeepsMarks(fast, s, runs[0]);
      MarksOn(b, s, Run(fast, s, runs[0]));
      assert forall r :: 0 <= r < |runs[1..]| ==> runs[1..][r] == runs[r + 1];
      ResumingIsSeamless(fast, base, setup, Run(fast, s, runs[0]), runs[1..], devices);
      RunJoins(fast, s, runs[0], Joined(runs[1..]));
    }
  }

  lemma BootIsCovered(fast: bool, base: seq<u8>, setup: seq<Event>)
    requires |base| == RAM_SIZE && Safe(fast, setup)
    ensures Covered(base, Booted(fast, base, setup))
  {
    hide Run, Safe;
    assert Covered(base, Fresh(base));
    hide Covered;
    RunKeepsCovered(fast, base, Fresh(base), setup);
  }

  /** In particular from a newly started system, whatever its command line and
      hardware set-up are. */
  lemma SeamlessFromBoot(fast: bool, base: seq<u8>, cmdline: seq<u8>, hardware: seq<u8>, runs: seq<seq<Event>>,
                         devices: seq<u8>)
    requires |base| == RAM_SIZE && |cmdline| < 0x1000 && |hardware| <= 0x1000
    requires forall r :: 0 <= r < |runs| ==> Safe(fast, runs[r])
    ensures var setup := SetupWrites(cmdline, hardware);
      Sessions(fast, base, setup, Booted(fast, base, setup), runs, devices)
      == Run(fast, Fresh(base), setup + Joined(runs))
  {
    var setup := SetupWrites(cmdline, hardware);
    SetupIsSafe(fast, cmdline, hardware);
    var b := Booted(fast, base, setup);
    assert MarksWithin(b, b);
    assert b == Run(fast, Fresh(base), setup);
    hide Sessions, Run, Safe, Booted, SetupWrites, MarksWithin, Covered;
    BootIsCovered(fast, base, setup);
    ResumingIsSeamless(fast, base, setup, b, runs, devices);
    RunJoins(fast, Fresh(base), setup, Joined(runs));
  }
}
