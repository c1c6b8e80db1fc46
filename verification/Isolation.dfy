/** What user-mode code can reach: while no exception is taken it changes no
    privileged register and no TLB entry, and only bytes that the data TLB maps
    for writing. */
module Isolation {
  import opened Words
  import opened Memory
  import opened Isa
  import opened Arch
  import opened Timing
  import opened Execution
  import Tlb
  import PageMap

  predicate UserMode(a: State) {
    On(a.csr.psw, USR) && On(a.csr.psw, DTLBE)
  }

  /** Some virtual address that is mapped for writing translates to byte `i`. */
  ghost predicate Writable(g: Geometry, m: Tlb.Mmu, i: nat) {
    exists v: u32 :: MapsWritable(g, m, v, i)
  }

  predicate MapsWritable(g: Geometry, m: Tlb.Mmu, v: u32, i: nat) {
    Tlb.LookupStatus(m, v, true, true) == Tlb.Hit && Index(g, Tlb.LookupAddress(m, v, true)) == i
  }

  /** In terms of the page map: a byte is writable when it lies in the frame of
      a mapped page that is not read-only. */
  lemma WritableIsMapped(g: Geometry, m: Tlb.Mmu, v: u32, i: nat)
    requires MapsWritable(g, m, v, i)
    ensures var pages := PageMap.Pages(m.dtlb); var page := PageMap.PageOf(v);
      && page in pages && !pages[page].readOnly
      && 4096 * pages[page].frame + v % 4096 < 0x1_0000_0000
      && i == Index(g, 4096 * pages[page].frame + v % 4096)
  {
    PageMap.ProbeRefines(m.dtlb, v, true, true);
    PageMap.ProbeRefines(m.dtlb, v, true, false);
  }

  /** Every privileged register and both TLB tables are equal. */
  ghost predicate SamePrivileged(a: State, b: State) {
    && b.csr == a.csr.(ip := b.csr.ip, jtx := b.csr.jtx, jrx := b.csr.jrx)
    && b.mmu.itlb == a.mmu.itlb && b.mmu.dtlb == a.mmu.dtlb
  }

  ghost predicate MemoryConfined(g: Geometry, a: State, b: State)
  {
    |b.mem| == |a.mem| &&
    forall i :: 0 <= i < |a.mem| && b.mem[i] != a.mem[i] ==> Writable(g, a.mmu, i)
  }

  ghost predicate Confined(g: Geometry, a: State, b: State) {
    SamePrivileged(a, b) && MemoryConfined(g, a, b)
  }

  lemma WritableByTable(g: Geometry, m: Tlb.Mmu, m': Tlb.Mmu, i: nat)
    requires m.dtlb == m'.dtlb && Writable(g, m, i)
    ensures Writable(g, m', i)
  {
    var v: u32 :| MapsWritable(g, m, v, i);
    assert MapsWritable(g, m', v, i);
  }

  lemma ConfinedTwice(g: Geometry, a: State, b: State, c: State)
    requires Confined(g, a, b) && Confined(g, b, c)
    ensures Confined(g, a, c)
  {
    hide Writable;
    forall i | 0 <= i < |a.mem| && c.mem[i] != a.mem[i]
      ensures Writable(g, a.mmu, i)
    {
      if b.mem[i] == a.mem[i] {
        WritableByTable(g, b.mmu, a.mmu, i);
      }
    }
  }

  // ---------------------------------------------------------------------------
  // Accesses
  // ---------------------------------------------------------------------------

  lemma ReadConfined(g: Geometry, a: State, v: u32, k: Kind)
    requires Placed(g, a.mem)
    ensures Confined(g, a, ReadMem(g, a, v, k).1)
    ensures ReadMem(g, a, v, k).1.csr == a.csr
  {
    hide On, Set, Flag, Watched, Read, Writable, Tlb.LookupStatus;
  }

  /** Every byte of an aligned access translates like its first one. */
  lemma NeighbourMapped(g: Geometry, m: Tlb.Mmu, v: u32, k: nat, sz: Size)
    requires Tlb.LookupStatus(m, v, true, true) == Tlb.Hit
    requires k < Width(sz) && Fits(Index(g, Tlb.LookupAddress(m, v, true)), sz)
    ensures Writable(g, m, Index(g, Tlb.LookupAddress(m, v, true)) + k)
  {
    var p := Tlb.LookupAddress(m, v, true);
    var e := m.dtlb.entry[Tlb.SlotOf(v)];
    assert p == Tlb.EntryFrame(e) + v % 4096;
    hide Tlb.LookupStatus, Tlb.LookupAddress, Index, Fits, Residue;
    IndexStep(g, p, 0);
    FrameAligned(e);
    hide Tlb.EntryFrame;
    Offset(Tlb.EntryFrame(e), p, v, k, Index(g, p), sz);
    IndexStep(g, p, k);
    NextTranslates(m, v, k);
    assert MapsWritable(g, m, v + k, Index(g, p) + k);
  }

  lemma FrameAligned(e: u32)
    ensures Tlb.EntryFrame(e) % 4096 == 0
  {
    ModUnique(Tlb.EntryFrame(e), 4096, e / 4096, 0);
  }

  /** Within a word the translation moves along with the address. */
  lemma NextTranslates(m: Tlb.Mmu, v: u32, k: nat)
    requires v % 4 + k < 4
    ensures v + k < 0x1_0000_0000
    ensures Tlb.LookupStatus(m, v + k, true, true) == Tlb.LookupStatus(m, v, true, true)
    ensures Tlb.LookupAddress(m, v + k, true) == Tlb.LookupAddress(m, v, true) + k
  {
    SamePageNext(v, k);
    hide Tlb.SlotOf, Tlb.TagOf, Tlb.EntryTag, Tlb.EntryReadOnly, Tlb.EntryFrame;
  }

  lemma Offset(frame: int, p: int, v: int, k: nat, i: nat, sz: Size)
    requires p == frame + v % 4096 && frame % 4096 == 0
    requires i % 4 == p % 4 && k < Width(sz) && Fits(i, sz)
    ensures p % 4 + k < 4 && v % 4 + k < 4
  {
    assert p % 4 == v % 4 by {
      assert p == 4 * (1024 * (frame / 4096) + v % 4096 / 4) + v % 4096 % 4;
      ModUnique(p, 4, 1024 * (frame / 4096) + v % 4096 / 4, v % 4096 % 4);
      assert v == 4 * (1024 * (v / 4096) + v % 4096 / 4) + v % 4096 % 4;
      ModUnique(v, 4, 1024 * (v / 4096) + v % 4096 / 4, v % 4096 % 4);
    }
    match sz
    case Byte => assert k == 0;
    case Half =>
      var r := i % 4;
      ModUnique(i, 2, 2 * (i / 4) + r / 2, r % 2);
    case Full =>
  }

  lemma SamePageNext(v: u32, k: nat)
    requires v % 4 + k < 4
    ensures v + k < 0x1_0000_0000
    ensures Tlb.SlotOf(v + k) == Tlb.SlotOf(v) && Tlb.TagOf(v + k) == Tlb.TagOf(v)
    ensures (v + k) % 4096 == v % 4096 + k
  {
    assert v == 4 * (v / 4) + v % 4;
    var q, r := v / 4096, v % 4096;
    assert r % 4 == v % 4 by {
      assert v == 4 * (1024 * q + r / 4) + r % 4;
      ModUnique(v, 4, 1024 * q + r / 4, r % 4);
    }
    assert r + k < 4096;
    ModUnique(v + k, 4096, q, r + k);
    TagNext(v, v + k);
  }

  lemma TagNext(v: int, w: int)
    requires 0 <= v && v / 4096 == w / 4096
    ensures v / 0x40_0000 == w / 0x40_0000
  {
    assert v / 0x40_0000 == v / 4096 / 1024;
    assert w / 0x40_0000 == w / 4096 / 1024;
  }

  lemma WriteConfined(g: Geometry, a: State, v: u32, sz: Size, d: u32)
    requires Placed(g, a.mem) && On(a.csr.psw, DTLBE)
    ensures Confined(g, a, WriteMem(g, a, v, sz, d))
    ensures WriteMem(g, a, v, sz, d).csr == a.csr
  {
    hide On, Set, Flag, Watched, Writable, Residue, InBounds, ReadBytes, WriteBytes;
    hide Tlb.LookupStatus, Tlb.LookupAddress;
    var p := WritePhysical(a, v);
    if WriteStatus(a, v) == Tlb.Hit && Write(g, a.mem, p, sz, d).Some? {
      var b := WriteMem(g, a, v, sz, d);
      var mem := Write(g, a.mem, p, sz, d).value;
      assert b.mem == mem;
      RoomFor(g, Index(g, p), sz);
      WriteThenReadBytes(a.mem, Index(g, p), sz, d);
      forall i | 0 <= i < |a.mem| && b.mem[i] != a.mem[i]
        ensures Writable(g, a.mmu, i)
      {
        NeighbourMapped(g, a.mmu, v, i - Index(g, p), sz);
      }
    }
  }

  // ---------------------------------------------------------------------------
  // Instructions
  // ---------------------------------------------------------------------------

  /** Instructions that do not access memory leave it alone entirely. */
  lemma RegisterOnly(g: Geometry, a: State, i: Instr, cc: u32)
    requires Placed(g, a.mem) && Fields(i) && UserMode(a)
    requires !i.Load? && !i.Store?
    ensures SamePrivileged(a, Exec(g, a, i, cc).a)
    ensures Exec(g, a, i, cc).a.mem == a.mem
  {
    hide Set, AluValue, DivValue, SextValue, CsrValue, On, Flag;
  }

  lemma LoadConfined(g: Geometry, a: State, sz: Size, signed: bool, y: nat, x: nat, k: u32)
    requires Placed(g, a.mem) && y < 32 && x < 32
    ensures Confined(g, a, ExecLoad(g, a, sz, signed, y, x, k))
  {
    hide ReadMem, Extended, Writable;
    var v := EffectiveAddress(a, y, k);
    var b := ReadMem(g, a, v, Data(sz)).1;
    ReadConfined(g, a, v, Data(sz));
    ReadConfined(g, b, v, Data(sz));
  }

  lemma ExecConfined(g: Geometry, a: State, i: Instr, cc: u32)
    requires Placed(g, a.mem) && Fields(i) && UserMode(a)
    ensures Confined(g, a, Exec(g, a, i, cc).a)
  {
    hide Writable, WriteMem, ReadMem, On, ExecLoad;
    match i
    case Load(sz, signed, y, x, k) => LoadConfined(g, a, sz, signed, y, x, k);
    case Store(sz, y, z, k) => WriteConfined(g, a, EffectiveAddress(a, y, k), sz, a.r[z] % Modulus(sz));
    case _ => RegisterOnly(g, a, i, cc);
  }

  lemma FetchConfined(g: Geometry, a: State)
    requires Placed(g, a.mem)
    ensures Confined(g, a, FetchWord(g, a).1)
    ensures FetchWord(g, a).1.csr == a.csr
  {
    hide ReadMem, On, Set, Writable;
    ReadConfined(g, CheckBreakpoint(a), a.pc, Fetch);
  }

  // ---------------------------------------------------------------------------
  // Runs
  // ---------------------------------------------------------------------------

  /** A step that takes no exception: none is pending once the interrupt
      callback, if due, has answered. */
  predicate TakesNone(m: Machine, ans: Answer) {
    !Stops(m, ans) && IsZero(Polled(m, ans).a.flags)
  }

  lemma UserStep(cfg: Config, m: Machine, ans: Answer)
    requires Sound(cfg, m) && UserMode(m.a) && TakesNone(m, ans)
    ensures Confined(cfg.g, m.a, Step(cfg, m, ans).m.a)
  {
    hide Writable, FetchWord, Exec, ExecTime, Decode, On, Set, IsZero;
    var m1 := Polled(m, ans);
    assert Confined(cfg.g, m.a, m1.a) && m1.a.csr.psw == m.a.csr.psw;
    assert Entered(cfg, m1) == m1 && !Unknown(m1.a);
    FetchConfined(cfg.g, m1.a);
    var (w, m2) := Fetched(cfg, m1);
    ExecConfined(cfg.g, m2.a, Decode(w), CycleCounter(m2.c));
    ConfinedTwice(cfg.g, m.a, m1.a, m2.a);
    ConfinedTwice(cfg.g, m.a, m2.a, Executed(cfg, m2, Decode(w)).0.a);
  }

  ghost predicate RunTakesNone(cfg: Config, m: Machine, script: seq<Answer>)
    requires Sound(cfg, m)
    decreases |script|
  {
    hide Step;
    script == [] ||
    (TakesNone(m, script[0]) &&
     var r := Step(cfg, m, script[0]);
     (r.end.Ran? ==> RunTakesNone(cfg, r.m, script[1..])))
  }

  /** Isolation.  From user mode with data translation on, any run that takes no
      exception - whatever its instructions, and whatever interrupt requests
      arrive meanwhile - leaves every privileged register and both TLB tables as
      they were, and changes only bytes that the data TLB maps for writing. */
  lemma {:induction false} UserIsolation(cfg: Config, m: Machine, script: seq<Answer>)
    requires Sound(cfg, m) && UserMode(m.a) && RunTakesNone(cfg, m, script)
    ensures Confined(cfg.g, m.a, Steps(cfg, m, script).m.a)
    decreases |script|
  {
    hide Step, Writable, On;
    if script != [] {
      UserStep(cfg, m, script[0]);
      var r := Step(cfg, m, script[0]);
      if r.end.Ran? {
        UserIsolation(cfg, r.m, script[1..]);
        ConfinedTwice(cfg.g, m.a, r.m.a, Steps(cfg, r.m, script[1..]).m.a);
      }
    }
  }
}
