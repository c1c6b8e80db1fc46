/** The TLBs seen as what software means by them: a partial map from 20-bit
    virtual pages to frames, in which installing a page evicts the pages that
    share its slot. */
module PageMap {
  import opened Words
  import opened Tlb

  const PAGES: nat := 0x10_0000

  datatype Mapping = Mapping(frame: nat, readOnly: bool)

  function PageOf(v: u32): (p: nat)
    ensures p < PAGES
  {
    v / PAGE
  }

  /** The pages a table currently maps. */
  ghost function Pages(t: Table): map<nat, Mapping> {
    map p: nat | p < PAGES && t.valid[p % ENTRIES] && EntryTag(t.entry[p % ENTRIES]) == p / ENTRIES
      :: Mapping(t.entry[p % ENTRIES] / PAGE, EntryReadOnly(t.entry[p % ENTRIES]))
  }

  ghost function Evict(m: map<nat, Mapping>, slot: nat): map<nat, Mapping> {
    map p | p in m && p % ENTRIES != slot :: m[p]
  }

  /** Install `page`, which displaces whatever shares its slot. */
  ghost function Install(m: map<nat, Mapping>, page: nat, x: Mapping): map<nat, Mapping> {
    Evict(m, page % ENTRIES)[page := x]
  }

  // ---------------------------------------------------------------------------
  // Bit packing
  // ---------------------------------------------------------------------------

  /** Every field put into a packed entry comes back out of it. */
  lemma PackedFields(p: u32, v: u32)
    ensures EntryTag(PackEntry(p, v)) == TagOf(v)
    ensures EntryReadOnly(PackEntry(p, v)) <==> (p / 2) % 2 == 1
    ensures PackEntry(p, v) / PAGE == p / PAGE
    ensures EntryFrame(PackEntry(p, v)) == PAGE * (p / PAGE)
  {
    var e, tag, low := PackEntry(p, v), TagOf(v), (p / 2) % 4;
    assert e == PAGE * (p / PAGE) + 4 * tag + low;
    hide PackEntry, TagOf;
    Unpack(e, p / PAGE, tag, low);
    LowBit(p / 2);
  }

  lemma LowBit(h: nat)
    ensures h % 4 % 2 == h % 2
  {
    ModUnique(h, 2, 2 * (h / 4) + h % 4 / 2, h % 4 % 2);
  }

  lemma Unpack(e: int, frame: nat, tag: nat, low: nat)
    requires tag < 1024 && low < 4
    requires e == PAGE * frame + 4 * tag + low
    ensures e / PAGE == frame && e % PAGE == 4 * tag + low
    ensures (e / 4) % 1024 == tag && e % 2 == low % 2
  {
    ModUnique(e, PAGE, frame, 4 * tag + low);
    ModUnique(e, 4, 1024 * frame + tag, low);
    ModUnique(1024 * frame + tag, 1024, frame, tag);
    ModUnique(e, 2, 2048 * frame + 2 * tag + low / 2, low % 2);
  }

  /** Slot and tag together are exactly the page number. */
  lemma SlotAndTag(v: u32)
    ensures SlotOf(v) == PageOf(v) % ENTRIES
    ensures TagOf(v) == PageOf(v) / ENTRIES
  {
  }

  lemma SamePage(p: nat, q: nat)
    requires p % ENTRIES == q % ENTRIES && p / ENTRIES == q / ENTRIES
    ensures p == q
  {
    assert p == ENTRIES * (p / ENTRIES) + p % ENTRIES;
    assert q == ENTRIES * (q / ENTRIES) + q % ENTRIES;
  }

  // ---------------------------------------------------------------------------
  // Each operation on a table is the operation on its pages
  // ---------------------------------------------------------------------------

  lemma ProbeRefines(t: Table, v: u32, isData: bool, isWrite: bool)
    ensures var (status, paddr) := Probe(t, v, isData, isWrite);
      && (status == Miss <==> PageOf(v) !in Pages(t))
      && (status == Fault <==> PageOf(v) in Pages(t) && isData && isWrite && Pages(t)[PageOf(v)].readOnly)
      && (status != Miss ==> paddr == PAGE * Pages(t)[PageOf(v)].frame + v % PAGE)
  {
    SlotAndTag(v);
  }

  lemma InstallRefines(t: Table, p: u32, v: u32)
    ensures Pages(Installed(t, SlotOf(v), PackEntry(p, v)))
            == Install(Pages(t), PageOf(v), Mapping(p / PAGE, (p / 2) % 2 == 1))
  {
    PackedFields(p, v);
    SlotAndTag(v);
    var t' := Installed(t, SlotOf(v), PackEntry(p, v));
    var m := Install(Pages(t), PageOf(v), Mapping(p / PAGE, (p / 2) % 2 == 1));
    forall q: nat | q < PAGES
      ensures q in Pages(t') <==> q in m
      ensures q in m ==> Pages(t')[q] == m[q]
    {
      if q % ENTRIES == SlotOf(v) && q / ENTRIES == TagOf(v) {
        SamePage(q, PageOf(v));
      }
    }
    assert Pages(t').Keys == m.Keys;
  }

  lemma InvalidateRefines(t: Table, v: u32)
    ensures Pages(Invalidated(t, SlotOf(v))) == Evict(Pages(t), PageOf(v) % ENTRIES)
  {
    SlotAndTag(v);
    assert Pages(Invalidated(t, SlotOf(v))).Keys == Evict(Pages(t), PageOf(v) % ENTRIES).Keys;
  }

  lemma FlushRefines(t: Table)
    ensures Pages(Flushed(t)) == map[]
  {
    assert Pages(Flushed(t)).Keys == {};
  }

  // ---------------------------------------------------------------------------
  // Whole histories
  // ---------------------------------------------------------------------------

  datatype Op =
    | WriteVaddr(v: u32)
    | WritePaddr(p: u32)
    | Access(addr: u32, isData: bool, isWrite: bool)

  function Apply(m: Mmu, op: Op): Mmu {
    match op
    case WriteVaddr(v) => AfterVaddrWrite(m, v)
    case WritePaddr(p) => AfterPaddrWrite(m, p)
    case Access(v, isData, isWrite) => AfterLookup(m, v, isData, isWrite)
  }

  function ApplyAll(m: Mmu, ops: seq<Op>): Mmu {
    if ops == [] then m else Apply(ApplyAll(m, ops[..|ops| - 1]), ops[|ops| - 1])
  }

  datatype Installation = Installation(page: nat, x: Mapping)

  /** Does `op` install into `slot` of the chosen table, when TLBVADDR is `vaddr`? */
  predicate InstallsAt(op: Op, vaddr: u32, data: bool, slot: nat) {
    op.WritePaddr? && (op.p % 2 == 1) == data && SlotOf(vaddr) == slot
  }

  /** Does `op` drop whatever `slot` of the chosen table holds?  Commands 2 and 3 flush a
      table, 4 and 5 invalidate a slot. */
  predicate DropsAt(op: Op, data: bool, slot: nat) {
    op.WriteVaddr? &&
    (op.v % 8 == (if data then 3 else 2) || (op.v % 8 == (if data then 5 else 4) && SlotOf(op.v) == slot))
  }

  /** The last installation at `slot` of the chosen table that no later
      operation of the history dropped, reading the history backwards. */
  function Surviving(m: Mmu, ops: seq<Op>, data: bool, slot: nat): Option<Installation> {
    if ops == [] then None
    else
      var before, op := ops[..|ops| - 1], ops[|ops| - 1];
      var vaddr := ApplyAll(m, before).vaddr;
      if InstallsAt(op, vaddr, data, slot) then
        Some(Installation(PageOf(vaddr), Mapping(op.p / PAGE, (op.p / 2) % 2 == 1)))
      else if DropsAt(op, data, slot) then None
      else Surviving(m, before, data, slot)
  }

  ghost predicate Empty(m: Mmu) {
    forall i :: 0 <= i < ENTRIES ==> !m.itlb.valid[i] && !m.dtlb.valid[i]
  }

  /** Both a new unit and a reset one map nothing. */
  lemma EmptyToBeginWith(m: Mmu)
    ensures Empty(EmptyMmu()) && Empty(AfterReset(m))
  {
  }

  function TableOf(m: Mmu, data: bool): Table {
    if data then m.dtlb else m.itlb
  }

  /** Slot contents after a history, in terms of the history alone. */
  ghost predicate SlotHolds(t: Table, slot: nat, s: Option<Installation>)
    requires slot < ENTRIES
  {
    t.valid[slot] == s.Some? &&
    (s.Some? ==> EntryTag(t.entry[slot]) == s.value.page / ENTRIES
                 && s.value.page % ENTRIES == slot
                 && t.entry[slot] / PAGE == s.value.x.frame
                 && EntryReadOnly(t.entry[slot]) == s.value.x.readOnly)
  }

  lemma {:induction false} SlotHistory(m: Mmu, ops: seq<Op>, data: bool, slot: nat)
    requires Empty(m) && slot < ENTRIES
    ensures SlotHolds(TableOf(ApplyAll(m, ops), data), slot, Surviving(m, ops, data, slot))
  {
    if ops != [] {
      var before, op := ops[..|ops| - 1], ops[|ops| - 1];
      SlotHistory(m, before, data, slot);
      var m1 := ApplyAll(m, before);
      if op.WritePaddr? {
        PackedFields(op.p, m1.vaddr);
        SlotAndTag(m1.vaddr);
      }
    }
  }

  /** After any sequence of CSR writes and probes from reset, a probe of `v`
      succeeds exactly when the last surviving installation at v's slot of that
      table was for v's own page; the translation is then that installation's
      frame joined with v's offset, and a data write is refused exactly when
      that installation was read-only.  Operations on the other table never
      enter into it. */
  lemma LookupHistory(m: Mmu, ops: seq<Op>, v: u32, isData: bool, isWrite: bool)
    requires Empty(m)
    ensures var m' := ApplyAll(m, ops);
      var s := Surviving(m, ops, isData, SlotOf(v));
      var mapped := s.Some? && s.value.page == PageOf(v);
      && (LookupStatus(m', v, isData, isWrite) == Miss <==> !mapped)
      && (LookupStatus(m', v, isData, isWrite) == Fault
          <==> mapped && isData && isWrite && s.value.x.readOnly)
      && (mapped ==> LookupAddress(m', v, isData) == PAGE * s.value.x.frame + v % PAGE)
  {
    SlotHistory(m, ops, isData, SlotOf(v));
    SlotAndTag(v);
    var s := Surviving(m, ops, isData, SlotOf(v));
    if s.Some? && s.value.page / ENTRIES == TagOf(v) {
      SamePage(s.value.page, PageOf(v));
    }
  }

  /** Page maps of both tables follow every single operation. */
  lemma ApplyRefines(m: Mmu, op: Op)
    ensures var m' := Apply(m, op);
      && Pages(m'.dtlb) == (
          if op.WritePaddr? && op.p % 2 == 1
            then Install(Pages(m.dtlb), PageOf(m.vaddr), Mapping(op.p / PAGE, (op.p / 2) % 2 == 1))
          else if op.WriteVaddr? && op.v % 8 == DTLB_FLUSH then map[]
          else if op.WriteVaddr? && op.v % 8 == DTLB_INVALIDATE then Evict(Pages(m.dtlb), PageOf(op.v) % ENTRIES)
          else Pages(m.dtlb))
      && Pages(m'.itlb) == (
          if op.WritePaddr? && op.p % 2 == 0
            then Install(Pages(m.itlb), PageOf(m.vaddr), Mapping(op.p / PAGE, (op.p / 2) % 2 == 1))
          else if op.WriteVaddr? && op.v % 8 == ITLB_FLUSH then map[]
          else if op.WriteVaddr? && op.v % 8 == ITLB_INVALIDATE then Evict(Pages(m.itlb), PageOf(op.v) % ENTRIES)
          else Pages(m.itlb))
  {
    match op
    case WriteVaddr(v) =>
      InvalidateRefines(m.dtlb, v);
      InvalidateRefines(m.itlb, v);
      FlushRefines(m.dtlb);
      FlushRefines(m.itlb);
    case WritePaddr(p) =>
      InstallRefines(m.dtlb, p, m.vaddr);
      InstallRefines(m.itlb, p, m.vaddr);
    case Access(_, _, _) =>
  }
}
