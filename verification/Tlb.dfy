/** The instruction and data TLBs: two direct-mapped tables of 1024 bit-packed
    entries, and the CSRs through which software refills them. */
module Tlb {
  import opened Words

  const ENTRIES: nat := 1024
  const PAGE: nat := 4096

  datatype Status = Hit | Miss | Fault

  // ---------------------------------------------------------------------------
  // Values
  // ---------------------------------------------------------------------------

  datatype RawTable = Table(entry: seq<u32>, valid: seq<bool>)

  predicate Sized(t: RawTable) {
    |t.entry| == ENTRIES && |t.valid| == ENTRIES
  }

  type Table = t: RawTable | Sized(t)
    witness Table(seq(ENTRIES, _ => 0), seq(ENTRIES, _ => false))

  datatype Mmu = Mmu(itlb: Table, dtlb: Table, vaddr: u32, badvaddr: u32)

  function EmptyTable(): Table {
    Table(seq(ENTRIES, _ => 0), seq(ENTRIES, _ => false))
  }

  function EmptyMmu(): Mmu {
    Mmu(EmptyTable(), EmptyTable(), 0, 0)
  }

  // Fields of a virtual address.
  function SlotOf(v: u32): (i: nat)
    ensures i < ENTRIES
  {
    (v / PAGE) % ENTRIES
  }

  function TagOf(v: u32): (t: nat)
    ensures t < 1024
  {
    v / 0x40_0000
  }

  // Fields of a packed entry: frame in [31:12], tag in [11:2], no-cache in [1]
  // and read-only in [0].
  function EntryFrame(e: u32): (f: u32) {
    e - e % PAGE
  }

  function EntryTag(e: u32): (t: nat) {
    (e / 4) % 1024
  }

  predicate EntryReadOnly(e: u32) {
    e % 2 == 1
  }

  /** The word stored for TLBPADDR = p while TLBVADDR = v. */
  function PackEntry(p: u32, v: u32): (e: u32) {
    (p - p % PAGE) + (p / 2) % 4 + 4 * TagOf(v)
  }

  /** Result of probing table `t` for `v`: the status and the translated
      address, which the program forms even when the probe misses. */
  function Probe(t: Table, v: u32, isData: bool, isWrite: bool): (Status, u32) {
    var e := t.entry[SlotOf(v)];
    var status :=
      if !t.valid[SlotOf(v)] || EntryTag(e) != TagOf(v) then Miss
      else if isData && isWrite && EntryReadOnly(e) then Fault
      else Hit;
    (status, EntryFrame(e) + v % PAGE)
  }

  function LookupStatus(m: Mmu, v: u32, isData: bool, isWrite: bool): Status {
    Probe(if isData then m.dtlb else m.itlb, v, isData, isWrite).0
  }

  function LookupAddress(m: Mmu, v: u32, isData: bool): u32 {
    Probe(if isData then m.dtlb else m.itlb, v, isData, false).1
  }

  lemma ReadsNeverFault(m: Mmu, v: u32, isData: bool)
    ensures LookupStatus(m, v, isData, false) != Fault
  {
  }

  /** A probe that does not hit leaves the offending address in the CSRs. */
  function AfterLookup(m: Mmu, v: u32, isData: bool, isWrite: bool): Mmu {
    if LookupStatus(m, v, isData, isWrite) == Hit then m
    else m.(badvaddr := v, vaddr := v - v % PAGE + (if isData then 1 else 0))
  }

  // TLBVADDR commands, bits [2:0] of the written word.
  const ITLB_FLUSH: nat := 2
  const DTLB_FLUSH: nat := 3
  const ITLB_INVALIDATE: nat := 4
  const DTLB_INVALIDATE: nat := 5

  function Invalidated(t: Table, slot: nat): Table
    requires slot < ENTRIES
  {
    t.(valid := t.valid[slot := false])
  }

  function Flushed(t: Table): Table {
    t.(valid := seq(ENTRIES, _ => false))
  }

  function AfterVaddrWrite(m: Mmu, v: u32): Mmu {
    var m' := m.(vaddr := v);
    var command := v % 8;
    if command == ITLB_INVALIDATE then m'.(itlb := Invalidated(m.itlb, SlotOf(v)))
    else if command == DTLB_INVALIDATE then m'.(dtlb := Invalidated(m.dtlb, SlotOf(v)))
    else if command == DTLB_FLUSH then m'.(dtlb := Flushed(m.dtlb))
    else if command == ITLB_FLUSH then m'.(itlb := Flushed(m.itlb))
    else m'
  }

  function Installed(t: Table, slot: nat, e: u32): Table
    requires slot < ENTRIES
  {
    t.(valid := t.valid[slot := true], entry := t.entry[slot := e])
  }

  function AfterPaddrWrite(m: Mmu, p: u32): Mmu {
    var slot, e := SlotOf(m.vaddr), PackEntry(p, m.vaddr);
    if p % 2 == 1 then m.(dtlb := Installed(m.dtlb, slot, e))
    else m.(itlb := Installed(m.itlb, slot, e))
  }

  /** CPU reset clears the valid flags and the two address CSRs; the entries
      themselves keep their old contents. */
  function AfterReset(m: Mmu): Mmu {
    Mmu(Flushed(m.itlb), Flushed(m.dtlb), 0, 0)
  }

  // ---------------------------------------------------------------------------
  // The unit updated in place
  // ---------------------------------------------------------------------------

  class TlbTable {
    const entry: array<u32>
    const valid: array<bool>

    predicate Valid() {
      entry.Length == ENTRIES && valid.Length == ENTRIES
    }

    ghost function View(): Table
      requires Valid()
      reads entry, valid
    {
      Table(entry[..], valid[..])
    }

    constructor ()
      ensures Valid() && fresh(entry) && fresh(valid)
      ensures View() == EmptyTable()
    {
      entry := new u32[ENTRIES](_ => 0);
      valid := new bool[ENTRIES](_ => false);
    }

    method Invalidate(slot: nat)
      requires Valid() && slot < ENTRIES
      modifies valid
      ensures View() == Invalidated(old(View()), slot)
    {
      valid[slot] := false;
    }

    method Flush()
      requires Valid()
      modifies valid
      ensures View() == Flushed(old(View()))
    {
      var i := 0;
      while i < ENTRIES
        invariant 0 <= i <= ENTRIES
        invariant forall k :: 0 <= k < i ==> !valid[k]
      {
        valid[i] := false;
        i := i + 1;
      }
      assert valid[..] == seq(ENTRIES, _ => false);
    }

    method Install(slot: nat, e: u32)
      requires Valid() && slot < ENTRIES
      modifies entry, valid
      ensures View() == Installed(old(View()), slot, e)
    {
      valid[slot] := true;
      entry[slot] := e;
    }
  }

  class MmuUnit {
    const itlb: TlbTable
    const dtlb: TlbTable
    var tlbvaddr: u32
    var tlbbadvaddr: u32

    /** The objects the unit is made of. */
    ghost const Repr: set<object>

    ghost predicate Valid() {
      Repr == {this, itlb.entry, itlb.valid, dtlb.entry, dtlb.valid} &&
      itlb.Valid() && dtlb.Valid() &&
      itlb.entry != dtlb.entry && itlb.valid != dtlb.valid
    }

    ghost function View(): Mmu
      requires Valid()
      reads Repr
    {
      Mmu(itlb.View(), dtlb.View(), tlbvaddr, tlbbadvaddr)
    }

    constructor ()
      ensures Valid() && this in Repr && fresh(Repr)
      ensures View() == EmptyMmu()
    {
      var i := new TlbTable();
      var d := new TlbTable();
      itlb, dtlb := i, d;
      tlbvaddr, tlbbadvaddr := 0, 0;
      Repr := {this, i.entry, i.valid, d.entry, d.valid};
    }

    method Lookup(vaddr: u32, isData: bool, isWrite: bool) returns (status: Status, paddr: u32)
      requires Valid()
      modifies this
      ensures status == LookupStatus(old(View()), vaddr, isData, isWrite)
      ensures paddr == LookupAddress(old(View()), vaddr, isData)
      ensures View() == AfterLookup(old(View()), vaddr, isData, isWrite)
    {
      status := Miss;
      var slot := (vaddr / PAGE) % ENTRIES;
      var tag := (vaddr / 0x40_0000) % ENTRIES;
      var tlb := if isData then dtlb else itlb;
      var e := tlb.entry[slot];
      if tlb.valid[slot] {
        if EntryTag(e) == tag {
          if isData && isWrite && EntryReadOnly(e) {
            status := Fault;
          } else {
            status := Hit;
          }
        }
      }
      paddr := EntryFrame(e) + vaddr % PAGE;
      if status != Hit {
        tlbbadvaddr := vaddr;
        tlbvaddr := vaddr - vaddr % PAGE + (if isData then 1 else 0);
      }
    }

    method VaddrUpdate(vaddr: u32)
      requires Valid()
      modifies this, itlb.valid, dtlb.valid
      ensures View() == AfterVaddrWrite(old(View()), vaddr)
    {
      var slot := (vaddr / PAGE) % ENTRIES;
      tlbvaddr := vaddr;
      var command := vaddr % 8;
      if command == ITLB_INVALIDATE {
        itlb.Invalidate(slot);
      } else if command == DTLB_INVALIDATE {
        dtlb.Invalidate(slot);
      } else if command == DTLB_FLUSH {
        dtlb.Flush();
      } else if command == ITLB_FLUSH {
        itlb.Flush();
      }
    }

    method PaddrUpdate(paddr: u32)
      requires Valid()
      modifies itlb.entry, itlb.valid, dtlb.entry, dtlb.valid
      ensures View() == AfterPaddrWrite(old(View()), paddr)
    {
      var slot := (tlbvaddr / PAGE) % ENTRIES;
      var tlb := if paddr % 2 == 1 then dtlb else itlb;
      tlb.Install(slot, PackEntry(paddr, tlbvaddr));
    }

    method Reset()
      requires Valid()
      modifies this, itlb.valid, dtlb.valid
      ensures View() == AfterReset(old(View()))
    {
      tlbvaddr := 0;
      tlbbadvaddr := 0;
      dtlb.Flush();
      itlb.Flush();
    }
  }
}
