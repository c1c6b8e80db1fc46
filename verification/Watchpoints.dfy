/** Watchpoints by number: the codes in DC, and the accesses that they catch. */
module Watchpoints {
  import opened Words
  import opened Memory
  import opened Isa
  import opened Arch
  import opened Restart
  import Tlb

  /** The two bits of DC for watchpoint i: 0 off, 1 reads, 2 writes, 3 both. */
  function Code(dc: Bits, i: nat): bv32
    requires i < 4
  {
    (dc.w >> (2 + 2 * i)) & 3
  }

  predicate Catches(code: bv32, write: bool) {
    code == 3 || code == (if write then 2 else 1)
  }

  lemma CodeBits(dc: Bits)
    ensures On(dc, 0x4) == Catches(Code(dc, 0), false) && On(dc, 0x8) == Catches(Code(dc, 0), true)
    ensures On(dc, 0x10) == Catches(Code(dc, 1), false) && On(dc, 0x20) == Catches(Code(dc, 1), true)
    ensures On(dc, 0x40) == Catches(Code(dc, 2), false) && On(dc, 0x80) == Catches(Code(dc, 2), true)
    ensures On(dc, 0x100) == Catches(Code(dc, 3), false) && On(dc, 0x200) == Catches(Code(dc, 3), true)
  {
  }

  /** An access is watched when one of the four is set to its address and catches
      accesses of its kind, provided that hardware debugging is built in. */
  lemma WatchedIff(a: State, p: u32, write: bool)
    ensures Watched(a, p, write) <==>
      Has(a, CFG_R) && exists i :: 0 <= i < 4 && a.csr.wp[i] == p && Catches(Code(a.csr.dc, i), write)
  {
    CodeBits(a.csr.dc);
    hide On, Code, Catches;
    var wp, dc := a.csr.wp, a.csr.dc;
    assert Watched(a, p, write) ==> Has(a, CFG_R);
    assert Catches(Code(dc, 0), write) && wp[0] == p && Has(a, CFG_R) ==> Watched(a, p, write);
  }

  /** Is some watchpoint set to p and on for this kind of access? */
  predicate Caught(a: State, p: u32, write: bool) {
    Has(a, CFG_R) && exists i :: 0 <= i < 4 && a.csr.wp[i] == p && Catches(Code(a.csr.dc, i), write)
  }

  lemma ReadWatched(g: Geometry, a: State, v: u32, sz: Size)
    requires Placed(g, a.mem) && !ReadMisses(a, v, Data(sz)) && Read(g, a.mem, Physical(a, v, Data(sz)), sz).Some?
    ensures var b := ReadMem(g, a, v, Data(sz)).1;
      && (Pending(b.flags, WATCHPOINT) <==> Pending(a.flags, WATCHPOINT) || Watched(a, Physical(a, v, Data(sz)), false))
      && b == a.(flags := b.flags)
  {
    hide Pending, Raised, Watched, Read, Translated, Tlb.LookupStatus, Tlb.LookupAddress;
    RaisedPending(a, WATCHPOINT, WATCHPOINT);
  }

  /** A load from memory reports a watchpoint exactly when one is on for reads at the
      physical address. */
  lemma LoadIsWatched(g: Geometry, a: State, sz: Size, signed: bool, y: nat, x: nat, k: u32, cc: u32)
    requires Placed(g, a.mem) && y < 32 && x < 32
    requires var v := EffectiveAddress(a, y, k);
      !ReadMisses(a, v, Data(sz)) && Read(g, a.mem, Physical(a, v, Data(sz)), sz).Some?
    ensures Pending(Exec(g, a, Load(sz, signed, y, x, k), cc).a.flags, WATCHPOINT)
            <==> Pending(a.flags, WATCHPOINT) || Caught(a, Physical(a, EffectiveAddress(a, y, k), Data(sz)), false)
  {
    hide Pending, Raised, Watched, Read, ReadMem, Caught, On, Extended, Tlb.LookupStatus, Tlb.LookupAddress;
    var v := EffectiveAddress(a, y, k);
    ReadWatched(g, a, v, sz);
    var b := ReadMem(g, a, v, Data(sz)).1;
    ReadWatched(g, b, v, sz);
    var p := Physical(a, v, Data(sz));
    CaughtIs(a, p, false);
    CaughtIs(b, p, false);
    SameCatch(a, b, p, false);
  }

  lemma CaughtIs(a: State, p: u32, write: bool)
    ensures Caught(a, p, write) == Watched(a, p, write)
  {
    hide Watched, Has, Code, Catches;
    WatchedIff(a, p, write);
  }

  lemma SameCatch(a: State, b: State, p: u32, write: bool)
    requires a.csr == b.csr
    ensures Caught(a, p, write) == Caught(b, p, write)
  {
    hide On, Code, Catches;
  }

  /** And a store likewise. */
  lemma StoreIsWatched(g: Geometry, a: State, sz: Size, y: nat, z: nat, k: u32, cc: u32)
    requires Placed(g, a.mem) && y < 32 && z < 32
    requires var v := EffectiveAddress(a, y, k);
      WriteStatus(a, v) == Tlb.Hit && Write(g, a.mem, WritePhysical(a, v), sz, a.r[z] % Modulus(sz)).Some?
    ensures Pending(Exec(g, a, Store(sz, y, z, k), cc).a.flags, WATCHPOINT)
            <==> Pending(a.flags, WATCHPOINT) || Caught(a, WritePhysical(a, EffectiveAddress(a, y, k)), true)
  {
    hide Pending, Raised, Watched, Write, Caught, On, Modulus, WriteStatus, WritePhysical, EffectiveAddress;
    var v := EffectiveAddress(a, y, k);
    var p := WritePhysical(a, v);
    var b := a.(mem := Write(g, a.mem, p, sz, a.r[z] % Modulus(sz)).value);
    RaisedPending(b, WATCHPOINT, WATCHPOINT);
    CaughtIs(b, p, true);
    SameCatch(a, b, p, true);
  }
}
