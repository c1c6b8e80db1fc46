/** The timing model as the program keeps it: cycle count, scoreboard, caches and
    pending cache invalidations, updated in place. */
module Keeper {
  import opened Words
  import opened Isa
  import Arch
  import Cache
  import Timing

  class Keeper {
    const waits: int
    const rt: array<int>
    const icache: Cache.LineCache?
    const dcache: Cache.LineCache?
    var cycle: int
    var ccAdjust: int
    var iInvalid: bool
    var dInvalid: bool
    var wakeup: int

    /** The objects the model is made of. */
    ghost const Repr: set<object>

    ghost predicate Valid()
      reads Repr
    {
      && rt.Length == NUM_REGS
      && this in Repr && rt in Repr && Cache.ReprOf(icache) <= Repr && Cache.ReprOf(dcache) <= Repr
      && this !in Cache.ReprOf(icache) && this !in Cache.ReprOf(dcache)
      && rt !in Cache.ReprOf(icache) && rt !in Cache.ReprOf(dcache)
      && Cache.ReprOf(icache) !! Cache.ReprOf(dcache)
      && Cache.ValidOf(icache) && Cache.ValidOf(dcache)
    }

    ghost function View(): Timing.Clock
      requires Valid()
      reads Repr
    {
      Timing.Clock(cycle, rt[..], ccAdjust, Cache.ViewOf(icache), Cache.ViewOf(dcache), iInvalid, dInvalid, wakeup)
    }

    constructor (waits: int, icache: Cache.LineCache?, dcache: Cache.LineCache?)
      requires Cache.ValidOf(icache) && Cache.ValidOf(dcache)
      requires Cache.ReprOf(icache) !! Cache.ReprOf(dcache)
      ensures Valid() && fresh(Repr - Cache.ReprOf(icache) - Cache.ReprOf(dcache))
      ensures this.waits == waits && this.icache == icache && this.dcache == dcache
      ensures View() == Timing.Clock(0, seq(NUM_REGS, _ => 0), 0, Cache.ViewOf(icache), Cache.ViewOf(dcache),
                              false, false, 0)
    {
      this.waits, this.icache, this.dcache := waits, icache, dcache;
      var times := new int[NUM_REGS](_ => 0);
      rt := times;
      Repr := {this, times} + Cache.ReprOf(icache) + Cache.ReprOf(dcache);
      cycle, ccAdjust, wakeup := 0, 0, 0;
      iInvalid, dInvalid := false, false;
    }

    /** When the interrupt callback is due again. */
    method SetWakeup(cycle: int)
      requires Valid()
      modifies this`wakeup
      ensures Valid() && View() == old(View()).(wakeup := cycle)
    {
      wakeup := cycle;
    }

    method CalcStall(y: nat) returns (n: int)
      requires Valid() && y < NUM_REGS
      ensures n == Timing.Stall(View(), y)
    {
      n := rt[y] - cycle;
      n := if n > 0 then n else 0;
    }

    method CalcStall2(y: nat, z: nat) returns (n: int)
      requires Valid() && y < NUM_REGS && z < NUM_REGS
      ensures n == Timing.Stall2(View(), y, z)
    {
      var sy := CalcStall(y);
      var sz := CalcStall(z);
      n := if sy > sz then sy else sz;
    }

    method Spend(n: int)
      requires Valid()
      modifies this
      ensures Valid() && View() == Timing.Spend(old(View()), n)
    {
      cycle := cycle + n;
    }

    method Promise(x: nat, n: nat)
      requires Valid() && x < NUM_REGS
      modifies rt
      ensures Valid() && View() == Timing.Promise(old(View()), x, n)
    {
      rt[x] := cycle + n;
    }

    method Settle()
      requires Valid()
      modifies Repr
      ensures Valid() && View() == Timing.Settle(old(View()))
    {
      hide Cache.Settled;
      Cache.SettleCache(icache, iInvalid);
      Cache.SettleCache(dcache, dInvalid);
      dInvalid := false;
      iInvalid := false;
    }

    method Charge(fetch: bool, p: u32)
      requires Valid()
      modifies Repr
      ensures Valid() && View() == Timing.Charge(old(View()), fetch, p, waits)
    {
      hide Cache.Accessed, Cache.WaitsOf;
      var n := 0;
      if fetch {
        n := Cache.ConsultCache(icache, p, waits);
      } else {
        n := Cache.ConsultCache(dcache, p, waits);
      }
      cycle := cycle + n;
    }

    method Reset()
      requires Valid()
      modifies this
      ensures Valid() && View() == Timing.ResetTime(old(View()))
    {
      ccAdjust := -cycle;
      dInvalid := true;
      iInvalid := true;
    }

    method WriteCsr(csr: nat, w: u32)
      requires Valid()
      modifies this
      ensures Valid() && View() == Timing.WcsrTime(old(View()), csr, w)
    {
      if csr == Arch.CSR_ICC {
        iInvalid := true;
      } else if csr == Arch.CSR_DCC {
        dInvalid := true;
      } else if csr == Arch.CSR_CC {
        ccAdjust := w - cycle;
      }
    }
  }
}
