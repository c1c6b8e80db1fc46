/** What reads cost over a whole run: each goes to the cache of its kind, and the
    cycles they take are the wait states of the two caches on their own traces. */
module ReadCost {
  import opened Words
  import opened Arch
  import opened Timing
  import Cache

  /** A read of a physical address, as a fetch or as data, or a wcsr that asks for
      one of the caches to be invalidated. */
  datatype Event = Read(fetch: bool, p: u32) | WriteIcc | WriteDcc

  function After(c: Clock, e: Event, waits: int): Clock {
    match e
    case Read(fetch, p) => Charge(Settle(c), fetch, p, waits)
    case WriteIcc => WcsrTime(c, CSR_ICC, 0)
    case WriteDcc => WcsrTime(c, CSR_DCC, 0)
  }

  function AfterAll(c: Clock, es: seq<Event>, waits: int): Clock {
    if es == [] then c else After(AfterAll(c, es[..|es| - 1], waits), es[|es| - 1], waits)
  }

  /** What one of the caches sees of a run: the reads of its kind, and its own
      invalidations. */
  function TraceOf(es: seq<Event>, fetch: bool): seq<Cache.Event> {
    if es == [] then []
    else TraceOf(es[..|es| - 1], fetch) + SeenOf(es[|es| - 1], fetch)
  }

  function SeenOf(e: Event, fetch: bool): seq<Cache.Event> {
    match e
    case Read(f, p) => if f == fetch then [Cache.Access(p)] else []
    case WriteIcc => if fetch then [Cache.Invalidate] else []
    case WriteDcc => if fetch then [] else [Cache.Invalidate]
  }

  /** A cache as it will be found by the next read. */
  function Found(c: Clock, fetch: bool): Option<Cache.Contents> {
    if fetch then Cache.Settled(c.icache, c.iInvalid) else Cache.Settled(c.dcache, c.dInvalid)
  }

  /** The same for a cache that may not be there: without one, every read waits. */
  function Ran(k: Option<Cache.Contents>, trace: seq<Cache.Event>): Option<Cache.Contents> {
    match k case None => None case Some(c) => Some(Cache.Run(c, trace))
  }

  function Total(k: Option<Cache.Contents>, trace: seq<Cache.Event>, waits: int): int {
    match k
    case Some(c) => Cache.TotalWaits(c, trace, waits)
    case None => Uncached(trace, waits)
  }

  function Uncached(trace: seq<Cache.Event>, waits: int): int {
    if trace == [] then 0
    else Uncached(trace[..|trace| - 1], waits) + (if trace[|trace| - 1].Access? then waits else 0)
  }

  // ---------------------------------------------------------------------------
  // One event
  // ---------------------------------------------------------------------------

  lemma RanOne(k: Option<Cache.Contents>, trace: seq<Cache.Event>, e: Cache.Event, waits: int)
    ensures Ran(k, trace + [e]) == (match Ran(k, trace) case None => None case Some(c) => Some(Cache.Apply(c, e)))
    ensures Total(k, trace + [e], waits)
            == Total(k, trace, waits) + (if e.Access? then Cache.WaitsOf(Ran(k, trace), e.a, waits) else 0)
  {
    hide Cache.Apply, Cache.HitWay;
    assert (trace + [e])[..|trace + [e]| - 1] == trace;
  }

  lemma InvalidatedTwice(c: Cache.Contents)
    ensures Cache.AfterInvalidate(Cache.AfterInvalidate(c)) == Cache.AfterInvalidate(c)
  {
    var d := Cache.AfterInvalidate(c);
    var e := Cache.AfterInvalidate(d);
    assert e.way0 == d.way0 && e.way1 == d.way1;
  }

  lemma SettledTwice(k: Option<Cache.Contents>, pending: bool)
    ensures Cache.Settled(Cache.Settled(k, pending), true) == Cache.Settled(k, true)
    ensures Cache.Settled(k, false) == k
  {
    if k.Some? {
      InvalidatedTwice(k.value);
    }
    hide Cache.AfterInvalidate;
  }

  /** A read is charged to the cache of its kind, as found; the other is left as it
      was found, and nothing is left to be invalidated. */
  lemma ReadGoesToOne(c: Clock, fetch: bool, p: u32, waits: int)
    ensures var d := After(c, Read(fetch, p), waits);
      && d.cycle == c.cycle + Cache.WaitsOf(Found(c, fetch), p, waits)
      && Found(d, fetch) == Cache.Accessed(Found(c, fetch), p)
      && Found(d, !fetch) == Found(c, !fetch)
  {
    hide Cache.AfterInvalidate, Cache.AfterAccess, Cache.HitWay;
  }

  /** wcsr ICC and wcsr DCC each empty the cache they name, and no other. */
  lemma RequestEmptiesOne(c: Clock, icc: bool, waits: int)
    ensures var d := After(c, if icc then WriteIcc else WriteDcc, waits);
      && d.cycle == c.cycle
      && Found(d, icc) == Cache.Settled(Found(c, icc), true)
      && Found(d, !icc) == Found(c, !icc)
  {
    SettledTwice(c.icache, c.iInvalid);
    SettledTwice(c.dcache, c.dInvalid);
    hide Cache.AfterInvalidate;
  }

  // ---------------------------------------------------------------------------
  // Whole runs
  // ---------------------------------------------------------------------------

  /** Over any run of reads and invalidations, each cache is what its own trace makes
      of it, and the cycles that pass are the sum of their wait states. */
  lemma {:induction false} ReadsAddUp(c: Clock, es: seq<Event>, waits: int)
    ensures var d := AfterAll(c, es, waits);
      && Found(d, true) == Ran(Found(c, true), TraceOf(es, true))
      && Found(d, false) == Ran(Found(c, false), TraceOf(es, false))
      && d.cycle - c.cycle == Total(Found(c, true), TraceOf(es, true), waits)
                              + Total(Found(c, false), TraceOf(es, false), waits)
  {
    hide After, Found, Ran, Total, Cache.WaitsOf, Cache.AfterInvalidate, Cache.AfterAccess;
    if es == [] {
      NothingRan(Found(c, true), waits);
      NothingRan(Found(c, false), waits);
    } else {
      var before, e := es[..|es| - 1], es[|es| - 1];
      ReadsAddUp(c, before, waits);
      var d := AfterAll(c, before, waits);
      match e {
        case Read(fetch, p) =>
          ReadGoesToOne(d, fetch, p, waits);
          RanOne(Found(c, fetch), TraceOf(before, fetch), Cache.Access(p), waits);
          AccessedIsApplied(Found(d, fetch), p);
        case WriteIcc =>
          RequestEmptiesOne(d, true, waits);
          RanOne(Found(c, true), TraceOf(before, true), Cache.Invalidate, waits);
          SettledIsApplied(Found(d, true));
        case WriteDcc =>
          RequestEmptiesOne(d, false, waits);
          RanOne(Found(c, false), TraceOf(before, false), Cache.Invalidate, waits);
          SettledIsApplied(Found(d, false));
      }
      assert forall f :: TraceOf(before, f) + [] == TraceOf(before, f);
    }
  }

  lemma NothingRan(k: Option<Cache.Contents>, waits: int)
    ensures Ran(k, []) == k && Total(k, [], waits) == 0
  {
  }

  lemma AccessedIsApplied(k: Option<Cache.Contents>, p: u32)
    ensures Cache.Accessed(k, p) == match k case None => None case Some(c) => Some(Cache.Apply(c, Cache.Access(p)))
  {
    hide Cache.AfterAccess;
  }

  lemma SettledIsApplied(k: Option<Cache.Contents>)
    ensures Cache.Settled(k, true) == match k case None => None case Some(c) => Some(Cache.Apply(c, Cache.Invalidate))
  {
    hide Cache.AfterInvalidate;
  }

  /** After a reset both caches are emptied by the next read, whatever requests were
      pending, and CC counts from zero on the same clock. */
  lemma ResetEmpties(c: Clock, waits: int)
    ensures var d := ResetTime(c);
      && Found(d, true) == Cache.Settled(c.icache, true) && Found(d, false) == Cache.Settled(c.dcache, true)
      && d.cycle == c.cycle && d.rt == c.rt && CycleCounter(d) == 0
  {
    hide Cache.AfterInvalidate;
  }

  // ---------------------------------------------------------------------------
  // Which addresses are cached
  // ---------------------------------------------------------------------------

  /** With bounds that fall on whole ways a cache serves exactly the addresses from
      the lower bound up to and including the upper one - except that a region up to
      the top of the address space is empty, its end having wrapped round to zero. */
  lemma RegionServed(width: int, ways: int, sets: int, base: u32, upper: u32, a: u32)
    requires Cache.MakeShape(width, ways, sets, base, upper).Some?
    requires base % (sets * width) == 0 && (upper + 1) % (sets * width) == 0
    ensures Cache.Cacheable(Cache.MakeShape(width, ways, sets, base, upper).value, a)
            <==> base <= a <= upper && upper < 0xffff_ffff
  {
    if upper == 0xffff_ffff {
      assert Wrap(upper + 1) == 0;
    } else {
      assert Wrap(upper + 1) == upper + 1;
    }
  }

  /** Two addresses share a line when they lie in the same block of its width. */
  lemma SameLine(s: Cache.Shape, a: u32, b: u32)
    requires Cache.Formed(s)
    ensures Cache.LineOf(s, a) == Cache.LineOf(s, b) <==> a - a % s.width == b - b % s.width
  {
    assert a - a % s.width == s.width * Cache.LineOf(s, a);
    assert b - b % s.width == s.width * Cache.LineOf(s, b);
  }

  /** How many lines one address is from another. */
  function LinesApart(s: Cache.Shape, a: u32, b: u32): (d: int)
    requires Cache.Formed(s)
  {
    Cache.LineOf(s, a) as int - Cache.LineOf(s, b) as int
  }

  /** And a set when they are a whole number of ways apart: what fits into one way,
      wherever it lies, has a set for each of its lines. */
  lemma SameSet(s: Cache.Shape, a: u32, b: u32)
    requires Cache.Formed(s)
    ensures Cache.SetOf(s, a) == Cache.SetOf(s, b) <==> LinesApart(s, a, b) % s.sets == 0
    ensures LinesApart(s, a, b) < s.sets && LinesApart(s, b, a) < s.sets && Cache.SetOf(s, a) == Cache.SetOf(s, b) ==>
      Cache.LineOf(s, a) == Cache.LineOf(s, b)
  {
    Congruent(Cache.LineOf(s, a), Cache.LineOf(s, b), s.sets);
    var d := LinesApart(s, a, b);
    if d < s.sets && 0 - d < s.sets && d % s.sets == 0 {
      assert d == s.sets * (d / s.sets);
      SmallMultiple(s.sets, d / s.sets);
    }
  }

  lemma Congruent(x: int, y: int, n: int)
    requires n > 0
    ensures x % n == y % n <==> (x - y) % n == 0
  {
    var d: int := x / n - y / n;
    Difference(x, y, n);
    if x % n == y % n {
      ModUnique(x - y, n, d, 0);
    } else if (x - y) % n == 0 {
      var e: int := (x - y) / n - d;
      Times(n, (x - y) / n, d);
      assert n * e == x % n - y % n;
      SmallMultiple(n, e);
      assert false;
    }
  }

  lemma Difference(x: int, y: int, n: int)
    requires n > 0
    ensures x - y == n * (x / n - y / n) + (x % n - y % n)
  {
    Times(n, x / n, y / n);
  }

  lemma Times(n: int, p: int, q: int)
    ensures n * (p - q) == n * p - n * q
  {
  }

  /** Which caches can be built: lines of one, two or four words, one or two ways, 128
      to 1024 sets. */
  lemma ShapesThereAre(width: int, ways: int, sets: int, base: u32, upper: u32)
    ensures Cache.MakeShape(width, ways, sets, base, upper).Some?
            <==> width in {4, 8, 16} && ways in {1, 2} && sets in {128, 256, 512, 1024}
  {
  }
}
