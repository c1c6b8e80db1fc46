/** The cache timing model: which reads hit.  One or two ways, and a per-set
    flag that says which way the next miss will overwrite. */
module Cache {
  import opened Words

  const MAX_SETS: nat := 1024

  datatype Line = Line(valid: bool, addr: nat)

  /** Geometry after the constructor has checked and aligned its arguments. */
  datatype Shape = Shape(width: nat, ways: nat, sets: nat, base: u32, limit: u32)

  predicate Formed(s: Shape) {
    (s.width == 4 || s.width == 8 || s.width == 16) &&
    (s.ways == 1 || s.ways == 2) &&
    (s.sets == 128 || s.sets == 256 || s.sets == 512 || s.sets == 1024)
  }

  /** The region bounds are rounded down to whole ways; `None` is the exit on an
      invalid argument. */
  function MakeShape(width: int, ways: int, sets: int, base: u32, upper: u32): (r: Option<Shape>)
    ensures r.Some? ==> Formed(r.value)
  {
    if (width == 4 || width == 8 || width == 16) && (ways == 1 || ways == 2) &&
       (sets == 128 || sets == 256 || sets == 512 || sets == 1024)
    then
      var span := sets * width;
      Some(Shape(width, ways, sets, base - base % span, Wrap(upper + 1) - Wrap(upper + 1) % span))
    else None
  }

  datatype RawContents = Contents(shape: Shape, way0: seq<Line>, way1: seq<Line>, next: seq<nat>)

  predicate Sized(c: RawContents) {
    Formed(c.shape) &&
    |c.way0| == MAX_SETS && |c.way1| == MAX_SETS && |c.next| == MAX_SETS &&
    forall i :: 0 <= i < MAX_SETS ==> c.next[i] < c.shape.ways
  }

  type Contents = c: RawContents | Sized(c)
    witness Contents(Shape(4, 1, 128, 0, 0), seq(MAX_SETS, _ => Line(false, 0)),
                     seq(MAX_SETS, _ => Line(false, 0)), seq(MAX_SETS, _ => 0))

  predicate Cacheable(s: Shape, a: u32) {
    s.base <= a < s.limit
  }

  function LineOf(s: Shape, a: u32): (l: nat)
    requires Formed(s)
  {
    a / s.width
  }

  function SetOf(s: Shape, a: u32): (i: nat)
    requires Formed(s)
    ensures i < s.sets <= MAX_SETS
  {
    LineOf(s, a) % s.sets
  }

  predicate Holds(l: Line, addr: nat) {
    l.valid && l.addr == addr
  }

  /** 0 for a miss, otherwise the way that hit. */
  function HitWay(c: Contents, a: u32): (h: nat)
    ensures h <= 2
  {
    if !Cacheable(c.shape, a) then 0
    else if Holds(c.way0[SetOf(c.shape, a)], LineOf(c.shape, a)) then 1
    else if c.shape.ways == 2 && Holds(c.way1[SetOf(c.shape, a)], LineOf(c.shape, a)) then 2
    else 0
  }

  /** A miss inside the region fills the way due for replacement and, with two
      ways, passes the turn to the other. */
  function AfterAccess(c: Contents, a: u32): Contents {
    if !Cacheable(c.shape, a) || HitWay(c, a) != 0 then c
    else
      var i, l := SetOf(c.shape, a), Line(true, LineOf(c.shape, a));
      var filled := if c.next[i] == 0 then c.(way0 := c.way0[i := l]) else c.(way1 := c.way1[i := l]);
      if c.shape.ways == 2 then filled.(next := c.next[i := 1 - c.next[i]]) else filled
  }

  function Cleared(w: seq<Line>, n: nat): seq<Line> {
    seq(|w|, i requires 0 <= i < |w| => if i < n then w[i].(valid := false) else w[i])
  }

  /** Invalidation forgets the lines but not whose turn it is. */
  function AfterInvalidate(c: Contents): Contents {
    var c1 := c.(way0 := Cleared(c.way0, c.shape.sets));
    if c.shape.ways == 2 then c1.(way1 := Cleared(c.way1, c.shape.sets)) else c1
  }

  /** No line of a set in use is valid. */
  ghost predicate Fresh(c: Contents) {
    forall i :: 0 <= i < c.shape.sets ==> !c.way0[i].valid && !c.way1[i].valid
  }

  /** As built: no valid line, and every set starts filling with the first way. */
  ghost predicate Built(c: Contents, s: Shape) {
    c.shape == s && Fresh(c) && forall i :: 0 <= i < MAX_SETS ==> c.next[i] == 0
  }

  // ---------------------------------------------------------------------------
  // The cache object
  // ---------------------------------------------------------------------------

  class LineCache {
    const shape: Shape
    const way0: array<Line>
    const way1: array<Line>
    const nextWay: array<nat>

    predicate Shaped() {
      Formed(shape) && way0 != way1 &&
      way0.Length == MAX_SETS && way1.Length == MAX_SETS && nextWay.Length == MAX_SETS
    }

    ghost predicate Valid()
      reads nextWay
    {
      Shaped() && forall i :: 0 <= i < MAX_SETS ==> nextWay[i] < shape.ways
    }

    ghost function Repr(): set<object> {
      {this, way0, way1, nextWay}
    }

    ghost function View(): Contents
      requires Valid()
      reads way0, way1, nextWay
    {
      Contents(shape, way0[..], way1[..], nextWay[..])
    }

    constructor (width: int, ways: int, sets: int, base: u32, upper: u32)
      requires MakeShape(width, ways, sets, base, upper).Some?
      ensures Valid() && fresh(way0) && fresh(way1) && fresh(nextWay)
      ensures Built(View(), MakeShape(width, ways, sets, base, upper).value)
    {
      shape := MakeShape(width, ways, sets, base, upper).value;
      way0 := new Line[MAX_SETS](_ => Line(false, 0));
      way1 := new Line[MAX_SETS](_ => Line(false, 0));
      nextWay := new nat[MAX_SETS](_ => 0);
    }

    method InvalidateWay(w: array<Line>)
      requires Shaped() && w.Length == MAX_SETS
      modifies w
      ensures w[..] == Cleared(old(w[..]), shape.sets)
    {
      var i := 0;
      while i < shape.sets
        invariant 0 <= i <= shape.sets
        invariant w[..] == Cleared(old(w[..]), i)
      {
        w[i] := w[i].(valid := false);
        i := i + 1;
      }
    }

    method Invalidate()
      requires Valid()
      modifies way0, way1
      ensures Valid() && View() == AfterInvalidate(old(View()))
    {
      InvalidateWay(way0);
      if shape.ways == 2 {
        InvalidateWay(way1);
      }
    }

    method Access(a: u32) returns (hit: nat)
      requires Valid()
      modifies way0, way1, nextWay
      ensures Valid()
      ensures hit == HitWay(old(View()), a)
      ensures View() == AfterAccess(old(View()), a)
    {
      if a < shape.base || a >= shape.limit {
        return 0;
      }
      hit := 0;
      var line := a / shape.width;
      var set_ := line % shape.sets;
      if way0[set_].valid && way0[set_].addr == line {
        hit := 1;
      } else if shape.ways == 2 && way1[set_].valid && way1[set_].addr == line {
        hit := 2;
      }
      if hit == 0 {
        if nextWay[set_] == 0 {
          way0[set_] := Line(true, line);
        } else {
          way1[set_] := Line(true, line);
        }
        if shape.ways == 2 {
          nextWay[set_] := if nextWay[set_] == 1 then 0 else 1;
        }
      }
    }
  }

  // ---------------------------------------------------------------------------
  // A cache that may not be there
  // ---------------------------------------------------------------------------

  ghost function ReprOf(k: LineCache?): set<object> {
    if k == null then {} else k.Repr()
  }

  ghost predicate ValidOf(k: LineCache?)
    reads ReprOf(k)
  {
    k != null ==> k.Valid()
  }

  ghost function ViewOf(k: LineCache?): Option<Contents>
    requires ValidOf(k)
    reads ReprOf(k)
  {
    if k == null then None else Some(k.View())
  }

  function Settled(k: Option<Contents>, invalid: bool): Option<Contents> {
    if invalid && k.Some? then Some(AfterInvalidate(k.value)) else k
  }

  function Accessed(k: Option<Contents>, a: u32): Option<Contents> {
    match k case None => None case Some(c) => Some(AfterAccess(c, a))
  }

  /** Wait states of one read: none on a hit, a whole line on a cached miss. */
  function WaitsOf(k: Option<Contents>, a: u32, waits: int): int {
    match k
    case None => waits
    case Some(c) => if HitWay(c, a) != 0 then 0 else waits * (c.shape.width / 4)
  }

  method SettleCache(k: LineCache?, invalid: bool)
    requires ValidOf(k)
    modifies ReprOf(k)
    ensures ValidOf(k) && ViewOf(k) == Settled(old(ViewOf(k)), invalid)
  {
    hide AfterInvalidate;
    if invalid && k != null {
      k.Invalidate();
    }
  }

  /** Look the address up, updating the cache, and return the wait states. */
  method ConsultCache(k: LineCache?, a: u32, waits: int) returns (n: int)
    requires ValidOf(k)
    modifies ReprOf(k)
    ensures ValidOf(k) && ViewOf(k) == Accessed(old(ViewOf(k)), a)
    ensures n == WaitsOf(old(ViewOf(k)), a, waits)
  {
    hide AfterAccess, HitWay;
    var hit, words := 0, 1;
    if k != null {
      hit := k.Access(a);
      words := k.shape.width / 4;
    }
    n := if hit == 0 then waits * words else 0;
  }

  // ---------------------------------------------------------------------------
  // Histories
  // ---------------------------------------------------------------------------

  datatype Event = Access(a: u32) | Invalidate

  function Apply(c: Contents, e: Event): Contents {
    match e
    case Access(a) => AfterAccess(c, a)
    case Invalidate => AfterInvalidate(c)
  }

  function Run(c: Contents, trace: seq<Event>): Contents {
    if trace == [] then c else Apply(Run(c, trace[..|trace| - 1]), trace[|trace| - 1])
  }

  predicate MissesIn(c: Contents, e: Event, i: nat) {
    e.Access? && Cacheable(c.shape, e.a) && SetOf(c.shape, e.a) == i && HitWay(c, e.a) == 0
  }

  /** Lines missed in set `i` since the last invalidation, oldest first. */
  function Missed(c: Contents, trace: seq<Event>, i: nat): seq<nat> {
    if trace == [] then []
    else
      var before, e := trace[..|trace| - 1], trace[|trace| - 1];
      if e.Invalidate? then []
      else if MissesIn(Run(c, before), e, i) then Missed(c, before, i) + [LineOf(c.shape, e.a)]
      else Missed(c, before, i)
  }

  /** The set is the tail of `q`: the way that is not due for replacement holds
      the newest line, the other one the line before it. */
  ghost predicate SetIsTail(c: Contents, i: nat, q: seq<nat>)
    requires i < c.shape.sets && Formed(c.shape)
  {
    if c.shape.ways == 1 then
      c.way0[i].valid == (|q| >= 1) && (|q| >= 1 ==> c.way0[i].addr == q[|q| - 1])
    else
      var newer := if c.next[i] == 0 then c.way1[i] else c.way0[i];
      var older := if c.next[i] == 0 then c.way0[i] else c.way1[i];
      && newer.valid == (|q| >= 1) && (|q| >= 1 ==> newer.addr == q[|q| - 1])
      && older.valid == (|q| >= 2) && (|q| >= 2 ==> older.addr == q[|q| - 2])
      && (|q| >= 2 ==> q[|q| - 1] != q[|q| - 2])
  }

  lemma {:induction false} RunShape(c: Contents, trace: seq<Event>)
    ensures Run(c, trace).shape == c.shape
  {
    if trace != [] {
      RunShape(c, trace[..|trace| - 1]);
    }
  }

  lemma AccessTail(c: Contents, a: u32, i: nat, q: seq<nat>)
    requires i < c.shape.sets && SetIsTail(c, i, q)
    ensures AfterAccess(c, a).shape == c.shape
    ensures SetIsTail(AfterAccess(c, a), i, if MissesIn(c, Access(a), i) then q + [LineOf(c.shape, a)] else q)
  {
  }

  lemma {:induction false} SetHistory(c: Contents, trace: seq<Event>, i: nat)
    requires Fresh(c) && i < c.shape.sets
    ensures Run(c, trace).shape == c.shape
    ensures SetIsTail(Run(c, trace), i, Missed(c, trace, i))
  {
    RunShape(c, trace);
    if trace != [] {
      var before, e := trace[..|trace| - 1], trace[|trace| - 1];
      SetHistory(c, before, i);
      match e
      case Access(a) => AccessTail(Run(c, before), a, i, Missed(c, before, i));
      case Invalidate =>
    }
  }

  predicate InSet(c: Contents, i: nat, l: nat)
    requires i < MAX_SETS
  {
    Holds(c.way0[i], l) || (c.shape.ways == 2 && Holds(c.way1[i], l))
  }

  /** The last n entries of q. */
  function Recent(q: seq<nat>, n: nat): seq<nat> {
    if |q| <= n then q else q[|q| - n..]
  }

  /** After any trace a set holds exactly the last min(ways, misses) lines that
      missed in it since the last invalidation, and never one of them twice. */
  lemma HistoryTheorem(c: Contents, trace: seq<Event>, i: nat, l: nat)
    requires Fresh(c) && i < c.shape.sets
    ensures InSet(Run(c, trace), i, l) <==> l in Recent(Missed(c, trace, i), c.shape.ways)
    ensures var c' := Run(c, trace);
      !(c.shape.ways == 2 && Holds(c'.way0[i], l) && Holds(c'.way1[i], l))
  {
    SetHistory(c, trace, i);
    TailMembers(Run(c, trace), i, Missed(c, trace, i), l);
  }

  lemma TailMembers(c: Contents, i: nat, q: seq<nat>, l: nat)
    requires i < c.shape.sets && SetIsTail(c, i, q)
    ensures InSet(c, i, l) <==> l in Recent(q, c.shape.ways)
  {
    if c.shape.ways == 1 && |q| >= 1 {
      assert Recent(q, 1) == [q[|q| - 1]];
    } else if |q| >= 2 {
      assert Recent(q, 2) == [q[|q| - 2], q[|q| - 1]];
    } else if |q| == 1 {
      assert Recent(q, 2) == [q[0]];
    }
  }

  /** An access hits exactly when its line is one of those. */
  lemma HitIffRecent(c: Contents, trace: seq<Event>, a: u32)
    requires Fresh(c)
    ensures HitWay(Run(c, trace), a) != 0 <==>
      Cacheable(c.shape, a) && LineOf(c.shape, a) in Recent(Missed(c, trace, SetOf(c.shape, a)), c.shape.ways)
  {
    RunShape(c, trace);
    HistoryTheorem(c, trace, SetOf(c.shape, a), LineOf(c.shape, a));
  }

  // ---------------------------------------------------------------------------
  // Two ways never lose to one
  // ---------------------------------------------------------------------------

  ghost predicate Covers(two: Contents, one: Contents) {
    forall i: nat :: i < one.shape.sets && one.way0[i].valid ==> InSet(two, i, one.way0[i].addr)
  }

  lemma {:induction false} CoversAlways(one: Contents, two: Contents, trace: seq<Event>)
    requires Fresh(one) && Fresh(two)
    requires one.shape.ways == 1 && two.shape == one.shape.(ways := 2)
    ensures Covers(Run(two, trace), Run(one, trace))
    ensures Run(one, trace).shape == one.shape && Run(two, trace).shape == two.shape
  {
    RunShape(one, trace);
    RunShape(two, trace);
    if trace != [] {
      var before := trace[..|trace| - 1];
      CoversAlways(one, two, before);
      CoversStep(Run(one, before), Run(two, before), trace[|trace| - 1]);
    }
  }

  lemma CoversStep(one: Contents, two: Contents, e: Event)
    requires one.shape.ways == 1 && two.shape == one.shape.(ways := 2)
    requires Covers(two, one)
    ensures Covers(Apply(two, e), Apply(one, e))
  {
    if e.Access? {
      var one', two' := Apply(one, e), Apply(two, e);
      forall i: nat | i < one.shape.sets && one'.way0[i].valid
        ensures InSet(two', i, one'.way0[i].addr)
      {
        if Cacheable(one.shape, e.a) && SetOf(one.shape, e.a) == i {
          assert SetOf(two.shape, e.a) == i && LineOf(two.shape, e.a) == LineOf(one.shape, e.a);
          assert one'.way0[i].addr == LineOf(one.shape, e.a);
        } else {
          assert one'.way0[i] == one.way0[i];
          assert InSet(two, i, one.way0[i].addr);
        }
      }
    }
  }

  /** On every trace, wherever the one-way cache hits the two-way cache with the
      same sets, line width and region hits too. */
  lemma TwoWaysDominate(one: Contents, two: Contents, trace: seq<Event>, a: u32)
    requires Fresh(one) && Fresh(two)
    requires one.shape.ways == 1 && two.shape == one.shape.(ways := 2)
    ensures HitWay(Run(one, trace), a) != 0 ==> HitWay(Run(two, trace), a) != 0
  {
    CoversAlways(one, two, trace);
    if HitWay(Run(one, trace), a) != 0 {
      assert InSet(Run(two, trace), SetOf(one.shape, a), LineOf(one.shape, a));
      assert SetOf(two.shape, a) == SetOf(one.shape, a) && LineOf(two.shape, a) == LineOf(one.shape, a);
    }
  }

  // ---------------------------------------------------------------------------
  // Wait states
  // ---------------------------------------------------------------------------

  /** What a read costs after any trace: nothing if its line is one of the recent
      ones, and otherwise as many times an uncached read as a line has words. */
  lemma WaitsIffRecent(c: Contents, trace: seq<Event>, a: u32, waits: int)
    requires Fresh(c)
    ensures var recent := Cacheable(c.shape, a)
        && LineOf(c.shape, a) in Recent(Missed(c, trace, SetOf(c.shape, a)), c.shape.ways);
      WaitsOf(Some(Run(c, trace)), a, waits) == if recent then 0 else WaitsOf(None, a, waits) * (c.shape.width / 4)
    ensures WaitsOf(None, a, waits) == waits && c.shape.width / 4 >= 1
  {
    RunShape(c, trace);
    HitIffRecent(c, trace, a);
    WordsInLine(c.shape);
    hide HitWay, Recent, Missed;
  }

  lemma WordsInLine(s: Shape)
    requires Formed(s)
    ensures var n := s.width / 4; n == 1 || n == 2 || n == 4
  {
  }

  /** The wait states of all reads of a trace. */
  function TotalWaits(c: Contents, trace: seq<Event>, waits: int): int {
    if trace == [] then 0
    else
      var before, e := trace[..|trace| - 1], trace[|trace| - 1];
      TotalWaits(c, before, waits)
      + (if e.Access? then WaitsOf(Some(Run(c, before)), e.a, waits) else 0)
  }

  /** On every trace the two-way cache costs no more than the one-way cache. */
  lemma {:induction false} TwoWaysCheaper(one: Contents, two: Contents, trace: seq<Event>, waits: int)
    requires Fresh(one) && Fresh(two) && waits >= 0
    requires one.shape.ways == 1 && two.shape == one.shape.(ways := 2)
    ensures TotalWaits(two, trace, waits) <= TotalWaits(one, trace, waits)
  {
    hide HitWay, Run;
    if trace != [] {
      var before, e := trace[..|trace| - 1], trace[|trace| - 1];
      TwoWaysCheaper(one, two, before, waits);
      if e.Access? {
        TwoWaysDominate(one, two, before, e.a);
        RunShape(one, before);
        RunShape(two, before);
        WordsInLine(one.shape);
      }
    }
  }
}
