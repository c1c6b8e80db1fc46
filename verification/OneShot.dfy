/** A timer without CONT counts down once: one timeout, and then it stands still. */
module OneShot {
  import opened Words
  import opened LnxTimer

  /** Counting down for the only time, with neither a stop nor a start asked for. */
  predicate Single(t: Timer) {
    && On(t.status, RUN)
    && !On(t.control, CONT) && !On(t.control, STOP) && !On(t.control, START)
  }

  /** Run out. */
  predicate Spent(t: Timer) {
    && !On(t.status, RUN) && t.snapshot == 0
    && !On(t.control, CONT) && !On(t.control, STOP) && !On(t.control, START)
  }

  /** Register accesses that do not restart, stop or reload it. */
  predicate Harmless(e: Event) {
    e.Access? ==>
      e.address != PERIOD_REG &&
      (e.address == CONTROL_REG ==>
         !On(ToBits(e.data), CONT) && !On(ToBits(e.data), STOP) && !On(ToBits(e.data), START))
  }

  /** Ticks in order of time, from `since` on, and harmless accesses. */
  predicate Orderly(since: int, es: seq<Event>)
    decreases |es|
  {
    es != [] ==>
      && Harmless(es[0]) && (es[0].Tick? ==> since <= es[0].time)
      && Orderly(if es[0].Tick? then es[0].time else since, es[1..])
  }

  /** Is there a tick at or after the deadline? */
  predicate Reached(deadline: int, es: seq<Event>)
    decreases |es|
  {
    es != [] && ((es[0].Tick? && es[0].time >= deadline) || Reached(deadline, es[1..]))
  }

  /** The first such tick is no more than 2^31 late. */
  predicate InTime(deadline: int, es: seq<Event>)
    decreases |es|
  {
    es != [] ==>
      if es[0].Tick? && es[0].time >= deadline then es[0].time - deadline <= 0x8000_0000
      else InTime(deadline, es[1..])
  }

  // ---------------------------------------------------------------------------
  // One event
  // ---------------------------------------------------------------------------

  lemma ExpiredBits(s: Bits)
    ensures !On(Clear(Set(s, TO), RUN), RUN) && On(Clear(Set(s, TO), RUN), TO)
  {
  }

  /** A tick before the deadline only brings the counter up to date; the first one
      from then on sets TO and stops the timer. */
  lemma SingleTick(t: Timer, time: int)
    requires Single(t) && t.start <= time && time - Deadline(t) <= 0x8000_0000
    ensures Fires(t, time) <==> time >= Deadline(t)
    ensures var u := Ticked(t, time);
      if time >= Deadline(t) then Spent(u) && On(u.status, TO)
      else Single(u) && u.start == time && Deadline(u) == Deadline(t) && Signed(u.snapshot) > 0
  {
    LeftIsRemaining(t, time);
    ExpiredBits(t.status);
    SmallLost(Remaining(t, time));
    hide On, Set, Clear, Left, Signed, Wrap;
    assert Ready(t, time) == t;
    assert Signed(0) == 0 by { ZeroSigned(); }
  }

  lemma ZeroSigned()
    ensures Signed(0) == 0
  {
  }

  lemma SmallLost(e: int)
    ensures -0x8000_0000 <= e < 0x8000_0000 ==> (e + 0x8000_0000) / 0x1_0000_0000 == 0
  {
  }

  lemma KeptBits(d: Bits)
    ensures On(Keep(d, 0xf), CONT) == On(d, CONT) && On(Keep(d, 0xf), STOP) == On(d, STOP)
    ensures On(Keep(d, 0xf), START) == On(d, START)
  {
  }

  lemma HarmlessAccess(t: Timer, e: Event)
    requires e.Access? && Harmless(e)
    ensures var u := After(t, e);
      && u.snapshot == t.snapshot && u.start == t.start
      && (Single(t) ==> Single(u)) && (Spent(t) ==> Spent(u))
  {
    AckBits(t.status, ToBits(e.data));
    KeptBits(ToBits(e.data));
    hide On, Acked, Keep, ToBits;
  }

  /** A tick of a spent timer changes nothing, except that an interrupt may be
      raised that had not been enabled before. */
  lemma SpentTick(t: Timer, time: int)
    requires Spent(t)
    ensures !Fires(t, time) && Ticked(t, time) == t.(intPending := Ticked(t, time).intPending)
    ensures t.intPending ==> Ticked(t, time) == t
  {
    hide On, Set, Clear, Left;
  }

  // ---------------------------------------------------------------------------
  // Whole runs
  // ---------------------------------------------------------------------------

  /** Once run out it stays so, with no further timeout. */
  lemma {:induction false} StaysSpent(t: Timer, es: seq<Event>, since: int)
    requires Spent(t) && Orderly(since, es)
    ensures Spent(Run(t, es)) && Timeouts(t, es) == 0
    decreases |es|
  {
    hide Spent, Fires, Ticked, Written, Harmless;
    if es != [] {
      match es[0] {
        case Tick(time) => SpentTick(t, time);
        case Access(_, _) => HarmlessAccess(t, es[0]);
      }
      assert Spent(After(t, es[0])) by { SpentAfter(t, es[0]); }
      StaysSpent(After(t, es[0]), es[1..], if es[0].Tick? then es[0].time else since);
    }
  }

  lemma SpentAfter(t: Timer, e: Event)
    requires Spent(t) && Harmless(e)
    ensures Spent(After(t, e))
  {
    hide Ticked, Written, On;
    match e
    case Tick(time) => SpentTick(t, time);
    case Access(_, _) => HarmlessAccess(t, e);
  }

  /** There is no timeout before the deadline and exactly one from then on, at the
      first tick that has reached it; until then the timer runs towards that
      deadline, and afterwards it is off with a snapshot of 0. */
  lemma {:induction false} OneTimeout(t: Timer, es: seq<Event>, since: int)
    requires Single(t) && t.start <= since && Orderly(since, es) && InTime(Deadline(t), es)
    ensures var u := Run(t, es);
      if Reached(Deadline(t), es) then Spent(u) && Timeouts(t, es) == 1
      else Single(u) && Deadline(u) == Deadline(t) && Timeouts(t, es) == 0
    decreases |es|
  {
    hide Single, Spent, Fires, Ticked, Written, Harmless, Deadline;
    if es != [] {
      var u := After(t, es[0]);
      match es[0] {
        case Tick(time) =>
          SingleTick(t, time);
          if time >= Deadline(t) {
            StaysSpent(u, es[1..], time);
          } else {
            OneTimeout(u, es[1..], time);
          }
        case Access(_, _) =>
          HarmlessAccess(t, es[0]);
          SameDeadline(t, u);
          OneTimeout(u, es[1..], since);
      }
    }
  }

  lemma SameDeadline(t: Timer, u: Timer)
    requires u.snapshot == t.snapshot && u.start == t.start
    ensures Deadline(u) == Deadline(t)
  {
  }

  /** Started with a period and without CONT, a timer runs out once, a period
      later. */
  lemma StartsOnce(t: Timer, period: u32, control: u32, time: int)
    requires !On(t.status, RUN) && 0 < period < 0x8000_0000
    requires On(ToBits(control), START) && !On(ToBits(control), CONT) && !On(ToBits(control), STOP)
    ensures var u := Run(t, [Access(PERIOD_REG, period), Access(CONTROL_REG, control), Tick(time)]);
      Single(u) && u.start == time && Deadline(u) == time + period
  {
    var es := [Access(PERIOD_REG, period), Access(CONTROL_REG, control), Tick(time)];
    var t1 := Written(t, PERIOD_REG, period);
    var t2 := Written(t1, CONTROL_REG, control);
    assert es[1..] == [Access(CONTROL_REG, control), Tick(time)] && es[1..][1..] == [Tick(time)];
    assert es[1..][1..][1..] == [];
    assert Run(t, es) == Run(t2, [Tick(time)]) == Ticked(t2, time);
    hide On, Set, Clear, Keep, ToBits, Ticked, Run;
    OnceBits(t.status, ToBits(control));
    ResumedTick(t2, time);
  }

  lemma OnceBits(s: Bits, d: Bits)
    requires !On(s, RUN) && On(d, START) && !On(d, CONT) && !On(d, STOP)
    ensures On(Set(s, RUN), RUN)
    ensures var k := Keep(d, 0xf);
      On(k, START) && var c := Clear(k, START); !On(c, START) && !On(c, STOP) && !On(c, CONT)
  {
  }

  // ---------------------------------------------------------------------------
  // Stopping and going on
  // ---------------------------------------------------------------------------

  /** A stopped timer keeps the count of its last tick; started again, it takes that
      long from then on, however long it was stopped. */
  lemma StopAndGoOn(t: Timer, stop: u32, time: int, go: u32, later: int)
    requires On(t.status, RUN) && 0 < Signed(t.snapshot)
    requires On(ToBits(stop), STOP) && !On(ToBits(go), STOP) && On(ToBits(go), START)
    ensures var s := Ticked(Written(t, CONTROL_REG, stop), time);
      && !On(s.status, RUN) && s.snapshot == t.snapshot && s.period == t.period
      && !Fires(Written(t, CONTROL_REG, stop), time)
    ensures var u := Ticked(Written(Ticked(Written(t, CONTROL_REG, stop), time), CONTROL_REG, go), later);
      && On(u.status, RUN) && u.period == t.period && Deadline(u) == later + Signed(t.snapshot)
  {
    StopBits(t.status, ToBits(stop));
    var t1 := Written(t, CONTROL_REG, stop);
    var s := Ticked(t1, time);
    StoppedTick(t1, time);
    GoBits(s.status, ToBits(go));
    ResumedTick(Written(s, CONTROL_REG, go), later);
    hide On, Set, Clear, Keep, ToBits;
  }

  lemma StoppedTick(t: Timer, time: int)
    requires On(t.status, RUN) && On(t.control, STOP) && !On(Clear(t.status, RUN), RUN)
    ensures var s := Ticked(t, time);
      !On(s.status, RUN) && s.snapshot == t.snapshot && s.period == t.period && !Fires(t, time)
  {
    hide On, Set, Clear, Left;
  }

  lemma ResumedTick(t: Timer, time: int)
    requires !On(t.status, RUN) && On(t.control, START) && 0 < Signed(t.snapshot)
    requires On(Set(t.status, RUN), RUN) && !On(Clear(t.control, START), STOP)
    ensures var u := Ticked(t, time);
      && On(u.status, RUN) && u.period == t.period && u.start == time && u.snapshot == t.snapshot
      && u.control == Clear(t.control, START)
  {
    hide On, Set, Clear;
    var r := Ready(t, time);
    assert r.start == time && r.snapshot == t.snapshot;
    assert Left(r, time) == t.snapshot;
  }

  lemma StopBits(s: Bits, d: Bits)
    ensures !On(Clear(s, RUN), RUN) && On(Keep(d, 0xf), STOP) == On(d, STOP)
  {
  }

  lemma GoBits(s: Bits, d: Bits)
    ensures On(Set(s, RUN), RUN)
    ensures On(d, START) && !On(d, STOP) ==>
      On(Keep(d, 0xf), START) && !On(Clear(Keep(d, 0xf), START), STOP)
  {
  }
}
