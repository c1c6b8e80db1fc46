/** What a timer shows of its history: its command, status and interrupt bits, told
    by what was written and when it was ticked, in whatever order. */
module TimerHistory {
  import opened Words
  import opened LnxTimer

  /** A timer that has been through all that since the system started. */
  function Since(es: seq<Event>): Timer {
    if es == [] then Timer(Bits(0), Bits(0), 0, 0, false, 0)
    else After(Since(es[..|es| - 1]), es[|es| - 1])
  }

  // ---------------------------------------------------------------------------
  // The history, told backwards
  // ---------------------------------------------------------------------------

  /** The last word written to a register. */
  function LastWord(es: seq<Event>, address: u32): u32 {
    if es == [] then 0
    else if es[|es| - 1].Access? && es[|es| - 1].address == address then es[|es| - 1].data
    else LastWord(es[..|es| - 1], address)
  }

  predicate Bit(w: u32, mask: bv32) {
    On(ToBits(w), mask)
  }

  predicate InterruptsOn(es: seq<Event>) {
    Bit(LastWord(es, 0x04), 0x1)
  }

  predicate Continues(es: seq<Event>) {
    Bit(LastWord(es, 0x04), 0x2)
  }

  /** A start that was asked for and not yet given: a tick gives it unless the timer
      is running already. */
  predicate StartAsked(es: seq<Event>) {
    es != [] &&
    match es[|es| - 1]
    case Access(address, data) => if address == 0x04 then Bit(data, 0x4) else StartAsked(es[..|es| - 1])
    case Tick(_) => StartAsked(es[..|es| - 1]) && Going(es[..|es| - 1])
  }

  /** A stop likewise: it waits for the timer to run. */
  predicate StopAsked(es: seq<Event>) {
    es != [] &&
    match es[|es| - 1]
    case Access(address, data) => if address == 0x04 then Bit(data, 0x8) else StopAsked(es[..|es| - 1])
    case Tick(_) =>
      var before := es[..|es| - 1];
      StopAsked(before) && !Going(before) && !StartAsked(before)
  }

  predicate Going(es: seq<Event>) {
    es != [] &&
    var before := es[..|es| - 1];
    match es[|es| - 1]
    case Access(_, _) => Going(before)
    case Tick(time) =>
      && (Going(before) || StartAsked(before)) && !StopAsked(before)
      && (Fires(Since(before), time) ==> Continues(before))
  }

  /** Has it run out since software last cleared the timeout bit? */
  predicate RunOut(es: seq<Event>) {
    es != [] &&
    var before := es[..|es| - 1];
    match es[|es| - 1]
    case Access(address, data) => RunOut(before) && (address == 0x00 ==> Bit(data, 0x1))
    case Tick(time) => RunOut(before) || Fires(Since(before), time)
  }

  /** Has it interrupted since then? */
  predicate Raised(es: seq<Event>) {
    es != [] &&
    var before := es[..|es| - 1];
    match es[|es| - 1]
    case Access(address, data) => Raised(before) && (address == 0x00 ==> Bit(data, 0x1))
    case Tick(_) => Raised(before) || (RunOut(es) && InterruptsOn(es))
  }

  /** What the registers hold. */
  predicate Told(es: seq<Event>, t: Timer) {
    && Clear(t.status, 0x3) == Bits(0) && Clear(t.control, 0xf) == Bits(0)
    && (On(t.status, 0x1) <==> RunOut(es)) && (On(t.status, 0x2) <==> Going(es))
    && (On(t.control, 0x1) <==> InterruptsOn(es)) && (On(t.control, 0x2) <==> Continues(es))
    && (On(t.control, 0x4) <==> StartAsked(es)) && (On(t.control, 0x8) <==> StopAsked(es))
    && t.period == LastWord(es, 0x08)
    && (t.intPending <==> Raised(es)) && (t.intPending ==> On(t.status, 0x1))
  }

  // Bits of the two registers.
  lemma StatusBits(s: Bits, d: Bits)
    requires Clear(s, 0x3) == Bits(0)
    ensures Clear(Set(s, 0x2), 0x3) == Bits(0) && On(Set(s, 0x2), 0x2) && (On(Set(s, 0x2), 0x1) <==> On(s, 0x1))
    ensures Clear(Set(s, 0x1), 0x3) == Bits(0) && On(Set(s, 0x1), 0x1) && (On(Set(s, 0x1), 0x2) <==> On(s, 0x2))
    ensures Clear(Clear(s, 0x2), 0x3) == Bits(0) && !On(Clear(s, 0x2), 0x2)
    ensures On(Clear(s, 0x2), 0x1) <==> On(s, 0x1)
    ensures Clear(Acked(s, d), 0x3) == Bits(0) && (On(Acked(s, d), 0x2) <==> On(s, 0x2))
    ensures On(Acked(s, d), 0x1) <==> On(s, 0x1) && On(d, 0x1)
  {
  }

  lemma CommandBits(k: Bits)
    requires Clear(k, 0xf) == Bits(0)
    ensures var c := Clear(k, 0x4);
      && Clear(c, 0xf) == Bits(0) && !On(c, 0x4)
      && (On(c, 0x1) <==> On(k, 0x1)) && (On(c, 0x2) <==> On(k, 0x2)) && (On(c, 0x8) <==> On(k, 0x8))
    ensures var c := Clear(k, 0x8);
      && Clear(c, 0xf) == Bits(0) && !On(c, 0x8)
      && (On(c, 0x1) <==> On(k, 0x1)) && (On(c, 0x2) <==> On(k, 0x2)) && (On(c, 0x4) <==> On(k, 0x4))
  {
  }

  lemma KeptBits(d: Bits)
    ensures var k := Keep(d, 0xf);
      && Clear(k, 0xf) == Bits(0)
      && (On(k, 0x1) <==> On(d, 0x1)) && (On(k, 0x2) <==> On(d, 0x2))
      && (On(k, 0x4) <==> On(d, 0x4)) && (On(k, 0x8) <==> On(d, 0x8))
  {
  }

  // ---------------------------------------------------------------------------
  // The registers are those of the history
  // ---------------------------------------------------------------------------

  /** The registers after any history. */
  lemma {:induction false} RegistersTell(es: seq<Event>)
    ensures Told(es, Since(es))
  {
    hide Told, After;
    if es == [] {
      AtStart();
    } else {
      RegistersTell(es[..|es| - 1]);
      match es[|es| - 1]
      case Access(_, _) => WriteTells(es);
      case Tick(_) => TickTells(es);
    }
  }

  lemma AtStart()
    ensures Told([], Since([]))
  {
  }

  lemma WriteTells(es: seq<Event>)
    requires es != [] && es[|es| - 1].Access? && Told(es[..|es| - 1], Since(es[..|es| - 1]))
    ensures Told(es, Since(es))
  {
    hide On, Acked, Keep, ToBits, Clear, Since, RunOut, Going, StartAsked, StopAsked, Raised;
    var before := es[..|es| - 1];
    var t, e := Since(before), es[|es| - 1];
    StatusBits(t.status, ToBits(e.data));
    KeptBits(ToBits(e.data));
    AfterWrite(es);
    assert Since(es) == Written(t, e.address, e.data) by { Latest(es); }
  }

  lemma Latest(es: seq<Event>)
    requires es != []
    ensures Since(es) == After(Since(es[..|es| - 1]), es[|es| - 1])
  {
  }

  /** The history after a write. */
  lemma AfterWrite(es: seq<Event>)
    requires es != [] && es[|es| - 1].Access?
    ensures var before, address, data := es[..|es| - 1], es[|es| - 1].address, es[|es| - 1].data;
      && (RunOut(es) <==> RunOut(before) && (address == 0x00 ==> Bit(data, 0x1)))
      && (Raised(es) <==> Raised(before) && (address == 0x00 ==> Bit(data, 0x1)))
      && Going(es) == Going(before)
      && StartAsked(es) == (if address == 0x04 then Bit(data, 0x4) else StartAsked(before))
      && StopAsked(es) == (if address == 0x04 then Bit(data, 0x8) else StopAsked(before))
  {
    hide Bit;
  }

  /** The registers after the first half of a tick. */
  lemma ReadyTells(es: seq<Event>, t: Timer, time: int)
    requires Told(es, t)
    ensures var u := Ready(t, time);
      && Clear(u.status, 0x3) == Bits(0) && Clear(u.control, 0xf) == Bits(0)
      && (On(u.status, 0x1) <==> RunOut(es))
      && (On(u.status, 0x2) <==> (Going(es) || StartAsked(es)) && !StopAsked(es))
      && (On(u.control, 0x1) <==> InterruptsOn(es)) && (On(u.control, 0x2) <==> Continues(es))
      && (On(u.control, 0x4) <==> StartAsked(es) && Going(es))
      && (On(u.control, 0x8) <==> StopAsked(es) && !Going(es) && !StartAsked(es))
      && u.period == t.period && u.intPending == t.intPending
  {
    hide On, Clear, Set, RunOut, Going, StartAsked, StopAsked, InterruptsOn, Continues, LastWord, Raised;
    StatusBits(t.status, t.status);
    CommandBits(t.control);
    var u := Launched(t, time);
    StatusBits(u.status, u.status);
    CommandBits(u.control);
  }

  lemma TickTells(es: seq<Event>)
    requires es != [] && es[|es| - 1].Tick? && Told(es[..|es| - 1], Since(es[..|es| - 1]))
    ensures Told(es, Since(es))
  {
    hide On, Clear, Set, Ready, Left, Bit;
    var before := es[..|es| - 1];
    var t, time := Since(before), es[|es| - 1].time;
    ReadyTells(before, t, time);
    var u := Ready(t, time);
    StatusBits(u.status, u.status);
    StatusBits(Set(u.status, 0x1), u.status);
    assert Since(es) == Ticked(t, time);
    SameControl(es);
  }

  lemma SameControl(es: seq<Event>)
    requires es != [] && es[|es| - 1].Tick?
    ensures InterruptsOn(es) == InterruptsOn(es[..|es| - 1]) && Continues(es) == Continues(es[..|es| - 1])
  {
  }

  /** A tick interrupts exactly when the timer has run out, its interrupt is on by
      the last word written to control, and it has not interrupted since the timeout
      bit was last cleared; writing a one to that bit clears nothing. */
  lemma InterruptsTell(es: seq<Event>, time: int)
    ensures Interrupts(Since(es), time) <==> RunOut(es + [Tick(time)]) && InterruptsOn(es) && !Raised(es)
  {
    var now := es + [Tick(time)];
    assert now[..|now| - 1] == es;
    RegistersTell(es);
    RegistersTell(now);
    ReadyTells(es, Since(es), time);
    SameControl(now);
    assert Since(now) == Ticked(Since(es), time);
    hide On, Clear, Set, Ready, Left, Bit;
  }

  /** A command is given once: after a tick, START is off unless the timer was running
      when it was asked for, and STOP is off unless the timer was, and stays, at rest. */
  lemma CommandsAreSpent(es: seq<Event>, time: int)
    ensures var t, u := Since(es), Since(es + [Tick(time)]);
      && (On(u.control, START) <==> On(t.control, START) && On(t.status, RUN))
      && (On(u.control, STOP) <==> On(t.control, STOP) && !On(t.status, RUN) && !On(t.control, START))
  {
    var now := es + [Tick(time)];
    assert now[..|now| - 1] == es;
    RegistersTell(es);
    RegistersTell(now);
    hide On, Since, Bit;
  }
}
