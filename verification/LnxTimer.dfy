/** The system timers: four down-counters in 32-bit arithmetic, brought up to
    date whenever the system ticks them. */
module LnxTimer {
  import opened Words

  const STATUS_REG: u32 := 0x00
  const CONTROL_REG: u32 := 0x04
  const PERIOD_REG: u32 := 0x08
  const SNAPSHOT_REG: u32 := 0x0c

  // Status bits.
  const TO: bv32 := 0x1
  const RUN: bv32 := 0x2

  // Control bits.
  const ITO: bv32 := 0x1
  const CONT: bv32 := 0x2
  const START: bv32 := 0x4
  const STOP: bv32 := 0x8

  const NUM_TIMERS: nat := 4

  datatype Timer = Timer(
    status: Bits, control: Bits, period: u32, snapshot: u32, intPending: bool, start: int)

  // ---------------------------------------------------------------------------
  // Values
  // ---------------------------------------------------------------------------

  /** The write mask of the status register. */
  function Acked(status: Bits, data: Bits): Bits {
    Keep(status, (data.w & TO) | !TO)
  }

  function Written(t: Timer, address: u32, data: u32): Timer {
    if address == STATUS_REG then
      var status := Acked(t.status, ToBits(data));
      t.(status := status, intPending := t.intPending && On(status, TO))
    else if address == CONTROL_REG then t.(control := Keep(ToBits(data), 0xf))
    else if address == PERIOD_REG then t.(period := data, snapshot := data)
    else t
  }

  function Launched(t: Timer, time: int): Timer {
    if !On(t.status, RUN) && On(t.control, START) then
      t.(control := Clear(t.control, START), status := Set(t.status, RUN), start := time)
    else t
  }

  function Halted(t: Timer): Timer {
    if On(t.status, RUN) && On(t.control, STOP) then
      t.(control := Clear(t.control, STOP), status := Clear(t.status, RUN))
    else t
  }

  /** The counter at `time`, before it is looked at. */
  function Left(t: Timer, time: int): u32 {
    Wrap(t.snapshot - Wrap(time - t.start))
  }

  function Expired(t: Timer, left: u32): Timer {
    var u := t.(status := Set(t.status, TO));
    if On(t.control, CONT) then u.(snapshot := Wrap(t.period - Wrap(0 - left)))
    else u.(snapshot := 0, status := Clear(u.status, RUN))
  }

  function Counted(t: Timer, time: int): Timer {
    if !On(t.status, RUN) then t
    else if Signed(Left(t, time)) > 0 then t.(snapshot := Left(t, time), start := time)
    else Expired(t.(start := time), Left(t, time))
  }

  predicate Alerts(t: Timer) {
    On(t.control, ITO) && On(t.status, TO) && !t.intPending
  }

  function Ready(t: Timer, time: int): Timer {
    Halted(Launched(t, time))
  }

  function Ticked(t: Timer, time: int): Timer {
    var u := Counted(Ready(t, time), time);
    if Alerts(u) then u.(intPending := true) else u
  }

  predicate Interrupts(t: Timer, time: int) {
    Alerts(Counted(Ready(t, time), time))
  }

  /** Does the counter reach zero at this tick? */
  predicate Fires(t: Timer, time: int) {
    var u := Ready(t, time);
    On(u.status, RUN) && Signed(Left(u, time)) <= 0
  }

  // ---------------------------------------------------------------------------
  // The bank of timers, updated in place
  // ---------------------------------------------------------------------------

  class TimerBank {
    const status: array<Bits>
    const control: array<Bits>
    const period: array<u32>
    const snapshot: array<u32>
    const intPending: array<bool>
    const startTime: array<int>

    ghost predicate Valid() {
      && status.Length == control.Length == period.Length == snapshot.Length == NUM_TIMERS
      && intPending.Length == startTime.Length == NUM_TIMERS
      && status != control && period != snapshot
      && startTime as object != period && startTime as object != snapshot
    }

    ghost function View(c: nat): Timer
      requires Valid() && c < NUM_TIMERS
      reads status, control, period, snapshot, intPending, startTime
    {
      Timer(status[c], control[c], period[c], snapshot[c], intPending[c], startTime[c])
    }

    constructor ()
      ensures Valid()
      ensures forall c :: 0 <= c < NUM_TIMERS ==> View(c) == Timer(Bits(0), Bits(0), 0, 0, false, 0)
    {
      status := new Bits[NUM_TIMERS](_ => Bits(0));
      control := new Bits[NUM_TIMERS](_ => Bits(0));
      period := new u32[NUM_TIMERS](_ => 0);
      snapshot := new u32[NUM_TIMERS](_ => 0);
      intPending := new bool[NUM_TIMERS](_ => false);
      startTime := new int[NUM_TIMERS](_ => 0);
    }

    method Write(address: u32, data: u32, c: nat)
      requires Valid() && c < NUM_TIMERS
      modifies status, control, period, snapshot, intPending
      ensures View(c) == Written(old(View(c)), address, data)
      ensures forall d :: 0 <= d < NUM_TIMERS && d != c ==> View(d) == old(View(d))
    {
      hide On, Acked, Keep, ToBits;
      if address == STATUS_REG {
        status[c] := Acked(status[c], ToBits(data));
        if !On(status[c], TO) {
          intPending[c] := false;
        }
      } else if address == CONTROL_REG {
        control[c] := Keep(ToBits(data), 0xf);
      } else if address == PERIOD_REG {
        period[c] := data;
        snapshot[c] := data;
      }
    }

    method Read(address: u32, c: nat) returns (data: u32)
      requires Valid() && c < NUM_TIMERS
      ensures var t := View(c);
        data == if address == STATUS_REG then FromBits(t.status)
                else if address == CONTROL_REG then FromBits(t.control)
                else if address == PERIOD_REG then t.period
                else if address == SNAPSHOT_REG then t.snapshot
                else 0
    {
      data := 0;
      if address == STATUS_REG {
        data := FromBits(status[c]);
      } else if address == CONTROL_REG {
        data := FromBits(control[c]);
      } else if address == PERIOD_REG {
        data := period[c];
      } else if address == SNAPSHOT_REG {
        data := snapshot[c];
      }
    }

    method Tick(time: int, c: nat) returns (irq: bool)
      requires Valid() && c < NUM_TIMERS
      modifies status, control, snapshot, intPending, startTime
      ensures View(c) == Ticked(old(View(c)), time)
      ensures irq == Interrupts(old(View(c)), time)
      ensures forall d :: 0 <= d < NUM_TIMERS && d != c ==> View(d) == old(View(d))
    {
      hide On, Set, Clear, Left, Counted;
      irq := false;
      if !On(status[c], RUN) && On(control[c], START) {
        control[c] := Clear(control[c], START);
        status[c] := Set(status[c], RUN);
        startTime[c] := time;
      }
      if On(status[c], RUN) && On(control[c], STOP) {
        control[c] := Clear(control[c], STOP);
        status[c] := Clear(status[c], RUN);
      }
      assert View(c) == Ready(old(View(c)), time);
      assert forall d :: 0 <= d < NUM_TIMERS && d != c ==> View(d) == old(View(d));
      Count(time, c);
      assert View(c) == Counted(Ready(old(View(c)), time), time);
      assert forall d :: 0 <= d < NUM_TIMERS && d != c ==> View(d) == old(View(d));
      if On(control[c], ITO) && On(status[c], TO) && !intPending[c] {
        irq := true;
        intPending[c] := true;
      }
    }

    /** The counting part of a tick. */
    method Count(time: int, c: nat)
      requires Valid() && c < NUM_TIMERS
      modifies status, snapshot, startTime
      ensures View(c) == Counted(old(View(c)), time)
      ensures forall d :: 0 <= d < NUM_TIMERS && d != c ==> View(d) == old(View(d))
    {
      hide On, Set, Clear, Wrap;
      WrapOnce();
      if On(status[c], RUN) {
        snapshot[c] := Wrap(snapshot[c] - Wrap(time - startTime[c]));
        var left: int := snapshot[c];
        var overrun: int := 0;
        if Signed(snapshot[c]) < 0 {
          overrun := Wrap(0 - left);
          snapshot[c] := 0;
        }
        startTime[c] := time;
        if snapshot[c] == 0 {
          status[c] := Set(status[c], TO);
          if !On(control[c], CONT) {
            status[c] := Clear(status[c], RUN);
          } else {
            assert overrun == Wrap(0 - left);
            snapshot[c] := period[c];
            snapshot[c] := Wrap(snapshot[c] - Wrap(overrun));
          }
        }
      }
    }
  }

  lemma WrapOnce()
    ensures forall w: u32 :: Wrap(w) == w
    ensures Wrap(0) == 0
  {
  }

  /** A write to the status register can only clear TO. */
  lemma AckBits(s: Bits, d: Bits)
    ensures On(Acked(s, d), TO) <==> On(s, TO) && On(d, TO)
    ensures On(Acked(s, d), RUN) <==> On(s, RUN)
  {
    AckTo(s.w, d.w);
    AckRun(s.w, d.w);
  }

  lemma AckTo(s: bv32, d: bv32)
    ensures s & ((d & TO) | !TO) & TO != 0 <==> s & TO != 0 && d & TO != 0
  {
  }

  lemma AckRun(s: bv32, d: bv32)
    ensures s & ((d & TO) | !TO) & RUN == s & RUN
  {
  }

  // ---------------------------------------------------------------------------
  // Runs
  // ---------------------------------------------------------------------------

  datatype Event = Tick(time: int) | Access(address: u32, data: u32)

  function After(t: Timer, e: Event): Timer {
    match e
    case Tick(time) => Ticked(t, time)
    case Access(address, data) => Written(t, address, data)
  }

  function Run(t: Timer, es: seq<Event>): Timer
    decreases |es|
  {
    if es == [] then t else Run(After(t, es[0]), es[1..])
  }

  function Timeouts(t: Timer, es: seq<Event>): nat
    decreases |es|
  {
    if es == [] then 0
    else (if es[0].Tick? && Fires(t, es[0].time) then 1 else 0) + Timeouts(After(t, es[0]), es[1..])
  }

  /** Running, reloading, and with no stop requested. */
  predicate Cycling(t: Timer) {
    && On(t.status, RUN) && On(t.control, CONT) && !On(t.control, STOP)
    && 0 < t.period < 0x8000_0000
  }

  /** Events that leave a cycling timer cycling: ticks in order of time, writes to
      status, and writes to control that keep CONT and do not stop. */
  predicate Benign(e: Event, since: int) {
    match e
    case Tick(time) => since <= time
    case Access(address, data) =>
      address != PERIOD_REG &&
      (address == CONTROL_REG ==> On(ToBits(data), CONT) && !On(ToBits(data), STOP))
  }

  predicate Steady(t: Timer, es: seq<Event>)
    decreases |es|
  {
    es != [] ==> Benign(es[0], t.start) && Steady(After(t, es[0]), es[1..])
  }

  /** Time left before the counter is due, negative when it is overdue. */
  function Remaining(t: Timer, time: int): int {
    Signed(t.snapshot) - (time - t.start)
  }

  /** How often the 32-bit counter has gone all the way round unnoticed. */
  function Lost(t: Timer, time: int): int {
    -((Remaining(t, time) + 0x8000_0000) / 0x1_0000_0000)
  }

  function LostInRun(t: Timer, es: seq<Event>): int
    decreases |es|
  {
    if es == [] then 0
    else (if es[0].Tick? then Lost(t, es[0].time) else 0) + LostInRun(After(t, es[0]), es[1..])
  }

  /** No tick comes more than 2^31 after the deadline it serves. */
  predicate Prompt(t: Timer, es: seq<Event>)
    decreases |es|
  {
    es != [] ==>
      (es[0].Tick? ==> Remaining(t, es[0].time) >= -0x8000_0000) && Prompt(After(t, es[0]), es[1..])
  }

  lemma CyclingBits(t: Timer)
    requires Cycling(t)
    ensures On(Set(t.status, TO), RUN)
  {
  }

  lemma ControlBits(d: Bits)
    ensures On(Keep(d, 0xf), CONT) == On(d, CONT) && On(Keep(d, 0xf), STOP) == On(d, STOP)
  {
  }

  lemma LeftIsRemaining(t: Timer, time: int)
    requires t.start <= time
    ensures Signed(Left(t, time)) == Remaining(t, time) + 0x1_0000_0000 * Lost(t, time)
    ensures Lost(t, time) >= 0
    ensures Lost(t, time) == 0 <==> Remaining(t, time) >= -0x8000_0000
  {
    var e := Remaining(t, time);
    var q := (e + 0x8000_0000) / 0x1_0000_0000;
    var x := e - 0x1_0000_0000 * q;
    assert -0x8000_0000 <= x < 0x8000_0000;
    var d := time - t.start;
    var borrow := if t.snapshot < 0x8000_0000 then 0 else 1;
    var k := q + borrow + d / 0x1_0000_0000;
    var left := if x >= 0 then x else x + 0x1_0000_0000;
    ModUnique(t.snapshot - Wrap(d), 0x1_0000_0000, if x >= 0 then k else k - 1, left);
  }

  /** One tick of a cycling timer. */
  lemma TickAccount(t: Timer, time: int)
    requires Cycling(t) && t.start <= time
    ensures var u := Ticked(t, time);
      && Cycling(u) && u.start == time && u.period == t.period
      && Signed(u.snapshot) == Remaining(t, time) + (if Fires(t, time) then t.period else 0)
                               + 0x1_0000_0000 * Lost(t, time)
      && (Fires(t, time) <==> Signed(Left(t, time)) <= 0)
  {
    CyclingBits(t);
    CyclingReady(t, time);
    CyclingCount(t, time);
    LeftIsRemaining(t, time);
    var left := Left(t, time);
    if Signed(left) <= 0 {
      Reload(t.period, left);
    }
    hide On, Set, Lost, Remaining, Left, Signed, Wrap, Ready, Counted;
  }

  lemma CyclingReady(t: Timer, time: int)
    requires Cycling(t)
    ensures Ready(t, time) == t
  {
    hide On, Set, Clear;
  }

  lemma CyclingCount(t: Timer, time: int)
    requires Cycling(t)
    ensures var left := Left(t, time);
      Counted(t, time) ==
        if Signed(left) > 0 then t.(snapshot := left, start := time)
        else t.(status := Set(t.status, TO), snapshot := Wrap(t.period - Wrap(0 - left)), start := time)
  {
    hide On, Set, Clear, Left, Signed, Wrap;
  }

  lemma Reload(period: u32, left: u32)
    requires 0 < period < 0x8000_0000 && Signed(left) <= 0
    ensures Signed(Wrap(period - Wrap(0 - left))) == period + Signed(left)
  {
    ModUnique(0 - left, 0x1_0000_0000, if left == 0 then 0 else -1, -Signed(left));
    var v := period + Signed(left);
    ModUnique(v, 0x1_0000_0000, if v < 0 then -1 else 0, if v < 0 then v + 0x1_0000_0000 else v);
  }

  lemma AccessKeeps(t: Timer, address: u32, data: u32)
    requires Cycling(t) && Benign(Access(address, data), t.start)
    ensures var u := Written(t, address, data);
      Cycling(u) && u.start == t.start && u.period == t.period && u.snapshot == t.snapshot
  {
    AckBits(t.status, ToBits(data));
    ControlBits(ToBits(data));
    hide On, Acked, Keep, ToBits;
  }

  /** The books always balance, up to the rounds of the counter that were lost:
      no run of ticks and harmless register accesses makes the period drift. */
  lemma {:induction false} NeverCreeps(t: Timer, es: seq<Event>)
    requires Cycling(t) && Steady(t, es)
    ensures var u := Run(t, es);
      && Cycling(u) && u.period == t.period && t.start <= u.start
      && u.start - t.start == Times(Timeouts(t, es), t.period) + (Signed(t.snapshot) - Signed(u.snapshot))
                              + 0x1_0000_0000 * LostInRun(t, es)
    decreases |es|
  {
    hide Cycling, Fires, Lost, Ticked, Written, Signed;
    if es != [] {
      match es[0] {
        case Tick(time) => TickAccount(t, time);
        case Access(address, data) => AccessKeeps(t, address, data);
      }
      NeverCreeps(After(t, es[0]), es[1..]);
    }
  }

  /** n periods, without the solver's multiplication. */
  function Times(n: nat, period: int): int {
    if n == 0 then 0 else period + Times(n - 1, period)
  }

  lemma {:induction false} TimesIsProduct(n: nat, period: int)
    ensures Times(n, period) == n * period
  {
    if n != 0 {
      TimesIsProduct(n - 1, period);
    }
  }

  /** Rounds are lost exactly when some tick comes too late. */
  lemma {:induction false} LostIffLate(t: Timer, es: seq<Event>)
    requires Cycling(t) && Steady(t, es)
    ensures LostInRun(t, es) >= 0
    ensures LostInRun(t, es) == 0 <==> Prompt(t, es)
    decreases |es|
  {
    hide Cycling, Fires, Lost, Ticked, Written, Left;
    if es != [] {
      match es[0] {
        case Tick(time) =>
          TickAccount(t, time);
          LeftIsRemaining(t, time);
        case Access(address, data) => AccessKeeps(t, address, data);
      }
      LostIffLate(After(t, es[0]), es[1..]);
    }
  }

  /** From a full counter, N timeouts account for N whole periods and the part of
      the current one that has gone by, if and only if no tick was more than 2^31
      late. */
  lemma ElapsedIffPrompt(t: Timer, es: seq<Event>)
    requires Cycling(t) && Steady(t, es) && t.snapshot == t.period
    ensures var u := Run(t, es);
      u.start - t.start == Timeouts(t, es) * t.period + (t.period - Signed(u.snapshot)) <==> Prompt(t, es)
  {
    CyclingBound(t);
    hide Run, Timeouts, LostInRun, Prompt, Steady, Times, Cycling, Signed;
    NeverCreeps(t, es);
    TimesIsProduct(Timeouts(t, es), t.period);
    LostIffLate(t, es);
  }

  /** A timer with period 1, ticked 2^31 + 1 cycles after its deadline: the 32-bit
      counter has gone round to a positive value, no timeout is noticed, and more
      than 2^31 periods are unaccounted for. */
  lemma LateTick(t: Timer)
    requires t == Timer(Bits(RUN), Bits(CONT), 1, 1, false, 0)
    ensures var es := [Tick(0x8000_0002)];
      && Cycling(t) && Steady(t, es) && !Prompt(t, es)
      && Timeouts(t, es) == 0 && Run(t, es).start == 0x8000_0002 && Run(t, es).snapshot == 0x7fff_ffff
  {
    var es := [Tick(0x8000_0002)];
    assert es[1..] == [];
    var u := Ticked(t, 0x8000_0002);
    assert Left(t, 0x8000_0002) == 0x7fff_ffff;
    assert Remaining(t, 0x8000_0002) == -0x8000_0001;
    OnlyRunning(t);
    hide On, Set, Clear, Left;
    assert Run(t, es) == Run(u, []) == u;
    assert Ready(t, 0x8000_0002) == t;
  }

  lemma OnlyRunning(t: Timer)
    requires t.status == Bits(RUN) && t.control == Bits(CONT)
    ensures On(t.status, RUN) && On(t.control, CONT) && !On(t.control, STOP)
  {
  }

  /** The time at which the counter is due to reach zero. */
  function Deadline(t: Timer): int {
    t.start + Signed(t.snapshot)
  }

  /** The pending deadline is always a multiple of the period after the start. */
  lemma NextDeadline(t: Timer, es: seq<Event>)
    requires Cycling(t) && Steady(t, es) && Prompt(t, es) && t.snapshot == t.period
    ensures Deadline(Run(t, es)) == t.start + (Timeouts(t, es) + 1) * t.period
  {
    hide Run, Timeouts, LostInRun, Prompt, Steady, Cycling, Signed;
    CyclingBound(t);
    NeverCreeps(t, es);
    LostIffLate(t, es);
    var n := Timeouts(t, es);
    assert Times(n + 1, t.period) == t.period + Times(n, t.period);
    hide Times;
    TimesIsProduct(n + 1, t.period);
  }

  /** A tick on time fires exactly when the deadline has been reached. */
  lemma FiresAtDeadline(t: Timer, time: int)
    requires Cycling(t) && t.start <= time && Remaining(t, time) >= -0x8000_0000
    ensures Fires(t, time) <==> Deadline(t) <= time
  {
    TickAccount(t, time);
    LeftIsRemaining(t, time);
    hide Fires, Left, Cycling, Signed, Lost;
  }

  /** After N timeouts the next one comes with the first tick at or after the
      (N+1)st multiple of the period since the start. */
  lemma DeadlinesAreMultiples(t: Timer, es: seq<Event>, time: int)
    requires Cycling(t) && Steady(t, es) && t.snapshot == t.period
    requires Prompt(t, es + [Tick(time)]) && Run(t, es).start <= time
    ensures Fires(Run(t, es), time) <==> t.start + (Timeouts(t, es) + 1) * t.period <= time
  {
    PromptSplits(t, es, Tick(time));
    var u := Run(t, es);
    assert Prompt(t, es) && Remaining(u, time) >= -0x8000_0000;
    hide Run, Timeouts, Prompt, Steady, Fires, Deadline, Remaining, Cycling;
    NeverCreeps(t, es);
    NextDeadline(t, es);
    FiresAtDeadline(u, time);
  }

  lemma CyclingBound(t: Timer)
    requires Cycling(t)
    ensures 0 < t.period < 0x8000_0000 && Signed(t.period) == t.period
  {
  }

  lemma {:induction false} PromptSplits(t: Timer, es: seq<Event>, e: Event)
    ensures Prompt(t, es + [e]) <==> Prompt(t, es) && Prompt(Run(t, es), [e])
    ensures Run(t, es + [e]) == After(Run(t, es), e)
    ensures Timeouts(t, es + [e]) == Timeouts(t, es) + Timeouts(Run(t, es), [e])
    decreases |es|
  {
    hide After, Fires, Remaining;
    if es == [] {
      assert es + [e] == [e];
      assert [e][1..] == [];
    } else {
      assert (es + [e])[0] == es[0] && (es + [e])[1..] == es[1..] + [e];
      PromptSplits(After(t, es[0]), es[1..], e);
    }
  }

  /** Ticks no more than a period apart. */
  predicate Close(t: Timer, es: seq<Event>)
    decreases |es|
  {
    es != [] ==>
      (es[0].Tick? ==> es[0].time - t.start <= t.period) && Close(After(t, es[0]), es[1..])
  }

  lemma {:induction false} CloseIsPrompt(t: Timer, es: seq<Event>)
    requires Cycling(t) && Steady(t, es) && Close(t, es) && 0 < Signed(t.snapshot) <= t.period
    ensures Prompt(t, es)
    ensures 0 < Signed(Run(t, es).snapshot) <= t.period
    decreases |es|
  {
    hide Cycling, Fires, Lost, Ticked, Written, Left;
    CyclingBound(t);
    if es != [] {
      match es[0] {
        case Tick(time) =>
          TickAccount(t, time);
          LeftIsRemaining(t, time);
        case Access(address, data) => AccessKeeps(t, address, data);
      }
      CloseIsPrompt(After(t, es[0]), es[1..]);
    }
  }

  /** When the system ticks at least once a period, the timeouts so far are the
      whole periods that have elapsed. */
  lemma TimeoutsAreFloor(t: Timer, es: seq<Event>)
    requires Cycling(t) && Steady(t, es) && Close(t, es) && t.snapshot == t.period
    ensures t.period > 0 && Timeouts(t, es) == (Run(t, es).start - t.start) / t.period
  {
    hide Run, Timeouts, LostInRun, Prompt, Steady, Close, Cycling;
    CyclingBound(t);
    CloseIsPrompt(t, es);
    NeverCreeps(t, es);
    ElapsedIffPrompt(t, es);
    var n, u := Timeouts(t, es), Run(t, es);
    assert n * t.period == t.period * n;
    ModUnique(u.start - t.start, t.period, n, t.period - Signed(u.snapshot));
  }

  /** Starting an idle timer: period, then control, then a tick. */
  lemma Starts(t: Timer, period: u32, control: u32, time: int)
    requires !On(t.status, RUN) && 0 < period < 0x8000_0000
    requires On(ToBits(control), START) && On(ToBits(control), CONT) && !On(ToBits(control), STOP)
    ensures var u := Run(t, [Access(PERIOD_REG, period), Access(CONTROL_REG, control), Tick(time)]);
      Cycling(u) && u.start == time && u.snapshot == u.period == period
  {
    var es := [Access(PERIOD_REG, period), Access(CONTROL_REG, control), Tick(time)];
    var t1 := Written(t, PERIOD_REG, period);
    var t2 := Written(t1, CONTROL_REG, control);
    assert es[1..] == [Access(CONTROL_REG, control), Tick(time)] && es[1..][1..] == [Tick(time)];
    assert es[1..][1..][1..] == [];
    assert Run(t, es) == Run(t2, [Tick(time)]) == Ticked(t2, time);
    StartBits(t.status, ToBits(control));
    hide On, Set, Clear, Keep, ToBits;
    var t3 := Ready(t2, time);
    assert t3.start == time && t3.snapshot == period;
    assert Left(t3, time) == period;
  }

  lemma StartBits(s: Bits, d: Bits)
    requires !On(s, RUN) && On(d, START) && On(d, CONT) && !On(d, STOP)
    ensures On(Set(s, RUN), RUN)
    ensures var k := Keep(d, 0xf); On(k, START) && !On(Clear(k, START), STOP) && On(Clear(k, START), CONT)
  {
  }

  // ---------------------------------------------------------------------------
  // Interrupts
  // ---------------------------------------------------------------------------

  function Interruptions(t: Timer, es: seq<Event>): nat
    decreases |es|
  {
    if es == [] then 0
    else
      (if es[0].Tick? && Interrupts(t, es[0].time) then 1 else 0) + Interruptions(After(t, es[0]), es[1..])
  }

  predicate Unacknowledged(es: seq<Event>) {
    forall i :: 0 <= i < |es| && es[i].Access? ==> es[i].address != STATUS_REG
  }

  /** Until software acknowledges it, an interrupt is not raised again, whatever
      else happens to the timer. */
  lemma {:induction false} OneInterruptPerAcknowledge(t: Timer, es: seq<Event>)
    requires Unacknowledged(es)
    ensures Interruptions(t, es) == if !t.intPending && Run(t, es).intPending then 1 else 0
    ensures t.intPending ==> Run(t, es).intPending
    decreases |es|
  {
    hide On, Acked, Set, Clear, Keep, ToBits, Left;
    if es != [] {
      assert es[0].Access? ==> es[0].address != STATUS_REG;
      assert forall i :: 0 <= i < |es[1..]| ==> es[1..][i] == es[i + 1];
      OneInterruptPerAcknowledge(After(t, es[0]), es[1..]);
    }
  }

  /** And once it has been acknowledged, the next timeout raises it again. */
  lemma AcknowledgedTimerInterrupts(t: Timer, time: int)
    requires Cycling(t) && t.start <= time && On(t.control, ITO)
    requires !On(t.status, TO) && !t.intPending
    ensures Interrupts(t, time) <==> Fires(t, time)
  {
    SetTo(t.status);
    hide On, Set, Clear, Left;
  }

  lemma SetTo(s: Bits)
    ensures On(Set(s, TO), TO)
  {
  }
}
