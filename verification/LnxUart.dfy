/** The system UARTs: registers, transmit timing, interrupts, and the exit string
    that a user can type on the keyboard of the first one. */
module LnxUart {
  import opened Words

  const RBR_REG: u32 := 0x00
  const IER_REG: u32 := 0x04
  const IIR_REG: u32 := 0x08
  const LCR_REG: u32 := 0x0c
  const MCR_REG: u32 := 0x10
  const LSR_REG: u32 := 0x14
  const MSR_REG: u32 := 0x18
  const DIV_REG: u32 := 0x1c

  // Line status bits.
  const DR: bv32 := 0x01
  const OE: bv32 := 0x02
  const THRR: bv32 := 0x20
  const SENT: bv32 := 0x60   // TEMT and THRR

  // Interrupt enable bits.
  const RBRI: bv32 := 0x01
  const THRI: bv32 := 0x02
  const RLSI: bv32 := 0x04

  // Interrupt identification.
  const INT_NONE: u32 := 0x01
  const INT_ERR: u32 := 0x06
  const INT_RDR: u32 := 0x04
  const INT_EMP: u32 := 0x02

  const NUM_UARTS: nat := 4

  /** Time to send a character: at 115200 baud with a 10 MHz clock, or one cycle
      in the fast build, which the Linux system's makefiles ask for. */
  function CharacterTime(fast: bool): (n: int)
    ensures n > 0
  {
    if fast then 1 else 946
  }

  const EXIT_STRING: seq<u8> := [0x23, 0x21, 0x65, 0x78, 0x69, 0x74, 0x21, 0x0a]
  const EXIT_LENGTH: nat := 8

  datatype Uart = Uart(
    start: int, intPending: bool,
    rbr: u32, ier: Bits, iir: u32, lcr: Bits, mcr: Bits, lsr: Bits, msr: u32, div: u32)

  function ResetUart(): Uart {
    Uart(0, false, 0, Bits(0), 0, Bits(0), Bits(0), Bits(SENT), 0, 0)
  }

  // ---------------------------------------------------------------------------
  // Values
  // ---------------------------------------------------------------------------

  function Written(u: Uart, address: u32, data: u32): Uart {
    if address == RBR_REG then u.(lsr := Clear(u.lsr, SENT), intPending := false)
    else if address == IER_REG then u.(ier := Keep(ToBits(data), 0xf))
    else if address == LCR_REG then u.(lcr := Keep(ToBits(data), 0x7f))
    else if address == MCR_REG then u.(mcr := Keep(ToBits(data), 0x3))
    else if address == DIV_REG then u.(div := data % 0x1_0000)
    else u
  }

  /** What a read gives, and what it leaves: reading the receive register
      acknowledges the character. */
  function Shown(u: Uart, address: u32): u32 {
    if address == RBR_REG then u.rbr
    else if address == IIR_REG then u.iir
    else if address == LSR_REG then FromBits(u.lsr)
    else if address == MSR_REG then u.msr
    else 0
  }

  function AfterRead(u: Uart, address: u32): Uart {
    if address == RBR_REG then u.(lsr := Clear(u.lsr, DR)) else u
  }

  predicate Sending(u: Uart) {
    !On(u.lsr, SENT)
  }

  /** Time passes for the transmitter; a start time of 0 means "not started". */
  function Transmitted(fast: bool, u: Uart, time: int): Uart {
    var v := if Sending(u) && u.start == 0 then u.(start := time) else u;
    if time >= v.start + CharacterTime(fast) then v.(start := 0, lsr := Set(v.lsr, SENT)) else v
  }

  function Received(u: Uart, input: Option<u8>): Uart {
    match input
    case Some(ch) => u.(rbr := ch, lsr := Set(u.lsr, DR))
    case None => u
  }

  /** The interrupt that the registers call for: errors, then received data, then
      room to transmit. */
  function Cause(u: Uart): u32 {
    if On(u.lsr, OE) && On(u.ier, RLSI) then INT_ERR
    else if On(u.lsr, DR) && On(u.ier, RBRI) then INT_RDR
    else if On(u.lsr, THRR) && On(u.ier, THRI) then INT_EMP
    else INT_NONE
  }

  function Identified(u: Uart): Uart {
    u.(iir := Cause(u), intPending := u.intPending || Cause(u) != INT_NONE)
  }

  function Ticked(fast: bool, u: Uart, time: int, input: Option<u8>): Uart {
    Identified(Received(Transmitted(fast, u, time), input))
  }

  /** The matcher: how many characters of the exit string have been seen. */
  function Next(i: nat, ch: u8): (j: nat)
    requires i < EXIT_LENGTH
    ensures j <= EXIT_LENGTH
  {
    if ch == EXIT_STRING[i] then i + 1
    else if ch == EXIT_STRING[0] then 1
    else 0
  }

  // ---------------------------------------------------------------------------
  // The bank of UARTs, updated in place
  // ---------------------------------------------------------------------------

  class UartBank {
    /** Was the system built with LM32_FAST_COMPILE? */
    const fast: bool
    const unit: array<Uart>
    /** One keyboard only, so one matcher for the whole bank. */
    var termIdx: nat
    /** Characters sent to the terminal. */
    var output: seq<u8>

    predicate Valid() {
      unit.Length == NUM_UARTS
    }

    constructor (fast: bool)
      ensures Valid() && fresh(unit) && this.fast == fast
      ensures forall c :: 0 <= c < NUM_UARTS ==> unit[c] == ResetUart()
      ensures termIdx == 0 && output == []
    {
      this.fast := fast;
      unit := new Uart[NUM_UARTS](_ => ResetUart());
      termIdx, output := 0, [];
    }

    method Write(address: u32, data: u32, c: nat)
      requires Valid() && c < NUM_UARTS
      modifies unit, `output
      ensures unit[..] == old(unit[..])[c := Written(old(unit[c]), address, data)]
      ensures output == old(output) + if address == RBR_REG then [data % 0x100] else []
    {
      hide Clear, Keep, ToBits;
      if address == RBR_REG {
        output := output + [data % 0x100];
        unit[c] := unit[c].(lsr := Clear(unit[c].lsr, SENT));
        unit[c] := unit[c].(intPending := false);
      } else if address == IER_REG {
        unit[c] := unit[c].(ier := Keep(ToBits(data), 0xf));
      } else if address == LCR_REG {
        unit[c] := unit[c].(lcr := Keep(ToBits(data), 0x7f));
      } else if address == MCR_REG {
        unit[c] := unit[c].(mcr := Keep(ToBits(data), 0x3));
      } else if address == DIV_REG {
        unit[c] := unit[c].(div := data % 0x1_0000);
      }
    }

    method Read(address: u32, c: nat) returns (data: u32)
      requires Valid() && c < NUM_UARTS
      modifies unit
      ensures unit[..] == old(unit[..])[c := AfterRead(old(unit[c]), address)]
      ensures data == Shown(old(unit[c]), address)
    {
      hide Clear;
      data := 0;
      if address == RBR_REG {
        data := unit[c].rbr;
        unit[c] := unit[c].(lsr := Clear(unit[c].lsr, DR));
      } else if address == IIR_REG {
        data := unit[c].iir;
      } else if address == LSR_REG {
        data := FromBits(unit[c].lsr);
      } else if address == MSR_REG {
        data := unit[c].msr;
      }
    }

    /** `input` is the character waiting at the keyboard, for the UART that has
        one.  Once the exit string has been matched the index is past the end of
        the string, and the program must not be given further input. */
    method Tick(time: int, input: Option<u8>, c: nat) returns (irq: bool, terminate: bool)
      requires Valid() && c < NUM_UARTS
      requires input.Some? ==> termIdx < EXIT_LENGTH
      modifies unit, `termIdx
      ensures unit[..] == old(unit[..])[c := Ticked(fast, old(unit[c]), time, input)]
      ensures irq <==> Cause(unit[c]) != INT_NONE
      ensures termIdx == if input.Some? then Next(old(termIdx), input.value) else old(termIdx)
      ensures terminate <==> input.Some? && termIdx == EXIT_LENGTH
    {
      hide Transmitted, Identified, Next, Cause, Set;
      irq, terminate := false, false;
      Transmit(time, c);
      if input.Some? {
        terminate := Receive(input.value, c);
      }
      irq := Identify(c);
    }

    /** The transmitter's part of a tick. */
    method Transmit(time: int, c: nat)
      requires Valid() && c < NUM_UARTS
      modifies unit
      ensures unit[..] == old(unit[..])[c := Transmitted(fast, old(unit[c]), time)]
    {
      hide On, Set;
      if !On(unit[c].lsr, SENT) && unit[c].start == 0 {
        unit[c] := unit[c].(start := time);
      }
      if time >= unit[c].start + CharacterTime(fast) {
        unit[c] := unit[c].(start := 0);
        unit[c] := unit[c].(lsr := Set(unit[c].lsr, SENT));
      }
    }

    /** The receiver's part of a tick that finds a character, and the search for
        the exit string. */
    method Receive(ch: u8, c: nat) returns (terminate: bool)
      requires Valid() && c < NUM_UARTS && termIdx < EXIT_LENGTH
      modifies unit, `termIdx
      ensures unit[..] == old(unit[..])[c := Received(old(unit[c]), Some(ch))]
      ensures termIdx == Next(old(termIdx), ch) && (terminate <==> termIdx == EXIT_LENGTH)
    {
      hide On, Set;
      terminate := false;
      unit[c] := unit[c].(rbr := ch);
      unit[c] := unit[c].(lsr := Set(unit[c].lsr, DR));
      if ch == EXIT_STRING[termIdx] {
        termIdx := termIdx + 1;
        if termIdx == EXIT_LENGTH {
          terminate := true;
        }
      } else {
        termIdx := if ch == EXIT_STRING[0] then 1 else 0;
      }
    }

    /** The last part of a tick. */
    method Identify(c: nat) returns (irq: bool)
      requires Valid() && c < NUM_UARTS
      modifies unit
      ensures unit[..] == old(unit[..])[c := Identified(old(unit[c]))]
      ensures irq <==> Cause(unit[c]) != INT_NONE
    {
      hide On;
      irq := false;
      unit[c] := unit[c].(iir := INT_NONE);
      if On(unit[c].lsr, OE) && On(unit[c].ier, RLSI) {
        irq := true;
        unit[c] := unit[c].(intPending := true);
        unit[c] := unit[c].(iir := INT_ERR);
      } else if On(unit[c].lsr, DR) && On(unit[c].ier, RBRI) {
        irq := true;
        unit[c] := unit[c].(intPending := true);
        unit[c] := unit[c].(iir := INT_RDR);
      } else if On(unit[c].lsr, THRR) && On(unit[c].ier, THRI) {
        irq := true;
        unit[c] := unit[c].(intPending := true);
        unit[c] := unit[c].(iir := INT_EMP);
      }
    }
  }

  // ---------------------------------------------------------------------------
  // The exit string
  // ---------------------------------------------------------------------------

  /** Give the input to the matcher one character at a time, until it terminates
      the simulation; the index reached and the number of characters taken. */
  function Scan(i: nat, s: seq<u8>): (r: (nat, nat))
    requires i <= EXIT_LENGTH
    ensures r.0 <= EXIT_LENGTH && r.1 <= |s|
    decreases |s|
  {
    if s == [] || i == EXIT_LENGTH then (i, 0)
    else
      var (j, n) := Scan(Next(i, s[0]), s[1..]);
      (j, n + 1)
  }

  predicate EndsWith(s: seq<u8>, t: seq<u8>) {
    |t| <= |s| && s[|s| - |t|..] == t
  }

  /** Does `s` end with the first k characters of the exit string? */
  predicate EndsIn(s: seq<u8>, k: nat)
    requires k <= EXIT_LENGTH
  {
    EndsWith(s, EXIT_STRING[..k])
  }

  /** k is the length of the longest prefix of the exit string that `s` ends with. */
  predicate Longest(s: seq<u8>, k: nat) {
    && k <= EXIT_LENGTH && EndsIn(s, k)
    && forall j :: k < j <= EXIT_LENGTH ==> !EndsIn(s, j)
  }

  predicate Unfinished(s: seq<u8>) {
    forall p :: 0 <= p < |s| ==> !EndsWith(s[..p], EXIT_STRING)
  }

  lemma EndsInPush(s: seq<u8>, ch: u8, k: nat)
    requires 0 < k <= EXIT_LENGTH
    ensures EndsIn(s + [ch], k) <==> EndsIn(s, k - 1) && ch == EXIT_STRING[k - 1]
  {
    var t, u := s + [ch], EXIT_STRING[..k];
    assert u == EXIT_STRING[..k - 1] + [EXIT_STRING[k - 1]];
    if k <= |s| + 1 {
      assert t[|t| - k..] == s[|s| - (k - 1)..] + [ch];
      if t[|t| - k..] == u {
        assert t[|t| - k..][..k - 1] == u[..k - 1] && t[|t| - k..][k - 1] == u[k - 1];
      }
    }
  }

  /** The exit string does not overlap itself: it starts with the one '#'. */
  lemma NoOverlap(s: seq<u8>, i: nat, k: nat)
    requires 0 < k < i <= EXIT_LENGTH && EndsIn(s, i)
    ensures !EndsIn(s, k)
  {
    assert s[|s| - k] == s[|s| - i..][i - k] == EXIT_STRING[i - k];
    assert s[|s| - k] == s[|s| - k..][0] && EXIT_STRING[..k][0] == EXIT_STRING[0];
  }

  /** One character: falling back to 1 or 0 loses nothing. */
  lemma NextIsLongest(s: seq<u8>, i: nat, ch: u8)
    requires i < EXIT_LENGTH && Longest(s, i)
    ensures Longest(s + [ch], Next(i, ch))
  {
    hide EndsIn;
    Nothing(s + [ch]);
    Nothing(s);
    forall k | 0 < k <= EXIT_LENGTH
      ensures EndsIn(s + [ch], k) <==> EndsIn(s, k - 1) && ch == EXIT_STRING[k - 1]
      ensures 1 < k <= i ==> !EndsIn(s, k - 1)
    {
      EndsInPush(s, ch, k);
      if 1 < k <= i {
        NoOverlap(s, i, k - 1);
      }
    }
  }

  lemma Nothing(s: seq<u8>)
    ensures EndsIn(s, 0)
  {
    assert s[|s|..] == [];
  }

  lemma {:induction false} ScanFrom(pre: seq<u8>, i: nat, s: seq<u8>)
    requires i <= EXIT_LENGTH && Longest(pre, i) && Unfinished(pre)
    ensures var (k, n) := Scan(i, s);
      && Longest(pre + s[..n], k) && Unfinished(pre + s[..n])
      && (n < |s| ==> k == EXIT_LENGTH)
    decreases |s|
  {
    hide Longest, Next;
    if s == [] || i == EXIT_LENGTH {
      assert pre + s[..0] == pre;
    } else {
      var more := pre + [s[0]];
      assert Longest(more, Next(i, s[0])) by { NextIsLongest(pre, i, s[0]); }
      assert !EndsWith(pre, EXIT_STRING) by { LongestIsNotAll(pre, i); }
      assert forall p :: 0 <= p < |pre| ==> more[..p] == pre[..p];
      assert more[..|pre|] == pre;
      assert Unfinished(more);
      ScanFrom(more, Next(i, s[0]), s[1..]);
      var (k, n) := Scan(Next(i, s[0]), s[1..]);
      assert Scan(i, s) == (k, n + 1);
      assert more + s[1..][..n] == pre + s[..n + 1];
    }
  }

  lemma LongestIsNotAll(s: seq<u8>, i: nat)
    requires Longest(s, i)
    ensures EndsWith(s, EXIT_STRING) <==> i == EXIT_LENGTH
  {
    assert EXIT_STRING[..EXIT_LENGTH] == EXIT_STRING;
    assert EndsIn(s, EXIT_LENGTH) <==> EndsWith(s, EXIT_STRING);
    hide EndsIn;
  }

  /** Up to the first termination the index is always the length of the longest
      prefix of the exit string that the input ends with.  So the simulation
      terminates if the input ever contains the exit string, and with the first
      character that completes it. */
  lemma MatcherIsExact(s: seq<u8>)
    ensures var (k, n) := Scan(0, s);
      && Longest(s[..n], k) && Unfinished(s[..n])
      && (k != EXIT_LENGTH ==> n == |s|)
      && (k == EXIT_LENGTH <==> exists p :: 0 <= p <= |s| && EndsWith(s[..p], EXIT_STRING))
  {
    var (k, n) := Scan(0, s);
    StartsWithNothing();
    hide Longest, EndsWith, Unfinished;
    ScanFrom([], 0, s);
    assert [] + s[..n] == s[..n];
    LongestIsNotAll(s[..n], k);
    if k == EXIT_LENGTH {
      assert EndsWith(s[..n], EXIT_STRING);
    } else {
      assert s[..n] == s;
      NoEarlier(s);
    }
  }

  lemma StartsWithNothing()
    ensures Longest([], 0) && Unfinished([])
  {
  }

  lemma NoEarlier(s: seq<u8>)
    requires Unfinished(s) && !EndsWith(s, EXIT_STRING)
    ensures forall p :: 0 <= p <= |s| ==> !EndsWith(s[..p], EXIT_STRING)
  {
    hide EndsWith;
    assert s[..|s|] == s;
  }

  // ---------------------------------------------------------------------------
  // The transmitter
  // ---------------------------------------------------------------------------

  function TransmittedAll(fast: bool, u: Uart, times: seq<int>): Uart
    decreases |times|
  {
    if times == [] then u else TransmittedAll(fast, Transmitted(fast, u, times[0]), times[1..])
  }

  predicate InOrder(times: seq<int>) {
    forall i, j :: 0 <= i < j < |times| ==> times[i] <= times[j]
  }

  lemma SentBits(s: Bits)
    ensures On(Set(s, SENT), SENT) && !On(Clear(s, SENT), SENT)
  {
  }

  lemma {:induction false} StaysSent(fast: bool, u: Uart, times: seq<int>)
    requires !Sending(u)
    ensures !Sending(TransmittedAll(fast, u, times))
    decreases |times|
  {
    SentBits(u.lsr);
    hide On, Set;
    if times != [] {
      StaysSent(fast, Transmitted(fast, u, times[0]), times[1..]);
    }
  }

  lemma {:induction false} StillSending(fast: bool, u: Uart, times: seq<int>)
    requires Sending(u) && u.start > 0 && InOrder(times)
    ensures Sending(TransmittedAll(fast, u, times))
            <==> times == [] || times[|times| - 1] < u.start + CharacterTime(fast)
    decreases |times|
  {
    SentBits(u.lsr);
    hide On, Set;
    if times != [] {
      var v := Transmitted(fast, u, times[0]);
      if times[0] >= u.start + CharacterTime(fast) {
        StaysSent(fast, v, times[1..]);
        assert times[0] <= times[|times| - 1];
      } else {
        assert v == u;
        StillSending(fast, u, times[1..]);
        if |times| > 1 {
          assert times[1..][|times| - 2] == times[|times| - 1];
        }
      }
    }
  }

  /** A character takes its full time, counted from the first tick after it was
      written, however many ticks there are in between.  One that is written while
      another is being sent goes out with it, at the time counted for that. */
  lemma TakesCharacterTime(fast: bool, u: Uart, ch: u32, times: seq<int>)
    requires u.start >= 0 && times != [] && times[0] > 0 && InOrder(times)
    ensures var v := TransmittedAll(fast, Written(u, RBR_REG, ch), times);
      var begun := if u.start == 0 then times[0] else u.start;
      !Sending(v) <==> times[|times| - 1] >= begun + CharacterTime(fast)
  {
    var v := Written(u, RBR_REG, ch);
    SentBits(u.lsr);
    hide On, Clear;
    assert Sending(v);
    if u.start == 0 {
      forall i, j | 0 <= i < j < |times[1..]|
        ensures times[1..][i] <= times[1..][j]
      {
        assert times[i + 1] <= times[j + 1];
      }
      StillSending(fast, Transmitted(fast, v, times[0]), times[1..]);
      if |times| > 1 {
        assert times[1..][|times| - 2] == times[|times| - 1];
      }
    } else {
      StillSending(fast, v, times);
    }
  }

  // ---------------------------------------------------------------------------
  // Constants
  // ---------------------------------------------------------------------------

  /** What the user types to leave, with the newline. */
  lemma ExitIsTyped()
    ensures |EXIT_STRING| == |"#!exit!\n"|
    ensures forall k :: 0 <= k < EXIT_LENGTH ==> EXIT_STRING[k] == "#!exit!\n"[k] as int
  {
  }

  /** A character takes the time of eleven bits at 115200 baud, of whole cycles of a
      10 MHz clock each. */
  lemma ElevenBits()
    ensures CharacterTime(false) == 11 * (10_000_000 / 115_200) && CharacterTime(true) == 1
  {
  }
}
