/** What a UART shows of its history: its registers and its interrupts, told by
    what was written, read and received, in whatever order. */
module UartHistory {
  import opened Words
  import opened LnxUart

  datatype Event = Wr(address: u32, data: u32) | Rd(address: u32) | Tk(time: int, input: Option<u8>)

  function Happened(fast: bool, u: Uart, e: Event): Uart {
    match e
    case Wr(address, data) => Written(u, address, data)
    case Rd(address) => AfterRead(u, address)
    case Tk(time, input) => Ticked(fast, u, time, input)
  }

  /** A UART that has been through all that since reset. */
  function After(fast: bool, es: seq<Event>): Uart {
    if es == [] then ResetUart() else Happened(fast, After(fast, es[..|es| - 1]), es[|es| - 1])
  }

  // ---------------------------------------------------------------------------
  // The history, told backwards
  // ---------------------------------------------------------------------------

  /** Has a character come in that has not been read? */
  predicate Unread(es: seq<Event>) {
    es != [] &&
    match es[|es| - 1]
    case Tk(_, Some(_)) => true
    case Rd(address) => address != 0x00 && Unread(es[..|es| - 1])
    case _ => Unread(es[..|es| - 1])
  }

  /** The last character to come in. */
  function LastIn(es: seq<Event>): u8 {
    if es == [] then 0
    else
      match es[|es| - 1]
      case Tk(_, Some(ch)) => ch
      case _ => LastIn(es[..|es| - 1])
  }

  /** The last word written to a register, or its value at reset. */
  function LastWord(es: seq<Event>, address: u32): u32 {
    if es == [] then 0
    else if es[|es| - 1].Wr? && es[|es| - 1].address == address then es[|es| - 1].data
    else LastWord(es[..|es| - 1], address)
  }

  /** Was anything ever sent? */
  predicate Wrote(es: seq<Event>) {
    es != [] && ((es[|es| - 1].Wr? && es[|es| - 1].address == 0x00) || Wrote(es[..|es| - 1]))
  }

  /** Did a tick call for an interrupt since the last character was sent? */
  predicate Called(fast: bool, es: seq<Event>) {
    es != [] &&
    match es[|es| - 1]
    case Wr(address, _) => address != 0x00 && Called(fast, es[..|es| - 1])
    case Rd(_) => Called(fast, es[..|es| - 1])
    case Tk(_, _) => After(fast, es).iir != 1 || Called(fast, es[..|es| - 1])
  }

  predicate Bit(w: u32, mask: bv32) {
    On(ToBits(w), mask)
  }

  /** The line status holds three bits only, and the two of the transmitter move
      together. */
  predicate StatusForm(lsr: Bits) {
    Clear(lsr, 0x61) == Bits(0) && (On(lsr, 0x20) <==> On(lsr, 0x40))
  }

  /** What the registers hold. */
  predicate Told(fast: bool, es: seq<Event>, u: Uart) {
    && StatusForm(u.lsr)
    && (On(u.lsr, 0x01) <==> Unread(es))
    && u.rbr == LastIn(es)
    && (Wrote(es) || On(u.lsr, 0x20))
    && u.ier == Keep(ToBits(LastWord(es, 0x04)), 0xf)
    && u.lcr == Keep(ToBits(LastWord(es, 0x0c)), 0x7f)
    && u.mcr == Keep(ToBits(LastWord(es, 0x10)), 0x3)
    && u.div == LastWord(es, 0x1c) % 0x1_0000
    && (u.intPending <==> Called(fast, es))
    && (u.start != 0 ==> !On(u.lsr, 0x20))
    && u.msr == 0
  }

  // Bits of the line status.
  lemma WordBits(s: Bits)
    requires StatusForm(s)
    ensures StatusForm(Clear(s, 0x60)) && (On(Clear(s, 0x60), 0x01) <==> On(s, 0x01)) && !On(Clear(s, 0x60), 0x20)
    ensures StatusForm(Clear(s, 0x01)) && !On(Clear(s, 0x01), 0x01) && (On(Clear(s, 0x01), 0x20) <==> On(s, 0x20))
    ensures StatusForm(Set(s, 0x60)) && (On(Set(s, 0x60), 0x01) <==> On(s, 0x01)) && On(Set(s, 0x60), 0x20)
    ensures StatusForm(Set(s, 0x01)) && On(Set(s, 0x01), 0x01) && (On(Set(s, 0x01), 0x20) <==> On(s, 0x20))
    ensures !On(s, 0x02) && (On(s, 0x60) <==> On(s, 0x20))
  {
  }

  /** The registers are those of the history. */
  lemma {:induction false} RegistersTell(fast: bool, es: seq<Event>)
    ensures Told(fast, es, After(fast, es))
  {
    hide Told, Happened;
    if es == [] {
      AtReset();
    } else {
      RegistersTell(fast, es[..|es| - 1]);
      match es[|es| - 1]
      case Wr(address, data) => WriteTells(fast, es);
      case Rd(address) => ReadTells(fast, es);
      case Tk(time, input) => TickTells(fast, es);
    }
  }

  lemma WriteTells(fast: bool, es: seq<Event>)
    requires es != [] && es[|es| - 1].Wr? && Told(fast, es[..|es| - 1], After(fast, es[..|es| - 1]))
    ensures Told(fast, es, After(fast, es))
  {
    hide On, Keep, ToBits, Clear, StatusForm, After, Unread, LastIn, LastWord, Wrote, Called;
    var u := After(fast, es[..|es| - 1]);
    WordBits(u.lsr);
    AfterWrite(fast, es);
    assert After(fast, es) == Written(u, es[|es| - 1].address, es[|es| - 1].data) by { Latest(fast, es); }
  }

  lemma Latest(fast: bool, es: seq<Event>)
    requires es != []
    ensures After(fast, es) == Happened(fast, After(fast, es[..|es| - 1]), es[|es| - 1])
  {
  }

  /** The history after a write. */
  lemma AfterWrite(fast: bool, es: seq<Event>)
    requires es != [] && es[|es| - 1].Wr?
    ensures var before, address, data := es[..|es| - 1], es[|es| - 1].address, es[|es| - 1].data;
      && Unread(es) == Unread(before) && LastIn(es) == LastIn(before)
      && (Wrote(es) <==> address == 0x00 || Wrote(before))
      && (Called(fast, es) <==> address != 0x00 && Called(fast, before))
      && forall r: u32 :: LastWord(es, r) == if r == address then data else LastWord(before, r)
  {
  }

  lemma ReadTells(fast: bool, es: seq<Event>)
    requires es != [] && es[|es| - 1].Rd? && Told(fast, es[..|es| - 1], After(fast, es[..|es| - 1]))
    ensures Told(fast, es, After(fast, es))
  {
    hide On, Keep, ToBits, Clear, StatusForm;
    var u := After(fast, es[..|es| - 1]);
    WordBits(u.lsr);
    assert After(fast, es) == AfterRead(u, es[|es| - 1].address);
  }

  lemma TickTells(fast: bool, es: seq<Event>)
    requires es != [] && es[|es| - 1].Tk? && Told(fast, es[..|es| - 1], After(fast, es[..|es| - 1]))
    ensures Told(fast, es, After(fast, es))
  {
    hide On, Keep, ToBits, Set, Clear, StatusForm, Cause;
    var u, e := After(fast, es[..|es| - 1]), es[|es| - 1];
    WordBits(u.lsr);
    var v := Transmitted(fast, u, e.time);
    WordBits(v.lsr);
    assert After(fast, es) == Identified(Received(v, e.input));
  }

  lemma AtReset()
    ensures Told(true, [], ResetUart()) && Told(false, [], ResetUart())
  {
  }

  /** A tick interrupts for a character that has not been read, when IER bit 0 was
      last written as one; failing that, for an idle transmitter, when bit 1 was;
      and never for an overrun, since a character that comes in before the last
      one was read takes its place and sets no error. */
  lemma InterruptsTell(fast: bool, es: seq<Event>, time: int, input: Option<u8>)
    ensures var now := es + [Tk(time, input)]; var u := After(fast, now); var enabled := LastWord(es, 0x04);
      && Shown(u, 0x08) == (if Unread(now) && Bit(enabled, 0x1) then 4
                            else if On(u.lsr, 0x20) && Bit(enabled, 0x2) then 2
                            else 1)
      && (Cause(u) == Shown(u, 0x08))
      && Shown(u, 0x00) == LastIn(now)
      && !On(u.lsr, 0x02)
  {
    var now := es + [Tk(time, input)];
    assert now[..|now| - 1] == es;
    RegistersTell(fast, now);
    var u := After(fast, now);
    WordBits(u.lsr);
    EnabledBits(ToBits(LastWord(es, 0x04)));
    hide On, ToBits, Keep, StatusForm, Transmitted, Received;
    assert LastWord(now, 0x04) == LastWord(es, 0x04);
  }

  /** In any state the order is: errors, then received data, then room to transmit, each
      if its own enable is on. */
  lemma InterruptOrder(u: Uart)
    ensures var v := Identified(u); var w := Shown(v, 0x08);
      && (w == 6 <==> On(u.lsr, 0x02) && On(u.ier, 0x04))
      && (w == 4 <==> On(u.lsr, 0x01) && On(u.ier, 0x01) && !(On(u.lsr, 0x02) && On(u.ier, 0x04)))
      && (w != 2 <==> w == 6 || w == 4 || !(On(u.lsr, 0x20) && On(u.ier, 0x02)))
      && (w % 2 == 1 <==> w == 1) && (w != 1 ==> v.intPending)
  {
    hide On;
  }

  /** Software that polls: the line status shows an unread character in bit 0, and an
      idle transmitter in bits 5 and 6; no modem status ever shows. */
  lemma StatusShows(fast: bool, es: seq<Event>)
    ensures var u := After(fast, es); var w := Shown(u, 0x14);
      && (Bit(w, 0x01) <==> Unread(es))
      && (Bit(w, 0x20) <==> !Sending(u)) && (Bit(w, 0x40) <==> !Sending(u))
      && Shown(u, 0x18) == 0
  {
    RegistersTell(fast, es);
    var u := After(fast, es);
    WordBits(u.lsr);
    BackToBits(u.lsr);
    hide On, FromBits, ToBits, StatusForm, After, Unread, Keep;
  }

  lemma BackToBits(x: Bits)
    ensures ToBits(FromBits(x)) == x
  {
  }

  lemma EnabledBits(x: Bits)
    ensures On(Keep(x, 0xf), 0x1) <==> On(x, 0x1)
    ensures On(Keep(x, 0xf), 0x2) <==> On(x, 0x2)
  {
  }

  /** Whatever was there before, a character in the tick is the one that is read,
      once; then, with nothing new, the interrupt is gone. */
  lemma ReadOnce(fast: bool, es: seq<Event>, time: int, ch: u8, later: int)
    ensures var got := After(fast, es + [Tk(time, Some(ch))]);
      var read := AfterRead(got, 0x00);
      && Shown(got, 0x00) == ch && On(got.lsr, 0x01)
      && !On(read.lsr, 0x01) && Shown(Ticked(fast, read, later, None), 0x08) != 4
  {
    var one := es + [Tk(time, Some(ch))];
    var two := one + [Rd(0x00)];
    assert one[..|one| - 1] == es && two[..|two| - 1] == one;
    InterruptsTell(fast, es, time, Some(ch));
    RegistersTell(fast, one);
    RegistersTell(fast, two);
    InterruptsTell(fast, two, later, None);
    var three := two + [Tk(later, None)];
    assert three[..|three| - 1] == two;
    hide Told, On, Ticked, Shown;
    assert After(fast, two) == AfterRead(After(fast, one), 0x00);
    assert After(fast, three) == Ticked(fast, After(fast, two), later, None);
    assert Unread(three) == Unread(two);
  }

  /** Whatever it has sent before, an idle UART takes the full time for the next
      character, from the first tick after that was written. */
  lemma EveryCharacterWaits(fast: bool, es: seq<Event>, ch: u32, times: seq<int>)
    requires On(After(fast, es).lsr, 0x20) && times != [] && times[0] > 0 && InOrder(times)
    ensures var v := TransmittedAll(fast, Written(After(fast, es), 0x00, ch), times);
      !Sending(v) <==> times[|times| - 1] >= times[0] + CharacterTime(fast)
  {
    RegistersTell(fast, es);
    TakesCharacterTime(fast, After(fast, es), ch, times);
    hide On, StatusForm, Keep, ToBits, TransmittedAll, Written, InOrder;
  }
}
