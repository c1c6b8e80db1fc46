/** Breakpoints over the line: to the debugger the four registers are a bag of
    addresses with room for four. */
module GdbBreakpoints {
  import opened Words
  import opened Arch
  import opened Execution
  import opened Timing
  import opened Gdb
  import opened GdbSession
  import opened Breakpoints

  /** A Z1 or z1 packet: digits for the address, what the debugger says about the
      kind of breakpoint, and what follows the packet up to the next one. */
  datatype BpPacket = BpPacket(clear: bool, addr: seq<u8>, kind: seq<u8>, trailer: seq<u8>)

  predicate BpInOrder(p: BpPacket) {
    && IsHex(p.addr) && HexFrom(0, p.addr) < 0x1_0000_0000 && Plain(p.kind) && SOP !in p.trailer
    && |p.addr| + |p.kind| + 4 < BUFFER_SIZE
  }

  /** `Z1,addr,kind` or `z1,addr,kind`. */
  function BpCommand(p: BpPacket): seq<u8> {
    [if p.clear then 0x7a else 0x5a, 0x31, 0x2c] + p.addr + [0x2c] + p.kind
  }

  function BpWire(p: BpPacket, rest: seq<u8>): seq<u8> {
    [SOP] + BpCommand(p) + [EOP] + (p.trailer + rest)
  }

  /** What the debugger sees: the bag after a packet, and the reply. */
  predicate Accepted(bag: multiset<u32>, p: BpPacket)
    requires BpInOrder(p)
  {
    if p.clear then Aligned(HexFrom(0, p.addr)) in bag else |bag| < 4
  }

  function BagAfter(bag: multiset<u32>, p: BpPacket): multiset<u32>
    requires BpInOrder(p)
  {
    var one := multiset{Aligned(HexFrom(0, p.addr))};
    if !Accepted(bag, p) then bag else if p.clear then bag - one else bag + one
  }

  /** OK, or E1c: no space left on device. */
  function BpReply(bag: multiset<u32>, p: BpPacket): seq<u8>
    requires BpInOrder(p)
  {
    if Accepted(bag, p) then [0x4f, 0x4b] else [0x45, 0x31, 0x63]
  }

  /** m2 is m with other breakpoint registers. */
  predicate SameButBreakpoints(m: Machine, m2: Machine) {
    m2 == m.(a := m.a.(csr := m.a.csr.(bp := m2.a.csr.bp)))
  }

  lemma BpShape(p: BpPacket)
    requires BpInOrder(p)
    ensures Plain(BpCommand(p)) && |BpCommand(p)| == |p.addr| + |p.kind| + 4
  {
    var cmd := BpCommand(p);
    forall k | 0 <= k < |cmd|
      ensures cmd[k] != EOP && cmd[k] != DELIM
    {
      if 3 <= k < 3 + |p.addr| {
        assert IsHexDigit(p.addr[k - 3]);
      } else if k > 3 + |p.addr| {
        assert cmd[k] == p.kind[k - 4 - |p.addr|];
      }
    }
  }

  /** The buffer after the packet is read back as sent. */
  lemma BpRead(buf: Buffer, p: BpPacket)
    requires BpInOrder(p) && buf[..|p.addr| + |p.kind| + 4] == BpCommand(p)
    ensures buf[0] == (if p.clear then CLEAR_CMD else SET_CMD) && buf[1] == 0x31
    ensures Number(buf, 3, BUFFER_SIZE, COMMA, 0) == (HexFrom(0, p.addr), 3 + |p.addr|)
  {
    hide Number, HexFrom;
    var n := |p.addr| + |p.kind| + 4;
    var cmd := BpCommand(p);
    assert forall k :: 0 <= k < n ==> buf[k] == buf[..n][k] == cmd[k];
    assert buf[3..3 + |p.addr|] == p.addr;
    NumberIsHex(buf, 3, BUFFER_SIZE, COMMA as int, 0, p.addr);
  }

  function RegistersAfter(bp: Quad, p: BpPacket): Option<Quad>
    requires BpInOrder(p)
  {
    if p.clear then BreakpointCleared(bp, HexFrom(0, p.addr)) else BreakpointSet(bp, HexFrom(0, p.addr))
  }

  /** The command on the registers is the one on the bag. */
  lemma RegistersAreBag(bp: Quad, p: BpPacket)
    requires BpInOrder(p) && WellKept(bp)
    ensures var r := RegistersAfter(bp, p);
      && (r.Some? <==> Accepted(Active(bp), p))
      && (r.Some? ==> WellKept(r.value) && Active(r.value) == BagAfter(Active(bp), p))
  {
    hide HexFrom, BreakpointSet, BreakpointCleared, Active, WellKept, Aligned, IsHexDigit;
    var addr: u32 := HexFrom(0, p.addr);
    SetAdds(bp, addr);
    ClearRemoves(bp, addr);
    SetKeeps(bp, addr);
  }

  lemma BpDone(m: Machine, buf: Buffer, p: BpPacket, rest: seq<u8>)
    requires BpInOrder(p) && buf[..|p.addr| + |p.kind| + 4] == BpCommand(p)
    ensures var d := DoBreakpoint(m, buf, rest); var r := RegistersAfter(m.a.csr.bp, p);
      && d.rest == rest && d.verdict == Replied(if r.Some? then OK else [0x45, 0x31, 0x63])
      && SameButBreakpoints(m, d.m)
      && d.m.a.csr.bp == if r.Some? then r.value else m.a.csr.bp
  {
    hide Number, HexFrom, BreakpointSet, BreakpointCleared, BpInOrder, BpCommand;
    BpRead(buf, p);
    assert |p.addr| + 3 < BUFFER_SIZE by { BpFits(p); }
    var nospace := HexPair(ENOSPC);
    assert nospace == [0x31, 0x63];
    assert [0x45] + nospace == [0x45, 0x31, 0x63];
  }

  lemma BpFits(p: BpPacket)
    requires BpInOrder(p)
    ensures |p.addr| + |p.kind| + 4 < BUFFER_SIZE
  {
  }

  lemma OneBpPacket(cfg: Config, m: Machine, buf: Buffer, p: BpPacket, rest: seq<u8>)
    returns (m2: Machine, buf2: Buffer)
    requires Sound(cfg, m) && BpInOrder(p) && WellKept(m.a.csr.bp)
    ensures Sound(cfg, m2) && SameButBreakpoints(m, m2) && WellKept(m2.a.csr.bp)
    ensures Active(m2.a.csr.bp) == BagAfter(Active(m.a.csr.bp), p)
    ensures Serve(cfg, m, Link(false, buf, 0), BpWire(p, rest))
            == Sent([ACK] + Framed(BpReply(Active(m.a.csr.bp), p)), Serve(cfg, m2, Link(false, buf2, 0), rest))
  {
    hide Serve, Framed, Sent, BpCommand, BpInOrder, BagAfter, Accepted, RegistersAfter, Active, WellKept, DoBreakpoint;
    BpShape(p);
    BpStarts(p);
    buf2 := PacketRuns(cfg, m, buf, BpCommand(p), EOP, p.trailer + rest);
    RegistersAreBag(m.a.csr.bp, p);
    BpDone(m, buf2, p, p.trailer + rest);
    NotAccepted(Active(m.a.csr.bp), p);
    BpRead(buf2, p);
    m2 := DoBreakpoint(m, buf2, p.trailer + rest).m;
    Ignores(cfg, m2, buf2, p.trailer, rest);
  }

  lemma NotAccepted(bag: multiset<u32>, p: BpPacket)
    requires BpInOrder(p)
    ensures !Accepted(bag, p) ==> BagAfter(bag, p) == bag
  {
  }

  lemma BpStarts(p: BpPacket)
    requires BpInOrder(p)
    ensures 0 < |BpCommand(p)| < BUFFER_SIZE && SOP !in p.trailer
  {
  }

  predicate AllBpInOrder(ps: seq<BpPacket>) {
    forall k :: 0 <= k < |ps| ==> BpInOrder(ps[k])
  }

  function BpWireAll(ps: seq<BpPacket>, rest: seq<u8>): seq<u8> {
    if ps == [] then rest else BpWire(ps[0], BpWireAll(ps[1..], rest))
  }

  function BagAll(bag: multiset<u32>, ps: seq<BpPacket>): multiset<u32>
    requires AllBpInOrder(ps)
    decreases |ps|
  {
    hide BpInOrder, BagAfter;
    if ps == [] then bag
    else
      assert BpInOrder(ps[0]);
      assert forall k :: 0 <= k < |ps[1..]| ==> ps[1..][k] == ps[k + 1];
      BagAll(BagAfter(bag, ps[0]), ps[1..])
  }

  function BpOutput(bag: multiset<u32>, ps: seq<BpPacket>): seq<u8>
    requires AllBpInOrder(ps)
    decreases |ps|
  {
    hide BpInOrder, BagAfter, BpReply, Framed;
    if ps == [] then []
    else
      assert BpInOrder(ps[0]);
      assert forall k :: 0 <= k < |ps[1..]| ==> ps[1..][k] == ps[k + 1];
      [ACK] + Framed(BpReply(bag, ps[0])) + BpOutput(BagAfter(bag, ps[0]), ps[1..])
  }

  /** Whatever breakpoints the debugger sets and clears, in whatever order, it is
      answered as a bag of at most four addresses would answer it, and the session
      goes on with a machine whose breakpoints are that bag. */
  lemma {:induction false} SessionIsBag(cfg: Config, m: Machine, buf: Buffer, ps: seq<BpPacket>, rest: seq<u8>)
    returns (m2: Machine, buf2: Buffer)
    requires Sound(cfg, m) && AllBpInOrder(ps) && WellKept(m.a.csr.bp)
    ensures Sound(cfg, m2) && SameButBreakpoints(m, m2) && WellKept(m2.a.csr.bp)
    ensures Active(m2.a.csr.bp) == BagAll(Active(m.a.csr.bp), ps)
    ensures Serve(cfg, m, Link(false, buf, 0), BpWireAll(ps, rest))
            == Sent(BpOutput(Active(m.a.csr.bp), ps), Serve(cfg, m2, Link(false, buf2, 0), rest))
    decreases |ps|
  {
    hide Serve, Framed, BpReply, BagAfter, BpInOrder, BpWire, Active, WellKept, Sent;
    if ps == [] {
      m2, buf2 := m, buf;
      SentNothing(Serve(cfg, m, Link(false, buf, 0), rest));
    } else {
      assert BpInOrder(ps[0]);
      assert forall k :: 0 <= k < |ps[1..]| ==> ps[1..][k] == ps[k + 1];
      var bag := Active(m.a.csr.bp);
      var m1, buf1 := OneBpPacket(cfg, m, buf, ps[0], BpWireAll(ps[1..], rest));
      m2, buf2 := SessionIsBag(cfg, m1, buf1, ps[1..], rest);
      SentTwice([ACK] + Framed(BpReply(bag, ps[0])), BpOutput(BagAfter(bag, ps[0]), ps[1..]),
                Serve(cfg, m2, Link(false, buf2, 0), rest));
    }
  }

  lemma SentNothing(s: Session)
    ensures Sent([], s) == s
  {
    assert [] + s.out == s.out;
  }
}
