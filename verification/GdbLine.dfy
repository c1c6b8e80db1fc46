/** What every packet carries on the line, and how a session ends. */
module GdbLine {
  import opened Words
  import opened Arch
  import opened Execution
  import opened Timing
  import opened Gdb
  import opened GdbSession

  // ---------------------------------------------------------------------------
  // Characters and checksums
  // ---------------------------------------------------------------------------

  const HEX_CHARS: string := "0123456789abcdef"
  const UPPER_CHARS: string := "0123456789ABCDEF"

  /** Replies are written with lower-case letters, and both cases are read. */
  lemma LowerCase(n: nat)
    requires n < 16
    ensures HexChar(n) == HEX_CHARS[n] as int
    ensures Nibble(HEX_CHARS[n] as int) == n && Nibble(UPPER_CHARS[n] as int) == n
  {
  }

  /** A character that is no digit counts from A = 10 on, as a signed one. */
  lemma NoDigit(c: u8)
    requires !IsHexDigit(c)
    ensures Nibble(c) == (if c < 128 then c else c - 256) - 'A' as int + 10
  {
  }

  /** The sum of some bytes, taken from the front. */
  function Total(s: seq<u8>): nat {
    if s == [] then 0 else s[0] + Total(s[1..])
  }

  lemma {:induction false} TotalAppend(s: seq<u8>, b: u8)
    ensures Total(s + [b]) == Total(s) + b
  {
    if s == [] {
      assert Total([b]) == b + Total([]);
    } else {
      assert (s + [b])[1..] == s[1..] + [b];
      TotalAppend(s[1..], b);
    }
  }

  /** A packet ends in two digits for the sum of its bytes modulo 256, by which the
      debugger knows that it came through. */
  lemma {:induction false} ChecksumIsSum(body: seq<u8>)
    ensures Sum(body) == Total(body) % 0x100
    ensures var p := Framed(body); var n := |p|;
      && n == |body| + 4 && p[0] == '$' as int && p[1..n - 3] == body && p[n - 3] == '#' as int
      && IsHex(p[n - 2..]) && HexFrom(0, p[n - 2..]) == Total(body) % 0x100
  {
    SumIsTotal(body);
    PairReads(Sum(body));
    hide Sum, Total, HexPair, IsHexDigit, HexFrom;
    var p := Framed(body);
    assert p[|p| - 2..] == HexPair(Sum(body));
  }

  lemma {:induction false} SumIsTotal(s: seq<u8>)
    ensures Sum(s) == Total(s) % 0x100
  {
    if s != [] {
      var n := |s| - 1;
      assert s == s[..n] + [s[n]];
      SumIsTotal(s[..n]);
      TotalAppend(s[..n], s[n]);
      SumOfRemainder(Total(s[..n]), s[n]);
      hide Total;
    }
  }

  lemma SumOfRemainder(x: nat, y: nat)
    ensures (x % 0x100 + y) % 0x100 == (x + y) % 0x100
  {
    var z := x % 0x100 + y;
    assert x + y == 0x100 * (x / 0x100 + z / 0x100) + z % 0x100;
    ModUnique(x + y, 0x100, x / 0x100 + z / 0x100, z % 0x100);
  }

  lemma PairReads(v: u8)
    ensures IsHex(HexPair(v)) && HexFrom(0, HexPair(v)) == v
  {
    hide HexPair, HexChar;
    PairEncodes(v);
    var p := HexPair(v);
    assert IsHexDigit(p[0]) && IsHexDigit(p[1]);
    assert p[1..][1..] == [] && p[1..][0] == p[1];
    assert HexFrom(0, p) == HexFrom(16 * 0 + Nibble(p[0]), p[1..]);
  }

  /** Escaping turns over bit 5 of a byte. */
  lemma EscapeIsXor(c: u8)
    ensures Flip(c) == Xor32(c, 0x20)
  {
    var h := c / 0x20;
    assert c / 2 / 2 / 2 / 2 / 2 == h;
    assert BitAnd(h, 1) == h % 2 by {
      assert BitAnd(h / 2, 0) == 0;
    }
    NoBit(c / 2 / 2 / 2 / 2, 1);
    NoBit(c / 2 / 2 / 2, 2);
    NoBit(c / 2 / 2, 4);
    NoBit(c / 2, 8);
    NoBit(c, 16);
    hide BitAnd;
  }

  lemma NoBit(a: nat, b: nat)
    ensures BitAnd(a, 2 * b) == 2 * BitAnd(a / 2, b)
  {
    assert 2 * b / 2 == b && 2 * b % 2 == 0;
    assert a == 0 ==> a / 2 == 0;
  }

  // ---------------------------------------------------------------------------
  // Commands without an address
  // ---------------------------------------------------------------------------

  /** A packet with any other command, whatever follows its letter. */
  function Letter(c: u8, more: seq<u8>): seq<u8> {
    [c] + more
  }

  lemma LetterPlain(c: u8, more: seq<u8>)
    requires Plain(more) && c != EOP && c != DELIM
    ensures Plain(Letter(c, more))
  {
    forall k | 0 <= k < |Letter(c, more)|
      ensures Letter(c, more)[k] != EOP && Letter(c, more)[k] != DELIM
    {
      if k > 0 {
        assert Letter(c, more)[k] == more[k - 1];
      }
    }
  }

  /** D is acknowledged and answered with OK, k is only acknowledged; after either
      the stub lets go of the connection, whatever else is on it. */
  lemma LastPacket(cfg: Config, m: Machine, buf: Buffer, kill: bool, more: seq<u8>, rest: seq<u8>)
    requires Sound(cfg, m) && Plain(more) && |more| + 1 < BUFFER_SIZE
    ensures Serve(cfg, m, Link(false, buf, 0), [SOP] + Letter(if kill then 0x6b else 0x44, more) + [EOP] + rest)
            == Session(m, [ACK] + (if kill then [] else Framed(OK)), HostDetached)
  {
    hide Serve, Framed;
    var idle := Link(false, buf, 0);
    var cmd := Letter(if kill then 0x6b else 0x44, more);
    LetterPlain(cmd[0], more);
    assert [SOP] + cmd + [EOP] + rest == [SOP] + (cmd + ([EOP] + rest));
    ServeCharacter(cfg, m, idle, SOP, cmd + ([EOP] + rest));
    TakesIn(cfg, m, Link(true, buf, 0), cmd, [EOP] + rest);
    var l := Filled(Link(true, buf, 0), cmd);
    assert l.buf[..|cmd|] == cmd && l.buf[0] == cmd[0];
    ServeCommand(cfg, m, l, EOP, rest);
    assert [ACK] + [] == [ACK];
  }

  /** A colon ends a packet only where write data follows. */
  lemma {:induction false} TakesColons(cfg: Config, m: Machine, l: Link, more: seq<u8>, rest: seq<u8>)
    requires Sound(cfg, m) && l.active && 0 < l.idx && l.idx + |more| < BUFFER_SIZE && EOP !in more
    requires l.buf[0] != BINARY_CMD && l.buf[0] != WRITE_CMD
    ensures Serve(cfg, m, l, more + rest) == Serve(cfg, m, Filled(l, more), rest)
    decreases |more|
  {
    hide Serve;
    if more == [] {
      assert more + rest == rest;
      assert l.buf[..l.idx] + more + l.buf[l.idx..] == l.buf;
    } else {
      assert more + rest == [more[0]] + (more[1..] + rest);
      ServeCharacter(cfg, m, l, more[0], more[1..] + rest);
      var next := Received(l, more[0]);
      assert next.buf[..next.idx] == l.buf[..l.idx] + [more[0]];
      assert Filled(next, more[1..]).buf == Filled(l, more).buf;
      TakesColons(cfg, m, next, more[1..], rest);
    }
  }

  /** A command that the stub does not have is answered with an empty packet, and
      the session goes on. */
  lemma UnknownPacket(cfg: Config, m: Machine, buf: Buffer, c: u8, more: seq<u8>, rest: seq<u8>)
    returns (buf2: Buffer)
    requires Sound(cfg, m) && EOP !in more && |more| + 1 < BUFFER_SIZE
    requires !NotModelled(c) && c != EOP && c != DELIM && c as char !in "mXMDkZz"
    ensures Serve(cfg, m, Link(false, buf, 0), [SOP] + Letter(c, more) + [EOP] + rest)
            == Sent([ACK] + Framed([]), Serve(cfg, m, Link(false, buf2, 0), rest))
  {
    hide Serve, Framed, Sent;
    var all := more + ([EOP] + rest);
    assert [SOP] + Letter(c, more) + [EOP] + rest == [SOP] + ([c] + all);
    ServeCharacter(cfg, m, Link(false, buf, 0), SOP, [c] + all);
    ServeCharacter(cfg, m, Link(true, buf, 0), c, all);
    var l := Link(true, buf[0 := c], 1);
    TakesColons(cfg, m, l, more, [EOP] + rest);
    var f := Filled(l, more);
    assert f.buf[0] == c;
    ServeCommand(cfg, m, f, EOP, rest);
    buf2 := f.buf[f.idx := 0];
  }

  /** And so are Z and z with a kind of breakpoint that the stub does not have, such
      as the software breakpoints of Z0. */
  lemma UnknownBreakpoint(cfg: Config, m: Machine, buf: Buffer, clear: bool, more: seq<u8>, rest: seq<u8>)
    returns (buf2: Buffer)
    requires Sound(cfg, m) && Plain(more) && 0 < |more| && |more| + 1 < BUFFER_SIZE
    requires more[0] as char !in "1234"
    ensures Serve(cfg, m, Link(false, buf, 0), [SOP] + Letter(if clear then 0x7a else 0x5a, more) + [EOP] + rest)
            == Sent([ACK] + Framed([]), Serve(cfg, m, Link(false, buf2, 0), rest))
  {
    hide Serve, Framed, Sent;
    var c: u8 := if clear then 0x7a else 0x5a;
    LetterPlain(c, more);
    buf2 := PacketRuns(cfg, m, buf, Letter(c, more), EOP, rest);
    assert buf2[0] == buf2[..|more| + 1][0] == c;
    assert buf2[1] == buf2[..|more| + 1][1] == more[0];
  }

  // ---------------------------------------------------------------------------
  // Reading
  // ---------------------------------------------------------------------------

  /** A read is answered exactly when its reply, framed and with the zero that ends
      it in the buffer, fits there. */
  lemma RoomForReply(cfg: Config, m: Machine, cmd: Buffer, n: nat, rest: seq<u8>)
    requires Sound(cfg, m) && n < BUFFER_SIZE
    ensures var (addr, i) := Number(cmd, 1, n, COMMA, 0);
      var text := Dump(cfg, m, addr, Number(cmd, i + 1, n, -1, 0).0).0;
      DoRead(cfg, m, cmd, n, rest).verdict
      == if |Framed(text)| + 1 <= BUFFER_SIZE then Replied(text) else Unspecified
  {
    hide Number, Dump, HexPair, Sum;
  }

  /** Reading where there is no memory gives zeros, and raises nothing. */
  lemma PeekOutside(cfg: Config, m: Machine, v: u32)
    requires Sound(cfg, m) && !On(m.a.csr.psw, DTLBE) && cfg.g.base + cfg.g.size < v
    ensures Peek(cfg, m, v).0 == 0 && Peek(cfg, m, v).1.a == m.a
  {
    hide On, ReadTime, Watched;
  }
}
