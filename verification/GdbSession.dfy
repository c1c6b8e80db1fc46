/** What a debugger can rely on: the packets it sends are taken apart as they were
    put together, and memory that it writes is the memory that it reads. */
module GdbSession {
  import opened Words
  import opened Memory
  import opened Arch
  import opened Timing
  import opened Execution
  import opened Gdb

  // ---------------------------------------------------------------------------
  // Numbers
  // ---------------------------------------------------------------------------

  predicate IsHexDigit(c: u8) {
    0x30 <= c <= 0x39 || 0x61 <= c <= 0x66 || 0x41 <= c <= 0x46
  }

  predicate IsHex(ds: seq<u8>) {
    forall k :: 0 <= k < |ds| ==> IsHexDigit(ds[k])
  }

  /** The value of v followed by some digits. */
  function HexFrom(v: nat, ds: seq<u8>): (r: nat)
    requires IsHex(ds)
    ensures r >= v
    decreases |ds|
  {
    if ds == [] then v
    else
      assert IsHexDigit(ds[0]);
      HexFrom(16 * v + Nibble(ds[0]), ds[1..])
  }

  /** The bits of a new digit fall where the shift has made room. */
  lemma LowNibble(k: nat, b: nat)
    requires b < 16
    ensures BitAnd(16 * k, b) == 0
  {
    assert 16 * k / 2 == 8 * k && 8 * k / 2 == 4 * k && 4 * k / 2 == 2 * k && 2 * k / 2 == k;
    assert b / 2 / 2 / 2 / 2 == 0;
    assert BitAnd(k, 0) == 0;
    assert BitAnd(2 * k, b / 2 / 2 / 2) == 0 by { NoLowBit(k, b / 2 / 2 / 2); }
    assert BitAnd(4 * k, b / 2 / 2) == 0 by { NoLowBit(2 * k, b / 2 / 2); }
    assert BitAnd(8 * k, b / 2) == 0 by { NoLowBit(4 * k, b / 2); }
    NoLowBit(8 * k, b);
  }

  lemma NoLowBit(a: nat, b: nat)
    requires BitAnd(a, b / 2) == 0
    ensures BitAnd(2 * a, b) == 0
  {
    assert 2 * a / 2 == a && 2 * a % 2 == 0;
  }

  lemma ShiftIsDigit(v: nat, c: u8)
    requires IsHexDigit(c) && 16 * v + Nibble(c) < 0x1_0000_0000
    ensures 0 <= Nibble(c) < 16 && Shift(v, c) == 16 * v + Nibble(c)
  {
    LowNibble(v, Nibble(c));
    assert Wrap(16 * v) == 16 * v && Wrap(Nibble(c)) == Nibble(c);
  }

  /** The number loop reads a number. */
  lemma {:induction false} NumberIsHex(buf: seq<u8>, i: nat, n: nat, stop: int, v: u32, ds: seq<u8>)
    requires IsHex(ds) && i + |ds| <= n <= |buf| && buf[i..i + |ds|] == ds
    requires stop == COMMA || stop == DELIM || stop == -1
    requires i + |ds| == n || buf[i + |ds|] == stop
    requires HexFrom(v, ds) < 0x1_0000_0000
    ensures Number(buf, i, n, stop, v) == (HexFrom(v, ds), i + |ds|)
    decreases |ds|
  {
    hide Shift;
    if ds != [] {
      assert buf[i] == buf[i..i + |ds|][0] == ds[0];
      assert IsHexDigit(ds[0]);
      var w := 16 * v + Nibble(ds[0]);
      assert HexFrom(w, ds[1..]) == HexFrom(v, ds);
      ShiftIsDigit(v, ds[0]);
      assert buf[i + 1..i + |ds|] == buf[i..i + |ds|][1..];
      NumberIsHex(buf, i + 1, n, stop, w, ds[1..]);
    }
  }

  // ---------------------------------------------------------------------------
  // Bytes on the line
  // ---------------------------------------------------------------------------

  /** One byte of write data: itself, or escaped, or as two digits. */
  predicate EncodesByte(binary: bool, c: u8, unit: seq<u8>) {
    if binary then (unit == [c] && c != ESC) || unit == [ESC, Flip(c)]
    else
      |unit| == 2 && IsHexDigit(unit[0]) && IsHexDigit(unit[1]) && 16 * Nibble(unit[0]) + Nibble(unit[1]) == c
  }

  predicate Encodes(binary: bool, s: seq<u8>, units: seq<seq<u8>>) {
    |units| == |s| && forall k :: 0 <= k < |s| ==> EncodesByte(binary, s[k], units[k])
  }

  function Flatten(units: seq<seq<u8>>): seq<u8> {
    if units == [] then [] else units[0] + Flatten(units[1..])
  }

  lemma FlipTwice(c: u8)
    ensures Flip(Flip(c)) == c
  {
    var q, r := c / 0x20, c % 0x20;
    if q % 2 == 1 {
      ModUnique(c - 0x20, 0x20, q - 1, r);
    } else {
      ModUnique(c + 0x20, 0x20, q + 1, r);
    }
  }

  lemma ByteOfExt(c: u8)
    ensures SignExt8(c) % 0x100 == c
  {
    if c >= 0x80 {
      ModUnique(SignExt8(c), 0x100, 0xff_ffff, c);
    }
  }

  lemma ByteTaken(binary: bool, c: u8, unit: seq<u8>, rest: seq<u8>)
    requires EncodesByte(binary, c, unit)
    ensures var r := TakeByte(binary, unit + rest);
      r.Some? && r.value.1 == rest && r.value.0 % 0x100 == c
  {
    hide Flip, SignExt8, Shift, Nibble, Wrap;
    var input := unit + rest;
    assert input[|unit|..] == rest;
    assert input[0] == unit[0] && (|unit| == 2 ==> input[1] == unit[1]);
    ByteOfExt(c);
    FlipTwice(c);
    if !binary {
      PairValue(unit[0], unit[1]);
    }
  }

  lemma PairValue(a: u8, b: u8)
    requires IsHexDigit(a) && IsHexDigit(b)
    ensures var v := Shift(Wrap(Nibble(a)), b);
      v == 16 * Nibble(a) + Nibble(b) < 0x100 && v % 0x100 == v
  {
    hide Shift;
    assert Wrap(Nibble(a)) == Nibble(a);
    ShiftIsDigit(Nibble(a), b);
  }

  // ---------------------------------------------------------------------------
  // Memory
  // ---------------------------------------------------------------------------

  /** n bytes from `addr` on lie in RAM. */
  predicate InRam(g: Geometry, addr: int, n: nat) {
    g.base <= addr && addr + n <= g.base + g.size < 0x1_0000_0000
  }

  /** Memory with the bytes of s stored from an address on. */
  function StoredAt(g: Geometry, mem: seq<u8>, addr: u32, s: seq<u8>): (mem': seq<u8>)
    requires Placed(g, mem) && InRam(g, addr, |s|)
    ensures Placed(g, mem')
    decreases |s|
  {
    hide Index;
    if s == [] then mem else StoredAt(g, mem[Index(g, addr) := s[0]], addr + 1, s[1..])
  }

  /** Where the k-th of some bytes is kept. */
  function Place(g: Geometry, addr: u32, k: nat): (i: nat)
    requires InRam(g, addr, k + 1)
    ensures i < g.size
  {
    Index(g, addr + k)
  }

  /** Is byte i of memory none of the n bytes from an address on? */
  predicate Apart(g: Geometry, addr: u32, n: nat, i: nat)
    requires InRam(g, addr, n)
  {
    forall k :: 0 <= k < n ==> Place(g, addr, k) != i
  }

  /** Those bytes are what is there, and no other byte has changed. */
  lemma {:induction false} StoredBytes(g: Geometry, mem: seq<u8>, addr: u32, s: seq<u8>)
    requires Placed(g, mem) && InRam(g, addr, |s|)
    ensures forall k :: 0 <= k < |s| ==> StoredAt(g, mem, addr, s)[Place(g, addr, k)] == s[k]
    ensures forall i :: 0 <= i < g.size && Apart(g, addr, |s|, i) ==> StoredAt(g, mem, addr, s)[i] == mem[i]
    decreases |s|
  {
    hide Index;
    if s != [] {
      var next: u32 := addr + 1;
      var first := mem[Place(g, addr, 0) := s[0]];
      StoredBytes(g, first, next, s[1..]);
      forall k | 0 <= k < |s[1..]|
        ensures Place(g, addr, k + 1) == Place(g, next, k) != Place(g, addr, 0)
      {
        IndexInjective(g, addr, addr + (k + 1));
      }
      assert Apart(g, next, |s[1..]|, Place(g, addr, 0));
      forall k | 0 <= k < |s|
        ensures StoredAt(g, mem, addr, s)[Place(g, addr, k)] == s[k]
      {
        if k > 0 {
          assert Place(g, addr, k - 1 + 1) == Place(g, next, k - 1);
        }
      }
      forall i | 0 <= i < g.size && Apart(g, addr, |s|, i)
        ensures StoredAt(g, mem, addr, s)[i] == mem[i]
      {
        assert Place(g, addr, 0) != i;
        forall k | 0 <= k < |s[1..]|
          ensures Place(g, next, k) != i
        {
          assert Place(g, addr, k + 1) != i;
        }
        assert Apart(g, next, |s[1..]|, i);
      }
    }
  }

  /** m2 is m with memory `mem`; apart from that only the clock may differ and,
      with hardware debug built in, the watchpoint flag. */
  predicate Touched(m: Machine, m2: Machine, mem: seq<u8>) {
    && m2.(a := m.a, c := m.c) == m
    && m2.a.(flags := m.a.flags) == m.a.(mem := mem)
    && Clear(m2.a.flags, Flag(WATCHPOINT)) == Clear(m.a.flags, Flag(WATCHPOINT))
    && (!Has(m.a, CFG_R) ==> m2.a.flags == m.a.flags)
  }

  lemma TouchedTwice(m: Machine, m1: Machine, m2: Machine, mem1: seq<u8>, mem2: seq<u8>)
    requires Touched(m, m1, mem1) && Touched(m1, m2, mem2)
    ensures Touched(m, m2, mem2)
  {
    hide Flag, On, Clear;
  }

  lemma WatchFlag(x: Bits)
    ensures var f := Flag(WATCHPOINT); Clear(Set(x, f), f) == Clear(x, f)
  {
    assert Flag(WATCHPOINT) == 0x8;
    ClearEight(x);
    hide Set, Clear;
  }

  lemma ClearEight(x: Bits)
    ensures Clear(Set(x, 0x8), 0x8) == Clear(x, 0x8)
  {
  }

  lemma WatchingIsDebug(a: State, p: u32, write: bool)
    ensures Watched(a, p, write) ==> Has(a, CFG_R)
  {
    hide On;
  }

  lemma PokeStores(cfg: Config, m: Machine, addr: u32, d: u32)
    requires Sound(cfg, m) && !On(m.a.csr.psw, DTLBE) && InRam(cfg.g, addr, 1)
    ensures Touched(m, Poke(cfg, m, addr, d), m.a.mem[Index(cfg.g, addr) := d % 0x100])
  {
    WatchFlag(m.a.flags);
    hide On, Set, Clear, Flag, Index, Watched;
    var i := Index(cfg.g, addr);
    assert Write(cfg.g, m.a.mem, addr, Byte, d) == Some(m.a.mem[i := d % 0x100]);
    WatchingIsDebug(m.a.(mem := m.a.mem[i := d % 0x100]), addr, true);
  }

  lemma PeekReads(cfg: Config, m: Machine, addr: u32)
    requires Sound(cfg, m) && !On(m.a.csr.psw, DTLBE) && InRam(cfg.g, addr, 1)
    ensures Peek(cfg, m, addr).0 == m.a.mem[Index(cfg.g, addr)]
    ensures Touched(m, Peek(cfg, m, addr).1, m.a.mem)
  {
    WatchFlag(m.a.flags);
    hide On, Set, Clear, Flag, Index, Watched, ReadTime;
    assert Read(cfg.g, m.a.mem, addr, Byte) == Some(m.a.mem[Index(cfg.g, addr)]);
    WatchingIsDebug(m.a, addr, false);
  }

  lemma {:induction false} AbsorbStores(cfg: Config, m: Machine, addr: u32, binary: bool, s: seq<u8>,
                                        units: seq<seq<u8>>, rest: seq<u8>)
    requires Sound(cfg, m) && !On(m.a.csr.psw, DTLBE) && InRam(cfg.g, addr, |s|) && Encodes(binary, s, units)
    ensures var r := Absorb(cfg, m, addr, |s|, binary, Flatten(units) + rest);
      r.Some? && r.value.1 == rest && Touched(m, r.value.0, StoredAt(cfg.g, m.a.mem, addr, s))
    decreases |s|
  {
    hide On, Poke, TakeByte, EncodesByte, Index, Set, Clear, Flag, Has;
    if s == [] {
      assert Flatten(units) + rest == rest;
    } else {
      var more := Flatten(units[1..]) + rest;
      assert Flatten(units) + rest == units[0] + more;
      assert EncodesByte(binary, s[0], units[0]);
      ByteTaken(binary, s[0], units[0], more);
      var d := TakeByte(binary, units[0] + more).value.0;
      var m1 := Poke(cfg, m, addr, d);
      PokeStores(cfg, m, addr, d);
      assert Wrap(addr + 1) == addr + 1;
      assert forall k :: 0 <= k < |s[1..]| ==> EncodesByte(binary, s[1..][k], units[1..][k]) by {
        assert forall k :: 0 <= k < |s[1..]| ==> s[1..][k] == s[k + 1] && units[1..][k] == units[k + 1];
      }
      AbsorbStores(cfg, m1, addr + 1, binary, s[1..], units[1..], rest);
      TouchedTwice(m, m1, Absorb(cfg, m1, addr + 1, |s[1..]|, binary, more).value.0, m1.a.mem,
                   StoredAt(cfg.g, m1.a.mem, addr + 1, s[1..]));
    }
  }

  /** The bytes of memory from an address on. */
  function BytesAt(g: Geometry, mem: seq<u8>, addr: u32, n: nat): (r: seq<u8>)
    requires Placed(g, mem) && InRam(g, addr, n)
    ensures |r| == n
  {
    seq(n, k requires 0 <= k < n => mem[Place(g, addr, k)])
  }

  function HexText(s: seq<u8>): (r: seq<u8>)
    ensures |r| == 2 * |s|
  {
    if s == [] then [] else HexText(s[..|s| - 1]) + HexPair(s[|s| - 1])
  }

  lemma {:induction false} DumpReads(cfg: Config, m: Machine, addr: u32, n: nat)
    requires Sound(cfg, m) && !On(m.a.csr.psw, DTLBE) && InRam(cfg.g, addr, n)
    ensures Dump(cfg, m, addr, n).0 == HexText(BytesAt(cfg.g, m.a.mem, addr, n))
    ensures Touched(m, Dump(cfg, m, addr, n).1, m.a.mem)
    decreases n
  {
    hide On, Peek, HexPair, Index, Set, Clear, Flag, Has;
    if n > 0 {
      var m1 := Dump(cfg, m, addr, n - 1).1;
      DumpReads(cfg, m, addr, n - 1);
      assert Wrap(addr + (n - 1)) == addr + (n - 1);
      PeekReads(cfg, m1, addr + (n - 1));
      var bytes := BytesAt(cfg.g, m.a.mem, addr, n);
      assert bytes[..n - 1] == BytesAt(cfg.g, m.a.mem, addr, n - 1);
      TouchedTwice(m, m1, Dump(cfg, m, addr, n).1, m.a.mem, m.a.mem);
    }
  }

  /** A reply is itself in the form in which bytes are sent: two digits each. */
  lemma {:induction false} ReplyIsHex(s: seq<u8>)
    ensures forall k :: 0 <= k < |s| ==> EncodesByte(false, s[k], HexText(s)[2 * k..2 * k + 2])
    decreases |s|
  {
    hide EncodesByte, HexPair;
    if s != [] {
      var n := |s| - 1;
      var t := HexText(s);
      ReplyIsHex(s[..n]);
      PairEncodes(s[n]);
      assert t == HexText(s[..n]) + HexPair(s[n]);
      assert t[2 * n..2 * n + 2] == HexPair(s[n]);
      forall k | 0 <= k < n
        ensures EncodesByte(false, s[k], t[2 * k..2 * k + 2])
      {
        assert t[2 * k..2 * k + 2] == HexText(s[..n])[2 * k..2 * k + 2];
        assert s[..n][k] == s[k];
      }
    }
  }

  lemma PairEncodes(c: u8)
    ensures EncodesByte(false, c, HexPair(c))
  {
    assert c / 16 % 16 == c / 16 && c == 16 * (c / 16) + c % 16;
  }

  /** Storing and then looking. */
  lemma StoredThenRead(g: Geometry, mem: seq<u8>, addr: u32, s: seq<u8>)
    requires Placed(g, mem) && InRam(g, addr, |s|)
    ensures BytesAt(g, StoredAt(g, mem, addr, s), addr, |s|) == s
  {
    hide Index, StoredAt;
    StoredBytes(g, mem, addr, s);
  }

  // ---------------------------------------------------------------------------
  // Packets
  // ---------------------------------------------------------------------------

  /** The receiver with the characters of a command taken in. */
  function Filled(l: Link, cmd: seq<u8>): Link
    requires l.idx + |cmd| < BUFFER_SIZE
  {
    Link(true, l.buf[..l.idx] + cmd + l.buf[l.idx + |cmd|..], l.idx + |cmd|)
  }

  predicate Plain(cmd: seq<u8>) {
    forall k :: 0 <= k < |cmd| ==> cmd[k] != EOP && cmd[k] != DELIM
  }

  lemma {:induction false} TakesIn(cfg: Config, m: Machine, l: Link, cmd: seq<u8>, rest: seq<u8>)
    requires Sound(cfg, m) && l.active && l.idx + |cmd| < BUFFER_SIZE && Plain(cmd)
    ensures Serve(cfg, m, l, cmd + rest) == Serve(cfg, m, Filled(l, cmd), rest)
    decreases |cmd|
  {
    hide Serve;
    if cmd == [] {
      assert cmd + rest == rest;
      assert l.buf[..l.idx] + cmd + l.buf[l.idx..] == l.buf;
    } else {
      assert cmd[0] != EOP && cmd[0] != DELIM;
      assert cmd + rest == [cmd[0]] + (cmd[1..] + rest);
      ServeCharacter(cfg, m, l, cmd[0], cmd[1..] + rest);
      var next := Received(l, cmd[0]);
      assert next.buf[..next.idx] == l.buf[..l.idx] + [cmd[0]];
      assert Filled(next, cmd[1..]).buf == Filled(l, cmd).buf;
      TakesIn(cfg, m, next, cmd[1..], rest);
    }
  }

  /** Between packets everything but a packet start is ignored. */
  lemma {:induction false} Ignores(cfg: Config, m: Machine, buf: Buffer, junk: seq<u8>, rest: seq<u8>)
    requires Sound(cfg, m) && SOP !in junk
    ensures Serve(cfg, m, Link(false, buf, 0), junk + rest) == Serve(cfg, m, Link(false, buf, 0), rest)
    decreases |junk|
  {
    hide Serve;
    if junk == [] {
      assert junk + rest == rest;
    } else {
      assert junk + rest == [junk[0]] + (junk[1..] + rest);
      ServeCharacter(cfg, m, Link(false, buf, 0), junk[0], junk[1..] + rest);
      Ignores(cfg, m, buf, junk[1..], rest);
    }
  }

  /** An idle receiver, given a packet, runs its command and no other. */
  lemma PacketRuns(cfg: Config, m: Machine, buf: Buffer, cmd: seq<u8>, b: u8, rest: seq<u8>) returns (buf': Buffer)
    requires Sound(cfg, m) && 0 < |cmd| < BUFFER_SIZE && Plain(cmd)
    requires b == EOP || (b == DELIM && (cmd[0] == BINARY_CMD || cmd[0] == WRITE_CMD))
    ensures buf'[..|cmd|] == cmd
    ensures var d := Proc(cfg, m, buf', |cmd|, rest);
      d.verdict.Replied? ==>
        Serve(cfg, m, Link(false, buf, 0), [SOP] + cmd + [b] + rest)
        == Sent([ACK] + Framed(d.verdict.body), Serve(cfg, d.m, Link(false, buf', 0), d.rest))
  {
    hide Serve, Proc, Framed;
    var idle := Link(false, buf, 0);
    assert [SOP] + cmd + [b] + rest == [SOP] + (cmd + ([b] + rest));
    ServeCharacter(cfg, m, idle, SOP, cmd + ([b] + rest));
    var open := Link(true, buf, 0);
    TakesIn(cfg, m, open, cmd, [b] + rest);
    var l := Filled(open, cmd);
    assert l.buf[..|cmd|] == cmd;
    assert l.buf[0] == cmd[0];
    ServeCommand(cfg, m, l, b, rest);
    buf' := l.buf[l.idx := 0];
    assert buf'[..|cmd|] == l.buf[..|cmd|];
  }

  /** A command with an address and a length. */
  function Command(c: u8, addr: seq<u8>, len: seq<u8>): seq<u8> {
    [c] + addr + [COMMA] + len
  }

  lemma CommandShape(c: u8, addr: seq<u8>, len: seq<u8>)
    requires IsHex(addr) && IsHex(len) && c != EOP && c != DELIM
    ensures Plain(Command(c, addr, len))
  {
    forall k | 0 <= k < |Command(c, addr, len)|
      ensures Command(c, addr, len)[k] != EOP && Command(c, addr, len)[k] != DELIM
    {
      if 1 <= k < 1 + |addr| {
        assert IsHexDigit(addr[k - 1]);
      } else if k > 1 + |addr| {
        assert IsHexDigit(len[k - 2 - |addr|]);
      }
    }
  }

  /** Both numbers of a command are read back from the buffer. */
  lemma NumbersRead(buf: Buffer, c: u8, addr: seq<u8>, len: seq<u8>, stop: int)
    requires IsHex(addr) && IsHex(len) && |addr| + |len| + 2 < BUFFER_SIZE
    requires HexFrom(0, addr) < 0x1_0000_0000 && HexFrom(0, len) < 0x1_0000_0000
    requires buf[..|addr| + |len| + 2] == Command(c, addr, len)
    requires stop == DELIM || stop == -1
    ensures buf[0] == c
    ensures var n := |addr| + |len| + 2;
      && Number(buf, 1, n, COMMA, 0) == (HexFrom(0, addr), 1 + |addr|)
      && Number(buf, 2 + |addr|, n, stop, 0).0 == HexFrom(0, len)
  {
    hide Number, HexFrom;
    var n := |addr| + |len| + 2;
    var cmd := Command(c, addr, len);
    assert forall k :: 0 <= k < n ==> buf[k] == buf[..n][k] == cmd[k];
    assert buf[1..1 + |addr|] == addr;
    assert buf[1 + |addr|] == COMMA;
    assert buf[2 + |addr|..n] == len;
    NumberIsHex(buf, 1, n, COMMA as int, 0, addr);
    NumberIsHex(buf, 2 + |addr|, n, stop, 0, len);
  }

  /** The m packet replies with the bytes at its address, in hexadecimal. */
  lemma ReadPacket(cfg: Config, m: Machine, buf: Buffer, addr: seq<u8>, len: seq<u8>, trailer: seq<u8>,
                   rest: seq<u8>)
    returns (m2: Machine, buf2: Buffer)
    requires Sound(cfg, m) && !On(m.a.csr.psw, DTLBE)
    requires IsHex(addr) && IsHex(len) && |addr| + |len| + 2 < BUFFER_SIZE && SOP !in trailer
    requires InRam(cfg.g, HexFrom(0, addr), HexFrom(0, len)) && 2 * HexFrom(0, len) + 5 <= BUFFER_SIZE
    ensures Touched(m, m2, m.a.mem)
    ensures Serve(cfg, m, Link(false, buf, 0), [SOP] + Command(READ_CMD, addr, len) + [EOP] + (trailer + rest))
            == Sent([ACK] + Framed(HexText(BytesAt(cfg.g, m.a.mem, HexFrom(0, addr), HexFrom(0, len)))),
                    Serve(cfg, m2, Link(false, buf2, 0), rest))
  {
    hide Serve, Framed, Number, HexFrom, Command, Touched, BytesAt, HexText, Dump;
    var a, n := HexFrom(0, addr), HexFrom(0, len);
    CommandShape(READ_CMD, addr, len);
    CommandLength(READ_CMD, addr, len);
    buf2 := PacketRuns(cfg, m, buf, Command(READ_CMD, addr, len), EOP, trailer + rest);
    NumbersRead(buf2, READ_CMD, addr, len, -1);
    DumpReads(cfg, m, a, n);
    m2 := Dump(cfg, m, a, n).1;
    Ignores(cfg, m2, buf2, trailer, rest);
  }

  lemma CommandLength(c: u8, addr: seq<u8>, len: seq<u8>)
    ensures |Command(c, addr, len)| == |addr| + |len| + 2
    ensures Command(c, addr, len)[0] == c
  {
  }

  /** The X and M packets store exactly their data. */
  lemma WritePacket(cfg: Config, m: Machine, buf: Buffer, binary: bool, addr: seq<u8>, len: seq<u8>,
                    s: seq<u8>, units: seq<seq<u8>>, trailer: seq<u8>, rest: seq<u8>)
    returns (m2: Machine, buf2: Buffer)
    requires Sound(cfg, m) && !On(m.a.csr.psw, DTLBE)
    requires IsHex(addr) && IsHex(len) && |addr| + |len| + 2 < BUFFER_SIZE && SOP !in trailer
    requires HexFrom(0, len) == |s| && InRam(cfg.g, HexFrom(0, addr), |s|) && Encodes(binary, s, units)
    ensures Touched(m, m2, StoredAt(cfg.g, m.a.mem, HexFrom(0, addr), s))
    ensures Serve(cfg, m, Link(false, buf, 0),
                  [SOP] + Command(if binary then BINARY_CMD else WRITE_CMD, addr, len) + [DELIM]
                  + (Flatten(units) + (trailer + rest)))
            == Sent([ACK] + Framed(OK), Serve(cfg, m2, Link(false, buf2, 0), rest))
  {
    hide Serve, Framed, Number, HexFrom, Command, Touched, StoredAt, Absorb, Flatten;
    var c := if binary then BINARY_CMD else WRITE_CMD;
    var a := HexFrom(0, addr);
    var data := Flatten(units) + (trailer + rest);
    CommandShape(c, addr, len);
    CommandLength(c, addr, len);
    buf2 := PacketRuns(cfg, m, buf, Command(c, addr, len), DELIM, data);
    NumbersRead(buf2, c, addr, len, DELIM as int);
    AbsorbStores(cfg, m, a, binary, s, units, trailer + rest);
    m2 := Absorb(cfg, m, a, |s|, binary, data).value.0;
    Ignores(cfg, m2, buf2, trailer, rest);
  }

  /** A debugger that writes some bytes, in either of the two forms, and then
      reads them back, gets them back: the machine changes in those bytes only,
      and the session goes on from there. */
  lemma SessionRoundTrip(cfg: Config, m: Machine, buf: Buffer, binary: bool, addr: seq<u8>, len: seq<u8>,
                         s: seq<u8>, units: seq<seq<u8>>, trailer: seq<u8>, trailer2: seq<u8>, rest: seq<u8>)
    returns (m2: Machine, buf2: Buffer)
    requires Sound(cfg, m) && !On(m.a.csr.psw, DTLBE)
    requires IsHex(addr) && IsHex(len) && |addr| + |len| + 2 < BUFFER_SIZE
    requires SOP !in trailer && SOP !in trailer2
    requires HexFrom(0, len) == |s| && InRam(cfg.g, HexFrom(0, addr), |s|) && Encodes(binary, s, units)
    requires 2 * |s| + 5 <= BUFFER_SIZE
    ensures Touched(m, m2, StoredAt(cfg.g, m.a.mem, HexFrom(0, addr), s))
    ensures var read := [SOP] + Command(READ_CMD, addr, len) + [EOP] + (trailer2 + rest);
      Serve(cfg, m, Link(false, buf, 0),
            [SOP] + Command(if binary then BINARY_CMD else WRITE_CMD, addr, len) + [DELIM]
            + (Flatten(units) + (trailer + read)))
      == Sent([ACK] + Framed(OK),
              Sent([ACK] + Framed(HexText(s)), Serve(cfg, m2, Link(false, buf2, 0), rest)))
  {
    hide Serve, Framed, HexFrom, Command, StoredAt, Sent, HexText, BytesAt, Flatten;
    var a := HexFrom(0, addr);
    var read := [SOP] + Command(READ_CMD, addr, len) + [EOP] + (trailer2 + rest);
    var m1, buf1 := WritePacket(cfg, m, buf, binary, addr, len, s, units, trailer, read);
    m2, buf2 := ReadPacket(cfg, m1, buf1, addr, len, trailer2, rest);
    StoredThenRead(cfg.g, m.a.mem, a, s);
    TouchedTwice(m, m1, m2, m1.a.mem, m1.a.mem);
  }
}
