/** Debugger sessions of any length: to the host, the machine's memory is an array
    of bytes. */
module GdbArray {
  import opened Words
  import opened Memory
  import opened Arch
  import opened Timing
  import opened Execution
  import opened Gdb
  import opened GdbSession

  /** What the host sends: an m packet, or an X or M packet with its data as sent.
      Addresses and lengths are digits, and what follows a packet up to the next
      one, its checksum and acknowledgements, is a trailer. */
  datatype Packet =
    | Fetch(addr: seq<u8>, len: seq<u8>, trailer: seq<u8>)
    | Put(binary: bool, addr: seq<u8>, len: seq<u8>, data: seq<u8>, units: seq<seq<u8>>, trailer: seq<u8>)

  /** The packet is in order: its numbers are hexadecimal and fit the stub's
      buffers, and its bytes lie in RAM. */
  predicate InOrder(g: Geometry, p: Packet) {
    && IsHex(p.addr) && IsHex(p.len) && |p.addr| + |p.len| + 2 < BUFFER_SIZE && SOP !in p.trailer
    && InRam(g, HexFrom(0, p.addr), HexFrom(0, p.len))
    && match p
       case Fetch(_, len, _) => 2 * HexFrom(0, len) + 5 <= BUFFER_SIZE
       case Put(binary, _, len, data, units, _) => HexFrom(0, len) == |data| && Encodes(binary, data, units)
  }

  /** The packet on the line, and what comes after it. */
  function Wire(p: Packet, rest: seq<u8>): seq<u8> {
    match p
    case Fetch(addr, len, trailer) => [SOP] + Command(READ_CMD, addr, len) + [EOP] + (trailer + rest)
    case Put(binary, addr, len, _, units, trailer) =>
      [SOP] + Command(if binary then BINARY_CMD else WRITE_CMD, addr, len) + [DELIM]
      + (Flatten(units) + (trailer + rest))
  }

  function WireAll(ps: seq<Packet>, rest: seq<u8>): seq<u8> {
    if ps == [] then rest else Wire(ps[0], WireAll(ps[1..], rest))
  }

  // ---------------------------------------------------------------------------
  // The plain array
  // ---------------------------------------------------------------------------

  /** RAM in the order of its addresses. */
  function AsArray(g: Geometry, mem: seq<u8>): (arr: seq<u8>)
    requires Placed(g, mem) && InRam(g, g.base, g.size)
    ensures |arr| == g.size
  {
    BytesAt(g, mem, g.base, g.size)
  }

  /** The array after a packet, and the reply to it. */
  function Stored(g: Geometry, arr: seq<u8>, p: Packet): (arr': seq<u8>)
    requires |arr| == g.size && InOrder(g, p)
    ensures |arr'| == g.size
  {
    if p.Put? then Overlaid(arr, HexFrom(0, p.addr) - g.base, p.data) else arr
  }

  function Reply(g: Geometry, arr: seq<u8>, p: Packet): seq<u8>
    requires |arr| == g.size && InOrder(g, p)
  {
    if p.Put? then OK
    else
      var i := HexFrom(0, p.addr) - g.base;
      HexText(arr[i..i + HexFrom(0, p.len)])
  }

  predicate AllInOrder(g: Geometry, ps: seq<Packet>) {
    forall k :: 0 <= k < |ps| ==> InOrder(g, ps[k])
  }

  function StoredAll(g: Geometry, arr: seq<u8>, ps: seq<Packet>): (arr': seq<u8>)
    requires |arr| == g.size && AllInOrder(g, ps)
    ensures |arr'| == g.size
    decreases |ps|
  {
    hide InOrder, Stored;
    if ps == [] then arr
    else
      assert InOrder(g, ps[0]);
      assert forall k :: 0 <= k < |ps[1..]| ==> ps[1..][k] == ps[k + 1];
      StoredAll(g, Stored(g, arr, ps[0]), ps[1..])
  }

  /** Everything sent to the host: an acknowledgement and a framed reply for each
      packet. */
  function Output(g: Geometry, arr: seq<u8>, ps: seq<Packet>): seq<u8>
    requires |arr| == g.size && AllInOrder(g, ps)
    decreases |ps|
  {
    hide InOrder, Stored, Reply, Framed;
    if ps == [] then []
    else
      assert InOrder(g, ps[0]);
      assert forall k :: 0 <= k < |ps[1..]| ==> ps[1..][k] == ps[k + 1];
      [ACK] + Framed(Reply(g, arr, ps[0])) + Output(g, Stored(g, arr, ps[0]), ps[1..])
  }

  // ---------------------------------------------------------------------------
  // Memory is that array
  // ---------------------------------------------------------------------------

  lemma ReadsArray(g: Geometry, mem: seq<u8>, addr: u32, n: nat)
    requires Placed(g, mem) && InRam(g, g.base, g.size) && InRam(g, addr, n)
    ensures BytesAt(g, mem, addr, n) == AsArray(g, mem)[addr - g.base..addr - g.base + n]
  {
    hide Index;
  }

  /** A byte of the array that is not among the stored ones. */
  lemma OutsideStored(g: Geometry, addr: u32, n: nat, j: nat)
    requires InRam(g, g.base, g.size) && InRam(g, addr, n) && j < g.size
    requires !(addr - g.base <= j < addr - g.base + n)
    ensures Apart(g, addr, n, Place(g, g.base, j))
  {
    hide Index;
    forall k | 0 <= k < n
      ensures Place(g, addr, k) != Place(g, g.base, j)
    {
      IndexInjective(g, addr + k, g.base + j);
    }
  }

  lemma WritesArray(g: Geometry, mem: seq<u8>, addr: u32, s: seq<u8>)
    requires Placed(g, mem) && InRam(g, g.base, g.size) && InRam(g, addr, |s|)
    ensures AsArray(g, StoredAt(g, mem, addr, s)) == Overlaid(AsArray(g, mem), addr - g.base, s)
  {
    hide Index, StoredAt, AsArray, Place;
    var arr, arr' := AsArray(g, mem), AsArray(g, StoredAt(g, mem, addr, s));
    var i := addr - g.base;
    forall j | 0 <= j < g.size
      ensures arr'[j] == if i <= j < i + |s| then s[j - i] else arr[j]
    {
      StoredByte(g, mem, addr, s, j);
    }
    assert arr' == Overlaid(arr, i, s);
  }

  lemma ArrayAt(g: Geometry, mem: seq<u8>, j: nat)
    requires Placed(g, mem) && InRam(g, g.base, g.size) && j < g.size
    ensures AsArray(g, mem)[j] == mem[Place(g, g.base, j)]
  {
    hide Place;
  }

  lemma SamePlace(g: Geometry, addr: u32, j: nat)
    requires InRam(g, g.base, g.size) && g.base <= addr <= g.base + j && j < g.size
    ensures Place(g, addr, j - (addr - g.base)) == Place(g, g.base, j)
  {
    hide Index;
  }

  lemma StoredByte(g: Geometry, mem: seq<u8>, addr: u32, s: seq<u8>, j: nat)
    requires Placed(g, mem) && InRam(g, g.base, g.size) && InRam(g, addr, |s|) && j < g.size
    ensures var i := addr - g.base;
      AsArray(g, StoredAt(g, mem, addr, s))[j] == if i <= j < i + |s| then s[j - i] else AsArray(g, mem)[j]
  {
    ArrayAt(g, mem, j);
    ArrayAt(g, StoredAt(g, mem, addr, s), j);
    hide StoredAt, Apart, Place, AsArray;
    StoredBytes(g, mem, addr, s);
    var i := addr - g.base;
    if i <= j < i + |s| {
      SamePlace(g, addr, j);
    } else {
      OutsideStored(g, addr, |s|, j);
    }
  }

  // ---------------------------------------------------------------------------
  // Sessions
  // ---------------------------------------------------------------------------

  lemma OnePacket(cfg: Config, m: Machine, buf: Buffer, p: Packet, rest: seq<u8>)
    returns (m2: Machine, buf2: Buffer)
    requires Sound(cfg, m) && !On(m.a.csr.psw, DTLBE)
    requires InRam(cfg.g, cfg.g.base, cfg.g.size) && InOrder(cfg.g, p)
    ensures Sound(cfg, m2) && Touched(m, m2, m2.a.mem)
    ensures AsArray(cfg.g, m2.a.mem) == Stored(cfg.g, AsArray(cfg.g, m.a.mem), p)
    ensures Serve(cfg, m, Link(false, buf, 0), Wire(p, rest))
            == Sent([ACK] + Framed(Reply(cfg.g, AsArray(cfg.g, m.a.mem), p)),
                    Serve(cfg, m2, Link(false, buf2, 0), rest))
  {
    hide Serve, Sent, Framed, HexFrom, Command, StoredAt, BytesAt, HexText, Flatten, Encodes, AsArray, Overlaid;
    var a: u32 := HexFrom(0, p.addr);
    match p
    case Fetch(addr, len, trailer) =>
      m2, buf2 := ReadPacket(cfg, m, buf, addr, len, trailer, rest);
      SameMemory(m, m2, m.a.mem);
      ReadsArray(cfg.g, m.a.mem, a, HexFrom(0, len));
    case Put(binary, addr, len, data, units, trailer) =>
      m2, buf2 := WritePacket(cfg, m, buf, binary, addr, len, data, units, trailer, rest);
      SameMemory(m, m2, StoredAt(cfg.g, m.a.mem, a, data));
      WritesArray(cfg.g, m.a.mem, a, data);
  }

  lemma SameMemory(m: Machine, m2: Machine, mem: seq<u8>)
    requires Touched(m, m2, mem)
    ensures m2.a.mem == mem && m2.a.csr == m.a.csr
  {
    hide Clear, Flag, On;
  }

  /** Whatever packets the host sends, in whatever order, the replies are those of
      a plain array of bytes under the same stores and loads, and the session goes
      on with a machine whose memory is that array and which has changed in
      nothing else. */
  lemma {:induction false} SessionIsArray(cfg: Config, m: Machine, buf: Buffer, ps: seq<Packet>, rest: seq<u8>)
    returns (m2: Machine, buf2: Buffer)
    requires Sound(cfg, m) && !On(m.a.csr.psw, DTLBE)
    requires InRam(cfg.g, cfg.g.base, cfg.g.size) && AllInOrder(cfg.g, ps)
    ensures Sound(cfg, m2) && Touched(m, m2, m2.a.mem)
    ensures AsArray(cfg.g, m2.a.mem) == StoredAll(cfg.g, AsArray(cfg.g, m.a.mem), ps)
    ensures Serve(cfg, m, Link(false, buf, 0), WireAll(ps, rest))
            == Sent(Output(cfg.g, AsArray(cfg.g, m.a.mem), ps), Serve(cfg, m2, Link(false, buf2, 0), rest))
    decreases |ps|
  {
    hide Serve, Framed, Reply, Stored, AsArray, InOrder, Wire, Touched;
    if ps == [] {
      m2, buf2 := m, buf;
      Untouched(m);
      NothingSent(Serve(cfg, m, Link(false, buf, 0), rest));
    } else {
      assert InOrder(cfg.g, ps[0]);
      assert forall k :: 0 <= k < |ps[1..]| ==> ps[1..][k] == ps[k + 1];
      var arr := AsArray(cfg.g, m.a.mem);
      var m1, buf1 := OnePacket(cfg, m, buf, ps[0], WireAll(ps[1..], rest));
      SameMemory(m, m1, m1.a.mem);
      m2, buf2 := SessionIsArray(cfg, m1, buf1, ps[1..], rest);
      TouchedTwice(m, m1, m2, m1.a.mem, m2.a.mem);
      SentTwice([ACK] + Framed(Reply(cfg.g, arr, ps[0])), Output(cfg.g, Stored(cfg.g, arr, ps[0]), ps[1..]),
                Serve(cfg, m2, Link(false, buf2, 0), rest));
    }
  }

  lemma Untouched(m: Machine)
    ensures Touched(m, m, m.a.mem)
  {
  }

  lemma NothingSent(s: Session)
    ensures Sent([], s) == s
  {
    assert [] + s.out == s.out;
  }
}
