/** The remote debugger's stub: packets in, memory read and written through the
    CPU, replies out. */
module Gdb {
  import opened Words
  import opened Memory
  import opened Arch
  import opened Timing
  import opened Execution
  import Cpu

  const SOP: u8 := 0x24      // $
  const EOP: u8 := 0x23      // #
  const DELIM: u8 := 0x3a    // :
  const COMMA: u8 := 0x2c
  const ACK: u8 := 0x2b      // +
  const ESC: u8 := 0x7d      // }

  const READ_CMD: u8 := 0x6d       // m
  const BINARY_CMD: u8 := 0x58     // X
  const WRITE_CMD: u8 := 0x4d      // M
  const DETACH_CMD: u8 := 0x44     // D
  const KILL_CMD: u8 := 0x6b       // k
  const SET_CMD: u8 := 0x5a        // Z
  const CLEAR_CMD: u8 := 0x7a      // z

  const BUFFER_SIZE: nat := 1024
  const ENOSPC: nat := 28

  const OK: seq<u8> := [0x4f, 0x4b]

  // ---------------------------------------------------------------------------
  // Characters and numbers
  // ---------------------------------------------------------------------------

  function HexChar(n: nat): u8
    requires n < 16
  {
    if n < 10 then 0x30 + n else 0x61 + n - 10
  }

  function HexPair(v: nat): (r: seq<u8>)
    ensures |r| == 2
  {
    [HexChar(v / 16 % 16), HexChar(v % 16)]
  }

  /** CHAR2NIB, on a signed char; only digits give a nibble. */
  function Nibble(c: u8): int {
    if 0x30 <= c <= 0x39 then c - 0x30
    else if 0x61 <= c <= 0x66 then 10 + c - 0x61
    else 10 + (if c < 0x80 then c else c - 0x100) - 0x41
  }

  /** Shift in one more hexadecimal digit. */
  function Shift(v: u32, c: u8): u32 {
    Or32(Wrap(16 * v), Wrap(Nibble(c)))
  }

  /** The number loop: from i up to n, or to a stop character; the value and
      where it stopped. */
  function Number(buf: seq<u8>, i: nat, n: nat, stop: int, v: u32): (r: (u32, nat))
    requires n <= |buf|
    ensures r.1 >= i
    decreases n - i
  {
    if i >= n || buf[i] == stop then (v, i) else Number(buf, i + 1, n, stop, Shift(v, buf[i]))
  }

  /** Bit 5 turned over. */
  function Flip(c: u8): u8 {
    if c / 0x20 % 2 == 1 then c - 0x20 else c + 0x20
  }

  function Sum(s: seq<u8>): u8 {
    if s == [] then 0 else (Sum(s[..|s| - 1]) + s[|s| - 1]) % 0x100
  }

  function Framed(body: seq<u8>): seq<u8> {
    [SOP] + body + [EOP] + HexPair(Sum(body))
  }

  // ---------------------------------------------------------------------------
  // Memory through the debugger
  // ---------------------------------------------------------------------------

  function Peek(cfg: Config, m: Machine, v: u32): (r: (u32, Machine))
    requires Sound(cfg, m)
    ensures Sound(cfg, r.1)
  {
    var (d, a) := ReadMem(cfg.g, m.a, v, Debug);
    (d, m.(a := a, c := ReadTime(cfg.waits, m.c, m.a, v, Debug)))
  }

  function Poke(cfg: Config, m: Machine, v: u32, d: u32): (r: Machine)
    requires Sound(cfg, m)
    ensures Sound(cfg, r)
  {
    m.(a := WriteMem(cfg.g, m.a, v, Byte, d))
  }

  /** k bytes from an address on, as hexadecimal. */
  function Dump(cfg: Config, m: Machine, addr: u32, k: nat): (r: (seq<u8>, Machine))
    requires Sound(cfg, m)
    ensures Sound(cfg, r.1) && |r.0| == 2 * k
  {
    hide Peek;
    if k == 0 then ([], m)
    else
      var (text, m1) := Dump(cfg, m, addr, k - 1);
      var (d, m2) := Peek(cfg, m1, Wrap(addr + (k - 1)));
      (text + HexPair(d), m2)
  }

  /** One byte of write data off the connection, and what is left. */
  function TakeByte(binary: bool, input: seq<u8>): (r: Option<(u32, seq<u8>)>)
    ensures r.Some? ==> |r.value.1| < |input|
  {
    if input == [] then None
    else if binary && input[0] != ESC then Some((SignExt8(input[0]), input[1..]))
    else if |input| < 2 then None
    else if binary then Some((SignExt8(Flip(input[1])), input[2..]))
    else Some((Shift(Wrap(Nibble(input[0])), input[1]), input[2..]))
  }

  /** Write data for k bytes; `None` when the connection gives out, after which
      the program goes on with bytes it has not received. */
  function Absorb(cfg: Config, m: Machine, addr: u32, k: nat, binary: bool, input: seq<u8>)
    : (r: Option<(Machine, seq<u8>)>)
    requires Sound(cfg, m)
    ensures r.Some? ==> Sound(cfg, r.value.0) && |r.value.1| <= |input|
    decreases k
  {
    hide Poke, TakeByte;
    if k == 0 then Some((m, input))
    else
      match TakeByte(binary, input)
      case None => None
      case Some((d, rest)) => Absorb(cfg, Poke(cfg, m, addr, d), Wrap(addr + 1), k - 1, binary, rest)
  }

  // ---------------------------------------------------------------------------
  // Hardware breakpoints
  // ---------------------------------------------------------------------------

  function Armed(addr: u32): u32 {
    addr - addr % 4 + 1
  }

  predicate IsArmed(b: u32) {
    b % 2 == 1
  }

  /** The first register that is free. */
  function FreeSlot(bp: Quad): (i: nat)
    ensures i <= 4 && (i < 4 ==> !IsArmed(bp[i])) && forall j :: 0 <= j < i ==> IsArmed(bp[j])
  {
    if !IsArmed(bp[0]) then 0 else if !IsArmed(bp[1]) then 1
    else if !IsArmed(bp[2]) then 2 else if !IsArmed(bp[3]) then 3 else 4
  }

  /** The first register that holds a value. */
  function SlotWith(bp: Quad, b: u32): (i: nat)
    ensures i <= 4 && (i < 4 ==> bp[i] == b) && forall j :: 0 <= j < i ==> bp[j] != b
  {
    if bp[0] == b then 0 else if bp[1] == b then 1 else if bp[2] == b then 2 else if bp[3] == b then 3 else 4
  }

  function BreakpointSet(bp: Quad, addr: u32): Option<Quad> {
    var i := FreeSlot(bp);
    if i < 4 then Some(bp[i := Armed(addr)]) else None
  }

  function BreakpointCleared(bp: Quad, addr: u32): Option<Quad> {
    var i := SlotWith(bp, Armed(addr));
    if i < 4 then Some(bp[i := 0]) else None
  }

  // ---------------------------------------------------------------------------
  // Commands
  // ---------------------------------------------------------------------------

  /** What becomes of a command.  `Unspecified` is where the program leaves its
      buffers or uses bytes it does not have; `Elsewhere` is a command that is
      not part of this model. */
  datatype Verdict = Replied(body: seq<u8>) | Detached | Killed | Unspecified | Elsewhere

  datatype Done = Done(verdict: Verdict, m: Machine, rest: seq<u8>)

  type Buffer = s: seq<u8> | |s| == BUFFER_SIZE
    witness seq(BUFFER_SIZE, _ => 0)

  function DoRead(cfg: Config, m: Machine, cmd: Buffer, n: nat, rest: seq<u8>): (d: Done)
    requires Sound(cfg, m) && n < BUFFER_SIZE
    ensures Sound(cfg, d.m) && |d.rest| <= |rest|
  {
    hide Number, Dump;
    var (addr, i) := Number(cmd, 1, n, COMMA, 0);
    var len := Number(cmd, i + 1, n, -1, 0).0;
    if 2 * len + 5 > BUFFER_SIZE then Done(Unspecified, m, rest)
    else
      var (text, m1) := Dump(cfg, m, addr, len);
      Done(Replied(text), m1, rest)
  }

  function DoWrite(cfg: Config, m: Machine, cmd: Buffer, n: nat, binary: bool, rest: seq<u8>): (d: Done)
    requires Sound(cfg, m) && n < BUFFER_SIZE
    ensures Sound(cfg, d.m) && |d.rest| <= |rest|
  {
    hide Number, Absorb;
    var (addr, i) := Number(cmd, 1, n, COMMA, 0);
    var len := Number(cmd, i + 1, n, DELIM, 0).0;
    match Absorb(cfg, m, addr, len, binary, rest)
    case Some((m1, more)) => Done(Replied(OK), m1, more)
    case None => Done(Unspecified, m, [])
  }

  function DoBreakpoint(m: Machine, cmd: Buffer, rest: seq<u8>): (d: Done)
    ensures d.m.a.mem == m.a.mem && |d.rest| <= |rest|
  {
    hide Number, BreakpointSet, BreakpointCleared;
    if cmd[1] == 0x31 then
      var (addr, i) := Number(cmd, 3, BUFFER_SIZE, COMMA, 0);
      if i >= BUFFER_SIZE then Done(Unspecified, m, rest)
      else
        var r := if cmd[0] == CLEAR_CMD then BreakpointCleared(m.a.csr.bp, addr) else BreakpointSet(m.a.csr.bp, addr);
        match r
        case Some(bp) => Done(Replied(OK), m.(a := m.a.(csr := m.a.csr.(bp := bp))), rest)
        case None => Done(Replied([0x45] + HexPair(ENOSPC)), m, rest)
    else if 0x32 <= cmd[1] <= 0x34 then Done(Elsewhere, m, rest)
    else Done(Replied([]), m, rest)
  }

  /** The registers, running, and the reason for stopping. */
  predicate NotModelled(c: u8) {
    c == 0x3f || c == 0x67 || c == 0x47 || c == 0x63 || c == 0x73 || c == 0x70 || c == 0x50
  }

  /** lm32gdb_proc_gdb_cmd, on a command of n characters. */
  function Proc(cfg: Config, m: Machine, cmd: Buffer, n: nat, rest: seq<u8>): (d: Done)
    requires Sound(cfg, m) && n < BUFFER_SIZE
    ensures Sound(cfg, d.m) && |d.rest| <= |rest|
  {
    hide DoRead, DoWrite, DoBreakpoint;
    var c := cmd[0];
    if c == READ_CMD then DoRead(cfg, m, cmd, n, rest)
    else if c == BINARY_CMD || c == WRITE_CMD then DoWrite(cfg, m, cmd, n, c == BINARY_CMD, rest)
    else if c == SET_CMD || c == CLEAR_CMD then DoBreakpoint(m, cmd, rest)
    else if c == DETACH_CMD then Done(Detached, m, rest)
    else if c == KILL_CMD then Done(Killed, m, rest)
    else if NotModelled(c) then Done(Elsewhere, m, rest)
    else Done(Replied([]), m, rest)
  }

  // ---------------------------------------------------------------------------
  // Framing
  // ---------------------------------------------------------------------------

  /** The packet receiver: is a packet open, and what has come in so far. */
  datatype Link = Link(active: bool, buf: Buffer, idx: nat)

  /** `Stuck` is where the model stops following the program. */
  datatype Ending = ConnectionLost | HostDetached | Stuck

  datatype Session = Session(m: Machine, out: seq<u8>, end: Ending)

  predicate PacketEnds(l: Link, b: u8) {
    l.active &&
    (b == EOP || l.idx == BUFFER_SIZE - 1 ||
     (b == DELIM && (l.buf[0] == BINARY_CMD || l.buf[0] == WRITE_CMD)))
  }

  /** The receiver after a character that does not end a packet. */
  function Received(l: Link, b: u8): (l': Link)
    requires l.idx < BUFFER_SIZE && !PacketEnds(l, b)
    ensures l'.idx < BUFFER_SIZE
  {
    if !l.active && b == SOP then l.(active := true)
    else if l.active then Link(true, l.buf[l.idx := b], l.idx + 1)
    else l
  }

  function Sent(out: seq<u8>, s: Session): Session {
    s.(out := out + s.out)
  }

  /** lm32gdb_process_gdb, on everything that the host will send. */
  function Serve(cfg: Config, m: Machine, l: Link, input: seq<u8>): (s: Session)
    requires Sound(cfg, m) && l.idx < BUFFER_SIZE
    decreases |input|
  {
    hide Proc, Received, PacketEnds;
    if input == [] then Session(m, [], ConnectionLost)
    else if !PacketEnds(l, input[0]) then Serve(cfg, m, Received(l, input[0]), input[1..])
    else
      var buf := l.buf[l.idx := 0];
      var d := Proc(cfg, m, buf, l.idx, input[1..]);
      match d.verdict
      case Replied(body) => Sent([ACK] + Framed(body), Serve(cfg, d.m, Link(false, buf, 0), d.rest))
      case Detached => Session(d.m, [ACK] + Framed(OK), HostDetached)
      case Killed => Session(d.m, [ACK], HostDetached)
      case _ => Session(d.m, [ACK], Stuck)
  }

  // ---------------------------------------------------------------------------
  // The stub, with its buffers updated in place
  // ---------------------------------------------------------------------------

  class Stub {
    const cpu: Cpu.Lm32
    const ipBuf: array<u8>
    const opBuf: array<u8>
    /** What the host has still to send, and what has been sent to it. */
    var input: seq<u8>
    var output: seq<u8>

    ghost predicate Valid()
      reads cpu.Repr
    {
      && cpu.Valid()
      && ipBuf.Length == BUFFER_SIZE && opBuf.Length == BUFFER_SIZE && ipBuf != opBuf
      && ipBuf !in cpu.Repr && opBuf !in cpu.Repr && this !in cpu.Repr
    }

    constructor (cpu: Cpu.Lm32, input: seq<u8>)
      requires cpu.Valid()
      ensures Valid() && this.cpu == cpu && this.input == input && output == []
      ensures fresh(ipBuf) && fresh(opBuf)
      ensures ipBuf[..] == seq(BUFFER_SIZE, _ => 0)
    {
      this.cpu, this.input, output := cpu, input, [];
      var i := new u8[BUFFER_SIZE](_ => 0);
      var o := new u8[BUFFER_SIZE](_ => 0);
      ipBuf, opBuf := i, o;
      new;
      assert ipBuf[..] == seq(BUFFER_SIZE, _ => 0);
    }

    /** The loops that read a number out of a command. */
    method ParseNumber(start: nat, n: nat, stop: int) returns (v: u32, i: nat)
      requires Valid() && n <= BUFFER_SIZE
      ensures (v, i) == Number(ipBuf[..], start, n, stop, 0)
    {
      hide Shift;
      v, i := 0, start;
      while i < n && ipBuf[i] != stop
        invariant Number(ipBuf[..], i, n, stop, v) == Number(ipBuf[..], start, n, stop, 0)
        decreases n - i
      {
        v := Shift(v, ipBuf[i]);
        i := i + 1;
      }
    }

    /** lm32gdb_read_mem, from its loop on. */
    method ReadMem(addr: u32, len: nat) returns (checksum: u8)
      requires Valid() && 2 * len + 5 <= BUFFER_SIZE
      modifies cpu.Repr, opBuf
      ensures Valid()
      ensures (opBuf[1..1 + 2 * len], cpu.View()) == Dump(cpu.Cfg(), old(cpu.View()), addr, len)
      ensures opBuf[0] == old(opBuf[0])
      ensures checksum == Sum(opBuf[1..1 + 2 * len])
    {
      hide Peek, HexPair, Cpu.Lm32.View, Sum;
      checksum := 0;
      SumEmpty();
      assert opBuf[1..1] == [];
      SameAddress(addr);
      var k, a := 0, addr;
      while k < len
        invariant 0 <= k <= len && Valid()
        invariant a == Wrap(addr + k)
        invariant (opBuf[1..1 + 2 * k], cpu.View()) == Dump(cpu.Cfg(), old(cpu.View()), addr, k)
        invariant opBuf[0] == old(opBuf[0])
        invariant checksum == Sum(opBuf[1..1 + 2 * k])
      {
        var d := PeekByte(a);
        checksum := PutByte(k, d, checksum);
        NextAddress(addr, k);
        a := Wrap((a as int) + 1);
        k := k + 1;
      }
    }

    /** Two more characters of the reply, and of its checksum. */
    method PutByte(k: nat, d: u32, sum: u8) returns (checksum: u8)
      requires Valid() && 3 + 2 * k <= BUFFER_SIZE && sum == Sum(opBuf[1..1 + 2 * k])
      modifies opBuf
      ensures opBuf[0] == old(opBuf[0])
      ensures opBuf[1..1 + 2 * (k + 1)] == old(opBuf[1..1 + 2 * k]) + HexPair(d)
      ensures checksum == Sum(opBuf[1..1 + 2 * (k + 1)])
    {
      hide HexPair, Sum;
      ghost var before := opBuf[1..1 + 2 * k];
      var pair := HexPair(d);
      opBuf[1 + 2 * k], opBuf[2 + 2 * k] := pair[0], pair[1];
      assert pair == [pair[0], pair[1]];
      assert opBuf[1..1 + 2 * (k + 1)] == before + pair;
      checksum := (sum + pair[0]) % 0x100;
      checksum := (checksum + pair[1]) % 0x100;
      SumPair(before, pair[0], pair[1]);
    }

    method PeekByte(v: u32) returns (d: u32)
      requires Valid()
      modifies cpu.Repr
      ensures Valid() && (d, cpu.View()) == Peek(cpu.Cfg(), old(cpu.View()), v)
    {
      hide Arch.ReadMem, ReadTime;
      d := cpu.ReadMemory(v, Debug);
    }

    /** One byte of write data; `ok` is false when there is no more input. */
    method ReadData(binary: bool) returns (ok: bool, d: u32)
      modifies this`input
      ensures TakeByte(binary, old(input)) == if ok then Some((d, input)) else None
    {
      hide Shift;
      ok, d := false, 0;
      if input == [] {
        return;
      }
      var c := input[0];
      if binary && c != ESC {
        input := input[1..];
        return true, SignExt8(c);
      }
      if |input| < 2 {
        return;
      }
      var c2 := input[1];
      input := input[2..];
      return true, if binary then SignExt8(Flip(c2)) else Shift(Wrap(Nibble(c)), c2);
    }

    /** lm32gdb_write_mem, from its loop on. */
    method WriteMem(addr: u32, len: nat, binary: bool) returns (ok: bool)
      requires Valid()
      modifies cpu.Repr, this`input
      ensures Valid()
      ensures Absorb(cpu.Cfg(), old(cpu.View()), addr, len, binary, old(input))
              == if ok then Some((cpu.View(), input)) else None
    {
      hide Poke, TakeByte, Cpu.Lm32.View, Cpu.Lm32.Valid, Cpu.Lm32.ViewA, Cpu.Lm32.Cfg;
      ghost var whole := Absorb(cpu.Cfg(), cpu.View(), addr, len, binary, input);
      ok := true;
      var k, a := 0, addr;
      while k < len
        invariant 0 <= k <= len && Valid() && ok
        invariant Absorb(cpu.Cfg(), cpu.View(), a, len - k, binary, input) == whole
      {
        var d;
        ok, d := ReadData(binary);
        if !ok {
          return;
        }
        PokeByte(a, d);
        a := Wrap((a as int) + 1);
        k := k + 1;
      }
    }

    method PokeByte(v: u32, d: u32)
      requires Valid()
      modifies cpu.Repr
      ensures Valid() && cpu.View() == Poke(cpu.Cfg(), old(cpu.View()), v, d)
    {
      hide Arch.WriteMem;
      cpu.WriteMemory(v, d, Byte, true);
    }

    /** lm32gdb_proc_hw_bp on a z1 or Z1 command: the status, when the command
        has an address in it. */
    method SetOrClear(addr: u32, clear: bool) returns (ok: bool)
      requires Valid()
      modifies cpu.Repr
      ensures Valid()
      ensures var m := old(cpu.View());
        var r := if clear then BreakpointCleared(m.a.csr.bp, addr) else BreakpointSet(m.a.csr.bp, addr);
        && ok == r.Some?
        && cpu.View() == if ok then m.(a := m.a.(csr := m.a.csr.(bp := r.value))) else m
    {
      hide FreeSlot, SlotWith, Armed;
      var bp := cpu.csr.bp;
      var i := if clear then SlotWith(bp, Armed(addr)) else FreeSlot(bp);
      ok := i < 4;
      if ok {
        cpu.SetBreakpoints(bp[i := if clear then 0 else Armed(addr)]);
      }
    }

    /** A fixed reply: OK, or an error number. */
    method PutText(text: seq<u8>) returns (checksum: u8)
      requires Valid() && |text| < 8
      modifies opBuf
      ensures opBuf[0] == old(opBuf[0]) && opBuf[1..1 + |text|] == text
      ensures checksum == Sum(text)
    {
      hide Sum;
      SumEmpty();
      checksum := 0;
      var k := 0;
      while k < |text|
        invariant 0 <= k <= |text|
        invariant opBuf[0] == old(opBuf[0]) && opBuf[1..1 + k] == text[..k]
        invariant checksum == Sum(text[..k])
      {
        opBuf[1 + k] := text[k];
        assert text[..k + 1] == text[..k] + [text[k]];
        SumOne(text[..k], text[k]);
        checksum := (checksum + text[k]) % 0x100;
        k := k + 1;
      }
      assert text[..k] == text;
    }

    /** The end of a reply packet, and the loop that sends it. */
    method SendReply(len: nat, checksum: u8)
      requires Valid() && len + 5 <= BUFFER_SIZE
      requires opBuf[0] == SOP && checksum == Sum(opBuf[1..1 + len])
      modifies opBuf, this`output
      ensures output == old(output) + Framed(old(opBuf[1..1 + len]))
    {
      hide Sum, HexPair;
      ghost var body := opBuf[1..1 + len];
      var pair := HexPair(checksum);
      opBuf[1 + len] := EOP;
      opBuf[2 + len] := pair[0];
      opBuf[3 + len] := pair[1];
      opBuf[4 + len] := 0;
      assert pair == [pair[0], pair[1]];
      assert opBuf[..4 + len] == Framed(body);
      var i := 0;
      while i < 4 + len
        invariant 0 <= i <= 4 + len
        invariant output == old(output) + opBuf[..i]
        invariant opBuf[..4 + len] == Framed(body)
      {
        output := output + [opBuf[i]];
        i := i + 1;
      }
    }

    /** A command whose whole reply is fixed. */
    method Answer(text: seq<u8>)
      requires Valid() && |text| < 8 && opBuf[0] == SOP
      modifies opBuf, this`output
      ensures output == old(output) + Framed(text)
    {
      hide Framed, Sum;
      var checksum := PutText(text);
      SendReply(|text|, checksum);
    }

    /** The m command. */
    method DoReadCommand(n: nat) returns (stuck: bool)
      requires Valid() && n < BUFFER_SIZE && opBuf[0] == SOP
      modifies cpu.Repr, opBuf, this`output
      ensures Valid()
      ensures Carried(DoRead(cpu.Cfg(), old(cpu.View()), ipBuf[..], n, input), !stuck)
    {
      hide Number, Dump, Framed, Sum, Cpu.Lm32.View, Cpu.Lm32.Valid, Cpu.Lm32.ViewA, Cpu.Lm32.Cfg;
      var addr, i := ParseNumber(1, n, COMMA);
      var len, _ := ParseNumber(i + 1, n, -1);
      if 2 * len + 5 > BUFFER_SIZE {
        return true;
      }
      var checksum := ReadMem(addr, len);
      SendReply(2 * len, checksum);
      stuck := false;
    }

    /** The effect of a command that is answered, or the fact that it is not. */
    twostate predicate Carried(d: Done, answered: bool)
      requires Valid()
      reads this, cpu.Repr
    {
      if answered then
        d.verdict.Replied? && cpu.View() == d.m && input == d.rest
        && output == old(output) + Framed(d.verdict.body)
      else d.verdict.Unspecified? || d.verdict.Elsewhere?
    }

    /** The X and M commands. */
    method DoWriteCommand(n: nat, binary: bool) returns (stuck: bool)
      requires Valid() && n < BUFFER_SIZE && opBuf[0] == SOP
      modifies cpu.Repr, opBuf, this`input, this`output
      ensures Valid()
      ensures Carried(DoWrite(cpu.Cfg(), old(cpu.View()), ipBuf[..], n, binary, old(input)), !stuck)
    {
      hide Number, Absorb, Framed, Sum, Cpu.Lm32.View, Cpu.Lm32.Valid, Cpu.Lm32.ViewA, Cpu.Lm32.Cfg;
      var addr, i := ParseNumber(1, n, COMMA);
      var len, _ := ParseNumber(i + 1, n, DELIM as int);
      var ok := WriteMem(addr, len, binary);
      if !ok {
        return true;
      }
      Answer(OK);
      stuck := false;
    }

    /** The z and Z commands, for hardware breakpoints. */
    method DoBreakpointCommand() returns (stuck: bool)
      requires Valid() && opBuf[0] == SOP
      modifies cpu.Repr, opBuf, this`output
      ensures Valid()
      ensures Carried(DoBreakpoint(old(cpu.View()), ipBuf[..], input), !stuck)
    {
      hide Number, Framed, BreakpointSet, BreakpointCleared;
      hide Cpu.Lm32.View, Cpu.Lm32.Valid, Cpu.Lm32.ViewA, Cpu.Lm32.Cfg;
      stuck := false;
      if ipBuf[1] == 0x31 {
        var addr, i := ParseNumber(3, BUFFER_SIZE, COMMA);
        if i >= BUFFER_SIZE {
          return true;
        }
        var ok := SetOrClear(addr, ipBuf[0] == CLEAR_CMD);
        Answer(if ok then OK else [0x45] + HexPair(ENOSPC));
      } else if 0x32 <= ipBuf[1] <= 0x34 {
        stuck := true;
      } else {
        Answer([]);
      }
    }

    /** lm32gdb_proc_gdb_cmd. */
    method ProcCommand(n: nat) returns (end: Option<Ending>)
      requires Valid() && n < BUFFER_SIZE
      modifies cpu.Repr, opBuf, this`input, this`output
      ensures Valid()
      ensures Ended(Proc(cpu.Cfg(), old(cpu.View()), ipBuf[..], n, old(input)), end)
    {
      hide DoRead, DoWrite, DoBreakpoint, Framed, Cpu.Lm32.View, Cpu.Lm32.Valid, Cpu.Lm32.ViewA, Cpu.Lm32.Cfg;
      opBuf[0] := SOP;
      var stuck := false;
      var c := ipBuf[0];
      if c == READ_CMD {
        stuck := DoReadCommand(n);
      } else if c == BINARY_CMD {
        stuck := DoWriteCommand(n, true);
      } else if c == WRITE_CMD {
        stuck := DoWriteCommand(n, false);
      } else if c == SET_CMD || c == CLEAR_CMD {
        stuck := DoBreakpointCommand();
      } else if c == DETACH_CMD {
        Answer(OK);
        return Some(HostDetached);
      } else if c == KILL_CMD {
        return Some(HostDetached);
      } else if NotModelled(c) {
        stuck := true;
      } else {
        Answer([]);
      }
      end := if stuck then Some(Stuck) else None;
    }

    /** How a command leaves the session. */
    twostate predicate Ended(d: Done, new end: Option<Ending>)
      requires Valid()
      reads this, cpu.Repr
    {
      match d.verdict
      case Replied(_) => end == None && Carried(d, true)
      case Detached => end == Some(HostDetached) && cpu.View() == d.m && output == old(output) + Framed(OK)
      case Killed => end == Some(HostDetached) && cpu.View() == d.m && output == old(output)
      case _ => end == Some(Stuck)
    }

    /** A packet has ended with the character `b`. */
    method EndPacket(idx: nat, ghost b: u8) returns (end: Option<Ending>)
      requires Valid() && idx < BUFFER_SIZE && PacketEnds(Link(true, ipBuf[..], idx), b)
      modifies cpu.Repr, ipBuf, opBuf, this`input, this`output
      ensures Valid() && (end == None ==> |input| <= |old(input)|)
      ensures Advanced(Serve(cpu.Cfg(), old(cpu.View()), Link(true, old(ipBuf[..]), idx), [b] + old(input)),
                       Link(false, ipBuf[..], 0), end)
    {
      hide Proc, Framed, Serve, PacketEnds, Cpu.Lm32.View, Cpu.Lm32.Valid, Cpu.Lm32.ViewA, Cpu.Lm32.Cfg;
      ServeCommand(cpu.Cfg(), cpu.View(), Link(true, ipBuf[..], idx), b, input);
      output := output + [ACK];
      ipBuf[idx] := 0;
      ghost var d := Proc(cpu.Cfg(), cpu.View(), ipBuf[..], idx, input);
      end := ProcCommand(idx);
      if end == None {
        assert output == old(output) + ([ACK] + Framed(d.verdict.body));
      }
    }

    /** One character from the host. */
    method Receive(active: bool, idx: nat) returns (active': bool, idx': nat, end: Option<Ending>)
      requires Valid() && idx < BUFFER_SIZE && input != []
      modifies cpu.Repr, ipBuf, opBuf, this`input, this`output
      ensures Valid() && idx' < BUFFER_SIZE && (end == None ==> |input| < |old(input)|)
      ensures Advanced(Serve(cpu.Cfg(), old(cpu.View()), Link(active, old(ipBuf[..]), idx), old(input)),
                       Link(active', ipBuf[..], idx'), end)
    {
      hide Serve, Cpu.Lm32.View, Cpu.Lm32.Valid, Cpu.Lm32.ViewA, Cpu.Lm32.Cfg;
      active', idx', end := active, idx, None;
      var b := input[0];
      input := input[1..];
      assert [b] + input == old(input);
      if active && (b == EOP || idx == BUFFER_SIZE - 1 ||
                    (b == DELIM && (ipBuf[0] == BINARY_CMD || ipBuf[0] == WRITE_CMD)))
      {
        end := EndPacket(idx, b);
        active', idx' := false, 0;
      } else {
        ServeCharacter(cpu.Cfg(), cpu.View(), Link(active, ipBuf[..], idx), b, input);
        if !active && b == SOP {
          active' := true;
        } else if active {
          ipBuf[idx] := b;
          idx' := idx + 1;
        }
        assert output == old(output) + [];
        assert Sent([], Serve(cpu.Cfg(), cpu.View(), Link(active', ipBuf[..], idx'), input))
            == Serve(cpu.Cfg(), cpu.View(), Link(active', ipBuf[..], idx'), input);
      }
    }

    /** From the session `s` that lay ahead before, the session with link `l`, or
        its end. */
    twostate predicate Advanced(s: Session, new l: Link, new end: Option<Ending>)
      requires Valid() && l.idx < BUFFER_SIZE
      reads this, cpu.Repr
    {
      match end
      case Some(e) =>
        e == s.end && (e != Stuck ==> cpu.View() == s.m && output == old(output) + s.out)
      case None =>
        exists sent :: output == old(output) + sent && s == Sent(sent, Serve(cpu.Cfg(), cpu.View(), l, input))
    }

    /** lm32gdb_process_gdb, once the host is connected. */
    method ProcessGdb() returns (end: Ending)
      requires Valid()
      modifies cpu.Repr, ipBuf, opBuf, this`input, this`output
      ensures Valid()
      ensures var s := Serve(cpu.Cfg(), old(cpu.View()), Link(false, old(ipBuf[..]), 0), old(input));
        end == s.end && (end != Stuck ==> cpu.View() == s.m && output == old(output) + s.out)
    {
      hide Serve, Cpu.Lm32.View, Cpu.Lm32.Valid, Cpu.Lm32.ViewA, Cpu.Lm32.Cfg;
      var active, idx: nat := false, 0;
      ghost var sent := [];
      while input != []
        invariant Valid() && idx < BUFFER_SIZE
        invariant output == old(output) + sent
        invariant Sent(sent, Serve(cpu.Cfg(), cpu.View(), Link(active, ipBuf[..], idx), input))
                  == Serve(cpu.Cfg(), old(cpu.View()), Link(false, old(ipBuf[..]), 0), old(input))
        decreases |input|
      {
        label before:
        ghost var s := Serve(cpu.Cfg(), cpu.View(), Link(active, ipBuf[..], idx), input);
        ghost var out := output;
        var ending;
        active, idx, ending := Receive(active, idx);
        if ending.Some? {
          return ending.value;
        }
        ghost var more :| output == out + more
          && s == Sent(more, Serve(cpu.Cfg(), cpu.View(), Link(active, ipBuf[..], idx), input));
        SentTwice(sent, more, Serve(cpu.Cfg(), cpu.View(), Link(active, ipBuf[..], idx), input));
        sent := sent + more;
      }
      NothingMore(cpu.Cfg(), cpu.View(), Link(active, ipBuf[..], idx));
      end := ConnectionLost;
    }
  }

  lemma SentTwice(out: seq<u8>, more: seq<u8>, s: Session)
    ensures Sent(out, Sent(more, s)) == Sent(out + more, s)
  {
    assert out + (more + s.out) == out + more + s.out;
  }

  lemma ServeCharacter(cfg: Config, m: Machine, l: Link, b: u8, rest: seq<u8>)
    requires Sound(cfg, m) && l.idx < BUFFER_SIZE && !PacketEnds(l, b)
    ensures Serve(cfg, m, l, [b] + rest) == Serve(cfg, m, Received(l, b), rest)
  {
    assert ([b] + rest)[1..] == rest;
  }

  lemma ServeCommand(cfg: Config, m: Machine, l: Link, b: u8, rest: seq<u8>)
    requires Sound(cfg, m) && l.idx < BUFFER_SIZE && PacketEnds(l, b)
    ensures var buf := l.buf[l.idx := 0];
      var d := Proc(cfg, m, buf, l.idx, rest);
      Serve(cfg, m, l, [b] + rest) ==
        match d.verdict
        case Replied(body) => Sent([ACK] + Framed(body), Serve(cfg, d.m, Link(false, buf, 0), d.rest))
        case Detached => Session(d.m, [ACK] + Framed(OK), HostDetached)
        case Killed => Session(d.m, [ACK], HostDetached)
        case _ => Session(d.m, [ACK], Stuck)
  {
    hide Proc, Framed, Sent;
    assert ([b] + rest)[1..] == rest;
  }

  lemma NothingMore(cfg: Config, m: Machine, l: Link)
    requires Sound(cfg, m) && l.idx < BUFFER_SIZE
    ensures Serve(cfg, m, l, []) == Session(m, [], ConnectionLost)
  {
  }

  lemma SumOne(s: seq<u8>, a: u8)
    ensures Sum(s + [a]) == (Sum(s) + a) % 0x100
  {
    assert (s + [a])[..|s|] == s;
  }

  lemma SumEmpty()
    ensures Sum([]) == 0
  {
  }

  lemma SumPair(s: seq<u8>, a: u8, b: u8)
    ensures Sum(s + [a, b]) == ((Sum(s) + a) % 0x100 + b) % 0x100
  {
    assert (s + [a, b])[..|s| + 1] == s + [a];
    assert (s + [a])[..|s|] == s;
  }

  lemma SameAddress(addr: u32)
    ensures Wrap(addr + 0) == addr
  {
  }

  lemma NextAddress(addr: u32, k: nat)
    ensures Wrap(Wrap(addr + k) + 1) == Wrap(addr + (k + 1))
  {
  }
}
