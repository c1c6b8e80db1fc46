/** Internal memory: one array of bytes behind a base address, read and written
    big-endian through host-endian 16- and 32-bit views of the same storage. */
module Memory {
  import opened Words

  datatype Size = Byte | Half | Full

  function Width(sz: Size): (n: nat) {
    match sz case Byte => 1 case Half => 2 case Full => 4
  }

  /** The alignment test, made on the index into the array. */
  predicate Fits(i: nat, sz: Size) {
    match sz case Byte => true case Half => i % 2 == 0 case Full => i % 4 == 0
  }

  function Modulus(sz: Size): (n: nat)
    ensures n > 0
  {
    match sz case Byte => 0x100 case Half => 0x1_0000 case Full => 0x1_0000_0000
  }

  /** `size` has been rounded up, and `base` down, to a whole number of words. */
  datatype RawGeometry = Geometry(size: nat, base: u32, entryPoint: u32)

  predicate Aligned(g: RawGeometry) {
    0 < g.size < 0x1_0000_0000 && g.size % 4 == 0 && g.base % 4 == 0
  }

  type Geometry = g: RawGeometry | Aligned(g)
    witness Geometry(4, 0, 0)

  /** The bounds check of the program; the sum is a 32-bit sum. */
  predicate InBounds(g: Geometry, p: u32) {
    g.base <= p <= Wrap(g.size + g.base)
  }

  /** Remainder by repeated subtraction; the program's `%` (see ResidueIsMod). */
  function Residue(p: nat, n: nat): (r: nat)
    requires n > 0
    ensures r < n
  {
    if p < n then p else Residue(p - n, n)
  }

  lemma {:induction false} ResidueIsMod(p: nat, n: nat)
    requires n > 0
    ensures Residue(p, n) == p % n
  {
    if p >= n {
      ResidueIsMod(p - n, n);
      ModUnique(p, n, (p - n) / n + 1, (p - n) % n);
    } else {
      ModUnique(p, n, 0, p);
    }
  }

  /** Where a physical address lives in the byte array. */
  function Index(g: Geometry, p: u32): (i: nat)
    ensures i < g.size
  {
    Residue(p, g.size)
  }

  predicate Placed(g: Geometry, mem: seq<u8>) {
    |mem| == g.size
  }

  /** Bytes put over part of an array. */
  function Overlaid(arr: seq<u8>, i: nat, s: seq<u8>): (arr': seq<u8>)
    requires i + |s| <= |arr|
    ensures |arr'| == |arr|
  {
    arr[..i] + s + arr[i + |s|..]
  }

  /** Bytes put together, most significant first. */
  function HalfOf(b0: int, b1: int): int {
    0x100 * b0 + b1
  }

  function WordOf(b0: int, b1: int, b2: int, b3: int): int {
    0x100_0000 * b0 + 0x1_0000 * b1 + 0x100 * b2 + b3
  }

  function ReadBytes(mem: seq<u8>, i: nat, sz: Size): (d: u32)
    requires i + Width(sz) <= |mem|
    ensures d < Modulus(sz)
  {
    match sz
    case Byte => mem[i]
    case Half => HalfOf(mem[i], mem[i + 1])
    case Full => WordOf(mem[i], mem[i + 1], mem[i + 2], mem[i + 3])
  }

  function WriteBytes(mem: seq<u8>, i: nat, sz: Size, d: u32): (mem': seq<u8>)
    requires i + Width(sz) <= |mem|
    ensures |mem'| == |mem|
  {
    match sz
    case Byte => mem[i := d % 0x100]
    case Half => mem[i := d / 0x100 % 0x100][i + 1 := d % 0x100]
    case Full => mem[i := d / 0x100_0000][i + 1 := d / 0x1_0000 % 0x100]
                    [i + 2 := d / 0x100 % 0x100][i + 3 := d % 0x100]
  }

  /** An aligned index leaves room for the whole access. */
  lemma RoomFor(g: Geometry, i: nat, sz: Size)
    requires i < g.size && Fits(i, sz)
    ensures i + Width(sz) <= g.size
  {
    match sz
    case Byte =>
    case Half => CutToHalf(i, g.size);
    case Full => CutToWord(i, g.size);
  }

  /** A local read: `None` stands for a bus error. */
  function Read(g: Geometry, mem: seq<u8>, p: u32, sz: Size): Option<u32>
    requires Placed(g, mem)
  {
    if !InBounds(g, p) || !Fits(Index(g, p), sz) then None
    else
      RoomFor(g, Index(g, p), sz);
      Some(ReadBytes(mem, Index(g, p), sz))
  }

  /** A local write: `None` stands for a bus error, which leaves memory alone. */
  function Write(g: Geometry, mem: seq<u8>, p: u32, sz: Size, d: u32): (r: Option<seq<u8>>)
    requires Placed(g, mem)
    ensures r.Some? ==> Placed(g, r.value)
  {
    if !InBounds(g, p) || !Fits(Index(g, p), sz) then None
    else
      RoomFor(g, Index(g, p), sz);
      Some(WriteBytes(mem, Index(g, p), sz, d))
  }

  // ---------------------------------------------------------------------------
  // Host views.  mem16 and mem32 overlay the byte array in the (little-endian)
  // host order; SWAP and SWAPHALF turn them round.
  // ---------------------------------------------------------------------------

  function HostHalf(mem: seq<u8>, k: nat): (h: u32)
    requires 2 * k + 1 < |mem|
    ensures h < 0x1_0000
  {
    HalfOf(mem[2 * k + 1], mem[2 * k])
  }

  function HostWord(mem: seq<u8>, k: nat): u32
    requires 4 * k + 3 < |mem|
  {
    WordOf(mem[4 * k + 3], mem[4 * k + 2], mem[4 * k + 1], mem[4 * k])
  }

  function SwapHalf(h: u32): (r: u32)
    ensures r < 0x1_0000
  {
    h / 0x100 % 0x100 + 0x100 * (h % 0x100)
  }

  function Swap(w: u32): u32 {
    w / 0x100_0000 + 0x100 * (w / 0x1_0000 % 0x100)
    + 0x1_0000 * (w / 0x100 % 0x100) + 0x100_0000 * (w % 0x100)
  }

  /** Swapping a host word back is reading the bytes big-endian. */
  lemma SwapReads(mem: seq<u8>, i: nat)
    requires i + 4 <= |mem| && i % 4 == 0
    ensures Swap(HostWord(mem, i / 4)) == ReadBytes(mem, i, Full)
  {
    SwapWordOf(mem[i + 3], mem[i + 2], mem[i + 1], mem[i]);
  }

  lemma SwapHalfReads(mem: seq<u8>, i: nat)
    requires i + 2 <= |mem| && i % 2 == 0
    ensures SwapHalf(HostHalf(mem, i / 2)) == ReadBytes(mem, i, Half)
  {
    SwapHalfOf(mem[i + 1], mem[i]);
  }

  lemma SwapWordOf(b0: u8, b1: u8, b2: u8, b3: u8)
    ensures Swap(WordOf(b0, b1, b2, b3)) == WordOf(b3, b2, b1, b0)
  {
    var w := WordOf(b0, b1, b2, b3);
    PeelByte(w, WordOf(0, b0, b1, b2), b3);
    PeelByte(w / 0x100, HalfOf(b0, b1), b2);
    PeelByte(w / 0x1_0000, b0, b1);
    assert w / 0x1_0000 == w / 0x100 / 0x100 && w / 0x100_0000 == w / 0x1_0000 / 0x100;
  }

  lemma PeelByte(w: int, high: int, low: u8)
    requires w == 0x100 * high + low
    ensures w / 0x100 == high && w % 0x100 == low
  {
  }

  lemma SwapHalfOf(b0: u8, b1: u8)
    ensures SwapHalf(HalfOf(b0, b1)) == HalfOf(b1, b0)
  {
  }

  /** A word is its four bytes. */
  lemma SplitWord(d: u32)
    ensures WordOf(d / 0x100_0000, d / 0x1_0000 % 0x100, d / 0x100 % 0x100, d % 0x100) == d
    ensures HalfOf(d / 0x100 % 0x100, d % 0x100) == d % 0x1_0000
  {
    assert d / 0x1_0000 == 0x100 * (d / 0x100_0000) + d / 0x1_0000 % 0x100;
    assert d / 0x100 == 0x100 * (d / 0x1_0000) + d / 0x100 % 0x100;
  }

  // ---------------------------------------------------------------------------
  // The array itself, read and updated in place
  // ---------------------------------------------------------------------------

  lemma ByteRead(m: seq<u8>, i: nat)
    requires i < |m|
    ensures ReadBytes(m, i, Byte) == m[i]
  {
  }

  /** The local access of a read: bounds, alignment, byte order. */
  method LocalRead(g: Geometry, mem: array<u8>, p: u32, sz: Size) returns (ok: bool, data: u32)
    requires mem.Length == g.size
    ensures Read(g, mem[..], p, sz) == if ok then Some(data) else None
  {
    hide Residue, SwapHalf, HostHalf, Swap, HostWord, ReadBytes;
    ok, data := false, 0;
    if p > Wrap(g.size + g.base) || p < g.base {
      return;
    }
    var i := Index(g, p);
    match sz {
      case Byte =>
        ByteRead(mem[..], i);
        data := mem[i];
      case Half =>
        if i % 2 != 0 {
          return;
        }
        RoomFor(g, i, Half);
        SwapHalfReads(mem[..], i);
        data := SwapHalf(HostHalf(mem[..], i / 2));
      case Full =>
        if i % 4 != 0 {
          return;
        }
        RoomFor(g, i, Full);
        SwapReads(mem[..], i);
        data := Swap(HostWord(mem[..], i / 4));
    }
    ok := true;
  }

  /** The local access of a write. */
  method LocalWrite(g: Geometry, mem: array<u8>, p: u32, sz: Size, data: u32) returns (ok: bool)
    requires mem.Length == g.size
    modifies mem
    ensures Write(g, old(mem[..]), p, sz, data) == if ok then Some(mem[..]) else None
    ensures !ok ==> mem[..] == old(mem[..])
  {
    hide Residue;
    ok := false;
    if p > Wrap(g.size + g.base) || p < g.base {
      return;
    }
    var i := Index(g, p);
    match sz {
      case Byte =>
        mem[i] := data % 0x100;
      case Half =>
        if i % 2 != 0 {
          return;
        }
        RoomFor(g, i, Half);
        mem[i] := data / 0x100 % 0x100;
        mem[i + 1] := data % 0x100;
      case Full =>
        if i % 4 != 0 {
          return;
        }
        RoomFor(g, i, Full);
        mem[i] := data / 0x100_0000;
        mem[i + 1] := data / 0x1_0000 % 0x100;
        mem[i + 2] := data / 0x100 % 0x100;
        mem[i + 3] := data % 0x100;
    }
    ok := true;
  }

  // ---------------------------------------------------------------------------
  // One big-endian array of bytes
  // ---------------------------------------------------------------------------

  /** Reduction modulo the size numbers the addresses of RAM without overlap,
      and (IndexReached) without gap. */
  lemma IndexInjective(g: Geometry, p: u32, q: u32)
    requires g.base <= p < g.base + g.size && g.base <= q < g.base + g.size
    ensures Index(g, p) == Index(g, q) ==> p == q
  {
    ResidueIsMod(p, g.size);
    ResidueIsMod(q, g.size);
    if p % g.size == q % g.size {
      SameResidue(p, q, g.size);
    }
  }

  lemma SameResidue(p: int, q: int, n: int)
    requires n > 0 && p % n == q % n && -n < p - q < n
    ensures p == q
  {
    assert p - q == n * (p / n) - n * (q / n);
    assert p - q == n * (p / n - q / n);
    SmallMultiple(n, p / n - q / n);
  }

  lemma IndexReached(g: Geometry, i: nat) returns (p: u32)
    requires g.base + g.size <= 0x1_0000_0000 && i < g.size
    ensures g.base <= p < g.base + g.size && Index(g, p) == i
  {
    var q, r := g.base / g.size, g.base % g.size;
    if i >= r {
      p := g.base + (i - r);
      ModUnique(p, g.size, q, i);
      ResidueIsMod(p, g.size);
    } else {
      p := g.base + (g.size - r + i);
      ModUnique(p, g.size, q + 1, i);
      ResidueIsMod(p, g.size);
    }
  }

  /** Within a word the bytes stay adjacent. */
  lemma {:induction false} ResidueStep(p: nat, n: nat, k: nat)
    requires n > 0 && n % 4 == 0 && p % 4 + k < 4
    ensures Residue(p + k, n) == Residue(p, n) + k
    ensures Residue(p, n) % 4 == p % 4
  {
    if p >= n {
      ResidueStep(p - n, n, k);
    }
  }

  lemma IndexStep(g: Geometry, p: u32, k: nat)
    requires p % 4 + k < 4
    ensures p + k < 0x1_0000_0000
    ensures Index(g, p + k) == Index(g, p) + k
    ensures Index(g, p) % 4 == p % 4
  {
    ResidueStep(p, g.size, k);
  }

  lemma ReadAt(g: Geometry, mem: seq<u8>, p: u32, sz: Size)
    requires Placed(g, mem) && g.base <= p <= g.base + g.size < 0x1_0000_0000
    requires Fits(Index(g, p), sz)
    ensures Index(g, p) + Width(sz) <= |mem|
    ensures Read(g, mem, p, sz) == Some(ReadBytes(mem, Index(g, p), sz))
  {
    hide Residue, ReadBytes;
    RoomFor(g, Index(g, p), sz);
  }

  lemma HalfBelow(p: int, base: int, size: int)
    requires p % 2 == 0 && base % 4 == 0 && size % 4 == 0 && p < base + size
    ensures p + 2 <= base + size
  {
  }

  lemma WordBelow(p: int, base: int, size: int)
    requires p % 4 == 0 && base % 4 == 0 && size % 4 == 0 && p < base + size
    ensures p + 4 <= base + size
  {
  }

  /** A half or word read is its bytes, most significant first. */
  lemma ReadHalfIsBytes(g: Geometry, mem: seq<u8>, p: u32)
    requires Placed(g, mem) && g.base <= p < g.base + g.size < 0x1_0000_0000
    requires p % 2 == 0
    ensures Read(g, mem, p, Byte).Some? && Read(g, mem, p + 1, Byte).Some?
    ensures Read(g, mem, p, Half)
            == Some(HalfOf(Read(g, mem, p, Byte).value, Read(g, mem, p + 1, Byte).value))
  {
    hide Residue, Read, ReadBytes;
    EvenRoom(p);
    IndexStep(g, p, 0);
    IndexStep(g, p, 1);
    HalfBelow(p, g.base, g.size);
    Parity(p, Index(g, p));
    ReadAt(g, mem, p, Byte);
    ReadAt(g, mem, p, Half);
    ReadAt(g, mem, p + 1, Byte);
    BytesOfHalf(mem, Index(g, p));
  }

  lemma BytesOfHalf(mem: seq<u8>, i: nat)
    requires i + 2 <= |mem|
    ensures ReadBytes(mem, i, Half) == HalfOf(ReadBytes(mem, i, Byte), ReadBytes(mem, i + 1, Byte))
  {
  }

  /** An even address leaves room for one more byte in its word. */
  lemma EvenRoom(p: nat)
    requires p % 2 == 0
    ensures p % 4 + 1 < 4
  {
    var r := p % 4;
    ModUnique(p, 2, 2 * (p / 4) + r / 2, r % 2);
  }

  lemma ReadWordIsHalves(g: Geometry, mem: seq<u8>, p: u32)
    requires Placed(g, mem) && g.base <= p < g.base + g.size < 0x1_0000_0000
    requires p % 4 == 0
    ensures Read(g, mem, p, Half).Some? && Read(g, mem, p + 2, Half).Some?
    ensures Read(g, mem, p, Full)
            == Some(0x1_0000 * Read(g, mem, p, Half).value + Read(g, mem, p + 2, Half).value)
  {
    hide Residue;
    IndexStep(g, p, 0);
    IndexStep(g, p, 2);
    WordBelow(p, g.base, g.size);
    hide Read, ReadBytes;
    ReadAt(g, mem, p, Half);
    ReadAt(g, mem, p, Full);
    EvenOfFour(Index(g, p));
    ReadAt(g, mem, p + 2, Half);
    HalvesOfWord(mem, Index(g, p));
  }

  lemma EvenOfFour(i: nat)
    requires i % 4 == 0
    ensures i % 2 == 0 && (i + 2) % 2 == 0
  {
    ModUnique(i, 2, 2 * (i / 4), 0);
    ModUnique(i + 2, 2, 2 * (i / 4) + 1, 0);
  }

  /** A misaligned access is a bus error, wherever it is. */
  lemma MisalignedFails(g: Geometry, mem: seq<u8>, p: u32)
    requires Placed(g, mem)
    ensures p % 2 != 0 ==> Read(g, mem, p, Half) == None
    ensures p % 4 != 0 ==> Read(g, mem, p, Full) == None
  {
    hide Residue;
    IndexStep(g, p, 0);
    Parity(p, Index(g, p));
  }

  lemma Parity(p: int, i: int)
    requires p % 4 == i % 4
    ensures p % 2 == i % 2
  {
    var r := p % 4;
    ModUnique(p, 2, 2 * (p / 4) + r / 2, r % 2);
    ModUnique(i, 2, 2 * (i / 4) + r / 2, r % 2);
  }

  lemma HalvesOfWord(mem: seq<u8>, i: nat)
    requires i + 4 <= |mem|
    ensures ReadBytes(mem, i, Full) == 0x1_0000 * ReadBytes(mem, i, Half) + ReadBytes(mem, i + 2, Half)
  {
  }

  /** What is written is read back, and no byte outside the access changes. */
  lemma WriteThenRead(g: Geometry, mem: seq<u8>, p: u32, sz: Size, d: u32)
    requires Placed(g, mem)
    ensures Write(g, mem, p, sz, d).Some? <==> Read(g, mem, p, sz).Some?
    ensures Write(g, mem, p, sz, d).Some? ==>
      var mem' := Write(g, mem, p, sz, d).value;
      && Read(g, mem', p, sz) == Some(d % Modulus(sz))
      && forall i :: 0 <= i < g.size && !(Index(g, p) <= i < Index(g, p) + Width(sz)) ==> mem'[i] == mem[i]
  {
    var i := Index(g, p);
    if Write(g, mem, p, sz, d).Some? {
      RoomFor(g, i, sz);
      WriteThenReadBytes(mem, i, sz, d);
    }
  }

  lemma WriteThenReadBytes(mem: seq<u8>, i: nat, sz: Size, d: u32)
    requires i + Width(sz) <= |mem|
    ensures ReadBytes(WriteBytes(mem, i, sz, d), i, sz) == d % Modulus(sz)
    ensures forall k :: 0 <= k < |mem| && !(i <= k < i + Width(sz)) ==> WriteBytes(mem, i, sz, d)[k] == mem[k]
  {
    SplitWord(d);
  }

  /** The bounds check admits one address too many: the one just past RAM,
      which aliases the first byte. */
  lemma OnePastTheEnd(g: Geometry, mem: seq<u8>, sz: Size, d: u32)
    requires Placed(g, mem) && g.base + g.size < 0x1_0000_0000
    ensures Read(g, mem, g.base + g.size, sz) == Read(g, mem, g.base, sz)
    ensures Read(g, mem, g.base, Byte).Some?
    ensures Write(g, mem, g.base + g.size, sz, d) == Write(g, mem, g.base, sz, d)
  {
  }

  // ---------------------------------------------------------------------------
  // The fast forms: a mask instead of a division, and no checks at all
  // ---------------------------------------------------------------------------

  /** byte_addr of the LM32_FAST_COMPILE build. */
  function FastIndex(g: Geometry, p: u32): nat {
    BitAnd(p, g.size - 1)
  }

  /** What the unchecked build reads.  `None` would be an access outside the
      array. */
  function FastRead(g: Geometry, mem: seq<u8>, p: u32, sz: Size): Option<u32>
    requires Placed(g, mem)
  {
    var i := FastIndex(g, p);
    match sz
    case Byte => if i < |mem| then Some(mem[i]) else None
    case Half => if 2 * (i / 2) + 1 < |mem| then Some(SwapHalf(HostHalf(mem, i / 2))) else None
    case Full => if 4 * (i / 4) + 3 < |mem| then Some(Swap(HostWord(mem, i / 4))) else None
  }

  /** An index cut down to a whole number of accesses. */
  function CutTo(i: nat, sz: Size): (j: nat) {
    match sz case Byte => i case Half => i / 2 * 2 case Full => i / 4 * 4
  }

  /** What the unchecked build writes: the address is cut down to a whole half or
      word of the array. */
  function FastWrite(g: Geometry, mem: seq<u8>, p: u32, sz: Size, d: u32): (r: Option<seq<u8>>)
    requires Placed(g, mem)
    ensures r.Some? ==> Placed(g, r.value)
  {
    var i := CutTo(FastIndex(g, p), sz);
    if i + Width(sz) <= |mem| then Some(WriteBytes(mem, i, sz, d)) else None
  }

  /** For a power-of-two memory the mask is the division, for every address. */
  lemma FastIndexAgrees(g: Geometry, p: u32, k: nat)
    requires g.size == Pow2(k)
    ensures FastIndex(g, p) == Index(g, p)
  {
    MaskIsMod(p, k);
    ResidueIsMod(p, g.size);
  }

  /** Whenever the checked path reads, the unchecked one reads the same; it
      differs only where the checked path would have reported a bus error. */
  lemma FastReadAgrees(g: Geometry, mem: seq<u8>, p: u32, sz: Size, k: nat)
    requires Placed(g, mem) && g.size == Pow2(k)
    ensures Read(g, mem, p, sz).Some? ==> FastRead(g, mem, p, sz) == Read(g, mem, p, sz)
  {
    FastIndexAgrees(g, p, k);
    var i := Index(g, p);
    if Read(g, mem, p, sz).Some? {
      RoomFor(g, i, sz);
      match sz
      case Byte =>
      case Half => SwapHalfReads(mem, i);
      case Full => SwapReads(mem, i);
    }
  }

  /** The same for writes, which moreover always find room. */
  lemma FastWriteAgrees(g: Geometry, mem: seq<u8>, p: u32, sz: Size, d: u32, k: nat)
    requires Placed(g, mem) && g.size == Pow2(k)
    ensures var i := CutTo(Index(g, p), sz);
      && i <= Index(g, p) < i + Width(sz) <= g.size
      && FastWrite(g, mem, p, sz, d) == Some(WriteBytes(mem, i, sz, d))
    ensures Write(g, mem, p, sz, d).Some? ==> FastWrite(g, mem, p, sz, d) == Write(g, mem, p, sz, d)
  {
    FastIndexAgrees(g, p, k);
    CutDown(Index(g, p), g.size, sz);
    hide FastIndex, Residue, WriteBytes;
  }

  lemma CutDown(i: nat, size: nat, sz: Size)
    requires i < size && size % 4 == 0
    ensures var j := CutTo(i, sz);
      j <= i < j + Width(sz) <= size && (Fits(i, sz) ==> j == i) && Fits(j, sz)
  {
    match sz
    case Byte =>
    case Half => CutToHalf(i, size);
    case Full => CutToWord(i, size);
  }

  lemma CutToHalf(i: nat, size: nat)
    requires i < size && size % 4 == 0
    ensures var j := i / 2 * 2; j <= i < j + 2 <= size && j % 2 == 0 && (i % 2 == 0 ==> j == i)
  {
    var q, n := i / 2, 2 * (size / 4);
    assert size == 2 * n && i == 2 * q + i % 2;
    assert q < n;
    ModUnique(2 * q, 2, q, 0);
  }

  lemma CutToWord(i: nat, size: nat)
    requires i < size && size % 4 == 0
    ensures var j := i / 4 * 4; j <= i < j + 4 <= size && j % 4 == 0 && (i % 4 == 0 ==> j == i)
  {
    var q, n := i / 4, size / 4;
    assert size == 4 * n && i == 4 * q + i % 4;
    assert q < n;
    ModUnique(4 * q, 4, q, 0);
  }

  /** The unchecked access to the array itself. */
  method UncheckedRead(g: Geometry, mem: array<u8>, p: u32, ghost k: nat) returns (data: u8)
    requires mem.Length == g.size && g.size == Pow2(k)
    ensures FastRead(g, mem[..], p, Byte) == Some(data as u32)
  {
    FastIndexAgrees(g, p, k);
    data := mem[FastIndex(g, p)];
  }

  method UncheckedWrite(g: Geometry, mem: array<u8>, p: u32, sz: Size, data: u32, ghost k: nat)
    requires mem.Length == g.size && g.size == Pow2(k)
    modifies mem
    ensures FastWrite(g, old(mem[..]), p, sz, data) == Some(mem[..])
  {
    FastWriteAgrees(g, mem[..], p, sz, data, k);
    FastIndexAgrees(g, p, k);
    hide FastIndex, Residue;
    var i := FastIndex(g, p);
    match sz {
      case Byte =>
        mem[i] := data % 0x100;
      case Half =>
        i := i / 2 * 2;
        mem[i] := data / 0x100 % 0x100;
        mem[i + 1] := data % 0x100;
      case Full =>
        i := i / 4 * 4;
        mem[i] := data / 0x100_0000;
        mem[i + 1] := data / 0x1_0000 % 0x100;
        mem[i + 2] := data / 0x100 % 0x100;
        mem[i + 3] := data % 0x100;
    }
  }

  // The Linux build: 64 MB of RAM at 0x0800_0000, with inline readers that
  // test for a peripheral address and otherwise index the array directly.
  const LNX_RAM: Geometry := Geometry(0x400_0000, 0x800_0000, 0x800_0000)
  const LNX_RAM_MASK: nat := 0x3ff_ffff

  predicate LnxPeripheral(p: u32) {
    p / 0x1000_0000 != 0
  }

  function LnxRead(mem: seq<u8>, p: u32, sz: Size): Option<u32>
    requires Placed(LNX_RAM, mem)
  {
    if LnxPeripheral(p) then Read(LNX_RAM, mem, p, sz)
    else
      var i := BitAnd(p, LNX_RAM_MASK);
      match sz
      case Byte => if i < |mem| then Some(mem[i]) else None
      case Half => if 2 * (i / 2) + 1 < |mem| then Some(SwapHalf(HostHalf(mem, i / 2))) else None
      case Full => if 4 * (i / 4) + 3 < |mem| then Some(Swap(HostWord(mem, i / 4))) else None
  }

  /** The inline readers agree with the checked path wherever that reads. */
  lemma LnxReadAgrees(mem: seq<u8>, p: u32, sz: Size)
    requires Placed(LNX_RAM, mem)
    ensures Read(LNX_RAM, mem, p, sz).Some? ==> LnxRead(mem, p, sz) == Read(LNX_RAM, mem, p, sz)
  {
    LnxPower();
    FastReadAgrees(LNX_RAM, mem, p, sz, LNX_RAM_BITS);
  }

  const LNX_RAM_BITS: nat := 26

  lemma LnxPower()
    ensures LNX_RAM.size == Pow2(LNX_RAM_BITS)
  {
    assert Pow2(8) == 0x100;
    assert Pow2(16) == 0x1_0000;
    assert Pow2(24) == 0x100_0000;
  }
}
