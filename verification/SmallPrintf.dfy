/** Number and string printing of the bare-metal drivers: padding, and digits put
    into a small buffer from the end backwards. */
module SmallPrintf {
  import opened Words

  type i32 = x: int | -0x8000_0000 <= x < 0x8000_0000

  datatype Pad = Pad(right: bool, zero: bool)

  const PRINT_BUF_LEN: nat := 12

  /** Where printchar puts its characters: the console or the caller's string. */
  class Sink {
    var text: string

    constructor ()
      ensures text == ""
    {
      text := "";
    }

    method PrintChar(c: char)
      modifies this
      ensures text == old(text) + [c]
    {
      text := text + [c];
    }
  }

  // ---------------------------------------------------------------------------
  // Values
  // ---------------------------------------------------------------------------

  /** The string that starts at a pointer and runs up to the first zero. */
  function CString(s: string): (r: string)
    requires '\0' in s
    ensures |r| < |s| && s[|r|] == '\0' && r == s[..|r|] && '\0' !in r
  {
    if s[0] == '\0' then ""
    else
      assert s == [s[0]] + s[1..];
      [s[0]] + CString(s[1..])
  }

  function Copies(c: char, n: int): (r: string)
    ensures |r| == if n > 0 then n else 0
    ensures forall k :: 0 <= k < |r| ==> r[k] == c
    decreases n
  {
    if n <= 0 then "" else Copies(c, n - 1) + [c]
  }

  function Fill(text: string, width: int, pad: Pad): string {
    Copies(if pad.zero then '0' else ' ', width - |text|)
  }

  function Padded(text: string, width: int, pad: Pad): string {
    if pad.right then text + Fill(text, width, pad) else Fill(text, width, pad) + text
  }

  function DigitChar(t: nat, letters: char): char
    requires t < 16 && letters in "aA"
  {
    if t >= 10 then (letters as int + (t - 10)) as char else ('0' as int + t) as char
  }

  function Quotient(u: nat, b: nat): (q: nat)
    requires b >= 2
    ensures u > 0 ==> q < u
  {
    QuotientShrinks(u, b);
    u / b
  }

  function Remainder(u: nat, b: nat): (r: nat)
    requires b >= 2
    ensures r < b
  {
    u % b
  }

  lemma QuotientShrinks(u: nat, b: nat)
    requires b >= 2
    ensures u > 0 ==> u / b < u
  {
    var q := u / b;
    assert u == b * q + u % b;
    if q > 0 {
      assert b * q >= 2 * q;
    }
  }

  lemma QuotientRemainder(u: nat, b: nat)
    requires b >= 2
    ensures b * Quotient(u, b) + Remainder(u, b) == u
  {
  }

  function Digits(u: nat, b: nat, letters: char): string
    requires 2 <= b <= 16 && letters in "aA"
  {
    hide Quotient, Remainder;
    if u == 0 then "" else Digits(Quotient(u, b), b, letters) + [DigitChar(Remainder(u, b), letters)]
  }

  predicate Negative(i: i32, b: nat, sg: bool) {
    sg && b == 10 && i < 0
  }

  function Magnitude(i: i32, b: nat, sg: bool): u32 {
    if Negative(i, b, sg) then 0 - i else Wrap(i)
  }

  /** The minus sign goes before padding zeros, but after padding blanks. */
  function WithSign(digits: string, neg: bool, width: int, pad: Pad): string {
    if !neg then Padded(digits, width, pad)
    else if width != 0 && pad.zero then "-" + Padded(digits, width - 1, pad)
    else Padded("-" + digits, width, pad)
  }

  /** What printi prints. */
  function Printed(i: i32, b: nat, sg: bool, width: int, pad: Pad, letters: char): string
    requires 2 <= b <= 16 && letters in "aA"
  {
    var digits := Digits(Magnitude(i, b, sg), b, letters);
    if i == 0 then Padded("0", width, pad)
    else WithSign(digits, Negative(i, b, sg), width, pad)
  }

  // ---------------------------------------------------------------------------
  // The printing routines
  // ---------------------------------------------------------------------------

  /** The width that prints has left over, and what it makes of it. */
  lemma FillIs(text: string, width: int, pad: Pad, padchar: char, w: int)
    requires width > 0 ==> w == (if |text| >= width then 0 else width - |text|)
    requires width <= 0 ==> w == width
    requires padchar == if width > 0 && pad.zero then '0' else ' '
    ensures Copies(padchar, w) == Fill(text, width, pad)
    ensures w <= 0 ==> Fill(text, width, pad) == ""
  {
  }

  lemma NoFill(c: char, w: int)
    requires w <= 0
    ensures Copies(c, w) == ""
  {
  }

  /** prints, on the string at index `at` of `buf`. */
  method Prints(out: Sink, buf: array<char>, at: nat, width: int, pad: Pad) returns (pc: nat)
    requires at < buf.Length && '\0' in buf[at..]
    modifies out
    ensures out.text == old(out.text) + Padded(CString(buf[at..]), width, pad)
    ensures pc == |Padded(CString(buf[at..]), width, pad)|
  {
    hide Copies, Fill, CString;
    ghost var text := CString(buf[at..]);
    var padchar := ' ';
    var w := width;
    if w > 0 {
      var len := Length(buf, at);
      w := if len >= w then 0 else w - len;
      if pad.zero {
        padchar := '0';
      }
    }
    FillIs(text, width, pad, padchar, w);
    ghost var before, fill := out.text, Fill(text, width, pad);
    ghost var lead := if pad.right then "" else fill;
    pc := 0;
    if !pad.right {
      w, pc := PrintFill(out, padchar, w);
      NoFill(padchar, w);
    }
    assert out.text == before + lead;
    hide Padded;
    var body := PrintText(out, buf, at);
    var trail;
    w, trail := PrintFill(out, padchar, w);
    pc := pc + body + trail;
    PaddedParts(before, text, width, pad);
  }

  lemma PaddedParts(before: string, text: string, width: int, pad: Pad)
    ensures var fill := Fill(text, width, pad);
      before + Padded(text, width, pad)
      == before + (if pad.right then "" else fill) + text + (if pad.right then fill else "")
    ensures |Padded(text, width, pad)| == |Fill(text, width, pad)| + |text|
  {
    hide Fill;
  }

  /** The loop that measures a string. */
  method Length(buf: array<char>, at: nat) returns (len: nat)
    requires at < buf.Length && '\0' in buf[at..]
    ensures len == |CString(buf[at..])|
  {
    ghost var text := CString(buf[at..]);
    len := 0;
    while buf[at + len] != '\0'
      invariant len <= |text|
      decreases |text| - len
    {
      assert buf[at..][len] == buf[at + len];
      len := len + 1;
    }
    assert buf[at..][len] == '\0';
  }

  /** The loop that prints a string. */
  method PrintText(out: Sink, buf: array<char>, at: nat) returns (pc: nat)
    requires at < buf.Length && '\0' in buf[at..]
    modifies out
    ensures out.text == old(out.text) + CString(buf[at..])
    ensures pc == |CString(buf[at..])|
  {
    ghost var text := CString(buf[at..]);
    pc := 0;
    while buf[at + pc] != '\0'
      invariant pc <= |text|
      invariant out.text == old(out.text) + text[..pc]
      decreases |text| - pc
    {
      assert buf[at + pc] == buf[at..][pc] == text[pc];
      out.PrintChar(buf[at + pc]);
      pc := pc + 1;
    }
    assert buf[at..][pc] == '\0';
  }

  /** One of the padding loops; the width is used up by the first that runs. */
  method PrintFill(out: Sink, padchar: char, width: int) returns (w: int, pc: nat)
    modifies out
    ensures out.text == old(out.text) + Copies(padchar, width)
    ensures pc == |Copies(padchar, width)|
    ensures w == if width > 0 then 0 else width
  {
    w, pc := width, 0;
    while w > 0
      invariant w <= width && (width > 0 ==> w >= 0) && (width <= 0 ==> w == width)
      invariant pc == width - w
      invariant out.text == old(out.text) + Copies(padchar, width - w)
    {
      out.PrintChar(padchar);
      pc := pc + 1;
      w := w - 1;
    }
  }

  /** printi.  The negation of the least integer is taken to wrap. */
  method Printi(out: Sink, i: i32, b: nat, sg: bool, width: int, pad: Pad, letters: char) returns (pc: nat)
    requires (b == 10 || b == 16) && letters in "aA"
    modifies out
    ensures out.text == old(out.text) + Printed(i, b, sg, width, pad, letters)
    ensures pc == |Printed(i, b, sg, width, pad, letters)|
  {
    hide Digits, Copies, Wrap, CString, Fill, Padded, WithSign;
    var buf := new char[PRINT_BUF_LEN](_ => ' ');
    if i == 0 {
      buf[0] := '0';
      buf[1] := '\0';
      StartsWith(buf[0..], "0");
      pc := Prints(out, buf, 0, width, pad);
      return;
    }
    var s := FillDigits(buf, Magnitude(i, b, sg), b, letters);
    StringOf(Digits(Magnitude(i, b, sg), b, letters));
    pc := PrintNumber(out, buf, s, sg && b == 10 && i < 0, width, pad);
  }

  /** The last part of printi: the sign, and the digits already in the buffer. */
  method PrintNumber(out: Sink, buf: array<char>, start: nat, neg: bool, width: int, pad: Pad) returns (pc: nat)
    requires 1 <= start < buf.Length && '\0' in buf[start..]
    modifies out, buf
    ensures out.text == old(out.text) + WithSign(CString(old(buf[start..])), neg, width, pad)
    ensures pc == |WithSign(CString(old(buf[start..])), neg, width, pad)|
  {
    hide Padded;
    ghost var before, text := out.text, CString(buf[start..]);
    pc := 0;
    var s, w := start, width;
    if neg {
      if w != 0 && pad.zero {
        out.PrintChar('-');
        pc := pc + 1;
        w := w - 1;
      } else {
        ghost var tail := buf[start..];
        s := s - 1;
        buf[s] := '-';
        assert buf[s..] == ['-'] + tail;
        SignedString(tail);
      }
    }
    hide CString;
    var rest := Prints(out, buf, s, w, pad);
    pc := pc + rest;
  }

  lemma SignedString(s: string)
    requires '\0' in s
    ensures '\0' in ['-'] + s && CString(['-'] + s) == "-" + CString(s)
  {
    assert (['-'] + s)[1..] == s;
  }

  /** The digit loop: afterwards the buffer ends with the digits and a zero. */
  method FillDigits(buf: array<char>, value: u32, b: nat, letters: char) returns (s: nat)
    requires buf.Length == PRINT_BUF_LEN && 10 <= b <= 16 && letters in "aA"
    modifies buf
    ensures 1 <= s < PRINT_BUF_LEN
    ensures buf[s..] == Digits(value, b, letters) + ['\0']
    ensures '\0' !in Digits(value, b, letters)
  {
    hide Quotient, Remainder, DigitChar;
    TenDigits(value, b, letters);
    NoZero(value, b, letters);
    s := PRINT_BUF_LEN - 1;
    buf[s] := '\0';
    var u: nat := value;
    while u != 0
      invariant |Digits(u, b, letters)| <= s - 1 && s < PRINT_BUF_LEN
      invariant Digits(value, b, letters) + ['\0'] == Digits(u, b, letters) + buf[s..]
      decreases u
    {
      var t := Remainder(u, b);
      s := s - 1;
      buf[s] := DigitChar(t, letters);
      u := Quotient(u, b);
    }
  }

  lemma StartsWith(s: string, text: string)
    requires |text| < |s| && s[..|text|] == text && s[|text|] == '\0' && '\0' !in text
    ensures '\0' in s && CString(s) == text
  {
    assert forall k :: 0 <= k < |text| ==> s[k] == s[..|text|][k] == text[k] && text[k] in text;
    var r := CString(s);
    assert r == s[..|r|];
  }

  lemma StringOf(text: string)
    requires '\0' !in text
    ensures '\0' in text + ['\0'] && CString(text + ['\0']) == text
  {
    StartsWith(text + ['\0'], text);
  }

  function Power(b: nat, k: nat): nat {
    if k == 0 then 1 else b * Power(b, k - 1)
  }

  lemma TenTimes(b: nat, q: nat)
    requires b >= 10
    ensures b * q >= 10 * q
  {
    assert b * q == 10 * q + (b - 10) * q;
  }

  lemma DivBelow(u: nat, b: nat, p: nat)
    requires b >= 10 && u < 10 * p
    ensures Quotient(u, b) < p
  {
    QuotientRemainder(u, b);
    hide Quotient, Remainder;
    TenTimes(b, Quotient(u, b));
  }

  lemma {:induction false} DigitsFit(u: nat, b: nat, letters: char, k: nat)
    requires 10 <= b <= 16 && letters in "aA" && u < Power(10, k)
    ensures |Digits(u, b, letters)| <= k
    decreases k
  {
    if u != 0 {
      DivBelow(u, b, Power(10, k - 1));
      hide Quotient, Remainder;
      DigitsFit(Quotient(u, b), b, letters, k - 1);
    }
  }

  /** The buffer index never goes below zero: ten digits, a sign and the final
      zero are the most that a 32-bit value needs. */
  lemma TenDigits(u: u32, b: nat, letters: char)
    requires 10 <= b <= 16 && letters in "aA"
    ensures |Digits(u, b, letters)| <= 10
  {
    assert Power(10, 5) == 10_0000;
    assert Power(10, 10) == 100_0000_0000 by {
      assert Power(10, 10) == 10 * (10 * (10 * (10 * (10 * Power(10, 5)))));
    }
    DigitsFit(u, b, letters, 10);
  }

  lemma {:induction false} NoZero(u: nat, b: nat, letters: char)
    requires 2 <= b <= 16 && letters in "aA"
    ensures forall k :: 0 <= k < |Digits(u, b, letters)| ==> IsDigit(Digits(u, b, letters)[k])
    ensures '\0' !in Digits(u, b, letters)
    decreases u
  {
    hide Quotient, Remainder;
    if u != 0 {
      NoZero(Quotient(u, b), b, letters);
    }
  }

  // ---------------------------------------------------------------------------
  // Reading back
  // ---------------------------------------------------------------------------

  predicate IsDigit(c: char) {
    '0' <= c <= '9' || 'a' <= c <= 'f' || 'A' <= c <= 'F'
  }

  function DigitValue(c: char): nat {
    if '0' <= c <= '9' then c as int - '0' as int
    else if 'a' <= c <= 'f' then c as int - 'a' as int + 10
    else if 'A' <= c <= 'F' then c as int - 'A' as int + 10
    else 0
  }

  function Horner(s: string, b: nat): nat {
    if s == "" then 0 else b * Horner(s[..|s| - 1], b) + DigitValue(s[|s| - 1])
  }

  function TrimLeft(s: string): string {
    if s != "" && s[0] == ' ' then TrimLeft(s[1..]) else s
  }

  function TrimRight(s: string): string {
    if s != "" && s[|s| - 1] == ' ' then TrimRight(s[..|s| - 1]) else s
  }

  /** A reader of numbers: blanks on both sides, an optional sign, digits. */
  function ParseInt(s: string, b: nat): int {
    var t := TrimLeft(TrimRight(s));
    if t != "" && t[0] == '-' then 0 - Horner(t[1..], b) else Horner(t, b)
  }

  /** The value that the format asks for. */
  function Meant(i: i32, b: nat, sg: bool): int {
    if sg && b == 10 then i else Wrap(i)
  }

  /** Digits with the sign, before padding. */
  function Natural(i: i32, b: nat, sg: bool, letters: char): string
    requires 2 <= b <= 16 && letters in "aA"
  {
    var digits := Digits(Magnitude(i, b, sg), b, letters);
    if i == 0 then "0" else if Negative(i, b, sg) then "-" + digits else digits
  }

  /** Zeros on the right of a number that they make longer. */
  predicate Spoiled(i: i32, b: nat, sg: bool, width: int, pad: Pad, letters: char)
    requires 2 <= b <= 16 && letters in "aA"
  {
    pad.right && pad.zero && i != 0 && width > |Natural(i, b, sg, letters)|
  }

  lemma {:induction false} DigitsValue(u: nat, b: nat, letters: char)
    requires 2 <= b <= 16 && letters in "aA"
    ensures Horner(Digits(u, b, letters), b) == u
    decreases u
  {
    QuotientRemainder(u, b);
    hide Quotient, Remainder, DigitChar, DigitValue;
    if u != 0 {
      DigitsValue(Quotient(u, b), b, letters);
      var d := Digits(u, b, letters);
      assert d[..|d| - 1] == Digits(Quotient(u, b), b, letters);
      CharValue(Remainder(u, b), letters);
    }
  }

  lemma CharValue(t: nat, letters: char)
    requires t < 16 && letters in "aA"
    ensures DigitValue(DigitChar(t, letters)) == t
  {
  }

  lemma {:induction false} LeadingZeros(n: int, s: string, b: nat)
    ensures Horner(Copies('0', n) + s, b) == Horner(s, b)
    decreases |s|, n
  {
    var z := Copies('0', n);
    if s != "" {
      assert (z + s)[..|z + s| - 1] == z + s[..|s| - 1];
      LeadingZeros(n, s[..|s| - 1], b);
    } else if n > 0 {
      assert z + s == Copies('0', n - 1) + ['0'];
      assert (z + s)[..|z + s| - 1] == Copies('0', n - 1) + s;
      LeadingZeros(n - 1, s, b);
    } else {
      assert z + s == s;
    }
  }

  lemma {:induction false} TrailingZeros(n: nat, s: string, b: nat)
    ensures Horner(s + Copies('0', n), b) == Horner(s, b) * Power(b, n)
    decreases n
  {
    var t := s + Copies('0', n);
    if n == 0 {
      assert t == s;
    } else {
      assert t[..|t| - 1] == s + Copies('0', n - 1);
      TrailingZeros(n - 1, s, b);
      Regroup(b, Horner(s, b), Power(b, n - 1));
    }
  }

  lemma Regroup(b: nat, h: nat, p: nat)
    ensures b * (h * p) == h * (b * p)
  {
  }

  lemma {:induction false} PowerGrows(b: nat, n: nat)
    requires b >= 2 && n > 0
    ensures Power(b, n) >= 2
    decreases n
  {
    if n > 1 {
      PowerGrows(b, n - 1);
      assert b * Power(b, n - 1) >= 2 * Power(b, n - 1);
    }
  }

  lemma {:induction false} TrimsLeft(n: int, s: string)
    requires s == "" || s[0] != ' '
    ensures TrimLeft(Copies(' ', n) + s) == s
    decreases n
  {
    var t := Copies(' ', n) + s;
    if n <= 0 {
      assert t == s;
    } else {
      assert t[1..] == Copies(' ', n - 1) + s;
      TrimsLeft(n - 1, s);
    }
  }

  lemma {:induction false} TrimsRight(n: int, s: string)
    requires s == "" || s[|s| - 1] != ' '
    ensures TrimRight(s + Copies(' ', n)) == s
    decreases n
  {
    var t := s + Copies(' ', n);
    if n <= 0 {
      assert t == s;
    } else {
      assert t[..|t| - 1] == s + Copies(' ', n - 1);
      TrimsRight(n - 1, s);
    }
  }

  predicate Tight(t: string) {
    t != "" && t[0] != ' ' && t[|t| - 1] != ' '
  }

  lemma Untrimmed(t: string, b: nat)
    requires Tight(t)
    ensures ParseInt(t, b) == if t[0] == '-' then 0 - Horner(t[1..], b) else Horner(t, b)
  {
    assert TrimRight(t) == t && TrimLeft(t) == t;
    hide TrimLeft, TrimRight;
  }

  /** Blanks on either side do not matter. */
  lemma BlankPadding(t: string, width: int, pad: Pad, b: nat)
    requires Tight(t) && !pad.zero
    ensures ParseInt(Padded(t, width, pad), b) == ParseInt(t, b)
  {
    var n := width - |t|;
    assert TrimRight(t) == t && TrimLeft(t) == t;
    if pad.right {
      TrimsRight(n, t);
    } else {
      var u := Copies(' ', n) + t;
      assert u[|u| - 1] == t[|t| - 1];
      assert TrimRight(u) == u;
      TrimsLeft(n, t);
    }
  }

  /** A digit string padded with zeros; `n` is the room for padding. */
  lemma ZeroPadding(d: string, n: int, b: nat)
    requires b >= 2 && d != "" && forall k :: 0 <= k < |d| ==> IsDigit(d[k])
    ensures Horner(Copies('0', n) + d, b) == Horner(d, b)
    ensures Horner(d + Copies('0', n), b) == Horner(d, b) <==> n <= 0 || Horner(d, b) == 0
  {
    LeadingZeros(n, d, b);
    if n > 0 {
      TrailingZeros(n, d, b);
      PowerGrows(b, n);
      Scales(Horner(d, b), Power(b, n));
    } else {
      NoFill('0', n);
      assert d + "" == d;
    }
  }

  lemma Scales(h: nat, p: nat)
    requires p >= 2
    ensures h * p == h <==> h == 0
  {
    if h > 0 {
      assert h * p >= h * 2;
    }
  }

  lemma PaddedDigits(d: string, width: int, pad: Pad, b: nat)
    requires b >= 2 && d != "" && forall k :: 0 <= k < |d| ==> IsDigit(d[k])
    requires pad.zero
    ensures var t := Padded(d, width, pad);
      && Tight(t) && IsDigit(t[0])
      && (Horner(t, b) == Horner(d, b) <==> !(pad.right && width > |d| && Horner(d, b) != 0))
  {
    hide Horner;
    ZeroPadding(d, width - |d|, b);
    assert Padded(d, width, pad) == if pad.right then d + Copies('0', width - |d|) else Copies('0', width - |d|) + d;
  }

  lemma DigitsShape(u: nat, b: nat, letters: char)
    requires 2 <= b <= 16 && letters in "aA" && u > 0
    ensures var d := Digits(u, b, letters);
      && d != "" && (forall k :: 0 <= k < |d| ==> IsDigit(d[k])) && Horner(d, b) == u
  {
    NoZero(u, b, letters);
    DigitsValue(u, b, letters);
  }

  /** The returned count is the field width, or the length of the number when
      that is longer. */
  lemma PrintedLength(i: i32, b: nat, sg: bool, width: int, pad: Pad, letters: char)
    requires 2 <= b <= 16 && letters in "aA"
    ensures |Printed(i, b, sg, width, pad, letters)|
            == if width > |Natural(i, b, sg, letters)| then width else |Natural(i, b, sg, letters)|
  {
    hide Digits, Copies;
  }

  /** Reading the output back gives the value printed, except when zeros have been
      appended to it; and then it never does. */
  lemma RoundTrip(i: i32, b: nat, sg: bool, width: int, pad: Pad, letters: char)
    requires 2 <= b <= 16 && letters in "aA"
    ensures ParseInt(Printed(i, b, sg, width, pad, letters), b) == Meant(i, b, sg)
            <==> !Spoiled(i, b, sg, width, pad, letters)
  {
    WrapSigned(i);
    hide Digits, Padded, Wrap, ParseInt;
    if i == 0 {
      ZeroRoundTrip(b, width, pad);
    } else if Negative(i, b, sg) {
      NegativeRoundTrip(0 - i, b, width, pad, letters);
    } else {
      PositiveRoundTrip(Wrap(i), b, width, pad, letters);
    }
  }

  lemma WrapSigned(i: i32)
    ensures (i >= 0 ==> Wrap(i) == i) && (Wrap(i) == 0 <==> i == 0)
  {
  }

  lemma ZeroRoundTrip(b: nat, width: int, pad: Pad)
    requires b >= 2
    ensures ParseInt(Padded("0", width, pad), b) == 0
  {
    assert Horner("0", b) == 0 by { assert Horner("0"[..0], b) == 0; }
    hide Horner, ParseInt, Padded;
    Untrimmed("0", b);
    if pad.zero {
      PaddedDigits("0", width, pad, b);
      Untrimmed(Padded("0", width, pad), b);
    } else {
      BlankPadding("0", width, pad, b);
    }
  }

  lemma PositiveRoundTrip(u: nat, b: nat, width: int, pad: Pad, letters: char)
    requires 2 <= b <= 16 && letters in "aA" && u > 0
    ensures var d := Digits(u, b, letters);
      ParseInt(Padded(d, width, pad), b) == u <==> !(pad.right && pad.zero && width > |d|)
  {
    hide Horner, ParseInt, Padded, Digits;
    var d := Digits(u, b, letters);
    DigitsShape(u, b, letters);
    Untrimmed(d, b);
    if pad.zero {
      PaddedDigits(d, width, pad, b);
      Untrimmed(Padded(d, width, pad), b);
    } else {
      BlankPadding(d, width, pad, b);
    }
  }

  lemma NegativeRoundTrip(u: nat, b: nat, width: int, pad: Pad, letters: char)
    requires 2 <= b <= 16 && letters in "aA" && u > 0
    ensures var d := Digits(u, b, letters);
      ParseInt(WithSign(d, true, width, pad), b) == 0 - u <==> !(pad.right && pad.zero && width > |d| + 1)
  {
    hide Horner, ParseInt, Digits;
    var d := Digits(u, b, letters);
    DigitsShape(u, b, letters);
    var s := "-" + d;
    assert s[1..] == d;
    Untrimmed(s, b);
    if width != 0 && pad.zero {
      hide Padded;
      var p := Padded(d, width - 1, pad);
      PaddedDigits(d, width - 1, pad, b);
      assert ("-" + p)[1..] == p;
      Untrimmed("-" + p, b);
    } else if pad.zero {
      assert Fill(s, width, pad) == "";
      assert Padded(s, width, pad) == s;
    } else {
      BlankPadding(s, width, pad, b);
    }
  }

  /** `%-02d` of 5 prints 50. */
  lemma FiveReadsAsFifty()
    ensures Printed(5, 10, true, 2, Pad(true, true), 'a') == "50"
    ensures ParseInt(Printed(5, 10, true, 2, Pad(true, true), 'a'), 10) == 50
  {
    OneDigit();
    OneZero();
    assert Magnitude(5, 10, true) == 5 && !Negative(5, 10, true);
    FiftyValue();
    hide Digits, Copies, Magnitude, Negative, ParseInt;
  }

  lemma OneDigit()
    ensures Digits(5, 10, 'a') == "5"
  {
    assert Quotient(5, 10) == 0 && Remainder(5, 10) == 5;
    assert Digits(0, 10, 'a') == "";
    hide Quotient, Remainder;
  }

  lemma OneZero()
    ensures Copies('0', 1) == "0"
  {
    assert Copies('0', 0) == "";
  }

  lemma FiftyValue()
    ensures ParseInt("50", 10) == 50
  {
    Untrimmed("50", 10);
    assert "50"[..1] == "5" && "5"[..0] == "";
    assert Horner("5", 10) == 10 * Horner("", 10) + DigitValue('5');
  }

  // ---------------------------------------------------------------------------
  // What is printed with
  // ---------------------------------------------------------------------------

  /** Blanks, signs, digits, and letters of the case asked for. */
  predicate Written(c: char, letters: char) {
    c in " -0123456789" || letters <= c <= (if letters == 'a' then 'f' else 'F')
  }

  predicate AllWritten(s: string, letters: char) {
    forall k :: 0 <= k < |s| ==> Written(s[k], letters)
  }

  lemma {:induction false} DigitsWritten(u: nat, b: nat, letters: char)
    requires 2 <= b <= 16 && letters in "aA"
    ensures AllWritten(Digits(u, b, letters), letters)
    decreases u
  {
    hide Quotient, Remainder;
    if u != 0 {
      DigitsWritten(Quotient(u, b), b, letters);
    }
  }

  /** A number is printed in letters of the case that the format asks for: %x gives
      `ff`, and %X gives `FF`. */
  lemma PrintedInCase(i: i32, b: nat, sg: bool, width: int, pad: Pad, letters: char)
    requires 2 <= b <= 16 && letters in "aA"
    ensures AllWritten(Printed(i, b, sg, width, pad, letters), letters)
  {
    DigitsWritten(Magnitude(i, b, sg), b, letters);
    hide Digits, DigitChar;
  }
}
