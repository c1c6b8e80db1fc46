/** Words used as maps of 32 lines. */
module BitLines {
  import opened Words

  predicate Hits(w: bv32, f: bv32) {
    w & f != 0
  }

  /** Is line i up? */
  predicate LineOn(x: Bits, i: bv32)
    requires i < 32
  {
    On(x, 1 << i)
  }

  // ---------------------------------------------------------------------------
  // Two maps with a line in common
  // ---------------------------------------------------------------------------

  lemma FoundAt(w: bv32, i: bv32)
    requires i < 32 && (w >> i) & 1 == 1
    ensures LineOn(Bits(w), i)
  {
  }

  lemma NotAt(w: bv32, i: bv32)
    requires i < 32 && (w >> i) & 1 != 1 && w >> i != 0
    ensures i < 31 && i + 1 < 32 && w >> (i + 1) != 0 && 32 - (i + 1) < 32 - i
  {
  }

  lemma {:induction false} SomeLine(w: bv32, i: bv32) returns (k: bv32)
    requires i < 32 && w >> i != 0
    ensures k < 32 && LineOn(Bits(w), k)
    decreases 32 - i
  {
    hide LineOn;
    if (w >> i) & 1 == 1 {
      FoundAt(w, i);
      k := i;
    } else {
      NotAt(w, i);
      k := SomeLine(w, i + 1);
    }
  }

  lemma BothOn(x: Bits, y: Bits, i: bv32)
    requires i < 32
    ensures LineOn(Bits(x.w & y.w), i) <==> LineOn(x, i) && LineOn(y, i)
    ensures LineOn(x, i) ==> x.w != 0
  {
  }

  lemma MeetIsLine(x: Bits, y: Bits)
    ensures Meet(x, y) <==> exists i: bv32 :: i < 32 && LineOn(x, i) && LineOn(y, i)
  {
    hide LineOn;
    var both := Bits(x.w & y.w);
    if Meet(x, y) {
      assert both.w >> 0 == both.w;
      var k := SomeLine(both.w, 0);
      BothOn(x, y, k);
    }
    forall i: bv32 | i < 32 && LineOn(x, i) && LineOn(y, i)
      ensures Meet(x, y)
    {
      BothOn(x, y, i);
      BothOn(both, both, i);
    }
  }

  // ---------------------------------------------------------------------------
  // Lines added through a mask
  // ---------------------------------------------------------------------------

  lemma StaysOn(x: Bits, m: bv32, f: bv32)
    requires On(x, f)
    ensures On(Set(x, m), f)
  {
  }

  lemma AddedBits(x: Bits, m: bv32, f: bv32)
    requires !On(x, f)
    ensures Set(x, m).w & f == m & f
  {
  }

  lemma Added(x: Bits, m: bv32, f: bv32)
    ensures On(Set(x, m), f) <==> On(x, f) || Hits(m, f)
  {
    hide Set;
    if On(x, f) {
      StaysOn(x, m, f);
    } else {
      AddedBits(x, m, f);
    }
  }

  lemma KeptBits(y: Bits, m: bv32, f: bv32)
    requires m & f == f
    ensures Keep(y, m).w & f == y.w & f
  {
  }

  lemma LostBits(y: Bits, m: bv32, f: bv32)
    requires m & f == 0
    ensures Keep(y, m).w & f == 0
  {
  }

  lemma KeptIn(y: Bits, m: bv32, f: bv32)
    requires m & f == f
    ensures Hits(Keep(y, m).w, f) <==> On(y, f)
  {
    hide Keep;
    KeptBits(y, m, f);
  }

  lemma KeptOut(y: Bits, m: bv32, f: bv32)
    requires m & f == 0
    ensures !Hits(Keep(y, m).w, f)
  {
    hide Keep;
    LostBits(y, m, f);
  }

  lemma Kept(y: Bits, m: bv32, f: bv32)
    requires f != 0 && (m & f == 0 || m & f == f)
    ensures Hits(Keep(y, m).w, f) <==> On(y, f) && Hits(m, f)
  {
    hide Keep, On;
    if m & f == 0 {
      KeptOut(y, m, f);
    } else {
      KeptIn(y, m, f);
    }
  }

  lemma OneLine(m: bv32, i: bv32)
    requires i < 32
    ensures (1 as bv32) << i != 0
    ensures m & (1 << i) == 0 || m & (1 << i) == 1 << i
  {
  }

  lemma LinesMerged(x: Bits, y: Bits, mask: bv32, i: bv32)
    requires i < 32
    ensures LineOn(Set(x, Keep(y, mask).w), i) <==> LineOn(x, i) || (LineOn(y, i) && Hits(mask, 1 << i))
  {
    hide Set, Keep, On, Hits;
    OneLine(mask, i);
    Kept(y, mask, 1 << i);
    Added(x, Keep(y, mask).w, 1 << i);
  }
}
