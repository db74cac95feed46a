/** The 64-bit words that hold a context's children, read as sets of indices. */
module Bitmap {

  datatype Option<+T> = None | Some(value: T)

  const ALL: bv64 := 0xFFFF_FFFF_FFFF_FFFF
  const TOP: bv64 := 0x8000_0000_0000_0000

  // The word operations of the source carry names, so that a proof meets either the
  // machine operation or its meaning, not both at once.

  function Half(b: bv64): bv64 { b >> 1 }

  function Double(b: bv64): bv64 { b << 1 }

  predicate Odd(b: bv64) { b & 1 != 0 }

  function Or(a: bv64, b: bv64): bv64 { a | b }

  function And(a: bv64, b: bv64): bv64 { a & b }

  function AndNot(a: bv64, b: bv64): bv64 { a & !b }

  /** The word `1 << i`, reached from `1 << 63`; `NextBit` relates neighbours. */
  function Bit(i: nat): bv64
    requires i < 64
    decreases 64 - i
  {
    if i == 63 then TOP else Half(Bit(i + 1))
  }

  /** The word `u64::MAX >> (64 - n)`. */
  function LowMask(n: nat): bv64
    requires n <= 64
    decreases 64 - n
  {
    if n == 64 then ALL else Half(LowMask(n + 1))
  }

  predicate Has(b: bv64, i: nat)
    decreases i
  {
    if i == 0 then Odd(b) else Has(Half(b), i - 1)
  }

  /** The word as a set of indices. */
  ghost function Members(b: bv64): set<nat> {
    set i: nat | i < 64 && Has(b, i)
  }

  // ----- every word operation is a set operation -----

  lemma OrLaws(a: bv64, b: bv64)
    ensures Half(Or(a, b)) == Or(Half(a), Half(b)) && (Odd(Or(a, b)) <==> Odd(a) || Odd(b))
  {}

  lemma AndLaws(a: bv64, b: bv64)
    ensures Half(And(a, b)) == And(Half(a), Half(b)) && (Odd(And(a, b)) <==> Odd(a) && Odd(b))
  {}

  lemma AndNotLaws(a: bv64, b: bv64)
    ensures Half(AndNot(a, b)) == AndNot(Half(a), Half(b)) && (Odd(AndNot(a, b)) <==> Odd(a) && !Odd(b))
  {}

  lemma {:induction false} OrHas(a: bv64, b: bv64, i: nat)
    ensures Has(Or(a, b), i) <==> Has(a, i) || Has(b, i)
    decreases i
  {
    OrLaws(a, b);
    if i > 0 {
      OrHas(Half(a), Half(b), i - 1);
    }
  }

  lemma {:induction false} AndHas(a: bv64, b: bv64, i: nat)
    ensures Has(And(a, b), i) <==> Has(a, i) && Has(b, i)
    decreases i
  {
    AndLaws(a, b);
    if i > 0 {
      AndHas(Half(a), Half(b), i - 1);
    }
  }

  lemma {:induction false} AndNotHas(a: bv64, b: bv64, i: nat)
    ensures Has(AndNot(a, b), i) <==> Has(a, i) && !Has(b, i)
    decreases i
  {
    AndNotLaws(a, b);
    if i > 0 {
      AndNotHas(Half(a), Half(b), i - 1);
    }
  }

  /** `|=` is union. */
  lemma OrMembers(a: bv64, b: bv64)
    ensures Members(Or(a, b)) == Members(a) + Members(b)
  {
    forall i: nat | i < 64 ensures i in Members(Or(a, b)) <==> i in Members(a) || i in Members(b) {
      OrHas(a, b, i);
    }
  }

  /** `&= !` is difference. */
  lemma AndNotMembers(a: bv64, b: bv64)
    ensures Members(AndNot(a, b)) == Members(a) - Members(b)
  {
    forall i: nat | i < 64 ensures i in Members(AndNot(a, b)) <==> i in Members(a) && i !in Members(b) {
      AndNotHas(a, b, i);
    }
  }

  lemma LowestMask()
    ensures LowMask(0) == 0 && LowMask(1) == 1
  {
    assert LowMask(62) == 0x3fffffffffffffff;
    assert LowMask(60) == 0xfffffffffffffff;
    assert LowMask(58) == 0x3ffffffffffffff;
    assert LowMask(56) == 0xffffffffffffff;
    assert LowMask(54) == 0x3fffffffffffff;
    assert LowMask(52) == 0xfffffffffffff;
    assert LowMask(50) == 0x3ffffffffffff;
    assert LowMask(48) == 0xffffffffffff;
    assert LowMask(46) == 0x3fffffffffff;
    assert LowMask(44) == 0xfffffffffff;
    assert LowMask(42) == 0x3ffffffffff;
    assert LowMask(40) == 0xffffffffff;
    assert LowMask(38) == 0x3fffffffff;
    assert LowMask(36) == 0xfffffffff;
    assert LowMask(34) == 0x3ffffffff;
    assert LowMask(32) == 0xffffffff;
    assert LowMask(30) == 0x3fffffff;
    assert LowMask(28) == 0xfffffff;
    assert LowMask(26) == 0x3ffffff;
    assert LowMask(24) == 0xffffff;
    assert LowMask(22) == 0x3fffff;
    assert LowMask(20) == 0xfffff;
    assert LowMask(18) == 0x3ffff;
    assert LowMask(16) == 0xffff;
    assert LowMask(14) == 0x3fff;
    assert LowMask(12) == 0xfff;
    assert LowMask(10) == 0x3ff;
    assert LowMask(8) == 0xff;
    assert LowMask(6) == 0x3f;
    assert LowMask(4) == 0xf;
    assert LowMask(2) == 0x3;
  }

  lemma HalfOfMask(m: bv64)
    requires m & (m + 1) == 0
    ensures Half(m) & (Half(m) + 1) == 0 && (m != 0 ==> Odd(m))
  {}

  lemma {:induction false} MaskShape(n: nat)
    requires n <= 64
    ensures LowMask(n) & (LowMask(n) + 1) == 0
    decreases 64 - n
  {
    if n < 64 {
      MaskShape(n + 1);
      HalfOfMask(LowMask(n + 1));
    }
  }

  lemma {:induction false} MaskNonzero(n: nat)
    requires 1 <= n <= 64
    ensures LowMask(n) != 0
  {
    if n == 1 {
      LowestMask();
    } else {
      MaskNonzero(n - 1);
    }
  }

  lemma {:induction false} MaskHas(n: nat, i: nat)
    requires n <= 64
    ensures Has(LowMask(n), i) <==> i < n
    decreases i
  {
    if n == 0 {
      LowestMask();
      ZeroHas(i);
    } else if i == 0 {
      MaskNonzero(n);
      MaskShape(n);
      HalfOfMask(LowMask(n));
    } else {
      MaskHas(n - 1, i - 1);
    }
  }

  lemma {:induction false} ZeroHas(i: nat)
    ensures !Has(0, i)
    decreases i
  {
    if i > 0 {
      ZeroHas(i - 1);
    }
  }

  /** Masking with `u64::MAX >> (64 - n)` keeps exactly the members below `n`. */
  lemma MaskMembers(b: bv64, n: nat)
    requires n <= 64
    ensures Members(And(b, LowMask(n))) == set i | i in Members(b) && i < n
  {
    forall i: nat | i < 64
      ensures i in Members(And(b, LowMask(n))) <==> i in Members(b) && i < n
    {
      AndHas(b, LowMask(n), i);
      MaskHas(n, i);
    }
  }

  lemma TopIsTheRest()
    ensures TOP == AndNot(ALL, Half(ALL))
  {}

  lemma {:induction false} BitHas(i: nat, j: nat)
    requires i < 64
    ensures Has(Bit(i), j) <==> i == j
    decreases 64 - i
  {
    if i == 63 {
      TopIsTheRest();
      AndNotHas(ALL, Half(ALL), j);
      MaskHas(64, j);
      MaskHas(63, j);
    } else {
      BitHas(i + 1, j + 1);
    }
  }

  /** `1 << i` is the singleton of `i`. */
  lemma BitMembers(i: nat)
    requires i < 64
    ensures Members(Bit(i)) == {i}
  {
    forall j: nat | j < 64 ensures j in Members(Bit(i)) <==> i == j {
      BitHas(i, j);
    }
  }

  lemma DoubleOfHalf(b: bv64)
    requires !Odd(b)
    ensures Double(Half(b)) == b
  {}

  /** `Bit` does satisfy the recurrence of a left shift. */
  lemma NextBit(i: nat)
    requires i + 1 < 64
    ensures Bit(i + 1) == Double(Bit(i))
  {
    BitHas(i + 1, 0);
    DoubleOfHalf(Bit(i + 1));
  }

  lemma OnlyZeroFits(b: bv64)
    ensures And(b, 0) == 0 && And(b, ALL) == b
    ensures Half(b) == 0 && !Odd(b) ==> b == 0
  {}

  lemma {:induction false} NoMembers(b: bv64, n: nat)
    requires n <= 64 && And(b, LowMask(n)) == b
    requires forall i: nat :: i < n ==> !Has(b, i)
    ensures b == 0
    decreases n
  {
    OnlyZeroFits(b);
    if n == 0 {
      LowestMask();
    } else {
      AndLaws(b, LowMask(n));
      forall i: nat | i < n - 1 ensures !Has(Half(b), i) {
        assert !Has(b, i + 1);
      }
      NoMembers(Half(b), n - 1);
      assert !Has(b, 0);
    }
  }

  /** A word is zero exactly when it has no members. */
  lemma ZeroMembers(b: bv64)
    ensures b == 0 <==> Members(b) == {}
  {
    if Members(b) == {} {
      forall i: nat | i < 64 ensures !Has(b, i) {
        assert i !in Members(b);
      }
      OnlyZeroFits(b);
      NoMembers(b, 64);
    } else {
      var i :| i in Members(b);
      ZeroHas(i);
    }
  }

  // ----- enumeration in ascending order -----

  /** The members of `s` in `lo..hi`, ascending. */
  function Ascending(s: set<nat>, lo: nat, hi: nat): seq<nat>
    requires lo <= hi
    decreases hi - lo
  {
    if lo == hi then []
    else if lo in s then [lo] + Ascending(s, lo + 1, hi)
    else Ascending(s, lo + 1, hi)
  }

  /** `Ascending` lists exactly the members of its range. */
  lemma {:induction false} AscendingSpec(s: set<nat>, lo: nat, hi: nat)
    requires lo <= hi
    ensures forall i :: i in Ascending(s, lo, hi) <==> lo <= i < hi && i in s
    decreases hi - lo
  {
    if lo < hi {
      AscendingSpec(s, lo + 1, hi);
    }
  }

  /** `Ascending` is strictly increasing, so it lists no member twice. */
  lemma {:induction false} AscendingSorted(s: set<nat>, lo: nat, hi: nat)
    requires lo <= hi
    ensures forall j, k :: 0 <= j < k < |Ascending(s, lo, hi)| ==> Ascending(s, lo, hi)[j] < Ascending(s, lo, hi)[k]
    decreases hi - lo
  {
    if lo < hi {
      AscendingSorted(s, lo + 1, hi);
      if lo in s {
        var rest := Ascending(s, lo + 1, hi);
        AscendingSpec(s, lo + 1, hi);
        forall j, k | 0 <= j < k < |rest| + 1 ensures ([lo] + rest)[j] < ([lo] + rest)[k] {
          assert rest[k - 1] in rest;
        }
      }
    }
  }

  /** Removing the least member drops the head of the enumeration. */
  lemma {:induction false} AscendingTail(s: set<nat>, i: nat, lo: nat, hi: nat)
    requires lo <= i < hi && i in s
    requires forall k :: lo <= k < i ==> k !in s
    ensures Ascending(s, lo, hi) == [i] + Ascending(s - {i}, lo, hi)
    decreases i - lo
  {
    if lo < i {
      AscendingTail(s, i, lo + 1, hi);
    } else {
      AscendingFrame(s, s - {i}, lo + 1, hi);
    }
  }

  lemma {:induction false} AscendingFrame(s: set<nat>, t: set<nat>, lo: nat, hi: nat)
    requires lo <= hi
    requires forall k :: lo <= k < hi ==> (k in s <==> k in t)
    ensures Ascending(s, lo, hi) == Ascending(t, lo, hi)
    decreases hi - lo
  {
    if lo < hi {
      AscendingFrame(s, t, lo + 1, hi);
    }
  }

  lemma {:induction false} AscendingEmpty(s: set<nat>, lo: nat, hi: nat)
    requires lo <= hi
    requires forall k :: lo <= k < hi ==> k !in s
    ensures Ascending(s, lo, hi) == []
    decreases hi - lo
  {
    if lo < hi {
      AscendingEmpty(s, lo + 1, hi);
    }
  }

  /** The lowest set bit of a nonzero word, as `u64::trailing_zeros` counts it. */
  method TrailingZeros(b: bv64) returns (i: nat)
    requires b != 0
    ensures i in Members(b) && forall k: nat :: k < i ==> k !in Members(b)
  {
    ZeroMembers(b);
    ghost var m :| m in Members(b);
    i := 0;
    while !Has(b, i)
      invariant i <= m && forall k: nat :: k < i ==> !Has(b, k)
      decreases m - i
    {
      i := i + 1;
    }
  }

  /** Iterator over the bits of a word set to 1, least significant first. */
  class FlagsIter {
    var flags: bv64

    /** What the iterator has still to yield. */
    ghost function Pending(): seq<nat>
      reads this
    {
      Ascending(Members(flags), 0, 64)
    }

    /** Only the `max` lowest bits are considered. */
    constructor (flags: bv64, max: nat)
      requires 1 <= max <= 64
      ensures Pending() == Ascending(Members(flags), 0, max)
    {
      this.flags := And(flags, LowMask(max));
      new;
      MaskMembers(flags, max);
      AscendingCut(Members(flags), Members(this.flags), 0, max);
    }

    method Next() returns (r: Option<nat>)
      modifies this
      ensures old(Pending()) == [] ==> r == None && flags == old(flags)
      ensures old(Pending()) != [] ==> r == Some(old(Pending())[0]) && Pending() == old(Pending())[1..]
    {
      ZeroMembers(flags);
      if flags == 0 {
        AscendingEmpty(Members(flags), 0, 64);
        return None;
      }
      var idx := TrailingZeros(flags);
      AscendingTail(Members(flags), idx, 0, 64);
      AndNotMembers(flags, Bit(idx));
      BitMembers(idx);
      flags := AndNot(flags, Bit(idx));
      return Some(idx);
    }
  }

  /** A loop over the iterator meets exactly the members below `max`, ascending. */
  method Enumerate(flags: bv64, max: nat) returns (s: seq<nat>)
    requires 1 <= max <= 64
    ensures s == Ascending(Members(flags), 0, max)
  {
    hide Members, Ascending, FlagsIter.Pending;
    var iter := new FlagsIter(flags, max);
    s := [];
    while true
      invariant fresh(iter) && s + iter.Pending() == Ascending(Members(flags), 0, max)
      decreases |iter.Pending()|
    {
      ghost var before := iter.Pending();
      var i := iter.Next();
      if i == None {
        break;
      }
      assert before == [before[0]] + before[1..];
      s := s + [i.value];
    }
  }

  lemma {:induction false} AscendingCut(s: set<nat>, t: set<nat>, lo: nat, max: nat)
    requires lo <= max <= 64
    requires forall i :: i in t <==> i in s && i < max
    ensures Ascending(t, lo, 64) == Ascending(s, lo, max)
    decreases max - lo
  {
    if lo < max {
      AscendingCut(s, t, lo + 1, max);
    } else {
      AscendingEmpty(t, max, 64);
    }
  }
}
