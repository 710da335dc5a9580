/** What decoding a JSON document into Go's `any` does to it: every number becomes a float64. */
module Numbers {
  import opened Wire

  /** A float64 holds 53 binary digits. */
  const EXACT: int := 0x20_0000_0000_0000

  /** The distance between the float64 values around `m`, when it is at least `unit`. */
  function Spacing(m: nat, unit: nat): (u: nat)
    requires unit > 0
    ensures u >= unit && m < EXACT * u
    ensures u > unit ==> EXACT * u <= 2 * m
    decreases if m < EXACT * unit then 0 else m - EXACT * unit + 1
  {
    if m < EXACT * unit then unit else Spacing(m, 2 * unit)
  }

  /** The multiple of `unit` nearest to `m`, the even one of two. */
  function Nearest(m: nat, unit: nat): nat
    requires unit > 0
  {
    var below, rest := m / unit, m % unit;
    if 2 * rest < unit || (2 * rest == unit && below % 2 == 0) then below * unit else (below + 1) * unit
  }

  function Rounded(m: nat): nat { Nearest(m, Spacing(m, 1)) }

  /** An integer as a float64. (A document with a number too large for any float64 is not decoded at all.) */
  function Float64(n: int): int {
    if n >= 0 then Rounded(n)
    else
      var magnitude: int := Rounded(-n);
      -magnitude
  }

  /** A document with every number as a float64. */
  function Decoded(value: Value): Value {
    match value
    case Num(n) => Num(Float64(n))
    case Arr(elements) => Arr(seq(|elements|, i requires 0 <= i < |elements| => Decoded(elements[i])))
    case Obj(fields) => Obj(map key | key in fields :: Decoded(fields[key]))
    case _ => value
  }

  /** Every number in the document is one a float64 holds exactly. */
  predicate Survives(value: Value) {
    match value
    case Num(n) => Float64(n) == n
    case Arr(elements) => forall i :: 0 <= i < |elements| ==> Survives(elements[i])
    case Obj(fields) => forall key <- fields :: Survives(fields[key])
    case _ => true
  }

  // ----- rounding twice is rounding once

  lemma Scaled(a: int, b: int, unit: nat)
    requires a <= b
    ensures a * unit <= b * unit
  {
  }

  lemma Division(k: nat, unit: nat)
    requires unit > 0
    ensures (k * unit) / unit == k && (k * unit) % unit == 0
  {
    var m := k * unit;
    var q, r := m / unit, m % unit;
    assert m == q * unit + r;
    if q < k { Scaled(q + 1, k, unit); assert false; }
    if q > k { Scaled(k + 1, q, unit); assert false; }
  }

  lemma NearestMultiple(k: nat, unit: nat)
    requires unit > 0
    ensures Nearest(k * unit, unit) == k * unit
  {
    Division(k, unit);
  }

  lemma NearestIs(m: nat, unit: nat) returns (k: nat)
    requires unit > 0 && m < EXACT * unit
    ensures Nearest(m, unit) == k * unit && k <= EXACT
    ensures EXACT * unit <= 2 * m ==> EXACT <= 2 * k
  {
    var below, rest := m / unit, m % unit;
    k := if 2 * rest < unit || (2 * rest == unit && below % 2 == 0) then below else below + 1;
    BelowBound(m, unit);
    HalfBound(m, unit);
  }

  lemma BelowBound(m: nat, unit: nat)
    requires unit > 0 && m < EXACT * unit
    ensures m / unit < EXACT
  {
    assert m == (m / unit) * unit + m % unit;
    if m / unit >= EXACT { Scaled(EXACT, m / unit, unit); assert false; }
  }

  lemma HalfBound(m: nat, unit: nat)
    requires unit > 0
    ensures EXACT * unit <= 2 * m ==> EXACT <= 2 * (m / unit)
  {
    var below := m / unit;
    assert m == below * unit + m % unit;
    if EXACT * unit <= 2 * m && 2 * below < EXACT { Scaled(2 * (below + 1), EXACT, unit); assert false; }
  }

  lemma {:induction false} SpacingSame(m: nat, other: nat, unit: nat)
    requires unit > 0 && other < EXACT * Spacing(m, unit)
    requires Spacing(m, unit) > unit ==> EXACT * Spacing(m, unit) <= 2 * other
    ensures Spacing(other, unit) == Spacing(m, unit)
    decreases if m < EXACT * unit then 0 else m - EXACT * unit + 1
  {
    if m >= EXACT * unit { SpacingSame(m, other, 2 * unit); }
  }

  lemma {:induction false} SpacingNext(m: nat, other: nat, unit: nat)
    requires unit > 0 && other == EXACT * Spacing(m, unit)
    ensures Spacing(other, unit) == 2 * Spacing(m, unit)
    decreases if m < EXACT * unit then 0 else m - EXACT * unit + 1
  {
    if m >= EXACT * unit { SpacingNext(m, other, 2 * unit); }
  }

  lemma MultipleHolds(m: nat, k: nat, rounded: nat)
    requires rounded == k * Spacing(m, 1) && k < EXACT && (Spacing(m, 1) > 1 ==> EXACT <= 2 * k)
    ensures Rounded(rounded) == rounded
  {
    var unit := Spacing(m, 1);
    assert rounded < EXACT * unit by { Scaled(k + 1, EXACT, unit); }
    assert unit > 1 ==> EXACT * unit <= 2 * rounded by {
      if unit > 1 { Scaled(EXACT, 2 * k, unit); }
    }
    SpacingSame(m, rounded, 1);
    NearestMultiple(k, unit);
  }

  lemma PowerHolds(m: nat, rounded: nat)
    requires rounded == EXACT * Spacing(m, 1)
    ensures Rounded(rounded) == rounded
  {
    SpacingNext(m, rounded, 1);
    NearestMultiple(EXACT / 2, 2 * Spacing(m, 1));
  }

  lemma RoundedTwice(m: nat)
    ensures Rounded(Rounded(m)) == Rounded(m)
  {
    var k := NearestIs(m, Spacing(m, 1));
    if k == EXACT { PowerHolds(m, Rounded(m)); } else { MultipleHolds(m, k, Rounded(m)); }
  }

  lemma Float64Twice(n: int)
    ensures Float64(Float64(n)) == Float64(n)
  {
    RoundedTwice(if n >= 0 then n else -n);
  }

  /** Integers of up to 53 binary digits are exact; the first one that is not comes back as its neighbour. */
  lemma SmallIsExact(n: int)
    requires -EXACT < n < EXACT
    ensures Float64(n) == n
    ensures Float64(EXACT + 1) == EXACT
  {
    NearestMultiple(if n >= 0 then n else -n, 1);
    assert Spacing(EXACT + 1, 1) == 2 by { assert Spacing(EXACT + 1, 2) == 2; }
  }

  // ----- documents

  lemma {:induction false} DecodedSurvives(value: Value)
    ensures Survives(Decoded(value))
  {
    match value {
      case Num(n) => Float64Twice(n);
      case Arr(elements) =>
        forall i | 0 <= i < |elements|
          ensures Survives(Decoded(elements[i]))
        {
          DecodedSurvives(elements[i]);
        }
      case Obj(fields) =>
        forall key <- fields
          ensures Survives(Decoded(fields[key]))
        {
          DecodedSurvives(fields[key]);
        }
      case _ =>
    }
  }

  /** A document comes out of decoding as it went in exactly when all its numbers survive. */
  lemma {:induction false} SurvivesIff(value: Value)
    ensures Survives(value) <==> Decoded(value) == value
  {
    match value {
      case Arr(elements) =>
        forall i | 0 <= i < |elements|
          ensures Survives(elements[i]) <==> Decoded(elements[i]) == elements[i]
        {
          SurvivesIff(elements[i]);
        }
        assert Survives(value) ==> Decoded(value).elements == elements;
        if Decoded(value) == value {
          assert forall i :: 0 <= i < |elements| ==> Decoded(value).elements[i] == Decoded(elements[i]);
        }
      case Obj(fields) =>
        forall key <- fields
          ensures Survives(fields[key]) <==> Decoded(fields[key]) == fields[key]
        {
          SurvivesIff(fields[key]);
        }
        assert Survives(value) ==> Decoded(value).fields == fields;
        if Decoded(value) == value {
          assert forall key <- fields :: Decoded(value).fields[key] == Decoded(fields[key]);
        }
      case _ =>
    }
  }

  lemma NearestEither(m: nat, unit: nat, floor: nat)
    requires unit > 0 && floor == (m / unit) * unit
    ensures m == floor + m % unit
    ensures Nearest(m, unit) ==
            if 2 * (m % unit) < unit || (2 * (m % unit) == unit && (m / unit) % 2 == 0) then floor else floor + unit
  {
  }

  /** Rounding goes to a multiple of the spacing that is nearest, and to the even one when two are. */
  lemma NearestIsNearest(m: nat, unit: nat)
    requires unit > 0
    ensures 2 * (Nearest(m, unit) - m) <= unit && 2 * (m - Nearest(m, unit)) <= unit
    ensures exists k: nat :: Nearest(m, unit) == k * unit
                             && (2 * (Nearest(m, unit) - m) == unit || 2 * (m - Nearest(m, unit)) == unit ==>
                                   k % 2 == 0)
  {
    var below, rest := m / unit, m % unit;
    NearestEither(m, unit, below * unit);
    if 2 * rest < unit || (2 * rest == unit && below % 2 == 0) {
      assert Nearest(m, unit) == below * unit;
    } else {
      assert Nearest(m, unit) == (below + 1) * unit;
    }
  }
}
