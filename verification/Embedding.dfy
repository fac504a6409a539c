/** The mock embedding: sixteen multiples of a text's code-point sum, modulo 997, over 997. */
module Embedding {

  const MODULUS := 997
  const DIMENSIONS := 16

  function CodePointSum(text: string): nat {
    if text == "" then 0 else text[0] as int + CodePointSum(text[1..])
  }

  /** `sum(ord(c) for c in text) or 1`. */
  function Seed(text: string): (s: nat)
    ensures s >= 1
  {
    var sum := CodePointSum(text);
    if sum == 0 then 1 else sum
  }

  function Coordinate(text: string, i: nat): real {
    ((Seed(text) * (i + 1)) % MODULUS) as real / 997.0
  }

  function Embed(text: string): seq<real> {
    seq(DIMENSIONS, i requires 0 <= i < DIMENSIONS => Coordinate(text, i))
  }

  /** Inverses modulo 997 of 1 to 16; they exist because 997 is prime. */
  const INVERSES: seq<nat> := [1, 499, 665, 748, 399, 831, 285, 374, 554, 698, 272, 914, 767, 641, 133, 187]

  lemma InverseWorks(d: nat)
    requires 1 <= d <= 16
    ensures (d * INVERSES[d - 1]) % MODULUS == 1
  {
  }

  lemma ModMul(x: int, y: int)
    requires x % MODULUS == 0
    ensures (x * y) % MODULUS == 0
  {
    var q := x / MODULUS;
    assert x == MODULUS * q;
    assert x * y == MODULUS * (q * y);
    ModOfMultiple(q * y);
  }

  lemma ModOfMultiple(k: int)
    ensures (MODULUS * k) % MODULUS == 0
  {
  }

  /** A product with a factor between 1 and 16 is divisible by 997 only if the other factor is. */
  lemma NoSmallDivisor(s: int, d: nat)
    requires 1 <= d <= 16
    ensures (s * d) % MODULUS == 0 <==> s % MODULUS == 0
  {
    if s % MODULUS == 0 {
      ModMul(s, d);
    }
    if (s * d) % MODULUS == 0 {
      InverseWorks(d);
      var inv := INVERSES[d - 1];
      var k := (d * inv) / MODULUS;
      assert d * inv == MODULUS * k + 1;
      ModMul(s * d, inv);
      assert s * d * inv == s * (d * inv) == MODULUS * (s * k) + s by {
        assert s * (d * inv) == s * (MODULUS * k + 1);
        assert s * (MODULUS * k + 1) == MODULUS * (s * k) + s;
      }
      AddMultiple(s, s * k);
    }
  }

  lemma AddMultiple(s: int, k: int)
    ensures (MODULUS * k + s) % MODULUS == s % MODULUS
  {
    var q, r := s / MODULUS, s % MODULUS;
    assert s == MODULUS * q + r;
    assert MODULUS * k + s == MODULUS * (k + q) + r;
  }

  /** Equal residues of two multiples mean the difference is divisible. */
  lemma EqualResidues(s: int, a: nat, b: nat)
    requires (s * a) % MODULUS == (s * b) % MODULUS && b <= a
    ensures (s * (a - b)) % MODULUS == 0
  {
    var x, y := s * a, s * b;
    assert x == MODULUS * (x / MODULUS) + x % MODULUS && y == MODULUS * (y / MODULUS) + y % MODULUS;
    assert s * (a - b) == x - y == MODULUS * (x / MODULUS - y / MODULUS);
    ModOfMultiple(x / MODULUS - y / MODULUS);
  }

  lemma CoordinateZero(text: string, i: nat)
    requires i < DIMENSIONS
    ensures 0.0 <= Coordinate(text, i) < 1.0
    ensures Coordinate(text, i) == 0.0 <==> Seed(text) % MODULUS == 0
  {
    NoSmallDivisor(Seed(text), i + 1);
  }

  lemma CoordinatesDiffer(text: string, i: nat, j: nat)
    requires j < i < DIMENSIONS && Seed(text) % MODULUS != 0
    ensures Coordinate(text, i) != Coordinate(text, j)
  {
    if Coordinate(text, i) == Coordinate(text, j) {
      EqualResidues(Seed(text), i + 1, j + 1);
      NoSmallDivisor(Seed(text), i - j);
    }
  }

  lemma {:induction false} SumConcat(a: string, b: string)
    ensures CodePointSum(a + b) == CodePointSum(a) + CodePointSum(b)
    decreases |a|
  {
    if a == "" {
      assert a + b == b;
    } else {
      assert (a + b)[1..] == a[1..] + b;
      SumConcat(a[1..], b);
    }
  }

  /** The sum is additive over texts and counts each character by its code point. */
  lemma SumExactly(a: string, b: string, c: char)
    ensures CodePointSum(a + b) == CodePointSum(a) + CodePointSum(b)
    ensures CodePointSum([c]) == c as int && CodePointSum("") == 0
  {
    SumConcat(a, b);
    assert [c][1..] == "" && CodePointSum([c]) == c as int + CodePointSum("");
  }

  lemma NextResidue(s: nat, i: nat)
    ensures (s * (i + 2)) % MODULUS == ((s * (i + 1)) % MODULUS + s % MODULUS) % MODULUS
  {
    var x := s * (i + 1);
    assert s * (i + 2) == x + s;
    assert x == MODULUS * (x / MODULUS) + x % MODULUS && s == MODULUS * (s / MODULUS) + s % MODULUS;
    var k := x / MODULUS + s / MODULUS;
    assert x + s == MODULUS * k + (x % MODULUS + s % MODULUS);
    AddMultiple(x % MODULUS + s % MODULUS, k);
  }

  /** COORDINATES, exactly: the first is the sum, or 1 for the sum 0, modulo 997 and over 997; each
      further one adds the first to the one before, less 1 if that reaches 1. */
  lemma CoordinatesExactly(text: string, i: nat)
    requires i + 1 < DIMENSIONS
    ensures
      var (v, sum) := (Embed(text), CodePointSum(text));
      && |v| == 16
      && v[0] == ((if sum == 0 then 1 else sum) % 997) as real / 997.0
      && v[i + 1] == if v[i] + v[0] < 1.0 then v[i] + v[0] else v[i] + v[0] - 1.0
  {
    var s := Seed(text);
    var x, y := (s * (i + 1)) % MODULUS, s % MODULUS;
    assert s * (0 + 1) == s;
    NextResidue(s, i);
    assert (x + y) % MODULUS == if x + y < MODULUS then x + y else x + y - MODULUS;
    assert Coordinate(text, i) + Coordinate(text, 0) == (x + y) as real / 997.0;
  }

  /** EMBEDDING DEGENERACY, exactly. Every coordinate lies in [0, 1). All are zero when the
      code-point sum is a positive multiple of 997, so "non-degenerate" fails for those texts
      and for no others: otherwise all are non-zero and pairwise distinct. */
  lemma DegenerateExactly(text: string)
    ensures
      var v, sum := Embed(text), CodePointSum(text);
      && |v| == DIMENSIONS && (forall i :: 0 <= i < |v| ==> 0.0 <= v[i] < 1.0)
      && ((forall i :: 0 <= i < |v| ==> v[i] == 0.0) <==> sum > 0 && sum % MODULUS == 0)
      && (!(sum > 0 && sum % MODULUS == 0) ==>
            (forall i :: 0 <= i < |v| ==> v[i] != 0.0) && (forall i, j :: 0 <= j < i < |v| ==> v[i] != v[j]))
  {
    forall i | 0 <= i < DIMENSIONS
      ensures 0.0 <= Coordinate(text, i) < 1.0 && (Coordinate(text, i) == 0.0 <==> Seed(text) % MODULUS == 0)
    {
      CoordinateZero(text, i);
    }
    if Seed(text) % MODULUS != 0 {
      forall i, j | 0 <= j < i < DIMENSIONS
        ensures Coordinate(text, i) != Coordinate(text, j)
      {
        CoordinatesDiffer(text, i, j);
      }
    }
    assert Embed(text)[0] == Coordinate(text, 0);
  }

  /** A text whose embedding is the zero vector: one character of code point 997. */
  lemma ZeroVectorExists()
    ensures Embed(['\U{3E5}']) == seq(DIMENSIONS, _ => 0.0)
  {
    var t := ['\U{3E5}'];
    assert t[1..] == "" && CodePointSum("") == 0;
    assert CodePointSum(t) == 997;
    DegenerateExactly(t);
  }
}
