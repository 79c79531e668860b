/** Multiplication of field elements: the schoolbook products of `fproduct` and
    `fsquare_inner`. */
module Multiply {
  import opened Limbs

  /** Ten limbs that may enter a product. */
  type Factor = s: seq<felem> | |s| == 10 && forall i :: 0 <= i < 10 ==> -FACTOR_MAX <= s[i] as int <= FACTOR_MAX
    witness seq(10, _ => 0)

  // ------------------------------------------------------- the product of two polynomials

  /** What limb i of a and limb j of b contribute to coefficient i + j. */
  ghost function Term(a: Factor, b: Factor, i: nat, j: int): int
    requires i < 10
  {
    if 0 <= j < 10 then OddPair(i, j) * ((a[i] as int) * (b[j] as int)) else 0
  }

  /** The contributions of the first n limbs of a to coefficient k of the product. */
  ghost function Coefficient(a: Factor, b: Factor, k: nat, n: nat): int
    requires n <= 10
    decreases n
  {
    if n == 0 then 0 else Coefficient(a, b, k, n - 1) + Term(a, b, n - 1, k - (n - 1))
  }

  /** r is coefficient k of the product, and small enough for the later folding. */
  ghost predicate IsCoefficient(r: felem, a: Factor, b: Factor, k: nat) {
    r as int == Coefficient(a, b, k, |a|) && -PRODUCT_MAX <= r as int <= PRODUCT_MAX
  }

  /** The value of the polynomial that the first m limbs of a make with b, up to coefficient n. */
  ghost function PartialProduct(a: Factor, b: Factor, m: nat, n: nat): int
    requires m <= 10
  {
    if n == 0 then 0
    else PartialProduct(a, b, m, n - 1) + Weight(n - 1) * Coefficient(a, b, n - 1, m)
  }

  /** The part of it that comes from limb i of a alone. */
  ghost function Row(a: Factor, b: Factor, i: nat, n: nat): int
    requires i < 10
  {
    if n == 0 then 0 else Row(a, b, i, n - 1) + Weight(n - 1) * Term(a, b, i, n - 1 - i)
  }

  /** Row i has the value of limb i times the limbs of b that it has reached. */
  lemma {:induction false} RowValue(a: Factor, b: Factor, i: nat, n: nat)
    requires i < 10 && n <= i + 10
    ensures Row(a, b, i, n) == if n <= i then 0 else (Weight(i) * (a[i] as int)) * Val(b, n - i)
  {
    if n > 0 {
      RowValue(a, b, i, n - 1);
      var j := n - 1 - i;
      if j >= 0 {
        WeightProduct(i, j);
        RowStep(Weight(i), a[i] as int, Val(b, j), Weight(j), b[j] as int, OddPair(i, j), Weight(i + j));
      }
    }
  }

  lemma RowStep(w: int, x: int, v: int, u: int, y: int, f: int, t: int)
    requires w * u == f * t
    ensures (w * x) * (v + u * y) == (w * x) * v + t * (f * (x * y))
  {
    calc {
      (w * x) * (u * y);
      (w * u) * (x * y);
      (f * t) * (x * y);
      t * (f * (x * y));
    }
    assert (w * x) * (v + u * y) == (w * x) * v + (w * x) * (u * y);
  }

  /** Past the last limb of b a row no longer grows. */
  lemma {:induction false} RowStops(a: Factor, b: Factor, i: nat, n: nat)
    requires i < 10 && i + 10 <= n
    ensures Row(a, b, i, n) == (Weight(i) * (a[i] as int)) * Val(b, 10)
  {
    if n == i + 10 {
      RowValue(a, b, i, n);
    } else {
      RowStops(a, b, i, n - 1);
    }
  }

  lemma Distribute(w: int, c: int, t: int)
    ensures w * (c + t) == w * c + w * t
    ensures (c + t) * w == c * w + t * w
  {
  }

  lemma {:induction false} PartialProductStep(a: Factor, b: Factor, m: nat, n: nat)
    requires m < 10
    ensures PartialProduct(a, b, m + 1, n) == PartialProduct(a, b, m, n) + Row(a, b, m, n)
  {
    if n > 0 {
      PartialProductStep(a, b, m, n - 1);
      var w, c, t := Weight(n - 1), Coefficient(a, b, n - 1, m), Term(a, b, m, n - 1 - m);
      assert Coefficient(a, b, n - 1, m + 1) == c + t;
      Distribute(w, c, t);
    }
  }

  lemma {:induction false} PartialProductValue(a: Factor, b: Factor, m: nat)
    requires m <= 10
    ensures PartialProduct(a, b, m, 19) == Val(a, m) * Val(b, 10)
  {
    if m == 0 {
      NoLimbsNoProduct(a, b, 19);
    } else {
      PartialProductValue(a, b, m - 1);
      PartialProductStep(a, b, m - 1, 19);
      RowStops(a, b, m - 1, 19);
      var v, w, y := Val(a, m - 1), Weight(m - 1) * (a[m - 1] as int), Val(b, 10);
      Distribute(y, v, w);
    }
  }

  lemma {:induction false} NoLimbsNoProduct(a: Factor, b: Factor, n: nat)
    ensures PartialProduct(a, b, 0, n) == 0
  {
    if n > 0 { NoLimbsNoProduct(a, b, n - 1); }
  }

  ghost predicate HoldsProduct(t: seq<felem>, a: Factor, b: Factor) {
    |t| == 19 && forall k :: 0 <= k < 19 ==> IsCoefficient(t[k], a, b, k)
  }

  lemma {:induction false} ValOfCoefficients(t: seq<felem>, a: Factor, b: Factor, n: nat)
    requires n <= 19 && HoldsProduct(t, a, b)
    ensures Val(t, n) == PartialProduct(a, b, 10, n)
  {
    if n > 0 {
      ValOfCoefficients(t, a, b, n - 1);
      assert IsCoefficient(t[n - 1], a, b, n - 1);
    }
  }

  /** The nineteen coefficients, at their weights, make the product of the two numbers. */
  lemma ProductValue(t: seq<felem>, a: Factor, b: Factor)
    requires HoldsProduct(t, a, b)
    ensures Val(t, 19) == Val(a, 10) * Val(b, 10)
  {
    ValOfCoefficients(t, a, b, 19);
    PartialProductValue(a, b, 10);
  }

  // ---------------------------------------------------- the expressions of `fproduct`

  function Mul(x: felem, y: felem): (r: felem)
    requires -FACTOR_MAX <= x as int <= FACTOR_MAX && -FACTOR_MAX <= y as int <= FACTOR_MAX
    ensures r as int == (x as int) * (y as int)
    ensures -0x10_0000_0000_0000 <= r <= 0x10_0000_0000_0000
  {
    MulBound(x as int, y as int, FACTOR_MAX, FACTOR_MAX);
    x * y
  }

  lemma MulBound(x: int, y: int, b: int, c: int)
    requires -b <= x <= b && -c <= y <= c
    ensures -(b * c) <= x * y <= b * c
  {
  }

  method Product0(a: Factor, b: Factor) returns (r: felem)
    ensures IsCoefficient(r, a, b, 0)
  {
    r := Mul(a[0], b[0]);
    assert r as int == Coefficient(a, b, 0, 10);
  }

  method Product1(a: Factor, b: Factor) returns (r: felem)
    ensures IsCoefficient(r, a, b, 1)
  {
    r := Mul(a[0], b[1]) + Mul(a[1], b[0]);
    assert r as int == Coefficient(a, b, 1, 10);
  }

  method Product2(a: Factor, b: Factor) returns (r: felem)
    ensures IsCoefficient(r, a, b, 2)
  {
    r := 2 * Mul(a[1], b[1]) + Mul(a[0], b[2]) + Mul(a[2], b[0]);
    assert r as int == Coefficient(a, b, 2, 10);
  }

  method Product3(a: Factor, b: Factor) returns (r: felem)
    ensures IsCoefficient(r, a, b, 3)
  {
    r := Mul(a[1], b[2]) + Mul(a[2], b[1]) + Mul(a[0], b[3]) + Mul(a[3], b[0]);
    assert r as int == Coefficient(a, b, 3, 10);
  }

  method Product4(a: Factor, b: Factor) returns (r: felem)
    ensures IsCoefficient(r, a, b, 4)
  {
    r := Mul(a[2], b[2]) + 2 * (Mul(a[1], b[3]) + Mul(a[3], b[1])) + Mul(a[0], b[4]) + Mul(a[4], b[0]);
    assert r as int == Coefficient(a, b, 4, 10);
  }

  method Product5(a: Factor, b: Factor) returns (r: felem)
    ensures IsCoefficient(r, a, b, 5)
  {
    r := Mul(a[2], b[3]) + Mul(a[3], b[2]) + Mul(a[1], b[4]) + Mul(a[4], b[1]) + Mul(a[0], b[5]) +
    Mul(a[5], b[0]);
    assert r as int == Coefficient(a, b, 5, 10);
  }

  method Product6(a: Factor, b: Factor) returns (r: felem)
    ensures IsCoefficient(r, a, b, 6)
  {
    r := 2 * (Mul(a[3], b[3]) + Mul(a[1], b[5]) + Mul(a[5], b[1])) + Mul(a[2], b[4]) + Mul(a[4], b[2]) +
    Mul(a[0], b[6]) + Mul(a[6], b[0]);
    assert r as int == Coefficient(a, b, 6, 10);
  }

  method Product7(a: Factor, b: Factor) returns (r: felem)
    ensures IsCoefficient(r, a, b, 7)
  {
    r := Mul(a[3], b[4]) + Mul(a[4], b[3]) + Mul(a[2], b[5]) + Mul(a[5], b[2]) + Mul(a[1], b[6]) +
    Mul(a[6], b[1]) + Mul(a[0], b[7]) + Mul(a[7], b[0]);
    assert r as int == Coefficient(a, b, 7, 10);
  }

  method Product8(a: Factor, b: Factor) returns (r: felem)
    ensures IsCoefficient(r, a, b, 8)
  {
    r := Mul(a[4], b[4]) + 2 * (Mul(a[3], b[5]) + Mul(a[5], b[3]) + Mul(a[1], b[7]) + Mul(a[7], b[1])) +
    Mul(a[2], b[6]) + Mul(a[6], b[2]) + Mul(a[0], b[8]) + Mul(a[8], b[0]);
    assert r as int == Coefficient(a, b, 8, 10);
  }

  method Product9(a: Factor, b: Factor) returns (r: felem)
    ensures IsCoefficient(r, a, b, 9)
  {
    r := Mul(a[4], b[5]) + Mul(a[5], b[4]) + Mul(a[3], b[6]) + Mul(a[6], b[3]) + Mul(a[2], b[7]) +
    Mul(a[7], b[2]) + Mul(a[1], b[8]) + Mul(a[8], b[1]) + Mul(a[0], b[9]) + Mul(a[9], b[0]);
    assert r as int == Coefficient(a, b, 9, 10);
  }

  method Product10(a: Factor, b: Factor) returns (r: felem)
    ensures IsCoefficient(r, a, b, 10)
  {
    r := 2 * (Mul(a[5], b[5]) + Mul(a[3], b[7]) + Mul(a[7], b[3]) + Mul(a[1], b[9]) + Mul(a[9], b[1])) +
    Mul(a[4], b[6]) + Mul(a[6], b[4]) + Mul(a[2], b[8]) + Mul(a[8], b[2]);
    assert r as int == Coefficient(a, b, 10, 10);
  }

  method Product11(a: Factor, b: Factor) returns (r: felem)
    ensures IsCoefficient(r, a, b, 11)
  {
    r := Mul(a[5], b[6]) + Mul(a[6], b[5]) + Mul(a[4], b[7]) + Mul(a[7], b[4]) + Mul(a[3], b[8]) +
    Mul(a[8], b[3]) + Mul(a[2], b[9]) + Mul(a[9], b[2]);
    assert r as int == Coefficient(a, b, 11, 10);
  }

  method Product12(a: Factor, b: Factor) returns (r: felem)
    ensures IsCoefficient(r, a, b, 12)
  {
    r := Mul(a[6], b[6]) + 2 * (Mul(a[5], b[7]) + Mul(a[7], b[5]) + Mul(a[3], b[9]) + Mul(a[9], b[3])) +
    Mul(a[4], b[8]) + Mul(a[8], b[4]);
    assert r as int == Coefficient(a, b, 12, 10);
  }

  method Product13(a: Factor, b: Factor) returns (r: felem)
    ensures IsCoefficient(r, a, b, 13)
  {
    r := Mul(a[6], b[7]) + Mul(a[7], b[6]) + Mul(a[5], b[8]) + Mul(a[8], b[5]) + Mul(a[4], b[9]) +
    Mul(a[9], b[4]);
    assert r as int == Coefficient(a, b, 13, 10);
  }

  method Product14(a: Factor, b: Factor) returns (r: felem)
    ensures IsCoefficient(r, a, b, 14)
  {
    r := 2 * (Mul(a[7], b[7]) + Mul(a[5], b[9]) + Mul(a[9], b[5])) + Mul(a[6], b[8]) + Mul(a[8], b[6]);
    assert r as int == Coefficient(a, b, 14, 10);
  }

  method Product15(a: Factor, b: Factor) returns (r: felem)
    ensures IsCoefficient(r, a, b, 15)
  {
    r := Mul(a[7], b[8]) + Mul(a[8], b[7]) + Mul(a[6], b[9]) + Mul(a[9], b[6]);
    assert r as int == Coefficient(a, b, 15, 10);
  }

  method Product16(a: Factor, b: Factor) returns (r: felem)
    ensures IsCoefficient(r, a, b, 16)
  {
    r := Mul(a[8], b[8]) + 2 * (Mul(a[7], b[9]) + Mul(a[9], b[7]));
    assert r as int == Coefficient(a, b, 16, 10);
  }

  method Product17(a: Factor, b: Factor) returns (r: felem)
    ensures IsCoefficient(r, a, b, 17)
  {
    r := Mul(a[8], b[9]) + Mul(a[9], b[8]);
    assert r as int == Coefficient(a, b, 17, 10);
  }

  method Product18(a: Factor, b: Factor) returns (r: felem)
    ensures IsCoefficient(r, a, b, 18)
  {
    r := 2 * Mul(a[9], b[9]);
    assert r as int == Coefficient(a, b, 18, 10);
  }

  /** output := in2 * in, as a polynomial of nineteen coefficients. */
  method Fproduct(output: array<felem>, in2: array<felem>, in1: array<felem>)
    requires output.Length == 19 && in2.Length >= 10 && in1.Length >= 10
    requires output != in2 && output != in1
    requires Within(in2, FACTOR_MAX) && Within(in1, FACTOR_MAX)
    modifies output
    ensures HoldsProduct(output[..], in2[..10], in1[..10])
  {
    var a, b := in2[..10], in1[..10];
    var r0 := Product0(a, b);
    var r1 := Product1(a, b);
    var r2 := Product2(a, b);
    var r3 := Product3(a, b);
    var r4 := Product4(a, b);
    var r5 := Product5(a, b);
    var r6 := Product6(a, b);
    var r7 := Product7(a, b);
    var r8 := Product8(a, b);
    var r9 := Product9(a, b);
    var r10 := Product10(a, b);
    var r11 := Product11(a, b);
    var r12 := Product12(a, b);
    var r13 := Product13(a, b);
    var r14 := Product14(a, b);
    var r15 := Product15(a, b);
    var r16 := Product16(a, b);
    var r17 := Product17(a, b);
    var r18 := Product18(a, b);
    var t := [r0, r1, r2, r3, r4, r5, r6, r7, r8, r9, r10, r11, r12, r13, r14, r15, r16, r17, r18];
    Store(output, t);
    assert in2[..10] == a && in1[..10] == b;
  }

  // ------------------------------------------------ the expressions of `fsquare_inner`

  method Square0(a: Factor) returns (r: felem)
    ensures IsCoefficient(r, a, a, 0)
  {
    r := Mul(a[0], a[0]);
    assert r as int == Coefficient(a, a, 0, 10);
  }

  method Square1(a: Factor) returns (r: felem)
    ensures IsCoefficient(r, a, a, 1)
  {
    r := 2 * Mul(a[0], a[1]);
    assert r as int == Coefficient(a, a, 1, 10);
  }

  method Square2(a: Factor) returns (r: felem)
    ensures IsCoefficient(r, a, a, 2)
  {
    r := 2 * (Mul(a[1], a[1]) + Mul(a[0], a[2]));
    assert r as int == Coefficient(a, a, 2, 10);
  }

  method Square3(a: Factor) returns (r: felem)
    ensures IsCoefficient(r, a, a, 3)
  {
    r := 2 * (Mul(a[1], a[2]) + Mul(a[0], a[3]));
    assert r as int == Coefficient(a, a, 3, 10);
  }

  method Square4(a: Factor) returns (r: felem)
    ensures IsCoefficient(r, a, a, 4)
  {
    r := Mul(a[2], a[2]) + 4 * Mul(a[1], a[3]) + 2 * Mul(a[0], a[4]);
    assert r as int == Coefficient(a, a, 4, 10);
  }

  method Square5(a: Factor) returns (r: felem)
    ensures IsCoefficient(r, a, a, 5)
  {
    r := 2 * (Mul(a[2], a[3]) + Mul(a[1], a[4]) + Mul(a[0], a[5]));
    assert r as int == Coefficient(a, a, 5, 10);
  }

  method Square6(a: Factor) returns (r: felem)
    ensures IsCoefficient(r, a, a, 6)
  {
    r := 2 * (Mul(a[3], a[3]) + Mul(a[2], a[4]) + Mul(a[0], a[6]) + 2 * Mul(a[1], a[5]));
    assert r as int == Coefficient(a, a, 6, 10);
  }

  method Square7(a: Factor) returns (r: felem)
    ensures IsCoefficient(r, a, a, 7)
  {
    r := 2 * (Mul(a[3], a[4]) + Mul(a[2], a[5]) + Mul(a[1], a[6]) + Mul(a[0], a[7]));
    assert r as int == Coefficient(a, a, 7, 10);
  }

  method Square8(a: Factor) returns (r: felem)
    ensures IsCoefficient(r, a, a, 8)
  {
    r := Mul(a[4], a[4]) + 2 * (Mul(a[2], a[6]) + Mul(a[0], a[8]) + 2 * (Mul(a[1], a[7]) +
    Mul(a[3], a[5])));
    assert r as int == Coefficient(a, a, 8, 10);
  }

  method Square9(a: Factor) returns (r: felem)
    ensures IsCoefficient(r, a, a, 9)
  {
    r := 2 * (Mul(a[4], a[5]) + Mul(a[3], a[6]) + Mul(a[2], a[7]) + Mul(a[1], a[8]) + Mul(a[0], a[9]));
    assert r as int == Coefficient(a, a, 9, 10);
  }

  method Square10(a: Factor) returns (r: felem)
    ensures IsCoefficient(r, a, a, 10)
  {
    r := 2 * (Mul(a[5], a[5]) + Mul(a[4], a[6]) + Mul(a[2], a[8]) + 2 * (Mul(a[3], a[7]) +
    Mul(a[1], a[9])));
    assert r as int == Coefficient(a, a, 10, 10);
  }

  method Square11(a: Factor) returns (r: felem)
    ensures IsCoefficient(r, a, a, 11)
  {
    r := 2 * (Mul(a[5], a[6]) + Mul(a[4], a[7]) + Mul(a[3], a[8]) + Mul(a[2], a[9]));
    assert r as int == Coefficient(a, a, 11, 10);
  }

  method Square12(a: Factor) returns (r: felem)
    ensures IsCoefficient(r, a, a, 12)
  {
    r := Mul(a[6], a[6]) + 2 * (Mul(a[4], a[8]) + 2 * (Mul(a[5], a[7]) + Mul(a[3], a[9])));
    assert r as int == Coefficient(a, a, 12, 10);
  }

  method Square13(a: Factor) returns (r: felem)
    ensures IsCoefficient(r, a, a, 13)
  {
    r := 2 * (Mul(a[6], a[7]) + Mul(a[5], a[8]) + Mul(a[4], a[9]));
    assert r as int == Coefficient(a, a, 13, 10);
  }

  method Square14(a: Factor) returns (r: felem)
    ensures IsCoefficient(r, a, a, 14)
  {
    r := 2 * (Mul(a[7], a[7]) + Mul(a[6], a[8]) + 2 * Mul(a[5], a[9]));
    assert r as int == Coefficient(a, a, 14, 10);
  }

  method Square15(a: Factor) returns (r: felem)
    ensures IsCoefficient(r, a, a, 15)
  {
    r := 2 * (Mul(a[7], a[8]) + Mul(a[6], a[9]));
    assert r as int == Coefficient(a, a, 15, 10);
  }

  method Square16(a: Factor) returns (r: felem)
    ensures IsCoefficient(r, a, a, 16)
  {
    r := Mul(a[8], a[8]) + 4 * Mul(a[7], a[9]);
    assert r as int == Coefficient(a, a, 16, 10);
  }

  method Square17(a: Factor) returns (r: felem)
    ensures IsCoefficient(r, a, a, 17)
  {
    r := 2 * Mul(a[8], a[9]);
    assert r as int == Coefficient(a, a, 17, 10);
  }

  method Square18(a: Factor) returns (r: felem)
    ensures IsCoefficient(r, a, a, 18)
  {
    r := 2 * Mul(a[9], a[9]);
    assert r as int == Coefficient(a, a, 18, 10);
  }

  /** output := in * in, coefficient by coefficient the same as `Fproduct`. */
  method FsquareInner(output: array<felem>, in1: array<felem>)
    requires output.Length == 19 && in1.Length >= 10 && output != in1
    requires Within(in1, FACTOR_MAX)
    modifies output
    ensures HoldsProduct(output[..], in1[..10], in1[..10])
  {
    var a := in1[..10];
    var r0 := Square0(a);
    var r1 := Square1(a);
    var r2 := Square2(a);
    var r3 := Square3(a);
    var r4 := Square4(a);
    var r5 := Square5(a);
    var r6 := Square6(a);
    var r7 := Square7(a);
    var r8 := Square8(a);
    var r9 := Square9(a);
    var r10 := Square10(a);
    var r11 := Square11(a);
    var r12 := Square12(a);
    var r13 := Square13(a);
    var r14 := Square14(a);
    var r15 := Square15(a);
    var r16 := Square16(a);
    var r17 := Square17(a);
    var r18 := Square18(a);
    var t := [r0, r1, r2, r3, r4, r5, r6, r7, r8, r9, r10, r11, r12, r13, r14, r15, r16, r17, r18];
    Store(output, t);
    assert in1[..10] == a;
  }
}
