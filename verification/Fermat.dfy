/** Fermat's little theorem, which says when division by a power is division. */
module Fermat {
  import opened Modular

  ghost predicate IsPrime(p: nat) {
    p > 1 && forall d :: 1 < d < p ==> p % d != 0
  }

  // ------------------------------------------------------------------------------- inverses

  /** Below a prime every number has an inverse. */
  lemma {:induction false} Inverse(a: nat, p: nat) returns (x: int)
    requires IsPrime(p) && 0 < a < p
    ensures Cong(a * x, 1, p)
    decreases a
  {
    if a == 1 {
      x := 1;
    } else {
      var q, r := p / a, p % a;
      var y := Inverse(r, p);
      x := -q * y;
      var k := CongQuotient(r * y, 1, p);
      InverseStep(a, p, q, r, y, k);
      CongFromQuotient(a * x, 1, k - y, p);
    }
  }

  lemma InverseStep(a: int, p: int, q: int, r: int, y: int, k: int)
    requires p == a * q + r && r * y == 1 + k * p
    ensures a * (-q * y) == 1 + (k - y) * p
  {
    assert a * (-q * y) == -(a * q) * y;
    assert (p - r) * y == p * y - r * y;
    assert (k - y) * p == k * p - y * p;
  }

  /** An inverse cancels its number. */
  lemma Cancel(a: int, x: int, b: int, c: int, p: nat)
    requires p > 0 && Cong(a * x, 1, p) && Cong(a * b, a * c, p)
    ensures Cong(b, c, p)
  {
    CongMul(a * b, a * c, x, x, p);
    Regroup(a, b, x);
    Regroup(a, c, x);
    CongMul(a * x, 1, b, b, p);
    CongMul(a * x, 1, c, c, p);
  }

  lemma Regroup(a: int, b: int, x: int)
    ensures (a * b) * x == (a * x) * b
  {
    assert a * b == b * a;
    assert (b * a) * x == b * (a * x);
  }

  // -------------------------------------------------------------------- products over sets

  ghost function Product(s: set<nat>): int {
    if s == {} then 1 else var x :| x in s; x * Product(s - {x})
  }

  /** Any factor can be taken out first. */
  lemma {:induction false} ProductOut(s: set<nat>, x: int)
    requires x in s
    ensures Product(s) == x * Product(s - {x})
    decreases |s|
  {
    var y :| y in s && Product(s) == y * Product(s - {y});
    if y != x {
      ProductOut(s - {y}, x);
      ProductOut(s - {x}, y);
      assert s - {y} - {x} == s - {x} - {y};
      Exchange(x, y, Product(s - {x} - {y}));
    }
  }

  lemma Exchange(x: int, y: int, r: int)
    ensures y * (x * r) == x * (y * r)
  {
    assert y * (x * r) == (y * x) * r;
    assert x * (y * r) == (x * y) * r;
  }

  /** The numbers from 1 to n. */
  ghost function UpTo(n: nat): (s: set<nat>)
    ensures |s| == n && forall i :: i in s <==> 1 <= i <= n
  {
    if n == 0 then {} else UpTo(n - 1) + {n}
  }

  // ---------------------------------------------------------------- multiplying all residues

  /** The residues of the multiples of a by the members of a set. */
  ghost function Multiples(a: int, p: nat, s: set<nat>): set<nat>
    requires p > 0
  {
    set i | i in s :: a * i % p
  }

  /** Multiplying by an invertible number maps different residues to different residues. */
  lemma MultiplesApart(a: int, x: int, p: nat, i: int, j: int)
    requires p > 0 && Cong(a * x, 1, p) && 0 <= i < p && 0 <= j < p && a * i % p == a * j % p
    ensures i == j
  {
    Cancel(a, x, i, j, p);
    RemainderUnique(i, 0, i, p);
    RemainderUnique(j, 0, j, p);
  }

  /** The product of the multiples is the product times a power of the multiplier. */
  lemma {:induction false} MultiplesProduct(a: int, x: int, p: nat, s: set<nat>)
    requires p > 0 && Cong(a * x, 1, p) && forall i :: i in s ==> 0 <= i < p
    ensures |Multiples(a, p, s)| == |s|
    ensures Cong(Product(Multiples(a, p, s)), Pow(a, |s|) * Product(s), p)
    decreases |s|
  {
    if s == {} {
      assert Multiples(a, p, s) == {};
    } else {
      var i :| i in s;
      var t := s - {i};
      var y := a * i % p;
      MultiplesProduct(a, x, p, t);
      MultiplesWithout(a, x, p, s, i);
      ProductOut(Multiples(a, p, s), y);
      ProductOut(s, i);
      CongResidue(a * i, p);
      CongMul(y, a * i, Product(Multiples(a, p, t)), Pow(a, |t|) * Product(t), p);
      MulSwap(a, i, Pow(a, |t|), Product(t));
    }
  }

  lemma MultiplesWithout(a: int, x: int, p: nat, s: set<nat>, i: int)
    requires p > 0 && Cong(a * x, 1, p) && i in s && forall j :: j in s ==> 0 <= j < p
    ensures a * i % p in Multiples(a, p, s) && Multiples(a, p, s) - {a * i % p} == Multiples(a, p, s - {i})
    ensures a * i % p !in Multiples(a, p, s - {i})
  {
    forall j | j in s && a * j % p == a * i % p ensures j == i {
      MultiplesApart(a, x, p, i, j);
    }
    var y := a * i % p;
    forall z ensures z in Multiples(a, p, s) - {y} <==> z in Multiples(a, p, s - {i}) {
      if z in Multiples(a, p, s) - {y} {
        var j :| j in s && z == a * j % p;
        assert j in s - {i};
      }
    }
  }

  /** Equal sets, by containment and number. */
  lemma SameSet(s: set<nat>, t: set<nat>)
    requires s <= t && |s| == |t|
    ensures s == t
  {
    assert t == s + (t - s);
  }

  /** Multiplying all residues but 0 by a number permutes them. */
  lemma Permutes(a: int, x: int, p: nat)
    requires p > 1 && Cong(a * x, 1, p)
    ensures Multiples(a, p, UpTo(p - 1)) == UpTo(p - 1)
  {
    var s := UpTo(p - 1);
    MultiplesProduct(a, x, p, s);
    forall i | i in s ensures a * i % p in s {
      if a * i % p == 0 {
        RemainderUnique(a * 0, 0, 0, p);
        MultiplesApart(a, x, p, i, 0);
      }
    }
    SameSet(Multiples(a, p, s), s);
  }

  /** A product of numbers below a prime has an inverse. */
  lemma {:induction false} ProductInverse(p: nat, s: set<nat>) returns (x: int)
    requires IsPrime(p) && forall i :: i in s ==> 0 < i < p
    ensures Cong(Product(s) * x, 1, p)
    decreases |s|
  {
    if s == {} {
      x := 1;
    } else {
      var i :| i in s;
      ProductOut(s, i);
      var y := Inverse(i, p);
      var z := ProductInverse(p, s - {i});
      x := y * z;
      MulSwap(i, Product(s - {i}), y, z);
      CongMul(i * y, 1, Product(s - {i}) * z, 1, p);
    }
  }

  /** Fermat's little theorem. */
  lemma LittleTheorem(a: int, p: nat)
    requires IsPrime(p) && a % p != 0
    ensures Cong(Pow(a, p - 1), 1, p)
  {
    var r := a % p;
    var x := Inverse(r, p);
    CongResidue(a, p);
    CongMul(r, a, x, x, p);
    var s := UpTo(p - 1);
    Permutes(a, x, p);
    MultiplesProduct(a, x, p, s);
    var y := ProductInverse(p, s);
    var q := Product(s);
    assert q * Pow(a, p - 1) == Pow(a, p - 1) * q;
    Cancel(q, y, Pow(a, p - 1), 1, p);
  }
}
