// Machine words as numbers below a power of two: exclusive or and left shift
// agree with reduction modulo a smaller power.
module Bits {

  function Pow2(n: nat): (p: nat)
    ensures p > 0
  {
    if n == 0 then 1 else 2 * Pow2(n - 1)
  }

  function Xor(a: nat, b: nat): nat
    decreases a + b
  {
    if a == 0 && b == 0 then 0
    else (if a % 2 != b % 2 then 1 else 0) + 2 * Xor(a / 2, b / 2)
  }

  lemma {:induction false} XorSelf(a: nat)
    ensures Xor(a, a) == 0
  {
    if a > 0 {
      XorSelf(a / 2);
    }
  }

  lemma {:induction false} XorZero(a: nat)
    ensures Xor(a, 0) == a
  {
    if a > 0 {
      XorZero(a / 2);
    }
  }

  lemma {:induction false} XorSymmetric(a: nat, b: nat)
    ensures Xor(a, b) == Xor(b, a)
    decreases a + b
  {
    if a != 0 || b != 0 {
      XorSymmetric(a / 2, b / 2);
    }
  }

  lemma Halves(a: nat, m: nat)
    requires m > 0
    ensures a % (2 * m) == a % 2 + 2 * ((a / 2) % m)
  {
    var q, r := a / 2 / m, a / 2 % m;
    assert a / 2 == q * m + r;
    assert a == 2 * (q * m + r) + a % 2;
    assert a == q * (2 * m) + (2 * r + a % 2);
    RemainderIs(a, q, 2 * m, 2 * r + a % 2);
  }

  lemma RemainderIs(a: int, q: int, m: int, r: int)
    requires m > 0 && a == q * m + r && 0 <= r < m
    ensures a % m == r && a / m == q
  {
    var d := a / m - q;
    assert d * m == r - a % m by {
      assert a == (a / m) * m + a % m;
    }
    assert d >= 1 ==> d * m >= m;
    assert d <= -1 ==> d * m <= -m;
  }

  // Reducing the operands first does not change the reduced result.
  lemma {:induction false} XorMod(a: nat, b: nat, w: nat)
    ensures Xor(a, b) % Pow2(w) == Xor(a % Pow2(w), b % Pow2(w))
    ensures Xor(a % Pow2(w), b % Pow2(w)) < Pow2(w)
    decreases w
  {
    if w > 0 {
      var m := Pow2(w - 1);
      XorMod(a / 2, b / 2, w - 1);
      Halves(a, m);
      Halves(b, m);
      XorUnfold(a, b);
      Halves(Xor(a, b), m);
      XorUnfold(a % Pow2(w), b % Pow2(w));
    }
  }

  lemma XorUnfold(a: nat, b: nat)
    ensures Xor(a, b) % 2 == if a % 2 != b % 2 then 1 else 0
    ensures Xor(a, b) / 2 == Xor(a / 2, b / 2)
  {
  }

  lemma MulAssoc(a: int, b: int, c: int)
    ensures a * (b * c) == (a * b) * c
  {
  }

  lemma MulDistributes(a: int, b: int, c: int)
    ensures (a + b) * c == a * c + b * c
  {
  }

  lemma MultipleMod(q: nat, p: nat)
    requires p > 0
    ensures q * p >= 0 && (q * p) % p == 0
  {
    RemainderIs(q * p, q, p, 0);
  }

  lemma ModOfMultiple(a: nat, k: nat, p: nat)
    requires k > 0 && p > 0
    ensures k * p > 0 && (a % (k * p)) % p == a % p
  {
    assert k * p >= p;
    var q, r := a / (k * p), a % (k * p);
    var s, t := r / p, r % p;
    MulAssoc(q, k, p);
    MulDistributes(q * k, s, p);
    assert r == s * p + t;
    assert a == q * (k * p) + r;
    RemainderIs(a, q * k + s, p, t);
  }

  lemma ModOfMod(a: nat, w: nat, W: nat)
    requires w <= W
    ensures (a % Pow2(W)) % Pow2(w) == a % Pow2(w)
  {
    var k := Pow2Split(w, W);
    assert k > 0;
    ModOfMultiple(a, k, Pow2(w));
  }

  lemma {:induction false} Pow2Split(w: nat, W: nat) returns (k: nat)
    requires w <= W
    ensures Pow2(W) == k * Pow2(w)
    decreases W
  {
    if w == W {
      k := 1;
    } else {
      k := Pow2Split(w, W - 1);
      assert 2 * (k * Pow2(w)) == (2 * k) * Pow2(w);
      k := 2 * k;
    }
  }

  lemma AddMod(a: nat, b: nat, m: nat)
    requires m > 0
    ensures (a % m + b % m) % m == (a + b) % m
  {
    var q, r := a / m, a % m;
    var s, t := b / m, b % m;
    var u, v := (r + t) / m, (r + t) % m;
    assert a == q * m + r && b == s * m + t && r + t == u * m + v;
    assert a + b == (q + s + u) * m + v;
    RemainderIs(a + b, q + s + u, m, v);
  }

  lemma MulMod(a: nat, b: nat, m: nat)
    requires m > 0
    ensures ((a % m) * b) % m == (a * b) % m
  {
    var q, r := a / m, a % m;
    var u, v := (r * b) / m, (r * b) % m;
    assert a == q * m + r && r * b == u * m + v;
    assert a * b == (q * m) * b + r * b;
    assert (q * m) * b == (q * b) * m;
    assert a * b == (q * b + u) * m + v;
    RemainderIs(a * b, q * b + u, m, v);
  }

  lemma ModSmall(a: nat, m: nat)
    requires a < m
    ensures a % m == a
  {
    RemainderIs(a, 0, m, a);
  }

  lemma AddLeft(x: nat, y: nat, m: nat)
    requires m > 0
    ensures (x % m + y) % m == (x + y) % m
  {
    var q, r := x / m, x % m;
    var u, v := (r + y) / m, (r + y) % m;
    assert x == q * m + r && r + y == u * m + v;
    MulDistributes(q, u, m);
    RemainderIs(x + y, q + u, m, v);
  }

  lemma SumsAgree(s: nat, b: nat, t: nat, x: nat, m: nat)
    requires m > 0 && s + b == t + x
    ensures (s % m + b) % m == (t % m + x) % m
  {
    AddLeft(s, b, m);
    AddLeft(t, x, m);
  }

  // ---------------------------------------------------------------- powers, shifts and bits by their laws

  lemma {:induction false} Pow2Sum(a: nat, b: nat)
    ensures Pow2(a + b) == Pow2(a) * Pow2(b)
    decreases b
  {
    if b > 0 {
      Pow2Sum(a, b - 1);
      MulAssoc(Pow2(a), 2, Pow2(b - 1));
      MulAssoc(2, Pow2(a), Pow2(b - 1));
    }
  }

  lemma Pow2Square(a: nat, p: nat)
    requires Pow2(a) == p
    ensures Pow2(2 * a) == p * p
  {
    Pow2Sum(a, a);
  }

  lemma Powers()
    ensures Pow2(0) == 1 && Pow2(1) == 2 && Pow2(8) == 0x100
    ensures Pow2(32) == 0x1_0000_0000 && Pow2(64) == 0x1_0000_0000_0000_0000
  {
    assert Pow2(1) == 2 * Pow2(0);
    hide Pow2;
    Pow2Square(1, 2);
    Pow2Square(2, 4);
    Pow2Square(4, 0x10);
    Pow2Square(8, 0x100);
    Pow2Square(16, 0x1_0000);
    Pow2Square(32, 0x1_0000_0000);
  }

  // r is v doubled k times.
  ghost predicate IsDoubled(v: nat, k: nat, r: nat) {
    exists d: seq<nat> :: Doublings(d) && |d| == k + 1 && d[0] == v && d[k] == r
  }

  ghost predicate Doublings(d: seq<nat>) {
    forall i, j :: 0 <= i < j < |d| && j == i + 1 ==> d[j] == d[i] + d[i]
  }

  // Doubling is what these laws say, and nothing else.
  lemma DoubledZero(v: nat, r: nat)
    ensures IsDoubled(v, 0, r) <==> r == v
  {
    var d := [v];
    assert Doublings(d) && d[0] == v;
  }

  lemma DoubledOnce(v: nat, k: nat, r: nat)
    ensures IsDoubled(v, k + 1, r) <==> exists q: nat :: IsDoubled(v, k, q) && r == q + q
  {
    if IsDoubled(v, k + 1, r) {
      var d :| Doublings(d) && |d| == k + 2 && d[0] == v && d[k + 1] == r;
      assert Doublings(d[..k + 1]) && d[..k + 1][0] == v && d[..k + 1][k] == d[k];
      assert IsDoubled(v, k, d[k]) && r == d[k] + d[k];
    }
    if q: nat :| IsDoubled(v, k, q) && r == q + q {
      var d :| Doublings(d) && |d| == k + 1 && d[0] == v && d[k] == q;
      assert Doublings(d + [r]) && (d + [r])[0] == v && (d + [r])[k + 1] == r;
    }
  }

  lemma {:induction false} DoubledTimes(v: nat, k: nat, r: nat)
    ensures IsDoubled(v, k, r) <==> r == v * Pow2(k)
    decreases k
  {
    if k == 0 {
      DoubledZero(v, r);
    } else {
      var j: nat := k - 1;
      var half := v * Pow2(j);
      assert v * Pow2(k) == half + half by {
        MulAssoc(v, 2, Pow2(j));
        MulAssoc(2, v, Pow2(j));
      }
      DoubledOnce(v, j, r);
      DoubledTimes(v, j, half);
      if q: nat :| IsDoubled(v, j, q) && r == q + q {
        DoubledTimes(v, j, q);
      }
    }
  }

  lemma DoubledTwice(v: nat, r: nat)
    ensures IsDoubled(v, 2, r) <==> r == 4 * v
  {
    DoubledTimes(v, 2, r);
    assert Pow2(2) == 2 * Pow2(1) == 4 * Pow2(0);
  }

  function BitAt(x: nat, i: nat): nat {
    if i == 0 then x % 2 else BitAt(x / 2, i - 1)
  }

  // A bit of the exclusive or is set when the bits of the operands differ.
  lemma {:induction false} XorBit(a: nat, b: nat, i: nat)
    ensures BitAt(Xor(a, b), i) == if BitAt(a, i) != BitAt(b, i) then 1 else 0
    decreases i
  {
    XorUnfold(a, b);
    if i > 0 {
      XorBit(a / 2, b / 2, i - 1);
    }
  }

  // The low bits survive the reduction.
  lemma {:induction false} BitOfMod(x: nat, w: nat, i: nat)
    requires i < w
    ensures BitAt(x % Pow2(w), i) == BitAt(x, i)
    decreases i
  {
    var m := Pow2(w - 1);
    Halves(x, m);
    if i > 0 {
      BitOfMod(x / 2, w - 1, i - 1);
      assert (x % Pow2(w)) / 2 == (x / 2) % m;
    }
  }

  // The bits determine the number.
  lemma {:induction false} BitsDetermine(x: nat, y: nat)
    requires forall i: nat :: BitAt(x, i) == BitAt(y, i)
    ensures x == y
    decreases x
  {
    assert BitAt(x, 0) == BitAt(y, 0);
    forall i: nat ensures BitAt(x / 2, i) == BitAt(y / 2, i) {
      assert BitAt(x, i + 1) == BitAt(y, i + 1);
    }
    if x > 0 {
      BitsDetermine(x / 2, y / 2);
    } else {
      ZeroBits(y);
    }
  }

  lemma {:induction false} ZeroBits(y: nat)
    requires forall i: nat :: BitAt(0, i) == BitAt(y, i)
    ensures y == 0
    decreases y
  {
    assert BitAt(0, 0) == BitAt(y, 0);
    forall i: nat ensures BitAt(0, i) == BitAt(y / 2, i) {
      assert BitAt(0, i + 1) == BitAt(y, i + 1);
    }
    if y > 0 {
      ZeroBits(y / 2);
    }
  }
}
