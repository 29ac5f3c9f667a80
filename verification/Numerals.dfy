/** Positional notation and the bitwise operators of arbitrary-precision integers,
    as the mnemonic codec uses them through math/big. */
module Numerals {
  import opened Common

  function Pow(b: nat, e: nat): (r: nat)
    ensures b > 0 ==> r > 0
  {
    if e == 0 then 1 else
      var p := Pow(b, e - 1);
      assert b > 0 ==> b * p > 0;
      b * p
  }

  /** The number written big-endian as `ds` in base `b`. */
  function Value(ds: seq<nat>, b: nat): nat {
    if ds == [] then 0 else Value(ds[..|ds| - 1], b) * b + ds[|ds| - 1]
  }

  /** The lowest `len` base-`b` digits of `n`, big-endian. */
  function Digits(n: nat, b: nat, len: nat): (ds: seq<nat>)
    requires b > 1
    ensures |ds| == len
    ensures forall i :: 0 <= i < len ==> ds[i] < b
    decreases len
  {
    if len == 0 then [] else Digits(n / b, b, len - 1) + [n % b]
  }

  lemma DigitsSnoc(n: nat, b: nat, len: nat)
    requires b > 1
    ensures Digits(n, b, len + 1) == Digits(n / b, b, len) + [n % b]
  {
  }

  ghost predicate Below(ds: seq<nat>, b: nat) {
    forall i :: 0 <= i < |ds| ==> ds[i] < b
  }

  lemma MulMono(x: int, y: int, b: nat)
    requires x <= y
    ensures x * b <= y * b
  {
  }

  lemma DivModUnique(q: nat, b: nat, r: nat)
    requires r < b
    ensures (q * b + r) / b == q && (q * b + r) % b == r
  {
    Quotient(q * b + r, q, b, r, (q * b + r) / b, (q * b + r) % b);
  }

  lemma Quotient(n: nat, q: nat, b: nat, r: nat, q': nat, r': nat)
    requires n == q * b + r && n == q' * b + r' && r < b && r' < b
    ensures q == q' && r == r'
  {
    if q > q' {
      MulMono(q' + 1, q, b);
    } else if q < q' {
      MulMono(q + 1, q', b);
    }
  }

  lemma HornerBound(v: nat, p: nat, b: nat, d: nat)
    requires v < p && d < b
    ensures v * b + d < b * p
  {
    MulMono(v + 1, p, b);
  }

  lemma DivModBack(n: nat, b: nat)
    requires b > 0
    ensures n / b * b + n % b == n
  {
  }

  lemma Regroup(s: nat, y: nat, t: nat, x: nat)
    ensures (s * y + t) * x == s * (x * y) + t * x
  {
  }

  lemma DivDiv(h: nat, x: nat, y: nat)
    requires x > 0 && y > 0
    ensures x * y > 0 && h / x / y == h / (x * y)
  {
    var q := h / x;
    DivModBack(h, x);
    DivModBack(q, y);
    Regroup(q / y, y, q % y, x);
    HornerBound(q % y, y, x, h % x);
    DivModUnique(q / y, x * y, (q % y) * x + h % x);
  }

  lemma {:induction false} ValueBound(ds: seq<nat>, b: nat)
    requires Below(ds, b) && b > 1
    ensures Value(ds, b) < Pow(b, |ds|)
  {
    if ds != [] {
      var init := ds[..|ds| - 1];
      ValueBound(init, b);
      HornerBound(Value(init, b), Pow(b, |init|), b, ds[|ds| - 1]);
    }
  }

  lemma NoDigits(b: nat)
    ensures Value([], b) == 0
  {
  }

  lemma ValueSnoc(ds: seq<nat>, d: nat, b: nat)
    ensures Value(ds + [d], b) == Value(ds, b) * b + d
  {
    assert (ds + [d])[..|ds|] == ds;
  }

  lemma QuotientBound(n: nat, b: nat, p: nat)
    requires b > 0 && n < b * p
    ensures n / b < p
  {
    if n / b >= p {
      MulMono(p, n / b, b);
    }
  }

  lemma {:induction false} ValueOfDigits(n: nat, b: nat, len: nat)
    requires b > 1 && n < Pow(b, len)
    ensures Value(Digits(n, b, len), b) == n
    decreases len
  {
    if len > 0 {
      QuotientBound(n, b, Pow(b, len - 1));
      ValueOfDigits(n / b, b, len - 1);
      DivModBack(n, b);
      ValueSnoc(Digits(n / b, b, len - 1), n % b, b);
    }
  }

  lemma {:induction false} DigitsOfValue(ds: seq<nat>, b: nat)
    requires b > 1 && Below(ds, b)
    ensures Digits(Value(ds, b), b, |ds|) == ds
  {
    if ds != [] {
      var init := ds[..|ds| - 1];
      DigitsOfValue(init, b);
      DivModUnique(Value(init, b), b, ds[|ds| - 1]);
    }
  }

  lemma PowSucc(b: nat, n: nat)
    ensures Pow(b, n + 1) == b * Pow(b, n)
  {
  }

  lemma MulAssoc(x: nat, y: nat, z: nat)
    ensures x * (y * z) == (x * y) * z
  {
  }

  lemma {:induction false} PowAdd(b: nat, m: nat, n: nat)
    ensures Pow(b, m + n) == Pow(b, m) * Pow(b, n)
  {
    hide Pow;
    if m > 0 {
      PowAdd(b, m - 1, n);
      PowSucc(b, m - 1 + n);
      PowSucc(b, m - 1);
      MulAssoc(b, Pow(b, m - 1), Pow(b, n));
    } else {
      PowZero(b);
    }
  }

  lemma PowZero(b: nat)
    ensures Pow(b, 0) == 1
  {
  }

  lemma {:induction false} PowPow(b: nat, k: nat, n: nat)
    ensures Pow(Pow(b, k), n) == Pow(b, k * n)
  {
    if n > 0 {
      PowPow(b, k, n - 1);
      PowAdd(b, k, k * (n - 1));
      assert k + k * (n - 1) == k * n;
    } else {
      assert k * n == 0;
    }
  }

  /** big.Int.Bytes: the minimal big-endian byte string. */
  function Bytes(n: nat): (bs: seq<byte>) {
    if n == 0 then [] else Bytes(n / 256) + [n % 256]
  }

  function Zeros(len: nat): (zs: seq<byte>)
    ensures |zs| == len && forall i :: 0 <= i < len ==> zs[i] == 0
  {
    seq(len, _ => 0)
  }

  /** padByteSlice: zero bytes on the left up to `len`; longer slices are kept whole. */
  function PadByteSlice(slice: seq<byte>, len: nat): (r: seq<byte>) {
    if len <= |slice| then slice else Zeros(len - |slice|) + slice
  }

  lemma {:induction false} PaddedBytes(n: nat, len: nat)
    requires n < Pow(256, len)
    ensures PadByteSlice(Bytes(n), len) == Digits(n, 256, len)
    decreases len
  {
    if len == 0 {
    } else {
      assert n / 256 < Pow(256, len - 1);
      PaddedBytes(n / 256, len - 1);
      if n == 0 {
        assert Zeros(len) == Zeros(len - 1) + [0];
      } else {
        BytesLength(n / 256, len - 1);
      }
    }
  }

  lemma {:induction false} BytesLength(n: nat, len: nat)
    requires n < Pow(256, len)
    ensures |Bytes(n)| <= len
    decreases len
  {
    if n != 0 {
      assert len > 0;
      assert n / 256 < Pow(256, len - 1);
      BytesLength(n / 256, len - 1);
    }
  }

  lemma {:induction false} ValueOfBytes(n: nat)
    ensures Value(Bytes(n), 256) == n
  {
    if n != 0 {
      ValueOfBytes(n / 256);
      ValueSnoc(Bytes(n / 256), n % 256, 256);
    }
  }

  // Bitwise operators

  function And(a: nat, b: nat): nat {
    if a == 0 || b == 0 then 0 else (a % 2) * (b % 2) + 2 * And(a / 2, b / 2)
  }

  function Or(a: nat, b: nat): nat {
    if a == 0 then b else if b == 0 then a else
      (if a % 2 == 1 || b % 2 == 1 then 1 else 0) + 2 * Or(a / 2, b / 2)
  }

  lemma ModDouble(x: nat, m: nat)
    requires m > 0
    ensures x % (2 * m) == x % 2 + 2 * ((x / 2) % m)
  {
    var h := x / 2;
    var q, r := h / m, h % m;
    assert x == 2 * h + x % 2 && h == q * m + r;
    assert q * (2 * m) == 2 * (q * m);
    DivModUnique(q, 2 * m, x % 2 + 2 * r);
  }

  lemma AndZero(x: nat)
    ensures And(x, 0) == 0
  {
  }

  lemma AndOdd(x: nat, m: nat)
    ensures And(x, 2 * m + 1) == x % 2 + 2 * And(x / 2, m)
  {
    var y := 2 * m + 1;
    assert y % 2 == 1 && y / 2 == m;
    if x == 0 {
      assert And(0, m) == 0;
    } else {
      assert And(x, y) == (x % 2) * 1 + 2 * And(x / 2, m);
    }
  }

  lemma AndEven(x: nat, m: nat)
    ensures And(x, 2 * m) == 2 * And(x / 2, m)
  {
    var y := 2 * m;
    assert y % 2 == 0 && y / 2 == m;
    if x == 0 || m == 0 {
      assert And(x, y) == 0 && And(x / 2, m) == 0;
    } else {
      assert And(x, y) == (x % 2) * 0 + 2 * And(x / 2, m);
    }
  }

  lemma AndMaskStep(x: nat, m: nat)
    requires m > 0 && And(x / 2, m - 1) == (x / 2) % m
    ensures And(x, 2 * m - 1) == x % (2 * m)
  {
    hide And;
    ModDouble(x, m);
    AndOdd(x, m - 1);
  }

  /** Masking with k low one bits is the remainder modulo 2^k. */
  lemma {:induction false} AndMask(x: nat, k: nat)
    ensures And(x, Pow(2, k) - 1) == x % Pow(2, k)
  {
    hide And, Pow;
    if k == 0 {
      PowZero(2);
      AndZero(x);
    } else {
      AndMask(x / 2, k - 1);
      AndMaskStep(x, Pow(2, k - 1));
      PowSucc(2, k - 1);
    }
  }

  lemma Twice(x: nat, p: nat)
    ensures x * (2 * p) == 2 * (x * p)
  {
  }

  lemma OrEven(h: nat, y: nat)
    ensures Or(2 * h, y) == y % 2 + 2 * Or(h, y / 2)
  {
  }

  /** OR with a value below the shift is addition. */
  lemma {:induction false} OrIsAdd(x: nat, k: nat, y: nat)
    requires y < Pow(2, k)
    ensures Or(x * Pow(2, k), y) == x * Pow(2, k) + y
  {
    if k > 0 {
      var p := Pow(2, k - 1);
      OrIsAdd(x, k - 1, y / 2);
      Twice(x, p);
      OrEven(x * p, y);
    }
  }

  /** Testing one bit. */
  lemma {:induction false} AndBit(a: nat, k: nat)
    ensures And(a, Pow(2, k)) == ((a / Pow(2, k)) % 2) * Pow(2, k)
  {
    hide And;
    if k == 0 {
      AndOdd(a, 0);
      AndZero(a / 2);
    } else {
      var p := Pow(2, k - 1);
      AndBit(a / 2, k - 1);
      AndEven(a, p);
      DivDiv(a, 2, p);
      Twice((a / 2 / p) % 2, p);
    }
  }
}
