/** Amounts as the API prints and parses them: Maxwell inside, decimal MASS outside. */
module Amounts {
  import opened Numerals

  datatype Result<T> = Ok(value: T) | Err(reason: Error)

  datatype Error = OutOfRange | Negative | IllegalFormat | PrecisionTooHigh | Syntax

  const MAX_MASS: nat := 206438400
  const MAXWELL_PER_MASS: nat := 100000000
  const MAX_AMOUNT: nat := MAX_MASS * MAXWELL_PER_MASS
  const MAX_INT64: nat := 0x7FFF_FFFF_FFFF_FFFF

  // Decimal numerals

  predicate IsDigit(c: char) {
    '0' <= c <= '9'
  }

  predicate AllDigits(s: string) {
    forall i :: 0 <= i < |s| ==> IsDigit(s[i])
  }

  function DigitChar(d: nat): (c: char)
    requires d < 10
    ensures IsDigit(c) && c as int - '0' as int == d
  {
    '0' + d as char
  }

  /** The number a digit string denotes. */
  function Num(s: string): nat
    requires AllDigits(s)
  {
    if s == [] then 0 else Num(s[..|s| - 1]) * 10 + (s[|s| - 1] as int - '0' as int)
  }

  /** Shortest decimal form, as strconv.Itoa and Uint128.String print it. */
  function Decimal(n: nat): (s: string)
    ensures AllDigits(s) && s != []
  {
    if n < 10 then [DigitChar(n)] else Decimal(n / 10) + [DigitChar(n % 10)]
  }

  /** The last `k` decimal digits of `n`. */
  function LastDigits(n: nat, k: nat): (s: string)
    ensures AllDigits(s) && |s| == k
    decreases k
  {
    if k == 0 then [] else LastDigits(n / 10, k - 1) + [DigitChar(n % 10)]
  }

  // Go's strings and strconv

  function TrimLeftZeros(s: string): (r: string)
    ensures r == [] || r[0] != '0'
  {
    if s != [] && s[0] == '0' then TrimLeftZeros(s[1..]) else s
  }

  function TrimRightZeros(s: string): (r: string)
    ensures r == [] || r[|r| - 1] != '0'
    ensures |r| <= |s| && r == s[..|r|] && forall i :: |r| <= i < |s| ==> s[i] == '0'
  {
    if s != [] && s[|s| - 1] == '0' then TrimRightZeros(s[..|s| - 1]) else s
  }

  function RepeatZero(k: nat): (s: string)
    ensures |s| == k && (forall i :: 0 <= i < k ==> s[i] == '0') && AllDigits(s)
  {
    seq(k, _ => '0')
  }

  /** strings.Split(s, ".") */
  function SplitDots(s: string): (parts: seq<string>)
    ensures |parts| > 0
  {
    if s == [] then [""]
    else if s[0] == '.' then [""] + SplitDots(s[1..])
    else
      var rest := SplitDots(s[1..]);
      [[s[0]] + rest[0]] + rest[1..]
  }

  /** strconv.ParseInt(s, 10, 64): an optional sign and at least one digit. */
  function ParseInt(s: string): Result<int> {
    var signed := s != [] && (s[0] == '+' || s[0] == '-');
    var digits := if signed then s[1..] else s;
    if digits == [] || !AllDigits(digits) then Err(Syntax) else
    var n: int := Num(digits);
    if signed && s[0] == '-' then (if n > MAX_INT64 + 1 then Err(OutOfRange) else Ok(-n))
    else if n > MAX_INT64 then Err(OutOfRange) else Ok(n)
  }

  // The two conversions

  function AmountToString(m: int): Result<string> {
    if m > MAX_AMOUNT then Err(OutOfRange)
    else if m < 0 then Err(Negative)
    else
      var s := Decimal(m + MAXWELL_PER_MASS);
      if |s| < 8 then Err(IllegalFormat) else
      var sInt, sFrac := s[..|s| - 8], TrimRightZeros(s[|s| - 8..]);
      var i := ParseInt(sInt);
      if i.Err? then Err(i.reason)
      else if i.value < 1 then Err(IllegalFormat)
      else if sFrac != [] then Ok(Decimal(i.value - 1) + "." + sFrac)
      else Ok(Decimal(i.value - 1))
  }

  function StringToAmount(s: string): Result<nat> {
    var s1 := SplitDots(s);
    if |s1| > 2 then Err(IllegalFormat) else
    var trimmed := TrimLeftZeros(s1[0]);
    var sInt := if trimmed == [] then "0" else trimmed;
    var sFrac := if |s1| == 2 then TrimRightZeros(s1[1]) else "";
    if |sFrac| > 8 then Err(PrecisionTooHigh) else
    Convert(ParseInt(sInt), ParseInt(sFrac + RepeatZero(8 - |sFrac|)))
  }

  function Convert(i: Result<int>, f: Result<int>): Result<nat> {
    if i.Err? then Err(i.reason)
    else if i.value < 0 || i.value > MAX_MASS then Err(OutOfRange)
    else if f.Err? then Err(f.reason)
    else if f.value < 0 then Err(IllegalFormat)
    else if MAXWELL_PER_MASS * i.value + f.value > MAX_AMOUNT then Err(OutOfRange)
    else Ok(MAXWELL_PER_MASS * i.value + f.value)
  }

  /** No superfluous leading zero; a fraction only if it is non-zero, without trailing zeros. */
  ghost predicate CanonicalInt(i: string) {
    i != [] && AllDigits(i) && (i[0] == '0' ==> i == "0")
  }

  ghost predicate CanonicalFrac(f: string) {
    0 < |f| <= 8 && AllDigits(f) && f[|f| - 1] != '0'
  }

  ghost predicate Canonical(s: string) {
    CanonicalInt(s) || exists k :: 0 <= k < |s| && s[k] == '.' && CanonicalInt(s[..k]) && CanonicalFrac(s[k + 1..])
  }

  // Numerals: small facts

  lemma NumEmpty()
    ensures Num("") == 0
  {
  }

  lemma NumSnoc(s: string, c: char)
    requires AllDigits(s) && IsDigit(c)
    ensures AllDigits(s + [c]) && Num(s + [c]) == Num(s) * 10 + (c as int - '0' as int)
  {
    assert (s + [c])[..|s|] == s;
  }

  lemma {:induction false} NumOfDecimal(n: nat)
    ensures Num(Decimal(n)) == n
  {
    if n < 10 {
      NumSnoc("", DigitChar(n));
      assert "" + [DigitChar(n)] == [DigitChar(n)];
    } else {
      NumOfDecimal(n / 10);
      NumSnoc(Decimal(n / 10), DigitChar(n % 10));
    }
  }

  lemma {:induction false} DecimalIsCanonical(n: nat)
    ensures CanonicalInt(Decimal(n)) && (n > 0 ==> Decimal(n)[0] != '0')
  {
    if n >= 10 {
      DecimalIsCanonical(n / 10);
    }
  }

  lemma {:induction false} NumZero(s: string)
    requires AllDigits(s) && s != [] && s[0] != '0'
    ensures Num(s) > 0
  {
    if |s| > 1 {
      NumZero(s[..|s| - 1]);
    }
  }

  lemma {:induction false} DecimalOfNum(s: string)
    requires CanonicalInt(s)
    ensures Decimal(Num(s)) == s
  {
    var init := s[..|s| - 1];
    if |s| == 1 {
      assert init == [];
    } else {
      NumZero(init);
      DecimalOfNum(init);
      assert s == init + [s[|s| - 1]];
    }
  }

  lemma {:induction false} NumConcat(a: string, b: string)
    requires AllDigits(a) && AllDigits(b)
    ensures AllDigits(a + b) && Num(a + b) == Num(a) * Pow(10, |b|) + Num(b)
  {
    if b == [] {
      assert a + b == a;
    } else {
      var init := b[..|b| - 1];
      NumConcat(a, init);
      assert a + b == (a + init) + [b[|b| - 1]];
      NumSnoc(a + init, b[|b| - 1]);
      MulTen(Num(a), Pow(10, |init|));
    }
  }

  lemma MulTen(x: nat, p: nat)
    ensures x * p * 10 == x * (10 * p)
  {
  }

  lemma {:induction false} NumZeros(k: nat)
    ensures Num(RepeatZero(k)) == 0
  {
    if k > 0 {
      NumZeros(k - 1);
      assert RepeatZero(k)[..k - 1] == RepeatZero(k - 1);
    }
  }

  lemma {:induction false} NumBound(s: string)
    requires AllDigits(s)
    ensures Num(s) < Pow(10, |s|)
  {
    if s != [] {
      NumBound(s[..|s| - 1]);
    }
  }

  lemma {:induction false} NumTrimLeft(s: string)
    requires AllDigits(s)
    ensures AllDigits(TrimLeftZeros(s)) && Num(TrimLeftZeros(s)) == Num(s)
  {
    if s != [] && s[0] == '0' {
      NumTrimLeft(s[1..]);
      NumConcat("0", s[1..]);
      assert "0" + s[1..] == s;
      assert Num("0") == Num("0"[..0]) * 10;
      ZeroTimes(Pow(10, |s[1..]|));
    }
  }

  lemma ZeroTimes(p: nat)
    ensures 0 * p == 0
  {
  }

  /** Two digit strings of the same length denote the same number only if they are equal. */
  lemma {:induction false} NumInjective(a: string, b: string)
    requires AllDigits(a) && AllDigits(b) && |a| == |b| && Num(a) == Num(b)
    ensures a == b
  {
    hide Num;
    if a != [] {
      var n := |a| - 1;
      LastDigitOf(a);
      LastDigitOf(b);
      NumInjective(a[..n], b[..n]);
      assert a == a[..n] + [a[n]] && b == b[..n] + [b[n]];
    }
  }

  lemma LastDigitOf(s: string)
    requires AllDigits(s) && s != []
    ensures Num(s) / 10 == Num(s[..|s| - 1]) && Num(s) % 10 == s[|s| - 1] as int - '0' as int
  {
  }

  /** Printing splits at any digit position. */
  lemma {:induction false} DecimalSplit(n: nat, k: nat)
    requires n >= Pow(10, k)
    ensures Decimal(n) == Decimal(n / Pow(10, k)) + LastDigits(n, k)
    decreases k
  {
    if k > 0 {
      var p := Pow(10, k - 1);
      TenDivides(n, p);
      DecimalSplit(n / 10, k - 1);
      assert n >= 10;
    } else {
      assert Decimal(n) + [] == Decimal(n);
    }
  }

  lemma TenDivides(n: nat, p: nat)
    requires p > 0
    ensures n / 10 / p == n / (10 * p) && (n >= 10 * p ==> n / 10 >= p)
  {
    var q, r := n / 10 / p, n / 10 % p;
    assert n / 10 == q * p + r;
    assert n == q * (10 * p) + (10 * r + n % 10) by {
      assert 10 * (q * p) == q * (10 * p);
    }
    DivModUnique(q, 10 * p, 10 * r + n % 10);
  }

  lemma {:induction false} NumOfLastDigits(n: nat, k: nat, x: nat, y: nat)
    requires n == x * Pow(10, k) + y && y < Pow(10, k)
    ensures Num(LastDigits(n, k)) == y
    decreases k
  {
    if k > 0 {
      var p := Pow(10, k - 1);
      assert x * (10 * p) == 10 * (x * p);
      assert n / 10 == x * p + y / 10 && n % 10 == y % 10;
      NumOfLastDigits(n / 10, k - 1, x, y / 10);
      NumSnoc(LastDigits(n / 10, k - 1), DigitChar(n % 10));
    }
  }

  // Parsing

  lemma {:induction false} SplitPlain(s: string)
    requires forall i :: 0 <= i < |s| ==> s[i] != '.'
    ensures SplitDots(s) == [s]
  {
    if s != [] {
      SplitPlain(s[1..]);
      assert [s[0]] + s[1..] == s;
    }
  }

  lemma {:induction false} SplitOnce(a: string, b: string)
    requires forall i :: 0 <= i < |a| ==> a[i] != '.'
    requires forall i :: 0 <= i < |b| ==> b[i] != '.'
    ensures SplitDots(a + "." + b) == [a, b]
  {
    var s := a + "." + b;
    if a == [] {
      assert s[1..] == b;
      SplitPlain(b);
    } else {
      assert s[1..] == a[1..] + "." + b;
      SplitOnce(a[1..], b);
      assert [s[0]] + a[1..] == a;
    }
  }

  lemma ParsePlain(s: string)
    requires AllDigits(s) && s != []
    ensures ParseInt(s) == ParsedInt(Num(s))
  {
  }

  /** The integral part after trimming, and the fraction filled up to eight digits. */
  lemma IntPart(i: string)
    requires AllDigits(i)
    ensures var t := TrimLeftZeros(i); ParseInt(if t == [] then "0" else t) == ParsedInt(Num(i))
  {
    NumTrimLeft(i);
    assert Num("0") == Num("0"[..0]) * 10;
    ParsePlain(if TrimLeftZeros(i) == [] then "0" else TrimLeftZeros(i));
  }

  lemma Pow8()
    ensures Pow(10, 8) == MAXWELL_PER_MASS
  {
    assert Pow(10, 4) == 10000;
    PowAdd(10, 4, 4);
  }

  lemma FracPart(g: string)
    requires AllDigits(g) && |g| <= 8
    ensures var z := 8 - |g|; ParseInt(g + RepeatZero(z)) == Ok(Num(g) * Pow(10, z)) && Num(g) * Pow(10, z) < MAXWELL_PER_MASS
  {
    hide Num, Pow, ParseInt;
    var z := 8 - |g|;
    NumConcat(g, RepeatZero(z));
    NumZeros(z);
    NumBound(g + RepeatZero(z));
    Pow8();
    ParsePlain(g + RepeatZero(z));
  }

  ghost function Checked(m: nat): Result<nat> {
    if m > MAX_AMOUNT then Err(OutOfRange) else Ok(m)
  }

  /** The parsed integral part of a digit string with value `n`. */
  ghost function ParsedInt(n: nat): Result<int> {
    if n > MAX_INT64 then Err(OutOfRange) else Ok(n)
  }

  lemma ConvertPlain(n: nat, v: nat)
    requires v < MAXWELL_PER_MASS
    ensures Convert(ParsedInt(n), Ok(v)) == Checked(n * MAXWELL_PER_MASS + v)
  {
  }

  lemma ParseWhole(i: string)
    requires AllDigits(i)
    ensures StringToAmount(i) == Checked(Num(i) * MAXWELL_PER_MASS)
  {
    hide Num, Pow, ParseInt, SplitDots, TrimLeftZeros, Convert, ParsedInt;
    SplitPlain(i);
    IntPart(i);
    FracPart("");
    NumEmpty();
    ConvertPlain(Num(i), 0);
    assert "" + RepeatZero(8) == RepeatZero(8);
  }

  // What an accepted string means

  lemma Cancel(a: nat, b: nat, p: nat)
    requires p > 0
    ensures a * p == b * p <==> a == b
  {
    if a < b {
      MulMono(a + 1, b, p);
    } else if b < a {
      MulMono(b + 1, a, p);
    }
  }

  lemma TrimPadded(f: string, z: nat)
    requires f == [] || f[|f| - 1] != '0'
    ensures TrimRightZeros(f + RepeatZero(z)) == f
  {
    var s := f + RepeatZero(z);
    var r := TrimRightZeros(s);
    hide TrimRightZeros;
    assert forall i :: |f| <= i < |s| ==> s[i] == '0';
    assert f != [] ==> s[|f| - 1] != '0';
    assert s[..|f|] == f;
  }

  datatype Sign = NoSign | Plus | Minus

  function SignText(s: Sign): string {
    match s
    case NoSign => ""
    case Plus => "+"
    case Minus => "-"
  }

  /** The way an amount is written. Zeros may stand before the sign of the integral part, and the
      fraction may have a sign of its own. */
  datatype Writing = Writing(zeros: nat, intSign: Sign, whole: string, dot: bool, fracSign: Sign, frac: string) {
    ghost predicate Valid() {
      && AllDigits(whole) && AllDigits(frac)
      && (if intSign == NoSign then zeros == 0 else whole != [])
      && (!dot ==> fracSign == NoSign && frac == [])
    }

    function IntText(): string {
      RepeatZero(zeros) + SignText(intSign) + whole
    }

    function FracText(): string {
      SignText(fracSign) + frac
    }

    function Text(): string {
      if dot then IntText() + "." + FracText() else IntText()
    }
  }

  /** A sign in the fraction takes the place of a digit. */
  function Places(s: Sign): nat {
    if s == NoSign then 8 else 7
  }

  /** The amount the parser takes it for: a minus sign is let through only before zeros, and a signed
      fraction counts for a tenth. */
  ghost predicate Denotes(w: Writing, m: nat)
    requires w.Valid()
  {
    && (w.intSign == Minus ==> Num(w.whole) == 0) && (w.fracSign == Minus ==> Num(w.frac) == 0)
    && var p := Pow(10, |w.frac|);
       m * p == Num(w.whole) * MAXWELL_PER_MASS * p + Num(w.frac) * Pow(10, Places(w.fracSign))
  }

  // The integral part

  lemma {:induction false} TrimZeros(z: nat, x: string)
    requires x == [] || x[0] != '0'
    ensures TrimLeftZeros(RepeatZero(z) + x) == x
  {
    if z > 0 {
      assert (RepeatZero(z) + x)[1..] == RepeatZero(z - 1) + x;
      TrimZeros(z - 1, x);
    } else {
      assert RepeatZero(0) + x == x;
    }
  }

  ghost function ParsedSigned(s: Sign, n: nat): Result<int> {
    if s == Minus then (if n > MAX_INT64 + 1 then Err(OutOfRange) else Ok(-(n as int))) else ParsedInt(n)
  }

  lemma ParseSigned(s: Sign, d: string)
    requires AllDigits(d) && d != []
    ensures ParseInt(SignText(s) + d) == ParsedSigned(s, Num(d))
  {
    hide Num;
    assert s != NoSign ==> (SignText(s) + d)[1..] == d;
    assert s == NoSign ==> SignText(s) + d == d;
  }

  lemma IntSigned(w: Writing)
    requires w.Valid()
    ensures var t := TrimLeftZeros(w.IntText()); ParseInt(if t == [] then "0" else t) == ParsedSigned(w.intSign, Num(w.whole))
  {
    hide Num, ParseInt, TrimLeftZeros;
    if w.intSign == NoSign {
      assert w.IntText() == w.whole;
      IntPart(w.whole);
    } else {
      var x := SignText(w.intSign) + w.whole;
      assert w.IntText() == RepeatZero(w.zeros) + x && x[0] != '0';
      TrimZeros(w.zeros, x);
      ParseSigned(w.intSign, w.whole);
    }
  }

  // The fraction

  lemma PadTrimmed(d: string)
    ensures var f := TrimRightZeros(d); d == f + RepeatZero(|d| - |f|)
  {
  }

  lemma TrimSigned(s: Sign, f: string)
    ensures TrimRightZeros(SignText(s) + f) == SignText(s) + TrimRightZeros(f)
  {
    hide TrimRightZeros;
    var t := TrimRightZeros(f);
    PadTrimmed(f);
    assert SignText(s) + f == (SignText(s) + t) + RepeatZero(|f| - |t|);
    TrimPadded(SignText(s) + t, |f| - |t|);
  }

  lemma PowPlaces()
    ensures Pow(10, 7) == 10000000 && Pow(10, 8) == MAXWELL_PER_MASS
  {
    Pow8();
    PowSucc(10, 7);
  }

  lemma PaddedDigits(t: string, z: nat)
    requires AllDigits(t)
    ensures AllDigits(t + RepeatZero(z)) && Num(t + RepeatZero(z)) == Num(t) * Pow(10, z) < Pow(10, |t| + z)
  {
    hide Num, Pow;
    NumConcat(t, RepeatZero(z));
    NumZeros(z);
    NumBound(t + RepeatZero(z));
  }

  lemma ParseSmall(s: Sign, d: string)
    requires AllDigits(d) && |d| == Places(s) && Num(d) < MAXWELL_PER_MASS
    ensures ParseInt(SignText(s) + d) == Ok(if s == Minus then -(Num(d) as int) else Num(d))
  {
    hide Num, ParseInt;
    ParseSigned(s, d);
  }

  /** A trimmed fraction filled up to eight characters. */
  lemma FracSigned(s: Sign, t: string)
    requires AllDigits(t) && |t| <= Places(s)
    ensures var v := Num(t) * Pow(10, Places(s) - |t|);
      v < MAXWELL_PER_MASS && ParseInt((SignText(s) + t) + RepeatZero(Places(s) - |t|)) == Ok(if s == Minus then -(v as int) else v)
  {
    hide Num, Pow, ParseInt, SignText;
    var z := Places(s) - |t|;
    PaddedDigits(t, z);
    PowPlaces();
    ParseSmall(s, t + RepeatZero(z));
    assert (SignText(s) + t) + RepeatZero(z) == SignText(s) + (t + RepeatZero(z));
  }

  lemma ScaleBoth(v: nat, p: nat, q: nat, n: nat, u: nat)
    requires q > 0
    ensures v * (p * q) == (n * q) * u <==> v * p == n * u
  {
    MulAssoc(v, p, q);
    assert (n * q) * u == (n * u) * q by {
      assert (n * q) * u == n * (q * u) && n * (u * q) == (n * u) * q;
    }
    Cancel(v * p, n * u, q);
  }

  /** Which whole number a fraction amounts to with `e` places: none if it needs more. */
  lemma FractionUnits(f: string, e: nat, v: nat)
    requires AllDigits(f)
    ensures AllDigits(TrimRightZeros(f))
    ensures var t := TrimRightZeros(f);
      v * Pow(10, |f|) == Num(f) * Pow(10, e) <==> |t| <= e && v == Num(t) * Pow(10, e - |t|)
  {
    hide Num, Pow, TrimRightZeros;
    var t := TrimRightZeros(f);
    var z := |f| - |t|;
    PadTrimmed(f);
    assert AllDigits(t);
    NumConcat(t, RepeatZero(z));
    NumZeros(z);
    PowAdd(10, |t|, z);
    ScaleBoth(v, Pow(10, |t|), Pow(10, z), Num(t), Pow(10, e));
    if |t| <= e {
      PowAdd(10, e - |t|, |t|);
      MulAssoc(Num(t), Pow(10, e - |t|), Pow(10, |t|));
      Cancel(v, Num(t) * Pow(10, e - |t|), Pow(10, |t|));
    } else {
      TooLong(t, e, v);
    }
  }

  lemma TooLong(t: string, e: nat, v: nat)
    requires AllDigits(t) && |t| > e && t[|t| - 1] != '0'
    ensures v * Pow(10, |t|) != Num(t) * Pow(10, e)
  {
    hide Num, Pow;
    var c, k := t[|t| - 1], |t| - e - 1;
    assert t == t[..|t| - 1] + [c];
    NumSnoc(t[..|t| - 1], c);
    assert Num(t) % 10 != 0;
    PowAdd(10, k + 1, e);
    PowSucc(10, k);
    MulAssoc(v, 10 * Pow(10, k), Pow(10, e));
    Cancel(v * (10 * Pow(10, k)), Num(t), Pow(10, e));
    assert v * (10 * Pow(10, k)) == 10 * (v * Pow(10, k)) by { MulTen(v, Pow(10, k)); }
  }

  // Both parts

  lemma ConvertSigned(si: Sign, n: nat, sf: Sign, v: nat, m: nat)
    requires v < MAXWELL_PER_MASS
    ensures Convert(ParsedSigned(si, n), Ok(if sf == Minus then -(v as int) else v)) == Ok(m)
      <==> (si == Minus ==> n == 0) && (sf == Minus ==> v == 0) && m == n * MAXWELL_PER_MASS + v && m <= MAX_AMOUNT
  {
  }

  /** The parser on a split string: integral text, trimmed fraction. */
  lemma ParseText(w: Writing)
    requires w.Valid()
    ensures var g := SignText(w.fracSign) + TrimRightZeros(w.frac);
      StringToAmount(w.Text()) == if |g| > 8 then Err(PrecisionTooHigh)
        else Convert(ParsedSigned(w.intSign, Num(w.whole)), ParseInt(g + RepeatZero(8 - |g|)))
  {
    hide Num, ParseInt, SplitDots, TrimLeftZeros, TrimRightZeros, Convert, ParsedSigned;
    IntSigned(w);
    TrimSigned(w.fracSign, w.frac);
    if w.dot {
      SplitOnce(w.IntText(), w.FracText());
    } else {
      SplitPlain(w.IntText());
      assert SignText(w.fracSign) + TrimRightZeros(w.frac) == "";
    }
  }

  lemma PlainText(i: string, f: string)
    requires AllDigits(i) && AllDigits(f)
    ensures var g := TrimRightZeros(f);
      StringToAmount(i + "." + f) == if |g| > 8 then Err(PrecisionTooHigh) else Convert(ParsedInt(Num(i)), ParseInt(g + RepeatZero(8 - |g|)))
  {
    hide Num, ParseInt, StringToAmount, TrimRightZeros, Convert, ParsedInt;
    var w, g := Writing(0, NoSign, i, true, NoSign, f), TrimRightZeros(f);
    ParseText(w);
    assert w.Text() == i + "." + f && SignText(NoSign) + g == g;
  }

  lemma ParseFraction(i: string, f: string)
    requires AllDigits(i) && AllDigits(f)
    ensures var g := TrimRightZeros(f); |g| > 8 ==> StringToAmount(i + "." + f) == Err(PrecisionTooHigh)
    ensures var g := TrimRightZeros(f); |g| <= 8 ==>
      StringToAmount(i + "." + f) == Checked(Num(i) * MAXWELL_PER_MASS + Num(g) * Pow(10, 8 - |g|))
  {
    hide Num, Pow, ParseInt, StringToAmount, TrimRightZeros, Convert, ParsedInt, Checked;
    PlainText(i, f);
    var g := TrimRightZeros(f);
    if |g| <= 8 {
      FracPart(g);
      ConvertPlain(Num(i), Num(g) * Pow(10, 8 - |g|));
    }
  }

  lemma Distribute(m: nat, n: nat, v: nat, p: nat, x: nat)
    requires p > 0 && m == n + v
    ensures m * p == n * p + x <==> v * p == x
  {
    assert m * p == n * p + v * p;
  }

  lemma AtLeastWhole(m: nat, n: nat, p: nat, x: nat)
    requires p > 0 && m * p == n * p + x
    ensures m >= n
  {
    if m < n {
      MulMono(m + 1, n, p);
    }
  }

  /** For every way of writing an amount: it is accepted as `m` exactly when it denotes `m` and `m` is in range. */
  lemma WrittenMeans(w: Writing, m: nat)
    requires w.Valid()
    ensures StringToAmount(w.Text()) == Ok(m) <==> m <= 20643840000000000 && Denotes(w, m)
  {
    hide Num, Pow, StringToAmount, ParseInt, Convert, ParsedSigned, TrimRightZeros;
    var n, e, t, p := Num(w.whole) * MAXWELL_PER_MASS, Places(w.fracSign), TrimRightZeros(w.frac), Pow(10, |w.frac|);
    ParseText(w);
    FractionUnits(w.frac, e, if m >= n then m - n else 0);
    if Denotes(w, m) {
      AtLeastWhole(m, n, p, Num(w.frac) * Pow(10, e));
    }
    if m >= n {
      Distribute(m, n, m - n, p, Num(w.frac) * Pow(10, e));
    }
    if |t| <= e {
      FracSigned(w.fracSign, t);
      var v := Num(t) * Pow(10, e - |t|);
      ConvertSigned(w.intSign, Num(w.whole), w.fracSign, v, m);
      FractionUnits(w.frac, e, v);
      ZeroTogether(v, p, Num(w.frac), Pow(10, e));
    }
  }

  lemma ZeroTogether(v: nat, p: nat, n: nat, u: nat)
    requires p > 0 && u > 0 && v * p == n * u
    ensures v == 0 <==> n == 0
  {
    if v == 0 {
      Cancel(n, 0, u);
    } else if n == 0 {
      Cancel(v, 0, p);
    }
  }

  // Every accepted string is such a writing

  lemma {:induction false} SplitJoins(s: string)
    ensures |SplitDots(s)| == 1 ==> s == SplitDots(s)[0]
    ensures |SplitDots(s)| == 2 ==> s == SplitDots(s)[0] + "." + SplitDots(s)[1]
  {
    if s != [] {
      SplitJoins(s[1..]);
      assert s == [s[0]] + s[1..];
    }
  }

  lemma {:induction false} TrimmedLeft(s: string)
    ensures var t := TrimLeftZeros(s); |t| <= |s| && s == RepeatZero(|s| - |t|) + t
  {
    if s != [] && s[0] == '0' {
      TrimmedLeft(s[1..]);
      var t := TrimLeftZeros(s);
      assert RepeatZero(|s| - |t|) == ['0'] + RepeatZero(|s| - |t| - 1);
      assert s == ['0'] + s[1..];
    } else {
      assert RepeatZero(0) + s == s;
    }
  }

  function SignOf(x: string): Sign {
    if x != [] && x[0] == '+' then Plus else if x != [] && x[0] == '-' then Minus else NoSign
  }

  function Unsigned(x: string): string {
    if SignOf(x) == NoSign then x else x[1..]
  }

  /** What ParseInt lets through: a sign or none, then digits. */
  lemma ParsedShape(x: string)
    requires ParseInt(x).Ok?
    ensures x == SignText(SignOf(x)) + Unsigned(x) && AllDigits(Unsigned(x)) && Unsigned(x) != []
  {
    hide Num;
  }

  lemma IntShape(a: string) returns (zeros: nat, sign: Sign, whole: string)
    requires var t := TrimLeftZeros(a); ParseInt(if t == [] then "0" else t).Ok?
    ensures a == RepeatZero(zeros) + SignText(sign) + whole && AllDigits(whole)
    ensures if sign == NoSign then zeros == 0 else whole != []
  {
    hide ParseInt, TrimLeftZeros;
    var t := TrimLeftZeros(a);
    TrimmedLeft(a);
    if t != [] {
      ParsedShape(t);
    }
    if t == [] || SignOf(t) == NoSign {
      zeros, sign, whole := 0, NoSign, a;
      assert RepeatZero(0) + "" + a == a;
    } else {
      zeros, sign, whole := |a| - |t|, SignOf(t), Unsigned(t);
      assert a == RepeatZero(zeros) + SignText(sign) + whole;
    }
  }

  lemma FracShape(b: string)
    requires var g := TrimRightZeros(b); |g| <= 8 && ParseInt(g + RepeatZero(8 - |g|)).Ok?
    ensures b == SignText(SignOf(b)) + Unsigned(b) && AllDigits(Unsigned(b))
  {
    hide ParseInt, TrimRightZeros, SignOf, Unsigned;
    var g := TrimRightZeros(b);
    PadTrimmed(b);
    ParsedShape(g + RepeatZero(8 - |g|));
    UnsignedPad(g, 8 - |g|);
    UnsignedPad(g, |b| - |g|);
    DigitsOfPadded(Unsigned(g), 8 - |g|, |b| - |g|);
    SignThenRest(b);
  }

  lemma DigitsOfPadded(u: string, z: nat, z': nat)
    requires AllDigits(u + RepeatZero(z))
    ensures AllDigits(u + RepeatZero(z'))
  {
    assert u == (u + RepeatZero(z))[..|u|];
  }

  lemma UnsignedPad(g: string, z: nat)
    ensures SignOf(g + RepeatZero(z)) == SignOf(g) && Unsigned(g + RepeatZero(z)) == Unsigned(g) + RepeatZero(z)
  {
  }

  lemma SignThenRest(x: string)
    ensures x == SignText(SignOf(x)) + Unsigned(x)
  {
  }

  lemma AcceptedIsWritten(s: string) returns (w: Writing)
    requires StringToAmount(s).Ok?
    ensures w.Valid() && w.Text() == s
  {
    hide ParseInt, SplitDots, TrimLeftZeros, TrimRightZeros, RepeatZero, SignOf, Unsigned;
    SplitJoins(s);
    var s1 := SplitDots(s);
    var zeros, sign, whole := IntShape(s1[0]);
    if |s1| == 2 {
      FracShape(s1[1]);
      w := Writing(zeros, sign, whole, true, SignOf(s1[1]), Unsigned(s1[1]));
    } else {
      w := Writing(zeros, sign, whole, false, NoSign, "");
    }
  }

  /** The parser, on every string: it accepts exactly the writings of amounts in range, as what they denote. */
  lemma AcceptedIff(s: string, m: nat)
    ensures StringToAmount(s) == Ok(m) <==> m <= 20643840000000000 && exists w: Writing :: w.Valid() && w.Text() == s && Denotes(w, m)
  {
    hide StringToAmount, Denotes;
    if StringToAmount(s) == Ok(m) {
      var w := AcceptedIsWritten(s);
      WrittenMeans(w, m);
    } else if m <= MAX_AMOUNT && exists w: Writing :: w.Valid() && w.Text() == s && Denotes(w, m) {
      var w: Writing :| w.Valid() && w.Text() == s && Denotes(w, m);
      WrittenMeans(w, m);
    }
  }

  // Does it mean what it says?

  /** The amount is the value a reader sees: the digits before and after the point, under the leading sign. */
  ghost predicate Says(w: Writing, m: nat)
    requires w.Valid()
  {
    var p := Pow(10, |w.frac|);
    m * p == (if w.intSign == Minus then -1 else 1) * ((Num(w.whole) * p + Num(w.frac)) * MAXWELL_PER_MASS)
  }

  /** An accepted string means what it says exactly when its fraction is zero or carries no sign and
      stands under no minus sign. */
  lemma MeansWhatItSaysIff(w: Writing, m: nat)
    requires w.Valid() && StringToAmount(w.Text()) == Ok(m)
    ensures Says(w, m) <==> Num(w.frac) == 0 || (w.fracSign == NoSign && w.intSign != Minus)
  {
    hide Num, Pow, StringToAmount;
    WrittenMeans(w, m);
    PowPlaces();
    var n, f, p := Num(w.whole), Num(w.frac), Pow(10, |w.frac|);
    InMaxwell(n, p, f);
    if w.intSign == Minus {
      ZeroTimes(p);
    }
  }

  lemma OneDigit(c: char)
    requires IsDigit(c)
    ensures Num([c]) == c as int - '0' as int
  {
    assert [c][..0] == [];
  }

  lemma SmallPowers()
    ensures Pow(10, 0) == 1 && Pow(10, 1) == 10
  {
  }

  /** A negative half is read as a positive one. */
  lemma NegativeHalf()
    ensures StringToAmount("-0.5") == Ok(50000000)
  {
    hide StringToAmount, Num, Pow;
    var w := Writing(0, Minus, "0", true, NoSign, "5");
    OneDigit('0');
    OneDigit('5');
    PowPlaces();
    SmallPowers();
    WrittenMeans(w, 50000000);
    assert w.Text() == "-0.5";
  }

  /** Five hundredths, not five tenths. */
  lemma SignedTenth()
    ensures StringToAmount("1.+5") == Ok(105000000)
  {
    hide StringToAmount, Num, Pow;
    var w := Writing(0, NoSign, "1", true, Plus, "5");
    OneDigit('1');
    OneDigit('5');
    PowPlaces();
    SmallPowers();
    WrittenMeans(w, 105000000);
    assert w.Text() == "1.+5";
  }

  /** A sign alone is no fraction, but accepted. */
  lemma LoneSign()
    ensures StringToAmount("1.-") == Ok(100000000)
  {
    hide StringToAmount, Num, Pow;
    var w := Writing(0, NoSign, "1", true, Minus, "");
    OneDigit('1');
    NumEmpty();
    PowPlaces();
    SmallPowers();
    WrittenMeans(w, 100000000);
    assert w.Text() == "1.-";
  }

  // Strings without signs

  /** A plain decimal is accepted as `m` exactly when its value in MASS times 10^8 is the whole number
      `m` and `m` is in range, whatever zeros it begins or ends with. */
  lemma DecimalMeans(i: string, f: string, m: nat)
    requires AllDigits(i) && AllDigits(f)
    ensures AllDigits(i + f)
    ensures StringToAmount(i + "." + f) == Ok(m) <==> m <= 20643840000000000 && m * Pow(10, |f|) == Num(i + f) * 100000000
  {
    hide Num, Pow, StringToAmount;
    var w := Writing(0, NoSign, i, true, NoSign, f);
    WrittenMeans(w, m);
    assert w.Text() == i + "." + f;
    NumConcat(i, f);
    PowPlaces();
    InMaxwell(Num(i), Pow(10, |f|), Num(f));
  }

  lemma InMaxwell(n: nat, p: nat, f: nat)
    ensures (n * p + f) * MAXWELL_PER_MASS == n * MAXWELL_PER_MASS * p + f * MAXWELL_PER_MASS
  {
    assert n * p * MAXWELL_PER_MASS == n * MAXWELL_PER_MASS * p;
  }

  lemma IntegerMeans(i: string, m: nat)
    requires AllDigits(i)
    ensures StringToAmount(i) == Ok(m) <==> m <= 20643840000000000 && m == Num(i) * 100000000
  {
    hide Num, StringToAmount;
    ParseWhole(i);
  }

  ghost predicate Plain(s: string) {
    AllDigits(s) || exists k :: 0 <= k < |s| && s[k] == '.' && AllDigits(s[..k]) && AllDigits(s[k + 1..])
  }

  ghost predicate Signless(s: string) {
    forall i :: 0 <= i < |s| ==> s[i] != '+' && s[i] != '-'
  }

  /** Without a sign in it, an accepted string is a plain decimal. */
  lemma AcceptedIsPlain(s: string)
    requires Signless(s) && StringToAmount(s).Ok?
    ensures Plain(s)
  {
    hide StringToAmount;
    var w := AcceptedIsWritten(s);
    SignShows(w);
    var a := w.IntText();
    assert a == w.whole;
    if w.dot {
      assert w.FracText() == w.frac;
      assert s[|a|] == '.' && s[..|a|] == a && s[|a| + 1..] == w.frac;
    }
  }

  lemma SignShows(w: Writing)
    requires w.Valid()
    ensures w.intSign != NoSign || w.fracSign != NoSign ==> !Signless(w.Text())
  {
    var a := w.IntText();
    if w.intSign != NoSign {
      assert w.Text()[w.zeros] == a[w.zeros] == SignText(w.intSign)[0];
    } else if w.fracSign != NoSign {
      assert w.Text()[|a| + 1] == SignText(w.fracSign)[0];
    }
  }

  // Printing

  lemma PrintedParts(m: nat)
    requires m <= MAX_AMOUNT
    ensures var i, d := Decimal(m / MAXWELL_PER_MASS), LastDigits(m + MAXWELL_PER_MASS, 8);
      && Num(d) == m % MAXWELL_PER_MASS
      && AmountToString(m) == Ok(if TrimRightZeros(d) == [] then i else i + "." + TrimRightZeros(d))
  {
    var n := m + MAXWELL_PER_MASS;
    Pow8();
    hide Pow;
    DecimalSplit(n, 8);
    NumOfLastDigits(n, 8, m / MAXWELL_PER_MASS + 1, m % MAXWELL_PER_MASS);
    assert n / MAXWELL_PER_MASS == m / MAXWELL_PER_MASS + 1;
    NumOfDecimal(n / MAXWELL_PER_MASS);
    hide Decimal, LastDigits, Num, TrimRightZeros;
    var s, sInt, d := Decimal(n), Decimal(n / MAXWELL_PER_MASS), LastDigits(n, 8);
    assert s[..|s| - 8] == sInt && s[|s| - 8..] == d;
    ParsePlain(sInt);
  }

  /** Every amount in range prints in canonical form, and parsing gives it back. */
  lemma RoundTrip(m: nat)
    requires m <= 20643840000000000
    ensures AmountToString(m).Ok? && Canonical(AmountToString(m).value)
    ensures StringToAmount(AmountToString(m).value) == Ok(m)
  {
    hide Num, Pow, Decimal, LastDigits, StringToAmount, AmountToString, TrimRightZeros, Checked;
    PrintedParts(m);
    var i, d := Decimal(m / MAXWELL_PER_MASS), LastDigits(m + MAXWELL_PER_MASS, 8);
    var f := TrimRightZeros(d);
    DecimalIsCanonical(m / MAXWELL_PER_MASS);
    PadTrimmed(d);
    if f == [] {
      WholeParsesBack(m, d);
    } else {
      var s := i + "." + f;
      assert s[..|i|] == i && s[|i| + 1..] == f;
      FractionParsesBack(m, d);
    }
  }

  lemma WholeParsesBack(m: nat, d: string)
    requires m <= MAX_AMOUNT && d == RepeatZero(8) && Num(d) == m % MAXWELL_PER_MASS
    ensures StringToAmount(Decimal(m / MAXWELL_PER_MASS)) == Ok(m)
  {
    hide Num, StringToAmount, Decimal;
    NumOfDecimal(m / MAXWELL_PER_MASS);
    NumZeros(8);
    ParseWhole(Decimal(m / MAXWELL_PER_MASS));
  }

  lemma FractionParsesBack(m: nat, d: string)
    requires m <= MAX_AMOUNT && |d| == 8 && AllDigits(d) && Num(d) == m % MAXWELL_PER_MASS
    ensures StringToAmount(Decimal(m / MAXWELL_PER_MASS) + "." + TrimRightZeros(d)) == Ok(m)
  {
    hide Num, Pow, StringToAmount, Decimal, TrimRightZeros;
    var f := TrimRightZeros(d);
    PadTrimmed(d);
    TrimPadded(f, 0);
    assert f + RepeatZero(0) == f;
    NumConcat(f, RepeatZero(8 - |f|));
    NumZeros(8 - |f|);
    NumOfDecimal(m / MAXWELL_PER_MASS);
    ParseFraction(Decimal(m / MAXWELL_PER_MASS), f);
  }

  /** Among the accepted strings exactly the canonical ones survive printing. */
  lemma PrintOfParsed(s: string)
    requires StringToAmount(s).Ok?
    ensures AmountToString(StringToAmount(s).value) == Ok(s) <==> Canonical(s)
  {
    hide StringToAmount, AmountToString, AllDigits;
    var m := StringToAmount(s).value;
    InRange(s);
    RoundTrip(m);
    if CanonicalInt(s) {
      PrintOfInt(s, m);
    } else if Canonical(s) {
      var k :| 0 <= k < |s| && s[k] == '.' && CanonicalInt(s[..k]) && CanonicalFrac(s[k + 1..]);
      assert s == s[..k] + "." + s[k + 1..];
      PrintOfFrac(s[..k], s[k + 1..], m);
    }
  }

  lemma InRange(s: string)
    ensures StringToAmount(s).Ok? ==> StringToAmount(s).value <= MAX_AMOUNT
  {
  }

  lemma PrintOfInt(s: string, m: nat)
    requires CanonicalInt(s) && StringToAmount(s) == Ok(m)
    ensures AmountToString(m) == Ok(s)
  {
    hide Num, StringToAmount, AmountToString, LastDigits, Decimal, TrimRightZeros;
    ParseWhole(s);
    PrintedParts(m);
    DecimalOfNum(s);
    NumZeros(8);
    DivModUnique(Num(s), MAXWELL_PER_MASS, 0);
    NumInjective(LastDigits(m + MAXWELL_PER_MASS, 8), RepeatZero(8));
    TrimPadded("", 8);
    assert "" + RepeatZero(8) == RepeatZero(8);
  }

  lemma PrintOfFrac(i: string, f: string, m: nat)
    requires CanonicalInt(i) && CanonicalFrac(f) && StringToAmount(i + "." + f) == Ok(m)
    ensures AmountToString(m) == Ok(i + "." + f)
  {
    hide Num, Pow, StringToAmount, AmountToString, LastDigits, Decimal, TrimRightZeros;
    ParseFraction(i, f);
    TrimPadded(f, 0);
    assert f + RepeatZero(0) == f;
    FracPart(f);
    PrintedParts(m);
    DecimalOfNum(i);
    var z := 8 - |f|;
    NumConcat(f, RepeatZero(z));
    NumZeros(z);
    DivModUnique(Num(i), MAXWELL_PER_MASS, Num(f) * Pow(10, z));
    NumInjective(LastDigits(m + MAXWELL_PER_MASS, 8), f + RepeatZero(z));
    TrimPadded(f, z);
  }

  /** Printing fails exactly on what is negative or above the maximum. */
  lemma PrintFailsIff(m: int)
    ensures AmountToString(m).Err? <==> m < 0 || m > 20643840000000000
    ensures AmountToString(m) == Err(Negative) <==> m < 0
    ensures AmountToString(m) == Err(OutOfRange) <==> m > 20643840000000000
  {
    if 0 <= m <= MAX_AMOUNT {
      PrintedParts(m);
    }
  }

  // Rejected strings

  lemma {:induction false} PartsOfSplit(s: string)
    ensures |SplitDots(s)| == multiset(s)['.'] + 1
  {
    if s != [] {
      PartsOfSplit(s[1..]);
      assert s == [s[0]] + s[1..];
    }
  }

  /** A second point is a format error, whatever stands around it. For digits around one point, nine or more
      decimals that are not zeros at the end are an error of precision, and an amount over the maximum is one
      of range. */
  lemma RejectedAs(s: string, i: string, f: string)
    requires AllDigits(i) && AllDigits(f)
    ensures multiset(s)['.'] >= 2 ==> StringToAmount(s) == Err(IllegalFormat)
    ensures StringToAmount(i + "." + f) == Err(PrecisionTooHigh) <==> exists k :: 8 <= k < |f| && f[k] != '0'
    ensures var r := StringToAmount(i + "." + f); r.Ok? || r == Err(PrecisionTooHigh) || r == Err(OutOfRange)
  {
    PartsOfSplit(s);
    hide SplitDots, ParseInt, Convert;
    assert multiset(s)['.'] >= 2 ==> StringToAmount(s) == Err(IllegalFormat);
    hide StringToAmount;
    ParseFraction(i, f);
    var g := TrimRightZeros(f);
    assert |g| > 8 ==> f[|g| - 1] != '0';
  }
}
