/** Decimal text: Python's `%d`, `%06d`, `str(int)` and `int(str)`. */
module Decimal {
  import opened Wrappers

  predicate IsDigit(c: char) {
    '0' <= c <= '9'
  }

  /** Every character is an ASCII digit. */
  predicate AllDigits(s: string) {
    forall i :: 0 <= i < |s| ==> IsDigit(s[i])
  }

  function DigitVal(c: char): nat
    requires IsDigit(c)
  {
    c as int - '0' as int
  }

  function DigitChar(d: nat): (c: char)
    requires d < 10
    ensures IsDigit(c) && DigitVal(c) == d
  {
    (d + '0' as int) as char
  }

  function Pow10(k: nat): (p: nat)
    ensures p > 0
  {
    if k == 0 then 1 else 10 * Pow10(k - 1)
  }

  /** The number a digit string spells, most significant digit first. */
  function NatVal(s: string): nat
    requires AllDigits(s)
  {
    if s == [] then 0 else 10 * NatVal(s[..|s| - 1]) + DigitVal(s[|s| - 1])
  }

  /** `"%d" % n` for n >= 0. */
  function NatText(n: nat): (s: string)
    ensures |s| > 0 && AllDigits(s)
  {
    if n < 10 then [DigitChar(n)] else NatText(n / 10) + [DigitChar(n % 10)]
  }

  /** `str(n)`. */
  function IntText(n: int): string {
    if n < 0 then "-" + NatText(-n) else NatText(n)
  }

  /** `int(s)` on an optional sign followed by ASCII digits; None elsewhere. */
  function ParseInt(s: string): Option<int> {
    if |s| > 0 && s[0] == '-' && |s| > 1 && AllDigits(s[1..]) then Some(-(NatVal(s[1..]) as int))
    else if |s| > 0 && s[0] == '+' && |s| > 1 && AllDigits(s[1..]) then Some(NatVal(s[1..]))
    else if |s| > 0 && AllDigits(s) then Some(NatVal(s))
    else None
  }

  // ----- which texts these are -----

  /** Digits without a leading zero, but for "0" itself. */
  predicate Canonical(d: string) {
    d != "" && AllDigits(d) && (d[0] != '0' || d == "0")
  }

  lemma {:induction false} NatTextCanonical(n: nat)
    ensures Canonical(NatText(n)) && NatVal(NatText(n)) == n && (n > 0 ==> NatText(n)[0] != '0')
  {
    NatTextVal(n);
    if n >= 10 {
      NatTextCanonical(n / 10);
    }
  }

  /** The decimal text of an integer: a sign exactly on the negative ones, and the
      canonical digits of its absolute value. */
  lemma IntTextShape(n: int) returns (d: string)
    ensures Canonical(d) && NatVal(d) == (if n < 0 then -n else n) && IntText(n) == (if n < 0 then "-" + d else d)
  {
    d := NatText(if n < 0 then -n else n);
    NatTextCanonical(if n < 0 then -n else n);
  }

  lemma {:induction false} CanonicalPositive(d: string)
    requires Canonical(d) && d != "0"
    ensures NatVal(d) >= 1
  {
    if |d| > 1 {
      CanonicalPrefix(d);
      CanonicalPositive(d[..|d| - 1]);
    }
  }

  lemma CanonicalPrefix(d: string)
    requires Canonical(d) && |d| > 1
    ensures Canonical(d[..|d| - 1]) && d[..|d| - 1] != "0"
  {
    assert d[..|d| - 1][0] == d[0];
  }

  /** A number has one canonical text. */
  lemma {:induction false} CanonicalUnique(a: string, b: string)
    requires Canonical(a) && Canonical(b) && NatVal(a) == NatVal(b)
    ensures a == b
    decreases |a| + |b|
  {
    if |a| > 1 {
      CanonicalPrefix(a);
      CanonicalPositive(a[..|a| - 1]);
    }
    if |b| > 1 {
      CanonicalPrefix(b);
      CanonicalPositive(b[..|b| - 1]);
    }
    LastDigit(a);
    LastDigit(b);
    if |a| > 1 && |b| > 1 {
      CanonicalUnique(a[..|a| - 1], b[..|b| - 1]);
      assert a == a[..|a| - 1] + [a[|a| - 1]] && b == b[..|b| - 1] + [b[|b| - 1]];
    }
  }

  lemma LastDigit(d: string)
    requires d != "" && AllDigits(d)
    ensures NatVal(d) % 10 == DigitVal(d[|d| - 1]) && NatVal(d) / 10 == NatVal(d[..|d| - 1])
    ensures |d| == 1 ==> NatVal(d) < 10
  {
  }

  /** s is a sign or none, then digits, and n the number. */
  predicate SpellsInt(s: string, sign: string, d: string, n: int) {
    && (sign == "" || sign == "+" || sign == "-") && d != "" && AllDigits(d)
    && s == sign + d && n == if sign == "-" then -(NatVal(d) as int) else NatVal(d)
  }

  lemma SpelledParses(s: string, sign: string, d: string, n: int)
    requires SpellsInt(s, sign, d, n)
    ensures ParseInt(s) == Some(n)
  {
    if sign == "" {
      assert s == d && IsDigit(s[0]);
    } else {
      assert s[0] == sign[0] && s[1..] == d;
    }
  }

  lemma ParsedSpells(s: string)
    requires ParseInt(s).Some?
    ensures exists sign, d :: SpellsInt(s, sign, d, ParseInt(s).value)
  {
    if s[0] == '-' {
      assert s == "-" + s[1..];
      assert SpellsInt(s, "-", s[1..], ParseInt(s).value);
    } else if s[0] == '+' {
      assert s == "+" + s[1..];
      assert SpellsInt(s, "+", s[1..], ParseInt(s).value);
    } else {
      assert s == "" + s;
      assert SpellsInt(s, "", s, ParseInt(s).value);
    }
  }

  /** The texts that are read, and as what. */
  lemma ParseIntExact(s: string, n: int)
    ensures ParseInt(s) == Some(n) <==> exists sign, d :: SpellsInt(s, sign, d, n)
  {
    if sign, d :| SpellsInt(s, sign, d, n) {
      SpelledParses(s, sign, d, n);
    }
    if ParseInt(s) == Some(n) {
      ParsedSpells(s);
    }
  }

  // ----- what an interpreter decides -----

  /** Which characters are decimal digits, and the ASCII digit each stands for;
      which characters isdigit takes, superscripts among them; and the longest
      text that int converts, where there is a limit. */
  datatype Digits = Digits(decimal: char -> Option<char>, digit: char -> bool, limit: Option<nat>)

  /** The Unicode version and the limit may vary; ASCII and the least limit that
      can be set do not. */
  ghost predicate Sane(py: Digits) {
    && (forall c :: IsDigit(c) ==> py.decimal(c) == Some(c))
    && (forall c :: py.decimal(c).Some? ==> IsDigit(py.decimal(c).value) && py.digit(c))
    && (forall c :: c as int < 128 && !IsDigit(c) ==> !py.digit(c))
    && (py.limit.Some? ==> py.limit.value >= 640)
  }

  /** An arbitrary interpreter. */
  ghost function Interpreter(): (py: Digits)
    ensures Sane(py)
  {
    var ascii := Digits(c => if IsDigit(c) then Some(c) else None, c => IsDigit(c), None);
    assert Sane(ascii);
    var py :| Sane(py);
    py
  }

  /** `s.isdigit()`, or s is empty. */
  predicate IsDigits(py: Digits, s: string) {
    forall i :: 0 <= i < |s| ==> py.digit(s[i])
  }

  predicate Decimals(py: Digits, s: string) {
    forall i :: 0 <= i < |s| ==> py.decimal(s[i]).Some?
  }

  /** The same number in ASCII digits. */
  ghost function Ascii(py: Digits, s: string): (a: string)
    requires Sane(py) && Decimals(py, s)
    ensures |a| == |s| && AllDigits(a) && (AllDigits(s) ==> a == s)
  {
    seq(|s|, i requires 0 <= i < |s| => py.decimal(s[i]).value)
  }

  predicate WithinLimit(py: Digits, s: string) {
    py.limit.None? || |s| <= py.limit.value
  }

  /** `int(s)` on text that isdigit takes. */
  ghost function IntOf(py: Digits, s: string): Outcome<nat>
    requires Sane(py)
  {
    if Decimals(py, s) && WithinLimit(py, s) then Ok(NatVal(Ascii(py, s))) else Raise(ValueError)
  }

  lemma AsciiIs(py: Digits, s: string)
    requires Sane(py) && AllDigits(s)
    ensures IsDigits(py, s) && Decimals(py, s) && Ascii(py, s) == s
  {
  }

  lemma AsciiConcat(py: Digits, a: string, b: string)
    requires Sane(py) && Decimals(py, a) && Decimals(py, b)
    ensures Decimals(py, a + b) && Ascii(py, a + b) == Ascii(py, a) + Ascii(py, b)
  {
  }

  lemma {:induction false} NatTextLength(n: nat, k: nat)
    requires n < Pow10(k) && k > 0
    ensures |NatText(n)| <= k
  {
    if n >= 10 {
      NatTextLength(n / 10, k - 1);
    }
  }

  function Zeros(k: nat): (s: string)
    ensures |s| == k && AllDigits(s)
    ensures forall i :: 0 <= i < k ==> s[i] == '0'
  {
    seq(k, i => '0')
  }

  lemma {:induction false} NatTextVal(n: nat)
    ensures NatVal(NatText(n)) == n
  {
    var s := NatText(n);
    if n >= 10 {
      NatTextVal(n / 10);
      assert s[..|s| - 1] == NatText(n / 10);
    }
  }

  /** Python's `int(str(n))` is n, for every integer. */
  lemma IntTextRoundTrip(n: int)
    ensures ParseInt(IntText(n)) == Some(n)
  {
    var m := if n < 0 then -n else n;
    NatTextVal(m);
    if n < 0 {
      assert IntText(n)[1..] == NatText(m);
    } else {
      assert IsDigit(NatText(m)[0]);
    }
  }

  lemma {:induction false} Pow10Add(a: nat, b: nat)
    ensures Pow10(a + b) == Pow10(a) * Pow10(b)
  {
    if a > 0 {
      Pow10Add(a - 1, b);
    }
  }

  lemma MulTen(a: nat, p: nat)
    ensures 10 * (a * p) == a * (10 * p)
  {
  }

  lemma {:induction false} NatValConcat(a: string, b: string)
    requires AllDigits(a) && AllDigits(b)
    ensures AllDigits(a + b)
    ensures NatVal(a + b) == NatVal(a) * Pow10(|b|) + NatVal(b)
  {
    if b == [] {
      assert a + b == a;
    } else {
      var b' := b[..|b| - 1];
      var last := b[|b| - 1];
      assert (a + b)[..|a + b| - 1] == a + b';
      NatValConcat(a, b');
      assert NatVal(a + b) == 10 * NatVal(a + b') + DigitVal(last);
      MulTen(NatVal(a), Pow10(|b'|));
    }
  }

  lemma {:induction false} NatValBound(s: string)
    requires AllDigits(s)
    ensures NatVal(s) < Pow10(|s|)
  {
    if s != [] {
      NatValBound(s[..|s| - 1]);
    }
  }

  lemma {:induction false} ZerosVal(k: nat)
    ensures NatVal(Zeros(k)) == 0
  {
    if k > 0 {
      assert Zeros(k)[..k - 1] == Zeros(k - 1);
      ZerosVal(k - 1);
    }
  }
}
