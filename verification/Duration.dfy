/** The generated `_dur_out` and `_dur_in` helpers: protojson durations. */
module Duration {
  import opened Wrappers
  import opened Decimal
  import opened Text

  const DAY_MICROS: int := 24 * 60 * 60 * 1000000

  // datetime.timedelta holds a whole number of microseconds, from -999999999 days
  // to just under a thousand million.
  const MIN_MICROS: int := -999999999 * DAY_MICROS
  const MAX_MICROS: int := 1000000000 * DAY_MICROS - 1

  predicate InRange(micros: int) {
    MIN_MICROS <= micros <= MAX_MICROS
  }

  /** `s.rstrip("0")`. */
  function RStripZeros(s: string): string {
    if s != [] && s[|s| - 1] == '0' then RStripZeros(s[..|s| - 1]) else s
  }

  /** `"%06d" % n`. */
  function PadSix(n: nat): string {
    var t := NatText(n);
    if |t| < 6 then Zeros(6 - |t|) + t else t
  }

  function DurOut(micros: int): string {
    var sign := if micros < 0 then "-" else "";
    var abs := if micros < 0 then -micros else micros;
    var whole, frac := abs / 1000000, abs % 1000000;
    if frac != 0
    then sign + (NatText(whole) + "." + RStripZeros(PadSix(frac))) + "s"
    else sign + NatText(whole) + "s"
  }

  /** The microseconds `_dur_in` computes from the digits around the point. */
  function Micros(whole: string, frac: string): nat
    requires AllDigits(whole) && AllDigits(frac)
  {
    var nanos := NatVal(whole) * 1000000000 + NatVal((frac + Zeros(9))[..9]);
    nanos / 1000
  }

  function Timedelta(micros: int): Outcome<int> {
    if InRange(micros) then Ok(micros) else Raise(OverflowError)
  }

  /** The digits of a fraction that are read. */
  function Window(frac: string): string {
    if |frac| <= 9 then frac else frac[..9]
  }

  /** The part of `_dur_in` after the text is cut at its sign and its point. */
  ghost function DurDigits(py: Digits, negative: bool, whole: string, frac: string): Outcome<int>
    requires Sane(py)
  {
    if whole == [] || !IsDigits(py, whole) || !IsDigits(py, frac) then Raise(ValueError) else
    var seconds :- IntOf(py, whole);
    var nine :- IntOf(py, (frac + Zeros(9))[..9]);
    var micros: int := (seconds * 1000000000 + nine) / 1000;
    Timedelta(if negative then -micros else micros)
  }

  /** The part of `_dur_in` after the suffix and the sign are gone. */
  ghost function DurBody(py: Digits, negative: bool, body: string): Outcome<int>
    requires Sane(py)
  {
    var dot := Find(body, '.');
    DurDigits(py, negative, if dot < 0 then body else body[..dot], if dot < 0 then "" else body[dot + 1..])
  }

  ghost function DurIn(py: Digits, s: string): Outcome<int>
    requires Sane(py)
  {
    if s == [] || s[|s| - 1] != 's' then Raise(ValueError) else
    var text := s[..|s| - 1];
    var negative := text != [] && text[0] == '-';
    DurBody(py, negative, if negative then text[1..] else text)
  }

  ghost predicate Readable(py: Digits, whole: string, frac: string) {
    && whole != [] && Decimals(py, whole) && (py.limit.None? || |whole| <= py.limit.value)
    && (forall i :: 0 <= i < |frac| ==> py.digit(frac[i])) && Decimals(py, Window(frac))
  }

  /** body is whole.frac, or whole alone: decimal digits of any script, few enough
      to convert, past the ninth place of the fraction any characters isdigit
      takes. */
  ghost predicate IsBody(py: Digits, body: string, whole: string, frac: string) {
    && Readable(py, whole, frac)
    && (body == whole + "." + frac || (frac == [] && body == whole))
  }

  function Signed(negative: bool, body: string): string {
    (if negative then "-" else "") + body + "s"
  }

  /** s spells the duration [-]whole[.frac]s. */
  ghost predicate Spells(py: Digits, s: string, negative: bool, whole: string, frac: string) {
    exists body :: IsBody(py, body, whole, frac) && s == Signed(negative, body)
  }

  /** m is the exact value whole.frac, in millionths, truncated toward zero. */
  ghost predicate Truncates(m: nat, whole: string, frac: string)
    requires AllDigits(whole) && AllDigits(frac)
  {
    m * Pow10(|frac|) <= NatVal(whole + frac) * 1000000 < (m + 1) * Pow10(|frac|)
  }

  /** The first six digits of a long enough digit string, by division. */
  lemma SixDigits(g: string)
    requires AllDigits(g) && |g| >= 9
    ensures NatVal(g[..9]) / 1000 == NatVal(g[..6])
    ensures NatVal(g) == NatVal(g[..6]) * Pow10(|g| - 6) + NatVal(g[6..])
    ensures NatVal(g[6..]) < Pow10(|g| - 6)
  {
    assert g == g[..6] + g[6..];
    NatValConcat(g[..6], g[6..]);
    NatValBound(g[6..]);
    assert g[..9] == g[..6] + g[6..9];
    ThreeDropped(g[..6], g[6..9]);
  }

  lemma ThreeDropped(a: string, b: string)
    requires AllDigits(a) && AllDigits(b) && |b| == 3
    ensures AllDigits(a + b) && NatVal(a + b) / 1000 == NatVal(a)
  {
    NatValConcat(a, b);
    NatValBound(b);
    assert Pow10(3) == 1000;
  }

  lemma Pow10Values()
    ensures Pow10(3) == 1000 && Pow10(6) == 1000000 && Pow10(9) == 1000000000
  {
  }

  /** Reading frac through a window of nine digits and dropping three of them. */
  lemma FractionTruncates(frac: string, z: string, p: nat, m: nat)
    requires AllDigits(frac) && AllDigits(z) && |z| == 9 && NatVal(z) == 0
    requires p == Pow10(|frac|)
    requires m == NatVal((frac + z)[..9]) / 1000
    ensures m * p <= NatVal(frac) * 1000000 < (m + 1) * p
  {
    var g := frac + z;
    NatValConcat(frac, z);
    Pow10Values();
    SixDigits(g);
    Pow10Add(|frac|, 3);
    Scale(m, p, NatVal(frac), NatVal(g[6..]));
  }

  lemma Scale(m: nat, p: nat, f: nat, r: nat)
    requires f * 1000000000 == m * (p * 1000) + r && r < p * 1000
    ensures m * p <= f * 1000000 < (m + 1) * p
  {
    assert m * (p * 1000) == 1000 * (m * p);
    assert (m + 1) * p == m * p + p;
  }

  /** The computed count is the exact value truncated to microseconds. */
  lemma MicrosTruncates(whole: string, frac: string)
    requires AllDigits(whole) && AllDigits(frac)
    ensures Truncates(Micros(whole, frac), whole, frac)
  {
    var z := Zeros(9);
    var p, w, f := Pow10(|frac|), NatVal(whole), NatVal(frac);
    var nine := NatVal((frac + z)[..9]);
    ZerosVal(9);
    FractionTruncates(frac, z, p, nine / 1000);
    NatValConcat(whole, frac);
    assert Micros(whole, frac) == (w * 1000000000 + nine) / 1000;
    Recombine(w, nine, p, f, NatVal(whole + frac));
  }

  lemma Recombine(w: nat, nine: nat, p: nat, f: nat, n: nat)
    requires n == w * p + f
    requires (nine / 1000) * p <= f * 1000000 < (nine / 1000 + 1) * p
    ensures var m := (w * 1000000000 + nine) / 1000;
            m * p <= n * 1000000 < (m + 1) * p
  {
    var k := nine / 1000;
    var m := (w * 1000000000 + nine) / 1000;
    assert m == w * 1000000 + k;
    assert m * p == 1000000 * (w * p) + k * p;
    assert (m + 1) * p == m * p + p && (k + 1) * p == k * p + p;
  }

  lemma TruncatesUnique(m: nat, n: nat, whole: string, frac: string)
    requires AllDigits(whole) && AllDigits(frac)
    requires Truncates(m, whole, frac) && Truncates(n, whole, frac)
    ensures m == n
  {
    var p := Pow10(|frac|);
    if m < n {
      MulMono(m + 1, n, p);
    } else if n < m {
      MulMono(n + 1, m, p);
    }
  }

  lemma MulMono(a: nat, b: nat, p: nat)
    requires a <= b
    ensures a * p <= b * p
  {
    assert b * p == a * p + (b - a) * p;
  }

  lemma MicrosWindow(whole: string, frac: string)
    requires AllDigits(whole) && AllDigits(frac)
    ensures Micros(whole, frac) == Micros(whole, Window(frac))
  {
    if |frac| > 9 {
      assert (frac + Zeros(9))[..9] == (frac[..9] + Zeros(9))[..9];
    }
  }

  /** int of the nine-digit window: only the digits in it matter. */
  lemma NineDigits(py: Digits, frac: string)
    requires Sane(py)
    ensures var nine := IntOf(py, (frac + Zeros(9))[..9]);
            && (nine.Ok? <==> Decimals(py, Window(frac)))
            && (nine.Ok? ==> nine.value == NatVal((Ascii(py, Window(frac)) + Zeros(9))[..9]))
            && (nine.Raise? ==> nine.error == ValueError)
  {
    var w, z := Window(frac), Zeros(9);
    var t := (frac + z)[..9];
    assert t == w + z[..9 - |w|];
    assert forall i :: 0 <= i < |w| ==> t[i] == w[i];
    if Decimals(py, w) {
      assert AllDigits(z[..9 - |w|]);
      AsciiIs(py, z[..9 - |w|]);
      AsciiConcat(py, w, z[..9 - |w|]);
      assert (Ascii(py, w) + z)[..9] == Ascii(py, w) + z[..9 - |w|];
    }
  }

  /** The microseconds of the digits of s, whatever their script. */
  ghost function Read(py: Digits, negative: bool, whole: string, frac: string): int
    requires Sane(py) && Decimals(py, whole) && Decimals(py, Window(frac))
  {
    var m: int := Micros(Ascii(py, whole), Ascii(py, Window(frac)));
    if negative then -m else m
  }

  lemma DecimalsAreDigits(py: Digits, s: string)
    requires Sane(py) && Decimals(py, s)
    ensures IsDigits(py, s) && '.' !in s && '-' !in s
  {
    assert forall c :: c as int < 128 && !IsDigit(c) ==> !py.digit(c);
    assert !IsDigit('.') && !IsDigit('-');
  }

  lemma DigitsRead(py: Digits, negative: bool, whole: string, frac: string)
    requires Sane(py) && Readable(py, whole, frac)
    ensures DurDigits(py, negative, whole, frac) == Timedelta(Read(py, negative, whole, frac))
  {
    DecimalsAreDigits(py, whole);
    NineDigits(py, frac);
    var seconds, nine := NatVal(Ascii(py, whole)), NatVal((Ascii(py, Window(frac)) + Zeros(9))[..9]);
    assert IntOf(py, whole) == Ok(seconds) && IntOf(py, (frac + Zeros(9))[..9]) == Ok(nine);
    assert Micros(Ascii(py, whole), Ascii(py, Window(frac))) == (seconds * 1000000000 + nine) / 1000;
  }

  lemma DigitsReadable(py: Digits, negative: bool, whole: string, frac: string)
    requires Sane(py) && DurDigits(py, negative, whole, frac) != Raise(ValueError)
    ensures Readable(py, whole, frac)
  {
    NineDigits(py, frac);
  }

  lemma CutBody(py: Digits, body: string, whole: string, frac: string)
    requires Sane(py) && IsBody(py, body, whole, frac)
    ensures var dot := Find(body, '.');
            && whole == (if dot < 0 then body else body[..dot])
            && frac == (if dot < 0 then "" else body[dot + 1..])
  {
    DecimalsAreDigits(py, whole);
    if body == whole + "." + frac {
      FindFirst(whole, '.', frac);
      assert body[..|whole|] == whole && body[|whole| + 1..] == frac;
    }
  }

  /** `_dur_in` on a spelled body, cut at its point. */
  lemma BodySplits(py: Digits, negative: bool, body: string, whole: string, frac: string)
    requires Sane(py) && IsBody(py, body, whole, frac)
    ensures DurBody(py, negative, body) == Timedelta(Read(py, negative, whole, frac))
  {
    CutBody(py, body, whole, frac);
    DigitsRead(py, negative, whole, frac);
  }

  lemma SignSplits(py: Digits, negative: bool, body: string)
    requires Sane(py) && body != [] && body[0] != '-'
    ensures DurIn(py, Signed(negative, body)) == DurBody(py, negative, body)
  {
    var s := Signed(negative, body);
    assert (if negative then s[..|s| - 1][1..] else s[..|s| - 1]) == body;
  }

  /** `_dur_in` with the text already cut into its sign and digits. */
  lemma DurInOnSpelling(py: Digits, s: string, negative: bool, whole: string, frac: string)
    requires Sane(py) && Spells(py, s, negative, whole, frac)
    ensures DurIn(py, s) == Timedelta(Read(py, negative, whole, frac))
  {
    var body :| IsBody(py, body, whole, frac) && s == Signed(negative, body);
    DecimalsAreDigits(py, whole);
    assert body[0] == whole[0];
    SignSplits(py, negative, body);
    BodySplits(py, negative, body, whole, frac);
  }

  /** Every accepted text yields the exact value, truncated toward zero with its
      sign kept; the only other outcome is a result outside timedelta's range. */
  lemma DurInExact(py: Digits, s: string, negative: bool, whole: string, frac: string) returns (m: nat)
    requires Sane(py) && Spells(py, s, negative, whole, frac) && Decimals(py, frac)
    ensures Truncates(m, Ascii(py, whole), Ascii(py, frac))
    ensures DurIn(py, s) == Timedelta(if negative then -(m as int) else m)
  {
    DurInOnSpelling(py, s, negative, whole, frac);
    m := ExactMicros(py, negative, whole, frac);
  }

  lemma ExactMicros(py: Digits, negative: bool, whole: string, frac: string) returns (m: nat)
    requires Sane(py) && Decimals(py, whole) && Decimals(py, frac)
    ensures Truncates(m, Ascii(py, whole), Ascii(py, frac))
    ensures Decimals(py, Window(frac)) && Read(py, negative, whole, frac) == if negative then -(m as int) else m
  {
    m := Micros(Ascii(py, whole), Ascii(py, frac));
    MicrosTruncates(Ascii(py, whole), Ascii(py, frac));
    ReadIs(py, negative, whole, frac);
  }

  lemma ReadIs(py: Digits, negative: bool, whole: string, frac: string)
    requires Sane(py) && Decimals(py, whole) && Decimals(py, frac)
    ensures Decimals(py, Window(frac))
    ensures var m: int := Micros(Ascii(py, whole), Ascii(py, frac));
            Read(py, negative, whole, frac) == if negative then -m else m
  {
    assert Window(Ascii(py, frac)) == Ascii(py, Window(frac));
    MicrosWindow(Ascii(py, whole), Ascii(py, frac));
  }

  /** Whatever the interpreter's digits, a text is refused with ValueError exactly
      when it spells no duration. */
  lemma DurInAccepts(py: Digits, s: string)
    requires Sane(py)
    ensures DurIn(py, s) != Raise(ValueError) <==>
            exists negative, whole, frac :: Spells(py, s, negative, whole, frac)
  {
    if negative, whole, frac :| Spells(py, s, negative, whole, frac) {
      DurInOnSpelling(py, s, negative, whole, frac);
    }
    if DurIn(py, s) != Raise(ValueError) {
      AcceptedSpells(py, s);
    }
  }

  lemma AcceptedBody(py: Digits, negative: bool, body: string) returns (whole: string, frac: string)
    requires Sane(py) && DurBody(py, negative, body) != Raise(ValueError)
    ensures IsBody(py, body, whole, frac)
  {
    var dot := Find(body, '.');
    whole := if dot < 0 then body else body[..dot];
    frac := if dot < 0 then "" else body[dot + 1..];
    CutAt(body, '.');
    DigitsReadable(py, negative, whole, frac);
  }

  lemma SuffixSplits(py: Digits, s: string) returns (negative: bool, body: string)
    requires Sane(py) && s != [] && s[|s| - 1] == 's'
    ensures s == Signed(negative, body) && DurIn(py, s) == DurBody(py, negative, body)
  {
    var text := s[..|s| - 1];
    negative := text != [] && text[0] == '-';
    body := if negative then text[1..] else text;
  }

  lemma AcceptedSpells(py: Digits, s: string)
    requires Sane(py) && DurIn(py, s) != Raise(ValueError)
    ensures exists negative, whole, frac :: Spells(py, s, negative, whole, frac)
  {
    var negative, body := SuffixSplits(py, s);
    var whole, frac := AcceptedBody(py, negative, body);
    assert Spells(py, s, negative, whole, frac);
  }

  lemma {:induction false} RStripValue(s: string)
    requires AllDigits(s)
    ensures var t := RStripZeros(s);
            && AllDigits(t) && |t| <= |s|
            && NatVal(s) == NatVal(t) * Pow10(|s| - |t|)
  {
    if s != [] && s[|s| - 1] == '0' {
      var s' := s[..|s| - 1];
      RStripValue(s');
      var t := RStripZeros(s');
      MulTen(NatVal(t), Pow10(|s'| - |t|));
    }
  }

  lemma PadSixValue(n: nat)
    requires n < 1000000
    ensures |PadSix(n)| == 6 && AllDigits(PadSix(n)) && NatVal(PadSix(n)) == n
  {
    assert Pow10(6) == 1000000;
    NatTextLength(n, 6);
    NatTextVal(n);
    var z := Zeros(6 - |NatText(n)|);
    NatValConcat(z, NatText(n));
    ZerosVal(|z|);
  }

  /** The digits `_dur_out` writes carry exactly the microseconds. */
  lemma OutDigits(whole: nat, frac: nat)
    requires frac < 1000000
    ensures var f := RStripZeros(PadSix(frac));
            AllDigits(f) && Micros(NatText(whole), f) == whole * 1000000 + frac
  {
    var pad := PadSix(frac);
    var w, f := NatText(whole), RStripZeros(pad);
    PadSixValue(frac);
    RStripValue(pad);
    NatTextVal(whole);
    DigitsTruncate(w, f, whole, frac);
    MicrosTruncates(w, f);
    TruncatesUnique(Micros(w, f), whole * 1000000 + frac, w, f);
  }

  lemma DigitsTruncate(w: string, f: string, whole: nat, frac: nat)
    requires AllDigits(w) && AllDigits(f) && |f| <= 6
    requires NatVal(w) == whole && NatVal(f) * Pow10(6 - |f|) == frac
    ensures Truncates(whole * 1000000 + frac, w, f)
  {
    NatValConcat(w, f);
    Pow10Add(|f|, 6 - |f|);
    Pow10Values();
    ExactScale(whole, NatVal(f), Pow10(|f|), Pow10(6 - |f|));
  }

  lemma ExactScale(whole: nat, v: nat, p: nat, q: nat)
    requires p * q == 1000000 && p > 0
    ensures var m := whole * 1000000 + v * q;
            m * p <= (whole * p + v) * 1000000 < (m + 1) * p
  {
    var m := whole * 1000000 + v * q;
    assert (v * q) * p == v * (p * q);
    assert m * p == 1000000 * (whole * p) + (v * q) * p;
    assert (m + 1) * p == m * p + p;
  }

  /** `_dur_in(_dur_out(d))` is d, for every timedelta. */
  lemma DurRoundTrip(py: Digits, micros: int)
    requires Sane(py) && InRange(micros)
    ensures DurIn(py, DurOut(micros)) == Ok(micros)
  {
    var abs := if micros < 0 then -micros else micros;
    var frac := OutSpells(py, micros);
    DurInOnSpelling(py, DurOut(micros), micros < 0, NatText(abs / 1000000), frac);
  }

  lemma WholeIsShort(whole: nat)
    requires whole <= MAX_MICROS / 1000000
    ensures |NatText(whole)| <= 14
  {
    Pow10Add(6, 8);
    Pow10Add(6, 2);
    Pow10Values();
    assert Pow10(2) == 100;
    NatTextLength(whole, 14);
  }

  lemma OutSpells(py: Digits, micros: int) returns (frac: string)
    requires Sane(py) && InRange(micros)
    ensures var abs := if micros < 0 then -micros else micros;
            && Spells(py, DurOut(micros), micros < 0, NatText(abs / 1000000), frac)
            && Read(py, micros < 0, NatText(abs / 1000000), frac) == micros
  {
    var abs := if micros < 0 then -micros else micros;
    var whole, rest := abs / 1000000, abs % 1000000;
    var w := NatText(whole);
    WholeIsShort(whole);
    AsciiIs(py, w);
    var body := w;
    if rest != 0 {
      OutDigits(whole, rest);
      frac := RStripZeros(PadSix(rest));
      body := w + "." + frac;
    } else {
      ZeroFraction(whole);
      frac := "";
    }
    AsciiIs(py, frac);
    AsciiIs(py, Window(frac));
    MicrosWindow(w, frac);
    assert IsBody(py, body, w, frac);
    assert DurOut(micros) == Signed(micros < 0, body);
  }

  lemma ZeroFraction(whole: nat)
    ensures Micros(NatText(whole), "") == whole * 1000000
  {
    NatTextVal(whole);
    assert ("" + Zeros(9))[..9] == Zeros(9);
    ZerosVal(9);
  }

  lemma {:induction false} RStripEnds(s: string)
    requires AllDigits(s)
    ensures var t := RStripZeros(s); t == "" || t[|t| - 1] != '0'
  {
    if s != [] && s[|s| - 1] == '0' {
      RStripEnds(s[..|s| - 1]);
    }
  }

  /** The text of a duration: a sign exactly on the negative ones, canonical whole
      seconds, and a fraction of at most six digits without trailing zeros, absent
      when it is zero; together exactly the microseconds. */
  lemma DurOutShape(micros: int) returns (whole: string, frac: string)
    ensures DurOut(micros) == Signed(micros < 0, if frac == "" then whole else whole + "." + frac)
    ensures Canonical(whole) && AllDigits(frac) && |frac| <= 6 && (frac != "" ==> frac[|frac| - 1] != '0')
    ensures NatVal(whole) * 1000000 + NatVal(frac) * Pow10(6 - |frac|) == if micros < 0 then -micros else micros
  {
    var abs := if micros < 0 then -micros else micros;
    whole := NatText(abs / 1000000);
    NatTextCanonical(abs / 1000000);
    frac := FractionShape(abs % 1000000);
  }

  lemma FractionShape(rest: nat) returns (frac: string)
    requires rest < 1000000
    ensures frac == if rest == 0 then "" else RStripZeros(PadSix(rest))
    ensures AllDigits(frac) && |frac| <= 6 && (frac != "" ==> frac[|frac| - 1] != '0') && (rest != 0 ==> frac != "")
    ensures NatVal(frac) * Pow10(6 - |frac|) == rest
  {
    if rest == 0 {
      return "";
    }
    var pad := PadSix(rest);
    frac := RStripZeros(pad);
    PadSixValue(rest);
    RStripValue(pad);
    RStripEnds(pad);
  }

  /** Digits of any script are read: an Arabic-Indic three is three seconds. */
  lemma OtherScripts(py: Digits)
    requires Sane(py) && py.decimal('\U{663}') == Some('3')
    ensures DurIn(py, "\U{663}s") == Ok(3000000)
  {
    var whole := "\U{663}";
    assert whole + "s" == "\U{663}s" && Signed(false, whole) == whole + "s";
    assert IsBody(py, whole, whole, "");
    DurInOnSpelling(py, "\U{663}s", false, whole, "");
    assert Ascii(py, whole) == "3" && Window("") == "" && Ascii(py, "") == "";
    ZeroFraction(3);
    assert NatText(3) == "3";
  }
}
