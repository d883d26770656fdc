/** The generated `_b64_out` and `_b64_in` helpers over RFC 4648 text. */
module Base64 {
  import opened Wrappers

  type Byte = x: int | 0 <= x < 256

  /** The character of section 4 of RFC 4648 for a six-bit value. */
  function SextetChar(v: nat): char
    requires v < 64
  {
    if v < 26 then (v + 'A' as int) as char
    else if v < 52 then (v - 26 + 'a' as int) as char
    else if v < 62 then (v - 52 + '0' as int) as char
    else if v == 62 then '+'
    else '/'
  }

  /** The six-bit value of a character of that alphabet, or -1. */
  function CharSextet(c: char): (v: int)
    ensures -1 <= v < 64
  {
    if 'A' <= c <= 'Z' then c as int - 'A' as int
    else if 'a' <= c <= 'z' then c as int - 'a' as int + 26
    else if '0' <= c <= '9' then c as int - '0' as int + 52
    else if c == '+' then 62
    else if c == '/' then 63
    else -1
  }

  /** `base64.b64encode`, three bytes to four characters. */
  function Encode(bs: seq<Byte>): string {
    if |bs| == 0 then ""
    else if |bs| == 1 then
      [SextetChar(bs[0] / 4), SextetChar((bs[0] % 4) * 16), '=', '=']
    else if |bs| == 2 then
      [SextetChar(bs[0] / 4), SextetChar((bs[0] % 4) * 16 + bs[1] / 16), SextetChar((bs[1] % 16) * 4), '=']
    else
      [SextetChar(bs[0] / 4), SextetChar((bs[0] % 4) * 16 + bs[1] / 16),
       SextetChar((bs[1] % 16) * 4 + bs[2] / 64), SextetChar(bs[2] % 64)] + Encode(bs[3..])
  }

  /** `base64.b64decode(t, validate=True)`: whole groups of four, '=' only as
      the last one or two characters, leftover low bits ignored. */
  function Decode(t: string): Outcome<seq<Byte>> {
    if |t| == 0 then Ok([])
    else if |t| < 4 then Raise(ValueError)
    else
      var a, b, c, d := CharSextet(t[0]), CharSextet(t[1]), CharSextet(t[2]), CharSextet(t[3]);
      if a < 0 || b < 0 then Raise(ValueError)
      else if |t| == 4 && t[2] == '=' && t[3] == '=' then
        Ok([a * 4 + b / 16])
      else if c < 0 then Raise(ValueError)
      else if |t| == 4 && t[3] == '=' then
        Ok([a * 4 + b / 16, (b % 16) * 16 + c / 4])
      else if d < 0 then Raise(ValueError)
      else
        var rest :- Decode(t[4..]);
        Ok([a * 4 + b / 16, (b % 16) * 16 + c / 4, (c % 4) * 64 + d] + rest)
  }

  /** `value.replace("-", "+").replace("_", "/")` on one character. */
  function StandardChar(c: char): char {
    if c == '-' then '+' else if c == '_' then '/' else c
  }

  function Standard(t: string): (s: string)
    ensures |s| == |t|
  {
    seq(|t|, i requires 0 <= i < |t| => StandardChar(t[i]))
  }

  function Equals(k: nat): string {
    seq(k, i => '=')
  }

  /** `_b64_in` on a string. */
  function B64In(t: string): Outcome<seq<Byte>> {
    var normalized := Standard(t);
    Decode(if |t| % 4 != 0 then normalized + Equals(4 - |t| % 4) else normalized)
  }

  /** t is e with some '+' and '/' in the URL-safe letters of section 5 of
      RFC 4648, and some of the trailing '=' gone. */
  ghost predicate SpellingOf(t: string, e: string) {
    && |t| <= |e|
    && (forall i :: 0 <= i < |t| ==>
          t[i] == e[i] || (e[i] == '+' && t[i] == '-') || (e[i] == '/' && t[i] == '_'))
    && (forall i :: |t| <= i < |e| ==> e[i] == '=')
  }

  lemma SextetInverse(v: nat)
    requires v < 64
    ensures CharSextet(SextetChar(v)) == v && SextetChar(v) != '='
  {
  }

  lemma GroupInverse(x: Byte, y: Byte, z: Byte)
    ensures (x / 4) * 4 + ((x % 4) * 16 + y / 16) / 16 == x
    ensures (((x % 4) * 16 + y / 16) % 16) * 16 + ((y % 16) * 4 + z / 64) / 4 == y
    ensures (((y % 16) * 4 + z / 64) % 4) * 64 + z % 64 == z
  {
  }

  lemma DecodeOne(x: Byte)
    ensures Decode(Encode([x])) == Ok([x])
  {
    var a, b := x / 4, (x % 4) * 16;
    SextetInverse(a);
    SextetInverse(b);
    GroupInverse(x, 0, 0);
    assert Encode([x]) == [SextetChar(a), SextetChar(b), '=', '='];
  }

  lemma DecodePair(a: nat, b: nat, c: nat)
    requires a < 64 && b < 64 && c < 64
    ensures Decode([SextetChar(a), SextetChar(b), SextetChar(c), '=']) ==
            Ok([a * 4 + b / 16, (b % 16) * 16 + c / 4])
  {
    SextetInverse(a);
    SextetInverse(b);
    SextetInverse(c);
  }

  lemma DecodeTwo(x: Byte, y: Byte)
    ensures Decode(Encode([x, y])) == Ok([x, y])
  {
    var a, b, c := x / 4, (x % 4) * 16 + y / 16, (y % 16) * 4;
    GroupInverse(x, y, 0);
    DecodePair(a, b, c);
  }

  lemma {:induction false} DecodeEncode(bs: seq<Byte>)
    ensures Decode(Encode(bs)) == Ok(bs)
  {
    if |bs| == 1 {
      DecodeOne(bs[0]);
      assert bs == [bs[0]];
    } else if |bs| == 2 {
      DecodeTwo(bs[0], bs[1]);
      assert bs == [bs[0], bs[1]];
    } else if |bs| > 2 {
      DecodeEncode(bs[3..]);
      DecodeMany(bs[0], bs[1], bs[2], bs[3..]);
      assert bs == [bs[0], bs[1], bs[2]] + bs[3..];
    }
  }

  lemma DecodeMany(x: Byte, y: Byte, z: Byte, rest: seq<Byte>)
    requires Decode(Encode(rest)) == Ok(rest)
    ensures Decode(Encode([x, y, z] + rest)) == Ok([x, y, z] + rest)
  {
    var bs := [x, y, z] + rest;
    assert bs[3..] == rest;
    DecodeGroup(x, y, z, Encode(rest));
  }

  lemma DecodeGroup(x: Byte, y: Byte, z: Byte, rest: string)
    ensures Decode([SextetChar(x / 4), SextetChar((x % 4) * 16 + y / 16),
                    SextetChar((y % 16) * 4 + z / 64), SextetChar(z % 64)] + rest) ==
            match Decode(rest) case Ok(r) => Ok([x, y, z] + r) case Raise(e) => Raise(e)
  {
    GroupInverse(x, y, z);
    SextetInverse(x / 4);
    SextetInverse((x % 4) * 16 + y / 16);
    SextetInverse((y % 16) * 4 + z / 64);
    SextetInverse(z % 64);
    var t := [SextetChar(x / 4), SextetChar((x % 4) * 16 + y / 16),
              SextetChar((y % 16) * 4 + z / 64), SextetChar(z % 64)] + rest;
    assert t[4..] == rest;
  }

  /** Encoded text: groups of four, at most two '=' at the end, and no
      character `_b64_in` would rewrite. */
  lemma {:induction false} EncodeShape(bs: seq<Byte>)
    ensures |Encode(bs)| % 4 == 0
    ensures |Encode(bs)| >= 3 ==> Encode(bs)[|Encode(bs)| - 3] != '='
    ensures forall i :: 0 <= i < |Encode(bs)| ==> Encode(bs)[i] != '-' && Encode(bs)[i] != '_'
  {
    if |bs| > 2 {
      EncodeShape(bs[3..]);
    }
  }

  /** Undoing the URL-safe letters and the lost padding. */
  lemma SpellingNormalizes(t: string, e: string, k: nat)
    requires SpellingOf(t, e) && k == |e| - |t|
    requires forall i :: 0 <= i < |e| ==> e[i] != '-' && e[i] != '_'
    ensures Standard(t) + Equals(k) == e
    ensures k == 0 ==> Standard(t) == e
  {
  }

  lemma PaddingLength(n: nat, k: nat)
    requires (n + k) % 4 == 0 && k <= 2
    ensures k == if n % 4 != 0 then 4 - n % 4 else 0
  {
  }

  /** Every spelling of a byte string's encoding decodes back to it. */
  lemma B64RoundTrip(bs: seq<Byte>, t: string)
    requires SpellingOf(t, Encode(bs))
    ensures B64In(t) == Ok(bs)
  {
    EncodeShape(bs);
    SpellingPads(t, Encode(bs));
    DecodeEncode(bs);
  }

  /** What `_b64_in` pads a spelling to is the encoding. */
  lemma SpellingPads(t: string, e: string)
    requires SpellingOf(t, e) && |e| % 4 == 0 && (|e| >= 3 ==> e[|e| - 3] != '=')
    requires forall i :: 0 <= i < |e| ==> e[i] != '-' && e[i] != '_'
    ensures e == if |t| % 4 != 0 then Standard(t) + Equals(4 - |t| % 4) else Standard(t)
  {
    var k := |e| - |t|;
    assert k <= 2;
    PaddingLength(|t|, k);
    SpellingNormalizes(t, e, k);
  }

  // ----- the encoder against the bit stream of RFC 4648 -----

  /** The bytes read on from acc as one big-endian number. */
  ghost function ByteNumber(acc: nat, bs: seq<Byte>): nat
    decreases |bs|
  {
    if bs == [] then acc else ByteNumber(acc * 256 + bs[0], bs[1..])
  }

  /** One character read on from acc: six more bits, or nothing for padding. */
  ghost function Shift(acc: nat, c: char): nat {
    if CharSextet(c) < 0 then acc else acc * 64 + CharSextet(c)
  }

  /** The characters before the padding read on from acc, six bits each. */
  ghost function TextNumber(acc: nat, t: string): nat
    decreases |t|
  {
    if t == [] then acc else TextNumber(Shift(acc, t[0]), t[1..])
  }

  lemma FourCharacters(acc: nat, a: char, b: char, c: char, d: char, rest: string)
    ensures TextNumber(acc, [a, b, c, d] + rest) ==
            TextNumber(Shift(Shift(Shift(Shift(acc, a), b), c), d), rest)
  {
    var t := [a, b, c, d] + rest;
    assert t[1..] == [b, c, d] + rest;
    assert ([b, c, d] + rest)[1..] == [c, d] + rest;
    assert ([c, d] + rest)[1..] == [d] + rest;
    assert ([d] + rest)[1..] == rest;
    assert TextNumber(Shift(acc, a), [b, c, d] + rest) == TextNumber(Shift(Shift(acc, a), b), [c, d] + rest);
    assert forall n: nat :: TextNumber(n, [d] + rest) == TextNumber(Shift(n, d), rest);
  }

  lemma ThreeBytes(acc: nat, bs: seq<Byte>)
    requires |bs| >= 3
    ensures ByteNumber(acc, bs) == ByteNumber(((acc * 256 + bs[0]) * 256 + bs[1]) * 256 + bs[2], bs[3..])
  {
    var n := acc * 256 + bs[0];
    assert bs[1..][1..] == bs[2..] && bs[2..][1..] == bs[3..];
    assert ByteNumber(n, bs[1..]) == ByteNumber(n * 256 + bs[1], bs[2..]);
  }

  /** Four characters of a full group are three bytes read on. */
  lemma GroupNumber(acc: nat, x: Byte, y: Byte, z: Byte)
    ensures Shift(Shift(Shift(Shift(acc, SextetChar(x / 4)), SextetChar((x % 4) * 16 + y / 16)),
                        SextetChar((y % 16) * 4 + z / 64)), SextetChar(z % 64)) ==
            ((acc * 256 + x) * 256 + y) * 256 + z
  {
    SextetInverse(x / 4);
    SextetInverse((x % 4) * 16 + y / 16);
    SextetInverse((y % 16) * 4 + z / 64);
    SextetInverse(z % 64);
  }

  lemma LastNumber(acc: nat, x: Byte, y: Byte)
    ensures Shift(Shift(acc, SextetChar(x / 4)), SextetChar((x % 4) * 16)) == (acc * 256 + x) * 16
    ensures Shift(Shift(Shift(acc, SextetChar(x / 4)), SextetChar((x % 4) * 16 + y / 16)), SextetChar((y % 16) * 4)) ==
            ((acc * 256 + x) * 256 + y) * 4
  {
    SextetInverse(x / 4);
    SextetInverse((x % 4) * 16);
    SextetInverse((x % 4) * 16 + y / 16);
    SextetInverse((y % 16) * 4);
  }

  lemma OneByteNumber(acc: nat, bs: seq<Byte>)
    requires |bs| == 1
    ensures TextNumber(acc, Encode(bs)) == ByteNumber(acc, bs) * 16
  {
    var x := bs[0];
    LastNumber(acc, x, 0);
    FourCharacters(acc, SextetChar(x / 4), SextetChar((x % 4) * 16), '=', '=', "");
    assert Encode(bs) == [SextetChar(x / 4), SextetChar((x % 4) * 16), '=', '='] + "";
  }

  lemma TwoByteNumber(acc: nat, bs: seq<Byte>)
    requires |bs| == 2
    ensures TextNumber(acc, Encode(bs)) == ByteNumber(acc, bs) * 4
  {
    var x, y := bs[0], bs[1];
    var b, c := SextetChar((x % 4) * 16 + y / 16), SextetChar((y % 16) * 4);
    LastNumber(acc, x, y);
    FourCharacters(acc, SextetChar(x / 4), b, c, '=', "");
    assert Encode(bs) == [SextetChar(x / 4), b, c, '='] + "";
    assert ByteNumber(acc * 256 + x, bs[1..]) == (acc * 256 + x) * 256 + y;
  }

  lemma GroupStep(acc: nat, bs: seq<Byte>, next: nat)
    requires |bs| > 2 && next == ((acc * 256 + bs[0]) * 256 + bs[1]) * 256 + bs[2]
    ensures TextNumber(acc, Encode(bs)) == TextNumber(next, Encode(bs[3..]))
    ensures ByteNumber(acc, bs) == ByteNumber(next, bs[3..])
  {
    var x, y, z := bs[0], bs[1], bs[2];
    var a, b, c, d := SextetChar(x / 4), SextetChar((x % 4) * 16 + y / 16),
                      SextetChar((y % 16) * 4 + z / 64), SextetChar(z % 64);
    assert Encode(bs) == [a, b, c, d] + Encode(bs[3..]);
    GroupNumber(acc, x, y, z);
    FourCharacters(acc, a, b, c, d, Encode(bs[3..]));
    ThreeBytes(acc, bs);
  }

  /** v followed by the zero bits that fill the last character of n bytes. */
  ghost function Filled(v: nat, n: nat): nat {
    if n % 3 == 0 then v else if n % 3 == 1 then v * 16 else v * 4
  }

  /** The encoded text is the bytes' bit stream, six bits a character, followed
      only by the zero bits that fill its last character. */
  lemma {:induction false} EncodeBits(acc: nat, bs: seq<Byte>)
    ensures TextNumber(acc, Encode(bs)) == Filled(ByteNumber(acc, bs), |bs|)
    decreases |bs|
  {
    if |bs| == 0 {
      assert Encode(bs) == "";
    } else if |bs| == 1 {
      OneByteNumber(acc, bs);
    } else if |bs| == 2 {
      TwoByteNumber(acc, bs);
    } else {
      var next := ((acc * 256 + bs[0]) * 256 + bs[1]) * 256 + bs[2];
      var n := |bs|;
      calc {
        TextNumber(acc, Encode(bs));
        { GroupStep(acc, bs, next); }
        TextNumber(next, Encode(bs[3..]));
        { EncodeBits(next, bs[3..]); }
        Filled(ByteNumber(next, bs[3..]), n - 3);
        { GroupStep(acc, bs, next); }
        Filled(ByteNumber(acc, bs), n - 3);
        Filled(ByteNumber(acc, bs), n);
      }
    }
  }

  // ----- what the decoder takes -----

  const UPPER := "ABCDEFGHIJKLMNOPQRSTUVWXYZ"
  const LOWER := "abcdefghijklmnopqrstuvwxyz"
  const ALPHABET := UPPER + LOWER + "0123456789+/"

  /** Table 1 of RFC 4648, both ways. */
  lemma AlphabetIs(v: nat)
    requires v < 64
    ensures |ALPHABET| == 64 && SextetChar(v) == ALPHABET[v]
    ensures forall c :: CharSextet(c) == v <==> c == ALPHABET[v]
  {
    CharIs(v);
    SextetIs(v);
  }

  lemma CharIs(v: nat)
    requires v < 64
    ensures |ALPHABET| == 64 && SextetChar(v) == ALPHABET[v]
  {
    if v < 26 {
      Letters(v);
      assert ALPHABET[v] == UPPER[v];
    } else if v < 52 {
      Letters(v - 26);
      assert ALPHABET[v] == LOWER[v - 26];
    } else {
      Others(v);
    }
  }

  lemma SextetIs(v: nat)
    requires v < 64
    ensures forall c :: CharSextet(c) == v <==> c == SextetChar(v)
  {
  }

  lemma Letters(k: nat)
    requires k < 26
    ensures UPPER[k] == ('A' as int + k) as char && LOWER[k] == ('a' as int + k) as char
  {
    assert k == 0 || k == 1 || k == 2 || k == 3 || k == 4 || k == 5 || k == 6 || k == 7 || k == 8 || k == 9 || k == 10 || k == 11
      || k == 12 || k == 13 || k == 14 || k == 15 || k == 16 || k == 17 || k == 18 || k == 19 || k == 20 || k == 21 || k == 22
      || k == 23 || k == 24 || k == 25;
  }

  lemma Others(v: nat)
    requires 52 <= v < 64
    ensures ALPHABET[v] == SextetChar(v)
  {
    assert ALPHABET[v] == "0123456789+/"[v - 52];
    assert v == 52 || v == 53 || v == 54 || v == 55 || v == 56 || v == 57 || v == 58 || v == 59 || v == 60 || v == 61 || v == 62 || v == 63;
  }

  /** Characters of the alphabet, then k of padding, in groups of four. */
  ghost predicate Padded(t: string, k: nat) {
    && k <= 2 && k <= |t| && |t| % 4 == 0
    && (forall i :: 0 <= i < |t| - k ==> CharSextet(t[i]) >= 0)
    && (forall i :: |t| - k <= i < |t| ==> t[i] == '=')
  }

  /** The bytes are the text's bit stream less the bits that fill its last
      character. */
  ghost predicate Reads(acc: nat, t: string, k: nat, bs: seq<Byte>) {
    && |bs| == |t| / 4 * 3 - k
    && ByteNumber(acc, bs) == TextNumber(acc, t) / (if k == 0 then 1 else if k == 1 then 4 else 16)
  }

  lemma PaddedRest(t: string, k: nat)
    requires |t| > 4
    ensures Padded(t, k) <==>
              && CharSextet(t[0]) >= 0 && CharSextet(t[1]) >= 0 && CharSextet(t[2]) >= 0 && CharSextet(t[3]) >= 0
              && Padded(t[4..], k)
  {
    var rest := t[4..];
    assert forall i :: 0 <= i < |rest| ==> rest[i] == t[i + 4];
    if Padded(t, k) {
      assert |t| >= 8;
    }
    if CharSextet(t[0]) >= 0 && CharSextet(t[1]) >= 0 && CharSextet(t[2]) >= 0 && CharSextet(t[3]) >= 0 && Padded(rest, k) {
      forall i | 0 <= i < |t| - k ensures CharSextet(t[i]) >= 0 {
        if i >= 4 {
          assert rest[i - 4] == t[i];
        }
      }
    }
  }

  lemma OneGroup(acc: nat, t: string)
    requires |t| == 4
    ensures TextNumber(acc, t) == Shift(Shift(Shift(Shift(acc, t[0]), t[1]), t[2]), t[3])
  {
    FourCharacters(acc, t[0], t[1], t[2], t[3], "");
    assert t == [t[0], t[1], t[2], t[3]] + "";
  }

  lemma SplitGroup(acc: nat, t: string)
    requires |t| >= 4
    ensures TextNumber(acc, t) == TextNumber(Shift(Shift(Shift(Shift(acc, t[0]), t[1]), t[2]), t[3]), t[4..])
  {
    FourCharacters(acc, t[0], t[1], t[2], t[3], t[4..]);
    assert t == [t[0], t[1], t[2], t[3]] + t[4..];
  }

  lemma ShiftPadding(acc: nat)
    ensures Shift(acc, '=') == acc
  {
  }

  /** The last group, with its padding. */
  lemma LastGroup(acc: nat, t: string)
    requires |t| == 4 && t[3] == '='
    ensures Decode(t).Ok? <==> Padded(t, 1) || Padded(t, 2)
    ensures Decode(t).Ok? && t[2] == '=' ==> Padded(t, 2) && Reads(acc, t, 2, Decode(t).value)
    ensures Decode(t).Ok? && t[2] != '=' ==> Padded(t, 1) && Reads(acc, t, 1, Decode(t).value)
  {
    OneGroup(acc, t);
    ShiftPadding(Shift(Shift(acc, t[0]), t[1]));
    ShiftPadding(Shift(Shift(Shift(acc, t[0]), t[1]), t[2]));
    var a, b, c := CharSextet(t[0]), CharSextet(t[1]), CharSextet(t[2]);
    assert CharSextet('=') < 0;
    if a >= 0 && b >= 0 && t[2] == '=' {
      TwoSextets(acc, a, b);
      OneByte(acc, Decode(t).value);
    } else if a >= 0 && b >= 0 && c >= 0 {
      ThreeSextets(acc, a, b, c);
      TwoBytes(acc, Decode(t).value);
    }
  }

  lemma OneByte(acc: nat, bs: seq<Byte>)
    requires |bs| == 1
    ensures ByteNumber(acc, bs) == acc * 256 + bs[0]
  {
  }

  lemma TwoBytes(acc: nat, bs: seq<Byte>)
    requires |bs| == 2
    ensures ByteNumber(acc, bs) == (acc * 256 + bs[0]) * 256 + bs[1]
  {
    assert ByteNumber(acc * 256 + bs[0], bs[1..]) == (acc * 256 + bs[0]) * 256 + bs[1];
  }

  lemma TwoSextets(acc: nat, a: nat, b: nat)
    requires a < 64 && b < 64
    ensures ((acc * 64 + a) * 64 + b) / 16 == acc * 256 + (a * 4 + b / 16)
  {
  }

  lemma ThreeSextets(acc: nat, a: nat, b: nat, c: nat)
    requires a < 64 && b < 64 && c < 64
    ensures (((acc * 64 + a) * 64 + b) * 64 + c) / 4 == (acc * 256 + (a * 4 + b / 16)) * 256 + ((b % 16) * 16 + c / 4)
  {
  }

  lemma FourSextets(acc: nat, a: nat, b: nat, c: nat, d: nat)
    requires a < 64 && b < 64 && c < 64 && d < 64
    ensures (((acc * 64 + a) * 64 + b) * 64 + c) * 64 + d ==
            ((acc * 256 + (a * 4 + b / 16)) * 256 + ((b % 16) * 16 + c / 4)) * 256 + ((c % 4) * 64 + d)
  {
  }

  /** A full group and what follows it. */
  lemma FullGroup(t: string)
    requires |t| >= 4 && (|t| > 4 || t[3] != '=')
    ensures Decode(t).Ok? <==>
              && CharSextet(t[0]) >= 0 && CharSextet(t[1]) >= 0 && CharSextet(t[2]) >= 0 && CharSextet(t[3]) >= 0
              && Decode(t[4..]).Ok?
    ensures Decode(t).Ok? ==>
              var a, b, c, d := CharSextet(t[0]), CharSextet(t[1]), CharSextet(t[2]), CharSextet(t[3]);
              Decode(t).value == [a * 4 + b / 16, (b % 16) * 16 + c / 4, (c % 4) * 64 + d] + Decode(t[4..]).value
  {
    assert CharSextet('=') < 0;
  }

  /** The decoder takes exactly the padded texts, and yields their bits. */
  lemma {:induction false} DecodeExact(acc: nat, t: string)
    ensures Decode(t).Ok? <==> exists k :: Padded(t, k)
    ensures forall k :: Padded(t, k) ==> Reads(acc, t, k, Decode(t).value)
    ensures Decode(t).Raise? ==> Decode(t).error == ValueError
    decreases |t|
  {
    if |t| < 4 {
      if t == "" {
        assert Padded(t, 0);
      }
    } else if |t| == 4 && t[3] == '=' {
      LastGroup(acc, t);
      PaddedOnce(t);
    } else {
      FullGroup(t);
      var next := Shift(Shift(Shift(Shift(acc, t[0]), t[1]), t[2]), t[3]);
      DecodeExact(next, t[4..]);
      GroupExact(acc, t, next);
    }
  }

  /** The padding of a text is what it is. */
  lemma PaddedOnce(t: string)
    requires |t| == 4 && t[3] == '='
    ensures forall k :: Padded(t, k) ==> k == if t[2] == '=' then 2 else 1
  {
    assert CharSextet('=') < 0;
  }

  lemma PaddedShort(t: string, k: nat)
    requires |t| == 4 && t[3] != '='
    ensures Padded(t, k) <==>
              k == 0 && CharSextet(t[0]) >= 0 && CharSextet(t[1]) >= 0 && CharSextet(t[2]) >= 0 && CharSextet(t[3]) >= 0
    ensures Padded(t[4..], k) <==> k == 0
  {
  }

  lemma GroupExact(acc: nat, t: string, next: nat)
    requires |t| >= 4 && (|t| > 4 || t[3] != '=') && next == Shift(Shift(Shift(Shift(acc, t[0]), t[1]), t[2]), t[3])
    requires Decode(t[4..]).Ok? <==> exists k :: Padded(t[4..], k)
    requires forall k :: Padded(t[4..], k) ==> Reads(next, t[4..], k, Decode(t[4..]).value)
    requires Decode(t[4..]).Raise? ==> Decode(t[4..]).error == ValueError
    ensures Decode(t).Ok? <==> exists k :: Padded(t, k)
    ensures forall k :: Padded(t, k) ==> Reads(acc, t, k, Decode(t).value)
    ensures Decode(t).Raise? ==> Decode(t).error == ValueError
  {
    FullGroup(t);
    forall k: nat
      ensures Padded(t, k) <==>
                && CharSextet(t[0]) >= 0 && CharSextet(t[1]) >= 0 && CharSextet(t[2]) >= 0 && CharSextet(t[3]) >= 0
                && Padded(t[4..], k)
    {
      if |t| > 4 {
        PaddedRest(t, k);
      } else {
        PaddedShort(t, k);
      }
    }
    forall k | Padded(t, k) ensures Reads(acc, t, k, Decode(t).value) {
      GroupReads(acc, t, next, k);
    }
  }

  /** The four sextets of a full group are the three bytes read from it. */
  lemma GroupOn(acc: nat, t: string, next: nat)
    requires |t| >= 4 && (|t| > 4 || t[3] != '=') && Decode(t).Ok?
    requires next == Shift(Shift(Shift(Shift(acc, t[0]), t[1]), t[2]), t[3])
    ensures Decode(t[4..]).Ok? && |Decode(t).value| == 3 + |Decode(t[4..]).value|
    ensures ByteNumber(acc, Decode(t).value) == ByteNumber(next, Decode(t[4..]).value)
  {
    FullGroup(t);
    FourShifts(acc, t[0], t[1], t[2], t[3]);
    GroupBytes(acc, CharSextet(t[0]), CharSextet(t[1]), CharSextet(t[2]), CharSextet(t[3]), next,
               Decode(t).value, Decode(t[4..]).value);
  }

  lemma GroupReads(acc: nat, t: string, next: nat, k: nat)
    requires |t| >= 4 && |t| % 4 == 0 && (|t| > 4 || t[3] != '=') && Decode(t).Ok?
    requires next == Shift(Shift(Shift(Shift(acc, t[0]), t[1]), t[2]), t[3])
    requires Decode(t[4..]).Ok? && Reads(next, t[4..], k, Decode(t[4..]).value)
    ensures Reads(acc, t, k, Decode(t).value)
  {
    SplitGroup(acc, t);
    GroupOn(acc, t, next);
    ReadsOn(acc, next, t, k, Decode(t).value, Decode(t[4..]).value);
  }

  lemma FourShifts(acc: nat, a: char, b: char, c: char, d: char)
    requires CharSextet(a) >= 0 && CharSextet(b) >= 0 && CharSextet(c) >= 0 && CharSextet(d) >= 0
    ensures Shift(Shift(Shift(Shift(acc, a), b), c), d) ==
            (((acc * 64 + CharSextet(a)) * 64 + CharSextet(b)) * 64 + CharSextet(c)) * 64 + CharSextet(d)
  {
  }

  lemma ReadsOn(acc: nat, next: nat, t: string, k: nat, bs: seq<Byte>, rest: seq<Byte>)
    requires |t| >= 4 && |t| % 4 == 0 && TextNumber(acc, t) == TextNumber(next, t[4..])
    requires |bs| == 3 + |rest| && ByteNumber(acc, bs) == ByteNumber(next, rest) && Reads(next, t[4..], k, rest)
    ensures Reads(acc, t, k, bs)
  {
    assert |t[4..]| / 4 * 3 + 3 == |t| / 4 * 3;
  }

  lemma GroupBytes(acc: nat, a: nat, b: nat, c: nat, d: nat, next: nat, bs: seq<Byte>, rest: seq<Byte>)
    requires next == (((acc * 64 + a) * 64 + b) * 64 + c) * 64 + d && a < 64 && b < 64 && c < 64 && d < 64
    requires bs == [a * 4 + b / 16, (b % 16) * 16 + c / 4, (c % 4) * 64 + d] + rest
    ensures |bs| == 3 + |rest|
    ensures ByteNumber(acc, bs) == ByteNumber(next, rest)
  {
    FourSextets(acc, a, b, c, d);
    ThreeBytes(acc, bs);
    assert bs[3..] == rest;
  }

  /** The text as `_b64_in` pads it has j characters of padding and the rest in
      either alphabet. */
  ghost predicate Accepted(t: string, j: nat) {
    && j <= |t| && j + (if |t| % 4 == 0 then 0 else 4 - |t| % 4) <= 2
    && (forall i :: 0 <= i < |t| - j ==> CharSextet(t[i]) >= 0 || t[i] == '-' || t[i] == '_')
    && (forall i :: |t| - j <= i < |t| ==> t[i] == '=')
  }

  lemma StandardSextet(c: char)
    ensures CharSextet(StandardChar(c)) >= 0 <==> CharSextet(c) >= 0 || c == '-' || c == '_'
    ensures StandardChar(c) == '=' <==> c == '='
  {
  }

  /** `_b64_in` takes a text exactly when it is in the alphabets, short of two
      characters of padding at most, and raises ValueError otherwise. */
  lemma B64InAccepts(t: string)
    ensures B64In(t).Ok? <==> exists j :: Accepted(t, j)
    ensures B64In(t).Raise? ==> B64In(t).error == ValueError
  {
    var p := if |t| % 4 == 0 then 0 else 4 - |t| % 4;
    var full := if |t| % 4 != 0 then Standard(t) + Equals(4 - |t| % 4) else Standard(t);
    DecodeExact(0, full);
    if j :| Accepted(t, j) {
      AcceptedPads(t, full, p, j);
    }
    if k :| Padded(full, k) {
      PadsAccepted(t, full, p, k);
    }
  }

  lemma AcceptedPads(t: string, full: string, p: nat, j: nat)
    requires Accepted(t, j) && p == (if |t| % 4 == 0 then 0 else 4 - |t| % 4)
    requires full == if |t| % 4 != 0 then Standard(t) + Equals(4 - |t| % 4) else Standard(t)
    ensures Padded(full, j + p)
  {
    forall i | 0 <= i < |full| - (j + p) ensures CharSextet(full[i]) >= 0 {
      StandardSextet(t[i]);
    }
    forall i | |full| - (j + p) <= i < |full| ensures full[i] == '=' {
      if i < |t| {
        StandardSextet(t[i]);
      }
    }
  }

  lemma PadsAccepted(t: string, full: string, p: nat, k: nat)
    requires Padded(full, k) && p == (if |t| % 4 == 0 then 0 else 4 - |t| % 4)
    requires full == if |t| % 4 != 0 then Standard(t) + Equals(4 - |t| % 4) else Standard(t)
    ensures k >= p && Accepted(t, k - p)
  {
    assert CharSextet('=') < 0;
    if k < p {
      PaddingTail(full, p, k);
    }
    var j := k - p;
    forall i | 0 <= i < |t| - j ensures CharSextet(t[i]) >= 0 || t[i] == '-' || t[i] == '_' {
      assert full[i] == StandardChar(t[i]);
      StandardSextet(t[i]);
    }
    forall i | |t| - j <= i < |t| ensures t[i] == '=' {
      assert full[i] == StandardChar(t[i]);
      StandardSextet(t[i]);
    }
  }

  lemma PaddingTail(full: string, p: nat, k: nat)
    requires k < p <= |full| && forall i :: |full| - p <= i < |full| ==> full[i] == '='
    ensures !Padded(full, k)
  {
    assert full[|full| - p] == '=' && CharSextet('=') < 0;
  }
}
