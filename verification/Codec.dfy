/** The generated codec round-trips: from_dict after to_dict, over every value
    of every message of a linked program. */
module Codec {
  import opened Wrappers
  import opened Proto
  import opened Registry
  import opened Py
  import opened Render
  import opened Schema
  import opened Json
  import Decimal
  import Base64
  import Duration

  /** Encoding v with enc raises when v holds a set fixed-width field or a datetime
      without a reading in UTC, raises the oneof error when it holds a conflict
      only, and otherwise yields a wire value that dec turns back into v. */
  ghost predicate Codes(p: Program, t: Table, current: string, enc: Expr, dec: Expr, v: Val) {
    var w := Eval(p, current, enc, v);
    if Stuck(t, v) then w.Raise?
    else if Conflict(t, v) then w == Raise(ValueError)
    else w.Ok? && Decodes(p, t, current, dec, w.value, v)
  }

  /** A wire value that dec turns into v, normalised; by way of JSON text, into the
      same with the keys of its maps turned to strings. */
  ghost predicate Decodes(p: Program, t: Table, current: string, dec: Expr, w: Val, v: Val) {
    && w != VNone
    && Eval(p, current, dec, w) == Ok(Norm(t, v))
    && Eval(p, current, dec, OverJson(w)) == Ok(OverJson(Norm(t, v)))
  }

  // ----- single values -----

  /** A value without fields has neither. */
  predicate Leaf(v: Val) {
    !v.VObj? && !v.VList? && !v.VDict?
  }

  lemma CodesVia(p: Program, t: Table, current: string, enc: Expr, dec: Expr, v: Val, w: Val)
    requires !Conflict(t, v) && !Stuck(t, v)
    requires Eval(p, current, enc, v) == Ok(w) && Decodes(p, t, current, dec, w, v)
    ensures Codes(p, t, current, enc, dec, v)
  {
  }

  lemma LeavesStay(t: Table, v: Val)
    requires Leaf(v)
    ensures OverJson(v) == v && Leaf(Norm(t, v)) && OverJson(Norm(t, v)) == Norm(t, v)
  {
  }

  /** A leaf that two helpers carry there and back. */
  lemma HelpersCode(p: Program, t: Table, current: string, out: Helper, back: Helper, v: Val, w: Val)
    requires Leaf(v) && Leaf(w) && !Stuck(t, v) && w != VNone && Apply(out, v) == Ok(w) && Apply(back, w) == Ok(Norm(t, v))
    requires IsTimeHelper(out) || IsTimeHelper(back) ==> HasTime(p, current)
    ensures Codes(p, t, current, Call(out), Call(back), v)
  {
    assert Eval(p, current, Call(out), v) == Ok(w);
    assert Eval(p, current, Call(back), w) == Ok(Norm(t, v));
    LeavesStay(t, v);
    LeavesStay(t, w);
    CodesVia(p, t, current, Call(out), Call(back), v, w);
  }

  lemma NumberLength(n: int)
    requires -0x8000_0000_0000_0000 <= n < 0x1_0000_0000_0000_0000
    ensures |Decimal.IntText(n)| <= 21
  {
    var m := if n < 0 then -n else n;
    Decimal.Pow10Add(10, 10);
    assert Decimal.Pow10(10) == 10000000000;
    Decimal.NatTextLength(m, 20);
  }

  lemma Int64Codec(p: Program, t: Table, current: string, n: int)
    requires -0x8000_0000_0000_0000 <= n < 0x1_0000_0000_0000_0000
    ensures Codes(p, t, current, Call(StrOf), Call(IntIn), VInt(n))
  {
    var s := Decimal.IntText(n);
    Decimal.IntTextRoundTrip(n);
    NumberLength(n);
    assert IntInOf(VStr(s)) == Ok(VInt(n));
    HelpersCode(p, t, current, StrOf, IntIn, VInt(n), VStr(s));
  }

  lemma BytesCodec(p: Program, t: Table, current: string, bs: seq<Base64.Byte>)
    ensures Codes(p, t, current, Call(B64Out), Call(B64In), VBytes(bs))
  {
    var s := Base64.Encode(bs);
    Base64.B64RoundTrip(bs, s);
    BytesBack(s, bs);
    HelpersCode(p, t, current, B64Out, B64In, VBytes(bs), VStr(s));
  }

  lemma BytesBack(s: string, bs: seq<Base64.Byte>)
    requires Base64.B64In(s) == Ok(bs)
    ensures Apply(B64In, VStr(s)) == Ok(VBytes(bs))
  {
  }

  lemma FloatCodec(p: Program, t: Table, current: string, f: Float)
    ensures Codes(p, t, current, Call(FloatOut), Call(FloatIn), VFloat(f))
  {
    FloatBack(f);
    HelpersCode(p, t, current, FloatOut, FloatIn, VFloat(f), FloatOutOf(VFloat(f)).value);
  }

  lemma FloatBack(f: Float)
    ensures var w := FloatOutOf(VFloat(f));
            w.Ok? && w.value != VNone && Leaf(w.value) && Apply(FloatOut, VFloat(f)) == w && Apply(FloatIn, w.value) == Ok(VFloat(f))
  {
  }

  /** A datetime is encoded exactly when its reading in UTC is one that datetime
      can hold; then it comes back in UTC. */
  lemma StampCodec(p: Program, t: Table, current: string, v: Val)
    requires v.VTime? && HasTime(p, current)
    ensures !InstantInRange(Instant(v.local, v.zone)) ==> Eval(p, current, Call(TsOut), v) == Raise(OverflowError)
    ensures Codes(p, t, current, Call(TsOut), Call(TsIn), v)
  {
    if InstantInRange(Instant(v.local, v.zone)) {
      HelpersCode(p, t, current, TsOut, TsIn, v, VStamp(Instant(v.local, v.zone)));
    }
  }

  /** A datetime fails to encode exactly within its offset of an end of the range,
      so never when it is naive or in UTC. */
  lemma StampFails(p: Program, current: string, local: int, zone: Zone)
    requires IsDatetime(local, zone) && HasTime(p, current)
    ensures Eval(p, current, Call(TsOut), VTime(local, zone)).Raise? <==>
              zone.Offset? && (local < MIN_INSTANT + zone.micros || local > MAX_INSTANT + zone.micros)
    ensures Eval(p, current, Call(TsOut), VTime(local, zone)).Raise? ==>
              Eval(p, current, Call(TsOut), VTime(local, zone)) == Raise(OverflowError) &&
              (local < MIN_INSTANT + DAY || local > MAX_INSTANT - DAY)
  {
  }

  lemma DeltaCodec(p: Program, t: Table, current: string, v: Val)
    requires v.VDelta? && Duration.InRange(v.micros) && HasTime(p, current)
    ensures Codes(p, t, current, Call(DurOut), Call(DurIn), v)
  {
    var w := DeltaText(v.micros);
    HelpersCode(p, t, current, DurOut, DurIn, v, w);
  }

  lemma DeltaText(micros: int) returns (w: Val)
    requires Duration.InRange(micros)
    ensures w.VStr? && Apply(DurOut, VDelta(micros)) == Ok(w) && Apply(DurIn, w) == Ok(VDelta(micros))
  {
    var s := Duration.DurOut(micros);
    w := VStr(s);
    Duration.DurRoundTrip(Decimal.Interpreter(), micros);
    DeltaBack(s, micros);
    DeltaOut(micros, s);
  }

  lemma DeltaOut(micros: int, s: string)
    requires s == Duration.DurOut(micros)
    ensures Apply(DurOut, VDelta(micros)) == Ok(VStr(s))
  {
  }

  lemma DeltaBack(s: string, micros: int)
    requires Duration.DurIn(Decimal.Interpreter(), s) == Ok(micros)
    ensures Apply(DurIn, VStr(s)) == Ok(VDelta(micros))
  {
  }

  /** A value that is its own wire form, read back as it is or through _int_in. */
  lemma PlainCodec(p: Program, t: Table, current: string, v: Val)
    ensures v.VStr? || v.VBool? ==> Codes(p, t, current, Name, Name, v)
    ensures v.VInt? ==> Codes(p, t, current, Name, Call(IntIn), v)
  {
  }

  lemma ScalarWritten(p: Program, current: string, reg: Registry, f: Field, v: Val)
    requires GoodElem(f) && !Fixed(f) && ScalarTyped(f.typ, v)
    ensures var w := Eval(p, current, ListElem(ElemKind(f, reg, current)), v); w.Ok? && ScalarWire(f.typ, v, w.value)
  {
    assert ScalarKind(f, reg) == Some(ElemKind(f, reg, current));
  }

  /** Every scalar type the generator covers: its value is written in the form its
      proto type has on the wire, and read back. */
  lemma ScalarCodec(p: Program, t: Table, current: string, reg: Registry, f: Field, v: Val)
    requires GoodElem(f) && !Fixed(f) && ScalarTyped(f.typ, v)
    ensures var k := ElemKind(f, reg, current);
            !k.KMsg? && Codes(p, t, current, ListElem(k), ListElemDecode(k), v)
    ensures var w := Eval(p, current, ListElem(ElemKind(f, reg, current)), v); w.Ok? && ScalarWire(f.typ, v, w.value)
  {
    var k := ElemKind(f, reg, current);
    assert ScalarKind(f, reg) == Some(k);
    ScalarWritten(p, current, reg, f, v);
    PlainCodec(p, t, current, v);
    match k
    case KInt64 => Int64Codec(p, t, current, v.n);
    case KBytes => BytesCodec(p, t, current, v.bs);
    case KFloat => FloatCodec(p, t, current, v.f);
    case _ =>
  }

  lemma TimeKind(reg: Registry, current: string, f: Field)
    requires WellKnown(f.typeName)
    ensures var k := ElemKind(f, reg, current);
            && ListElem(k) == Call(if f.typeName == TIMESTAMP then TsOut else DurOut)
            && ListElemDecode(k) == Call(if f.typeName == TIMESTAMP then TsIn else DurIn)
            && !k.KMsg?
  {
  }

  lemma TimeCodec(p: Program, t: Table, current: string, reg: Registry, f: Field, v: Val)
    requires f.typ.TMessage? && WellKnown(f.typeName) && ElemTyped(t, reg, f, v) && HasTime(p, current)
    ensures var k := ElemKind(f, reg, current);
            !k.KMsg? && Codes(p, t, current, ListElem(k), ListElemDecode(k), v)
  {
    TimeKind(reg, current, f);
    if f.typeName == TIMESTAMP {
      StampCodec(p, t, current, v);
    } else {
      DeltaCodec(p, t, current, v);
    }
  }

  // ----- lists and maps -----

  /** The wire values of a list decode to it, directly and by way of JSON text. */
  ghost predicate AllDecode(p: Program, t: Table, current: string, dec: Expr, ws: seq<Val>, xs: seq<Val>) {
    && EvalAll(p, current, dec, ws) == Ok(NormAll(t, xs))
    && EvalAll(p, current, dec, OverJsonAll(ws)) == Ok(OverJsonAll(NormAll(t, xs)))
  }

  lemma NoneDecode(p: Program, t: Table, current: string, dec: Expr)
    ensures AllDecode(p, t, current, dec, [], [])
  {
    assert NormAll(t, []) == [] && OverJsonAll([]) == [];
  }

  lemma {:induction false} AllCode(p: Program, t: Table, current: string, enc: Expr, dec: Expr, xs: seq<Val>)
    requires forall x :: x in xs ==> Codes(p, t, current, enc, dec, x)
    ensures Stuck(t, VList(xs)) ==> EvalAll(p, current, enc, xs).Raise?
    ensures !Stuck(t, VList(xs)) && Conflict(t, VList(xs)) ==> EvalAll(p, current, enc, xs) == Raise(ValueError)
    ensures !Stuck(t, VList(xs)) && !Conflict(t, VList(xs)) ==>
              && EvalAll(p, current, enc, xs).Ok?
              && AllDecode(p, t, current, dec, EvalAll(p, current, enc, xs).value, xs)
  {
    if xs == [] {
      NoneDecode(p, t, current, dec);
    } else {
      var rest := xs[1..];
      AllCode(p, t, current, enc, dec, rest);
      assert Codes(p, t, current, enc, dec, xs[0]);
      ListSplits(t, xs);
      if !Stuck(t, VList(xs)) && !Conflict(t, VList(xs)) {
        AllStep(p, t, current, enc, dec, xs, Eval(p, current, enc, xs[0]).value, EvalAll(p, current, enc, rest).value);
      }
    }
  }

  lemma ListSplits(t: Table, xs: seq<Val>)
    requires xs != []
    ensures Stuck(t, VList(xs)) <==> Stuck(t, xs[0]) || Stuck(t, VList(xs[1..]))
    ensures Conflict(t, VList(xs)) <==> Conflict(t, xs[0]) || Conflict(t, VList(xs[1..]))
  {
    var rest := xs[1..];
    assert forall i :: 0 <= i < |rest| ==> rest[i] == xs[i + 1];
    if i :| 0 <= i < |xs| && Stuck(t, xs[i]) && i > 0 {
      assert Stuck(t, rest[i - 1]);
    }
    if i :| 0 <= i < |xs| && Conflict(t, xs[i]) && i > 0 {
      assert Conflict(t, rest[i - 1]);
    }
  }

  /** One element in front of a list that already codes. */
  lemma AllStep(p: Program, t: Table, current: string, enc: Expr, dec: Expr, xs: seq<Val>, w: Val, ws: seq<Val>)
    requires xs != [] && Eval(p, current, enc, xs[0]) == Ok(w) && Decodes(p, t, current, dec, w, xs[0])
    requires EvalAll(p, current, enc, xs[1..]) == Ok(ws) && AllDecode(p, t, current, dec, ws, xs[1..])
    ensures EvalAll(p, current, enc, xs) == Ok([w] + ws)
    ensures AllDecode(p, t, current, dec, [w] + ws, xs)
  {
    EvalCons(p, current, enc, xs, w, ws);
    NormCons(t, xs);
    EvalOnto(p, current, dec, w, ws, Norm(t, xs[0]), NormAll(t, xs[1..]));
    JsonCons(w, ws);
    JsonCons(Norm(t, xs[0]), NormAll(t, xs[1..]));
    EvalOnto(p, current, dec, OverJson(w), OverJsonAll(ws), OverJson(Norm(t, xs[0])), OverJsonAll(NormAll(t, xs[1..])));
  }

  lemma EvalOnto(p: Program, current: string, e: Expr, w: Val, ws: seq<Val>, y: Val, ys: seq<Val>)
    requires Eval(p, current, e, w) == Ok(y) && EvalAll(p, current, e, ws) == Ok(ys)
    ensures EvalAll(p, current, e, [w] + ws) == Ok([y] + ys)
  {
    assert ([w] + ws)[1..] == ws;
    EvalCons(p, current, e, [w] + ws, y, ys);
  }

  lemma JsonCons(w: Val, ws: seq<Val>)
    ensures OverJsonAll([w] + ws) == [OverJson(w)] + OverJsonAll(ws)
  {
  }

  lemma NormCons(t: Table, xs: seq<Val>)
    requires xs != []
    ensures NormAll(t, xs) == [Norm(t, xs[0])] + NormAll(t, xs[1..])
  {
  }

  lemma EvalCons(p: Program, current: string, e: Expr, xs: seq<Val>, y: Val, ys: seq<Val>)
    requires xs != [] && Eval(p, current, e, xs[0]) == Ok(y) && EvalAll(p, current, e, xs[1..]) == Ok(ys)
    ensures EvalAll(p, current, e, xs) == Ok([y] + ys)
  {
  }

  lemma ListCompIs(p: Program, current: string, e: Expr, xs: seq<Val>)
    ensures var r := EvalAll(p, current, e, xs);
            Eval(p, current, ListComp(e), VList(xs)) == if r.Ok? then Ok(VList(r.value)) else Raise(r.error)
  {
  }

  lemma ListDecodes(p: Program, t: Table, current: string, dec: Expr, ws: seq<Val>, xs: seq<Val>)
    requires AllDecode(p, t, current, dec, ws, xs)
    ensures Decodes(p, t, current, ListComp(dec), VList(ws), VList(xs))
  {
    ListCompIs(p, current, dec, ws);
    ListCompIs(p, current, dec, OverJsonAll(ws));
    assert OverJson(VList(ws)) == VList(OverJsonAll(ws));
    assert OverJson(VList(NormAll(t, xs))) == VList(OverJsonAll(NormAll(t, xs)));
  }

  lemma ListCodes(p: Program, t: Table, current: string, enc: Expr, dec: Expr, xs: seq<Val>)
    requires forall x :: x in xs ==> Codes(p, t, current, enc, dec, x)
    ensures Codes(p, t, current, ListComp(enc), ListComp(dec), VList(xs))
  {
    AllCode(p, t, current, enc, dec, xs);
    ListCompIs(p, current, enc, xs);
    if !Stuck(t, VList(xs)) && !Conflict(t, VList(xs)) {
      ListDecodes(p, t, current, dec, EvalAll(p, current, enc, xs).value, xs);
    }
  }

  lemma DictCodes(p: Program, t: Table, current: string, enc: Expr, dec: Expr, m: map<MapKey, Val>)
    requires OneKind(m) && forall k :: k in m ==> Codes(p, t, current, enc, dec, m[k])
    ensures Codes(p, t, current, DictComp(enc), DictComp(dec), VDict(m))
  {
    if k :| k in m && Stuck(t, m[k]) {
      DictStuck(p, t, current, enc, dec, m, k);
    } else if k :| k in m && Conflict(t, m[k]) {
      DictRaises(p, t, current, enc, dec, m, k);
    } else {
      forall k | k in m ensures Clean(p, t, current, enc, dec, m[k]) {
        CodesClean(p, t, current, enc, dec, m[k]);
      }
      DictEncodes(p, t, current, enc, dec, m);
    }
  }

  lemma DictStuck(p: Program, t: Table, current: string, enc: Expr, dec: Expr, m: map<MapKey, Val>, k: MapKey)
    requires k in m && Stuck(t, m[k]) && Codes(p, t, current, enc, dec, m[k])
    ensures Codes(p, t, current, DictComp(enc), DictComp(dec), VDict(m))
  {
    assert EvalEach(p, current, enc, VDict(m)).Raise?;
    DictHolds(t, m);
    DictCompIs(p, current, enc, VDict(m));
    CodesStuck(p, t, current, DictComp(enc), DictComp(dec), VDict(m));
  }

  lemma DictRaises(p: Program, t: Table, current: string, enc: Expr, dec: Expr, m: map<MapKey, Val>, k: MapKey)
    requires forall k :: k in m ==> Codes(p, t, current, enc, dec, m[k]) && !Stuck(t, m[k])
    requires k in m && Conflict(t, m[k])
    ensures Codes(p, t, current, DictComp(enc), DictComp(dec), VDict(m))
  {
    forall j | j in m ensures OneofOnly(p, current, enc, m[j]) {
      CodesOneof(p, t, current, enc, dec, m[j]);
    }
    CodesOneof(p, t, current, enc, dec, m[k]);
    EachRaises(p, current, enc, m, k);
    DictHolds(t, m);
    DictCompIs(p, current, enc, VDict(m));
    CodesRaise(p, t, current, DictComp(enc), DictComp(dec), VDict(m));
  }

  /** If the value does not encode, it is for the oneof error. */
  ghost predicate OneofOnly(p: Program, current: string, enc: Expr, v: Val) {
    Eval(p, current, enc, v).Ok? || Eval(p, current, enc, v) == Raise(ValueError)
  }

  lemma CodesOneof(p: Program, t: Table, current: string, enc: Expr, dec: Expr, v: Val)
    requires Codes(p, t, current, enc, dec, v) && !Stuck(t, v)
    ensures OneofOnly(p, current, enc, v) && (Conflict(t, v) ==> Eval(p, current, enc, v).Raise?)
  {
  }

  lemma EachRaises(p: Program, current: string, enc: Expr, m: map<MapKey, Val>, k: MapKey)
    requires forall j :: j in m ==> OneofOnly(p, current, enc, m[j])
    requires k in m && Eval(p, current, enc, m[k]).Raise?
    ensures EvalEach(p, current, enc, VDict(m)) == Raise(ValueError)
  {
    var r := EvalEach(p, current, enc, VDict(m));
    assert r.Raise?;
    var j :| j in m && Eval(p, current, enc, m[j]) == Raise(r.error);
    assert OneofOnly(p, current, enc, m[j]);
  }

  lemma DictHolds(t: Table, m: map<MapKey, Val>)
    ensures Stuck(t, VDict(m)) <==> exists k :: k in m && Stuck(t, m[k])
    ensures Conflict(t, VDict(m)) <==> exists k :: k in m && Conflict(t, m[k])
  {
  }

  lemma CodesRaise(p: Program, t: Table, current: string, enc: Expr, dec: Expr, v: Val)
    requires !Stuck(t, v) && Conflict(t, v) && Eval(p, current, enc, v) == Raise(ValueError)
    ensures Codes(p, t, current, enc, dec, v)
  {
  }

  lemma CodesStuck(p: Program, t: Table, current: string, enc: Expr, dec: Expr, v: Val)
    requires Stuck(t, v) && Eval(p, current, enc, v).Raise?
    ensures Codes(p, t, current, enc, dec, v)
  {
  }

  lemma DictCompIs(p: Program, current: string, e: Expr, d: Val)
    requires d.VDict?
    ensures var r := EvalEach(p, current, e, d);
            Eval(p, current, DictComp(e), d) == if r.Ok? then Ok(VDict(r.value)) else Raise(r.error)
  {
  }

  /** The value encodes, and decodes to what it was. */
  ghost predicate Clean(p: Program, t: Table, current: string, enc: Expr, dec: Expr, v: Val) {
    var w := Eval(p, current, enc, v);
    && w.Ok? && Decodes(p, t, current, dec, w.value, v)
    && !Stuck(t, v) && !Conflict(t, v)
  }

  lemma CodesClean(p: Program, t: Table, current: string, enc: Expr, dec: Expr, v: Val)
    requires Codes(p, t, current, enc, dec, v) && !Stuck(t, v) && !Conflict(t, v)
    ensures Clean(p, t, current, enc, dec, v)
  {
  }

  lemma DictEncodes(p: Program, t: Table, current: string, enc: Expr, dec: Expr, m: map<MapKey, Val>)
    requires OneKind(m) && forall k :: k in m ==> Clean(p, t, current, enc, dec, m[k])
    ensures Codes(p, t, current, DictComp(enc), DictComp(dec), VDict(m))
  {
    var ws := DictGoes(p, t, current, enc, dec, m);
    DictBack(p, t, current, dec, m, ws);
    DictHolds(t, m);
    CodesVia(p, t, current, DictComp(enc), DictComp(dec), VDict(m), VDict(ws));
  }

  lemma DictGoes(p: Program, t: Table, current: string, enc: Expr, dec: Expr, m: map<MapKey, Val>) returns (ws: map<MapKey, Val>)
    requires forall k :: k in m ==> Clean(p, t, current, enc, dec, m[k])
    ensures Eval(p, current, DictComp(enc), VDict(m)) == Ok(VDict(ws))
    ensures ws.Keys == m.Keys && forall k :: k in m ==> Decodes(p, t, current, dec, ws[k], m[k])
  {
    var r := EvalEach(p, current, enc, VDict(m));
    DictCompIs(p, current, enc, VDict(m));
    assert r.Ok?;
    ws := r.value;
    forall k | k in m ensures Decodes(p, t, current, dec, ws[k], m[k]) {
      assert Clean(p, t, current, enc, dec, m[k]);
    }
  }

  lemma DictBack(p: Program, t: Table, current: string, dec: Expr, m: map<MapKey, Val>, ws: map<MapKey, Val>)
    requires OneKind(m) && ws.Keys == m.Keys
    requires forall k :: k in m ==> Decodes(p, t, current, dec, ws[k], m[k])
    ensures Decodes(p, t, current, DictComp(dec), VDict(ws), VDict(m))
  {
    forall k | k in m ensures Eval(p, current, dec, ws[k]) == Ok(NormEach(t, VDict(m))[k]) {
      assert Decodes(p, t, current, dec, ws[k], m[k]);
    }
    EachBack(p, current, dec, ws, NormEach(t, VDict(m)));
    NormDict(t, m);
    TextBack(p, t, current, dec, m, ws);
  }

  /** The same by way of JSON text: different keys have different texts. */
  lemma TextBack(p: Program, t: Table, current: string, dec: Expr, m: map<MapKey, Val>, ws: map<MapKey, Val>)
    requires OneKind(m) && ws.Keys == m.Keys
    requires forall k :: k in m ==> Decodes(p, t, current, dec, ws[k], m[k])
    ensures Eval(p, current, DictComp(dec), OverJson(VDict(ws))) == Ok(OverJson(Norm(t, VDict(m))))
  {
    var ns := NormEach(t, VDict(m));
    SameKinds(m, ws, ns);
    forall k | k in ns ensures Eval(p, current, dec, OverJson(ws[k])) == Ok(OverJson(ns[k])) {
      assert k in m && Decodes(p, t, current, dec, ws[k], m[k]);
    }
    TextMaps(p, current, dec, ws, ns);
    NormDict(t, m);
    DictText(ws);
    DictText(ns);
  }

  lemma DictText(m: map<MapKey, Val>)
    ensures OverJson(VDict(m)) == VDict(OverJsonEach(VDict(m)))
  {
  }

  lemma TextMaps(p: Program, current: string, dec: Expr, ws: map<MapKey, Val>, ns: map<MapKey, Val>)
    requires OneKind(ws) && OneKind(ns) && ws.Keys == ns.Keys
    requires forall k :: k in ns ==> Eval(p, current, dec, OverJson(ws[k])) == Ok(OverJson(ns[k]))
    ensures Eval(p, current, DictComp(dec), VDict(OverJsonEach(VDict(ws)))) == Ok(VDict(OverJsonEach(VDict(ns))))
  {
    TextEach(p, current, dec, ws, ns);
    EachBack(p, current, dec, OverJsonEach(VDict(ws)), OverJsonEach(VDict(ns)));
  }

  lemma TextEach(p: Program, current: string, dec: Expr, ws: map<MapKey, Val>, ns: map<MapKey, Val>)
    requires OneKind(ws) && OneKind(ns) && ws.Keys == ns.Keys
    requires forall k :: k in ns ==> Eval(p, current, dec, OverJson(ws[k])) == Ok(OverJson(ns[k]))
    ensures OverJsonEach(VDict(ws)).Keys == OverJsonEach(VDict(ns)).Keys
    ensures forall s :: s in OverJsonEach(VDict(ns)) ==>
              Eval(p, current, dec, OverJsonEach(VDict(ws))[s]) == Ok(OverJsonEach(VDict(ns))[s])
  {
    SameTexts(ws, ns);
    forall s | s in OverJsonEach(VDict(ns))
      ensures Eval(p, current, dec, OverJsonEach(VDict(ws))[s]) == Ok(OverJsonEach(VDict(ns))[s])
    {
      TextAt(p, current, dec, ws, ns, KeyWith(ns, s));
    }
  }

  lemma TextAt(p: Program, current: string, dec: Expr, ws: map<MapKey, Val>, ns: map<MapKey, Val>, k: MapKey)
    requires OneKind(ws) && OneKind(ns) && k in ws && k in ns
    requires Eval(p, current, dec, OverJson(ws[k])) == Ok(OverJson(ns[k]))
    ensures var s := Str(KeyText(k));
            && s in OverJsonEach(VDict(ws)) && s in OverJsonEach(VDict(ns))
            && Eval(p, current, dec, OverJsonEach(VDict(ws))[s]) == Ok(OverJsonEach(VDict(ns))[s])
  {
    EachAt(VDict(ws), k);
    EachAt(VDict(ns), k);
  }

  lemma SameTexts(a: map<MapKey, Val>, b: map<MapKey, Val>)
    requires a.Keys == b.Keys
    ensures Texts(a) == Texts(b)
  {
  }

  lemma SameKinds(m: map<MapKey, Val>, a: map<MapKey, Val>, b: map<MapKey, Val>)
    requires OneKind(m) && a.Keys == m.Keys && b.Keys == m.Keys
    ensures OneKind(a) && OneKind(b)
  {
    assert forall k :: k in a ==> k in m;
    assert forall k :: k in b ==> k in m;
  }

  lemma NormDict(t: Table, m: map<MapKey, Val>)
    ensures Norm(t, VDict(m)) == VDict(NormEach(t, VDict(m)))
  {
  }

  lemma EachBack(p: Program, current: string, dec: Expr, ws: map<MapKey, Val>, ns: map<MapKey, Val>)
    requires ws.Keys == ns.Keys && forall k :: k in ns ==> Eval(p, current, dec, ws[k]) == Ok(ns[k])
    ensures EvalEach(p, current, dec, VDict(ws)) == Ok(ns)
    ensures Eval(p, current, DictComp(dec), VDict(ws)) == Ok(VDict(ns))
  {
    var r := EvalEach(p, current, dec, VDict(ws));
    forall k | k in ws ensures Eval(p, current, dec, ws[k]) == Ok(ns[k]) {
      assert k in ns;
    }
    assert r.Ok?;
    SameEntries(r.value, ns);
    DictCompIs(p, current, dec, VDict(ws));
  }

  lemma SameEntries(a: map<MapKey, Val>, b: map<MapKey, Val>)
    requires a.Keys == b.Keys && forall k :: k in a ==> a[k] == b[k]
    ensures a == b
  {
  }
}
