/** What JSON text does to a value: the keys of a dictionary come back as strings,
    all else as it was. */
module Json {
  import opened Py
  import opened Schema
  import Decimal

  /** The name json.dumps writes for a key. */
  function KeyText(k: MapKey): string {
    match k
    case Str(s) => s
    case Int(n) => Decimal.IntText(n)
    case Bool(b) => if b then "true" else "false"
  }

  function Texts(m: map<MapKey, Val>): set<MapKey> {
    set k | k in m :: Str(KeyText(k))
  }

  /** A key of m with that text. */
  ghost function KeyWith(m: map<MapKey, Val>, text: MapKey): (k: MapKey)
    requires text in Texts(m)
    ensures k in m && Str(KeyText(k)) == text
  {
    var k :| k in m && Str(KeyText(k)) == text;
    k
  }

  /** json.loads(json.dumps(v)) of a wire value; of an object, the same for what
      its attributes hold. */
  ghost function OverJson(v: Val): Val
    decreases v, 1
  {
    match v
    case VList(xs) => VList(OverJsonAll(xs))
    case VDict(_) => VDict(OverJsonEach(v))
    case VObj(cls, _) => VObj(cls, OverJsonAttrs(v))
    case _ => v
  }

  ghost function OverJsonAll(xs: seq<Val>): (r: seq<Val>)
    ensures |r| == |xs|
    ensures forall i :: 0 <= i < |xs| ==> r[i] == OverJson(xs[i])
    decreases xs, 2
  {
    seq(|xs|, i requires 0 <= i < |xs| => OverJson(xs[i]))
  }

  ghost function OverJsonEach(d: Val): (r: map<MapKey, Val>)
    requires d.VDict?
    ensures r.Keys == Texts(d.m)
    ensures forall s :: s in r ==> r[s] == OverJson(d.m[KeyWith(d.m, s)])
    decreases d, 0
  {
    map s | s in Texts(d.m) :: OverJson(d.m[KeyWith(d.m, s)])
  }

  ghost function OverJsonAttrs(o: Val): (r: map<string, Val>)
    requires o.VObj?
    ensures r.Keys == o.attrs.Keys
    ensures forall a :: a in o.attrs ==> r[a] == OverJson(o.attrs[a])
    decreases o, 0
  {
    map a | a in o.attrs :: OverJson(o.attrs[a])
  }

  // ----- keys -----

  lemma IntTextDiffers(m: int, n: int)
    requires Decimal.IntText(m) == Decimal.IntText(n)
    ensures m == n
  {
    Decimal.IntTextRoundTrip(m);
    Decimal.IntTextRoundTrip(n);
  }

  /** Keys of one type have different texts. */
  lemma KeysDiffer(m: map<MapKey, Val>, j: MapKey, k: MapKey)
    requires OneKind(m) && j in m && k in m && KeyText(j) == KeyText(k)
    ensures j == k
  {
    if j.Int? && k.Int? {
      IntTextDiffers(j.n, k.n);
    }
  }

  lemma EachAt(d: Val, k: MapKey)
    requires d.VDict? && OneKind(d.m) && k in d.m
    ensures Str(KeyText(k)) in OverJsonEach(d) && OverJsonEach(d)[Str(KeyText(k))] == OverJson(d.m[k])
  {
    var s := Str(KeyText(k));
    assert s in Texts(d.m);
    KeysDiffer(d.m, KeyWith(d.m, s), k);
  }

  /** All keys are strings. */
  predicate AllStr(m: map<MapKey, Val>) {
    forall k :: k in m ==> k.Str?
  }

  /** With string keys, the keys stay. */
  lemma StrKeysStay(d: Val)
    requires d.VDict? && AllStr(d.m)
    ensures OverJsonEach(d).Keys == d.m.Keys
    ensures forall k :: k in d.m ==> OverJsonEach(d)[k] == OverJson(d.m[k])
  {
    assert OneKind(d.m);
    forall k | k in d.m ensures k in OverJsonEach(d) && OverJsonEach(d)[k] == OverJson(d.m[k]) {
      EachAt(d, k);
      assert Str(KeyText(k)) == k;
    }
    forall s | s in OverJsonEach(d) ensures s in d.m {
      var k := KeyWith(d.m, s);
      assert Str(KeyText(k)) == k;
    }
  }

  /** Every map key in the value is a string. */
  ghost predicate StringKeys(v: Val) {
    match v
    case VList(xs) => forall i :: 0 <= i < |xs| ==> StringKeys(xs[i])
    case VDict(m) => AllStr(m) && forall k :: k in m ==> StringKeys(m[k])
    case VObj(_, attrs) => forall a :: a in attrs ==> StringKeys(attrs[a])
    case _ => true
  }

  ghost predicate TextKeeps(v: Val) {
    OverJson(v) == v <==> StringKeys(v)
  }

  lemma ListKeeps(xs: seq<Val>)
    requires forall i :: 0 <= i < |xs| ==> TextKeeps(xs[i])
    ensures TextKeeps(VList(xs))
  {
    assert OverJsonAll(xs) == xs <==> forall i :: 0 <= i < |xs| ==> OverJsonAll(xs)[i] == xs[i];
    assert forall i :: 0 <= i < |xs| ==> (OverJsonAll(xs)[i] == xs[i] <==> StringKeys(xs[i]));
  }

  lemma DictKeeps(v: Val)
    requires v.VDict? && forall k :: k in v.m ==> TextKeeps(v.m[k])
    ensures TextKeeps(v)
  {
    if AllStr(v.m) {
      StrKeysStay(v);
      SameDict(OverJsonEach(v), v.m);
      assert forall k :: k in v.m ==> (OverJsonEach(v)[k] == v.m[k] <==> StringKeys(v.m[k]));
    } else {
      var k :| k in v.m && !k.Str?;
      assert k !in OverJsonEach(v);
    }
  }

  lemma SameDict(a: map<MapKey, Val>, b: map<MapKey, Val>)
    requires a.Keys == b.Keys
    ensures a == b <==> forall k :: k in b ==> a[k] == b[k]
  {
  }

  lemma ObjectKeeps(v: Val)
    requires v.VObj? && forall a :: a in v.attrs ==> TextKeeps(v.attrs[a])
    ensures TextKeeps(v)
  {
    SameAttrs(OverJsonAttrs(v), v.attrs);
    assert forall a :: a in v.attrs ==> (OverJsonAttrs(v)[a] == v.attrs[a] <==> StringKeys(v.attrs[a]));
  }

  /** JSON text keeps a value exactly when all its map keys are strings. */
  lemma {:induction false} JsonKeeps(v: Val)
    ensures TextKeeps(v)
    decreases v
  {
    match v
    case VList(xs) =>
      forall i | 0 <= i < |xs| ensures TextKeeps(xs[i]) {
        JsonKeeps(xs[i]);
      }
      ListKeeps(xs);
    case VDict(m) =>
      forall k | k in m ensures TextKeeps(m[k]) {
        JsonKeeps(m[k]);
      }
      DictKeeps(v);
    case VObj(_, attrs) =>
      forall a | a in attrs ensures TextKeeps(attrs[a]) {
        JsonKeeps(attrs[a]);
      }
      ObjectKeeps(v);
    case _ =>
  }

  /** The value's keys and those of its normal form are strings alike. */
  ghost predicate KeysAlike(v: Val, w: Val) {
    StringKeys(v) <==> StringKeys(w)
  }

  lemma ListAlike(xs: seq<Val>, ys: seq<Val>)
    requires |xs| == |ys| && forall i :: 0 <= i < |xs| ==> KeysAlike(xs[i], ys[i])
    ensures KeysAlike(VList(xs), VList(ys))
  {
    assert forall i :: 0 <= i < |xs| ==> (StringKeys(xs[i]) <==> StringKeys(ys[i]));
  }

  lemma DictAlike(m: map<MapKey, Val>, n: map<MapKey, Val>)
    requires m.Keys == n.Keys && forall k :: k in m ==> KeysAlike(m[k], n[k])
    ensures KeysAlike(VDict(m), VDict(n))
  {
    assert forall k :: k in m ==> (StringKeys(m[k]) <==> StringKeys(n[k]));
  }

  lemma ObjectAlike(cls: ClassId, m: map<string, Val>, n: map<string, Val>)
    requires m.Keys == n.Keys && forall a :: a in m ==> KeysAlike(m[a], n[a])
    ensures KeysAlike(VObj(cls, m), VObj(cls, n))
  {
    assert forall a :: a in m ==> (StringKeys(m[a]) <==> StringKeys(n[a]));
  }

  /** Normalising leaves the keys as they are. */
  lemma {:induction false} NormKeepsKeys(t: Table, v: Val)
    ensures KeysAlike(v, Norm(t, v))
    decreases v
  {
    match v
    case VList(xs) =>
      forall i | 0 <= i < |xs| ensures KeysAlike(xs[i], NormAll(t, xs)[i]) {
        NormKeepsKeys(t, xs[i]);
      }
      ListAlike(xs, NormAll(t, xs));
    case VDict(m) =>
      forall k | k in m ensures KeysAlike(m[k], NormEach(t, v)[k]) {
        NormKeepsKeys(t, m[k]);
      }
      DictAlike(m, NormEach(t, v));
    case VObj(cls, attrs) =>
      forall a | a in attrs ensures KeysAlike(attrs[a], NormAttrs(t, v)[a]) {
        NormKeepsKeys(t, attrs[a]);
      }
      ObjectAlike(cls, attrs, NormAttrs(t, v));
    case _ =>
  }
}
