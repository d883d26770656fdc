/** The wire form of a value, by the proto types of its fields and independently of
    the generator, and the proof that to_dict writes exactly that. */
module Wire {
  import opened Wrappers
  import opened Proto
  import opened Registry
  import opened Py
  import opened Render
  import opened Schema
  import opened Codec
  import opened ObjectCodec
  import opened RoundTrip
  import Duration

  // ----- the wire form -----

  /** w is one value of the field on the wire. */
  ghost predicate ElemWire(t: Table, reg: Registry, f: Field, v: Val, w: Val)
    decreases v, 1
  {
    if !f.typ.TMessage? then ScalarWire(f.typ, v, w)
    else if f.typeName == ".google.protobuf.Timestamp" then v.VTime? && w == VStamp(Instant(v.local, v.zone))
    else if f.typeName == ".google.protobuf.Duration" then v.VDelta? && w == VStr(Duration.DurOut(v.micros))
    else ObjectWire(t, reg, v, w)
  }

  /** Lists and maps go element by element, maps under their own keys. */
  ghost predicate ValueWire(t: Table, reg: Registry, f: Field, v: Val, w: Val)
    decreases v, 2
  {
    if IsMap(f, reg) then
      && v.VDict? && w.VDict? && w.m.Keys == v.m.Keys
      && forall k :: k in v.m ==> ElemWire(t, reg, EntryField(reg.entries[f.typeName]), v.m[k], w.m[k])
    else if f.repeated then
      && v.VList? && w.VList? && |w.xs| == |v.xs|
      && forall i :: 0 <= i < |v.xs| ==> ElemWire(t, reg, f, v.xs[i], w.xs[i])
    else ElemWire(t, reg, f, v, w)
  }

  /** An object has the JSON names of its present fields for keys. */
  ghost predicate ObjectWire(t: Table, reg: Registry, v: Val, w: Val)
    decreases v, 0
  {
    && v.VObj? && v.cls in t && w.VDict?
    && (forall i :: 0 <= i < |t[v.cls].fields| ==> PyAttr(t[v.cls].fields[i].name) in v.attrs)
    && (forall i :: 0 <= i < |t[v.cls].fields| ==>
          var f := t[v.cls].fields[i];
          var x := v.attrs[PyAttr(f.name)];
          && (Str(f.jsonName) in w.m <==> Present(f, reg, x))
          && (Str(f.jsonName) in w.m ==> ValueWire(t, reg, f, x, w.m[Str(f.jsonName)])))
    && (forall k :: k in w.m ==> exists i :: 0 <= i < |t[v.cls].fields| && Str(t[v.cls].fields[i].jsonName) == k)
  }

  // ----- one wire form at most -----

  /** A message type of the schema's own. */
  predicate NotScalar(f: Field) {
    f.typ.TMessage? && !WellKnown(f.typeName)
  }

  lemma ElemObject(t: Table, reg: Registry, f: Field, v: Val, w: Val)
    requires NotScalar(f)
    ensures ElemWire(t, reg, f, v, w) <==> ObjectWire(t, reg, v, w)
  {
  }

  lemma LeafUnique(t: Table, reg: Registry, f: Field, v: Val, w: Val, w': Val)
    requires ElemWire(t, reg, f, v, w) && ElemWire(t, reg, f, v, w') && !NotScalar(f)
    ensures w == w'
  {
    if f.typ.TMessage? {
      TimeUnique(t, reg, f, v, w, w');
    } else {
      ScalarUnique(f.typ, v, w, w');
    }
  }

  lemma TimeUnique(t: Table, reg: Registry, f: Field, v: Val, w: Val, w': Val)
    requires f.typ.TMessage? && WellKnown(f.typeName) && ElemWire(t, reg, f, v, w) && ElemWire(t, reg, f, v, w')
    ensures w == w'
  {
  }

  lemma ScalarUnique(typ: FieldType, v: Val, w: Val, w': Val)
    requires ScalarWire(typ, v, w) && ScalarWire(typ, v, w')
    ensures w == w'
  {
  }

  lemma {:induction false} ElemUnique(t: Table, reg: Registry, f: Field, v: Val, w: Val, w': Val)
    requires ElemWire(t, reg, f, v, w) && ElemWire(t, reg, f, v, w')
    ensures w == w'
    decreases v, 1
  {
    if NotScalar(f) {
      ElemObject(t, reg, f, v, w);
      ElemObject(t, reg, f, v, w');
      ObjectUnique(t, reg, v, w, w');
    } else {
      LeafUnique(t, reg, f, v, w, w');
    }
  }

  lemma {:induction false} ValueUnique(t: Table, reg: Registry, f: Field, v: Val, w: Val, w': Val)
    requires ValueWire(t, reg, f, v, w) && ValueWire(t, reg, f, v, w')
    ensures w == w'
    decreases v, 2
  {
    if IsMap(f, reg) {
      forall k | k in v.m ensures w.m[k] == w'.m[k] {
        ElemUnique(t, reg, EntryField(reg.entries[f.typeName]), v.m[k], w.m[k], w'.m[k]);
      }
      assert w.m == w'.m;
    } else if f.repeated {
      forall i | 0 <= i < |v.xs| ensures w.xs[i] == w'.xs[i] {
        ElemUnique(t, reg, f, v.xs[i], w.xs[i], w'.xs[i]);
      }
      assert w.xs == w'.xs;
    } else {
      ElemUnique(t, reg, f, v, w, w');
    }
  }

  /** The field behind a key of the wire object. */
  lemma FieldOfKey(t: Table, reg: Registry, v: Val, w: Val, k: MapKey) returns (i: nat)
    requires ObjectWire(t, reg, v, w) && k in w.m
    ensures v.cls in t && i < |t[v.cls].fields| && Str(t[v.cls].fields[i].jsonName) == k
    ensures PyAttr(t[v.cls].fields[i].name) in v.attrs
  {
    i :| 0 <= i < |t[v.cls].fields| && Str(t[v.cls].fields[i].jsonName) == k;
  }

  lemma KeyWire(t: Table, reg: Registry, v: Val, w: Val, i: nat)
    requires ObjectWire(t, reg, v, w) && i < |t[v.cls].fields|
    ensures var f := t[v.cls].fields[i];
            && PyAttr(f.name) in v.attrs
            && (Str(f.jsonName) in w.m <==> Present(f, reg, v.attrs[PyAttr(f.name)]))
            && (Str(f.jsonName) in w.m ==> ValueWire(t, reg, f, v.attrs[PyAttr(f.name)], w.m[Str(f.jsonName)]))
  {
  }

  lemma SameKeys(t: Table, reg: Registry, v: Val, w: Val, w': Val)
    requires ObjectWire(t, reg, v, w) && ObjectWire(t, reg, v, w')
    ensures forall k :: k in w.m ==> k in w'.m
  {
    forall k | k in w.m ensures k in w'.m {
      var i := FieldOfKey(t, reg, v, w, k);
      KeyWire(t, reg, v, w, i);
      KeyWire(t, reg, v, w', i);
    }
  }

  lemma {:induction false} ObjectUnique(t: Table, reg: Registry, v: Val, w: Val, w': Val)
    requires ObjectWire(t, reg, v, w) && ObjectWire(t, reg, v, w')
    ensures w == w'
    decreases v, 0
  {
    SameKeys(t, reg, v, w, w');
    SameKeys(t, reg, v, w', w);
    forall k | k in w.m ensures w.m[k] == w'.m[k] {
      var i := FieldOfKey(t, reg, v, w, k);
      KeyWire(t, reg, v, w, i);
      KeyWire(t, reg, v, w', i);
      ValueUnique(t, reg, t[v.cls].fields[i], v.attrs[PyAttr(t[v.cls].fields[i].name)], w.m[k], w'.m[k]);
    }
    SameWire(w, w');
  }

  lemma OnlyWire(t: Table, reg: Registry, v: Val, w: Val)
    requires ObjectWire(t, reg, v, w)
    ensures forall x :: ObjectWire(t, reg, v, x) <==> x == w
  {
    forall x | ObjectWire(t, reg, v, x) ensures x == w {
      ObjectUnique(t, reg, v, x, w);
    }
  }

  lemma SameWire(w: Val, w': Val)
    requires w.VDict? && w'.VDict? && w.m.Keys == w'.m.Keys && forall k :: k in w.m ==> w.m[k] == w'.m[k]
    ensures w == w'
  {
    assert w.m == w'.m;
  }

  // ----- to_dict writes it -----

  lemma TimeWritten(p: Program, reg: Registry, t: Table, current: string, f: Field, v: Val, w: Val)
    requires f.typ.TMessage? && WellKnown(f.typeName) && ElemTyped(t, reg, f, v)
    requires Eval(p, current, ListElem(ElemKind(f, reg, current)), v) == Ok(w)
    ensures ElemWire(t, reg, f, v, w)
  {
    TimeKind(reg, current, f);
    if f.typeName == TIMESTAMP {
      StampWritten(p, current, v, w);
    } else {
      DeltaWritten(p, current, v, w);
    }
  }

  lemma StampWritten(p: Program, current: string, v: Val, w: Val)
    requires v.VTime? && Eval(p, current, Call(TsOut), v) == Ok(w)
    ensures w == VStamp(Instant(v.local, v.zone))
  {
  }

  lemma DeltaWritten(p: Program, current: string, v: Val, w: Val)
    requires v.VDelta? && Eval(p, current, Call(DurOut), v) == Ok(w)
    ensures w == VStr(Duration.DurOut(v.micros))
  {
  }

  lemma {:induction false} ElemWritten(p: Program, reg: Registry, t: Table, current: string, f: Field, v: Val, w: Val)
    requires Linked(p, reg, t) && AllRun(p, reg, t) && FieldLinks(p, reg, t, current, f)
    requires GoodElem(f) && !Fixed(f) && !IsMap(f, reg) && ElemTyped(t, reg, f, v) && !Conflict(t, v) && !Stuck(t, v)
    requires Eval(p, current, ListElem(ElemKind(f, reg, current)), v) == Ok(w)
    ensures ElemWire(t, reg, f, v, w)
    decreases v, 1
  {
    if !f.typ.TMessage? {
      ScalarCodec(p, t, current, reg, f, v);
    } else if WellKnown(f.typeName) {
      TimeWritten(p, reg, t, current, f, v, w);
    } else {
      NestedTyped(t, reg, f, v);
      MessageKind(reg, current, f);
      ObjectWritten(p, reg, t, reg.byFQ[f.typeName], v);
      assert Eval(p, current, ToDict, v) == RunToDict(p, v);
    }
  }

  lemma {:induction false} AllElements(p: Program, current: string, e: Expr, xs: seq<Val>, ws: seq<Val>)
    requires EvalAll(p, current, e, xs) == Ok(ws)
    ensures |ws| == |xs| && forall i :: 0 <= i < |xs| ==> Eval(p, current, e, xs[i]) == Ok(ws[i])
    decreases |xs|
  {
    if xs != [] {
      AllElements(p, current, e, xs[1..], ws[1..]);
    }
  }

  lemma ListWritten(p: Program, current: string, e: Expr, xs: seq<Val>, w: Val)
    requires Eval(p, current, ListComp(e), VList(xs)) == Ok(w)
    ensures w.VList? && |w.xs| == |xs| && forall i :: 0 <= i < |xs| ==> Eval(p, current, e, xs[i]) == Ok(w.xs[i])
  {
    AllElements(p, current, e, xs, w.xs);
  }

  lemma DictWritten(p: Program, current: string, e: Expr, m: map<MapKey, Val>, w: Val)
    requires Eval(p, current, DictComp(e), VDict(m)) == Ok(w)
    ensures w.VDict? && w.m.Keys == m.Keys && forall k :: k in m ==> Eval(p, current, e, m[k]) == Ok(w.m[k])
  {
  }

  lemma MapWritten(p: Program, reg: Registry, t: Table, current: string, m: Message, f: Field, g: GenField, v: Val, w: Val)
    requires Rendered(m, f, reg, current, g) && IsMap(f, reg) && FieldTyped(t, reg, f, v)
    requires Eval(p, current, EmitExpr(g.kind), v) == Ok(w)
    ensures ValueWire(t, reg, f, v, w)
  {
    var e := EntryField(reg.entries[f.typeName]);
    MapParts(t, reg, f, v);
    EntryIsGood(m, f, reg, current, g);
    DictWritten(p, current, EncodeScalar(ElemKind(e, reg, current)), v.m, w);
    forall k | k in v.m ensures ElemWire(t, reg, e, v.m[k], w.m[k]) {
      EntryWritten(p, reg, t, current, e, v.m[k], w.m[k]);
    }
    MapIsWire(t, reg, f, v, w);
  }

  lemma MapParts(t: Table, reg: Registry, f: Field, v: Val)
    requires IsMap(f, reg) && FieldTyped(t, reg, f, v)
    ensures v.VDict? && forall k :: k in v.m ==> ElemTyped(t, reg, EntryField(reg.entries[f.typeName]), v.m[k])
  {
  }

  lemma EntryIsGood(m: Message, f: Field, reg: Registry, current: string, g: GenField)
    requires Rendered(m, f, reg, current, g) && IsMap(f, reg)
    ensures var e := EntryField(reg.entries[f.typeName]);
            && GoodElem(e) && !Fixed(e) && !ElemKind(e, reg, current).KMsg?
            && EmitExpr(g.kind) == DictComp(EncodeScalar(ElemKind(e, reg, current)))
  {
    MapKind(m, f, reg, current, g);
  }

  lemma MapIsWire(t: Table, reg: Registry, f: Field, v: Val, w: Val)
    requires IsMap(f, reg) && v.VDict? && w.VDict? && w.m.Keys == v.m.Keys
    requires forall k :: k in v.m ==> ElemWire(t, reg, EntryField(reg.entries[f.typeName]), v.m[k], w.m[k])
    ensures ValueWire(t, reg, f, v, w)
  {
  }

  lemma EntryWritten(p: Program, reg: Registry, t: Table, current: string, f: Field, v: Val, w: Val)
    requires GoodElem(f) && !Fixed(f) && !ElemKind(f, reg, current).KMsg? && ElemTyped(t, reg, f, v)
    requires Eval(p, current, EncodeScalar(ElemKind(f, reg, current)), v) == Ok(w)
    ensures ElemWire(t, reg, f, v, w)
  {
    if f.typ.TMessage? {
      TimeWritten(p, reg, t, current, f, v, w);
    } else {
      ScalarCodec(p, t, current, reg, f, v);
    }
  }

  lemma {:induction false} ValueWritten(p: Program, reg: Registry, t: Table, current: string, m: Message,
                                        f: Field, g: GenField, v: Val, w: Val)
    requires Linked(p, reg, t) && AllRun(p, reg, t) && FieldLinks(p, reg, t, current, f)
    requires Rendered(m, f, reg, current, g) && FieldTyped(t, reg, f, v) && Present(f, reg, v) && !Fixed(f)
    requires !Conflict(t, v) && !Stuck(t, v) && Eval(p, current, EmitExpr(g.kind), v) == Ok(w)
    ensures ValueWire(t, reg, f, v, w)
    decreases v, 2
  {
    if IsMap(f, reg) {
      MapWritten(p, reg, t, current, m, f, g, v, w);
    } else if f.repeated {
      ListIsEmitted(f, reg, current, m, g, v.xs);
      ListWritten(p, current, ListElem(ElemKind(f, reg, current)), v.xs, w);
      forall i | 0 <= i < |v.xs| ensures ElemWire(t, reg, f, v.xs[i], w.xs[i]) {
        PartClean(t, v.xs, i);
        ElemWritten(p, reg, t, current, f, v.xs[i], w.xs[i]);
      }
    } else {
      SingleKind(m, f, reg, current, g);
      SingleExprs(g.kind);
      PresentIsSet(t, reg, f, v);
      ElemWritten(p, reg, t, current, f, v, w);
    }
  }

  lemma PartClean(t: Table, xs: seq<Val>, i: nat)
    requires !Conflict(t, VList(xs)) && !Stuck(t, VList(xs)) && i < |xs|
    ensures !Conflict(t, xs[i]) && !Stuck(t, xs[i])
  {
  }

  lemma PresentIsSet(t: Table, reg: Registry, f: Field, v: Val)
    requires FieldTyped(t, reg, f, v) && Present(f, reg, v) && !IsMap(f, reg) && !f.repeated
    ensures ElemTyped(t, reg, f, v)
  {
  }

  /** A field of the wire object is in its wire form. */
  lemma {:induction false} FieldWritten(p: Program, reg: Registry, t: Table, m: Message, gs: seq<GenField>,
                                        self: Val, d: map<MapKey, Val>, i: nat)
    requires Linked(p, reg, t) && AllRun(p, reg, t) && Sound(t, m, self) && i < |gs|
    requires ObjectOk(p, reg, t, self.cls.mod, m, gs, self.attrs) && WireForm(p, reg, self.cls.mod, m, gs, self.attrs, d)
    requires FieldLinks(p, reg, t, self.cls.mod, m.fields[i]) && FieldTyped(t, reg, m.fields[i], self.attrs[gs[i].attr])
    ensures var x := self.attrs[gs[i].attr];
            && (Str(gs[i].wire) in d <==> Present(m.fields[i], reg, x))
            && (Str(gs[i].wire) in d ==> ValueWire(t, reg, m.fields[i], x, d[Str(gs[i].wire)]))
    decreases self, 0, 0
  {
    var f, g, x := m.fields[i], gs[i], self.attrs[gs[i].attr];
    assert FieldWire(p, reg, self.cls.mod, f, g, x, d);
    SoundField(p, reg, t, self.cls.mod, m, gs, self, i);
    if Str(g.wire) in d {
      ValueWritten(p, reg, t, self.cls.mod, m, f, g, x, d[Str(g.wire)]);
    }
  }

  /** to_dict of every well-typed object without a conflict and without anything
      stuck yields its wire form. */
  lemma {:induction false} ObjectWritten(p: Program, reg: Registry, t: Table, id: ClassId, v: Val)
    requires Linked(p, reg, t) && AllRun(p, reg, t) && ObjTyped(t, reg, id, v) && !Conflict(t, v) && !Stuck(t, v)
    ensures RunToDict(p, v).Ok? && ObjectWire(t, reg, v, RunToDict(p, v).value)
    decreases v, 0, 1
  {
    assert ClassRendered(p, reg, t, id, t[id]) && ClassRuns(p, reg, id, t[id]);
    var m := t[id];
    var gs := ClassBody(p, reg, t, id);
    FieldsOk(p, reg, t, id, v, gs);
    var d := WireTarget(p, reg, t, id.mod, m, gs, v);
    BodiesRun(p, id, v, gs, d);
    ObjectEncodes(p, reg, t, id.mod, m, gs, v, d);
    forall i | 0 <= i < |gs|
      ensures var x := v.attrs[gs[i].attr];
              && (Str(gs[i].wire) in d <==> Present(m.fields[i], reg, x))
              && (Str(gs[i].wire) in d ==> ValueWire(t, reg, m.fields[i], x, d[Str(gs[i].wire)]))
    {
      FieldAt(p, reg, t, id, v, gs, i);
      FieldWritten(p, reg, t, m, gs, v, d, i);
    }
    WireFormIs(p, reg, t, m, gs, v, d);
  }

  lemma WireFormIs(p: Program, reg: Registry, t: Table, m: Message, gs: seq<GenField>, v: Val, d: map<MapKey, Val>)
    requires IsOf(t, m, v) && AllRendered(m, reg, v.cls.mod, gs) && WireForm(p, reg, v.cls.mod, m, gs, v.attrs, d)
    requires forall i :: 0 <= i < |gs| ==>
               var x := v.attrs[gs[i].attr];
               && (Str(gs[i].wire) in d <==> Present(m.fields[i], reg, x))
               && (Str(gs[i].wire) in d ==> ValueWire(t, reg, m.fields[i], x, d[Str(gs[i].wire)]))
    ensures ObjectWire(t, reg, v, VDict(d))
  {
    forall k | k in d ensures exists i :: 0 <= i < |m.fields| && Str(m.fields[i].jsonName) == k {
      var i :| 0 <= i < |gs| && Str(gs[i].wire) == k;
      assert Str(m.fields[i].jsonName) == k;
    }
    assert forall i :: 0 <= i < |m.fields| ==> gs[i].attr == PyAttr(m.fields[i].name) && gs[i].wire == m.fields[i].jsonName;
  }
}
