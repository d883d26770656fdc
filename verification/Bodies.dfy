/** What running a generated class body leaves behind, and what a call of the
    class then makes: exactly when names mean what the generator meant. */
module Bodies {
  import opened Wrappers
  import opened Py

  // ----- the field assignments -----

  predicate DistinctFields(defs: seq<FieldDef>) {
    forall i, j :: 0 <= i < j < |defs| ==> defs[i].attr != defs[j].attr
  }

  /** No field after one called `dataclasses` needs dataclasses.field. */
  ghost predicate FactoriesReach(defs: seq<FieldDef>) {
    forall i, j :: 0 <= i < j < |defs| && defs[i].attr == "dataclasses" ==> !defs[j].rhs.Factory?
  }

  /** The names of the fields and nothing else, each assigned data or a field. */
  ghost predicate OnlyFields(defs: seq<FieldDef>, ns: Namespace) {
    && ns.Keys == (set i | 0 <= i < |defs| :: defs[i].attr)
    && forall k :: k in ns ==> ns[k].Data? || ns[k].AField?
  }

  lemma {:induction false} FieldNamesExact(defs: seq<FieldDef>)
    ensures FieldNames(defs).Ok? <==> FactoriesReach(defs)
    ensures FieldNames(defs).Ok? ==> OnlyFields(defs, FieldNames(defs).value)
  {
    if defs != [] {
      var n := |defs| - 1;
      var before := defs[..n];
      FieldNamesExact(before);
      assert forall i :: 0 <= i < n ==> before[i] == defs[i];
      if FactoriesReach(defs) {
        assert FactoriesReach(before);
        LastReaches(defs);
      } else if FactoriesReach(before) {
        var i, j :| 0 <= i < j < |defs| && defs[i].attr == "dataclasses" && defs[j].rhs.Factory?;
        assert j == n && before[i].attr == "dataclasses";
      }
    }
  }

  lemma AssignedBefore(defs: seq<FieldDef>, n: nat, ns: Namespace, name: string)
    requires n <= |defs| && OnlyFields(defs[..n], ns)
    ensures name in ns <==> exists i :: 0 <= i < n && defs[i].attr == name
    ensures Look(ns, name) == Outer <==> name !in ns
  {
    assert forall i :: 0 <= i < n ==> defs[..n][i] == defs[i];
    if i :| 0 <= i < n && defs[i].attr == name {
      assert defs[..n][i].attr == name;
    }
  }

  lemma LastReaches(defs: seq<FieldDef>)
    requires defs != [] && FactoriesReach(defs)
    requires FieldNames(defs[..|defs| - 1]).Ok? && OnlyFields(defs[..|defs| - 1], FieldNames(defs[..|defs| - 1]).value)
    ensures FieldNames(defs).Ok?
  {
    var n := |defs| - 1;
    var ns := FieldNames(defs[..n]).value;
    if defs[n].rhs.Factory? {
      AssignedBefore(defs, n, ns, "dataclasses");
      assert "dataclasses" !in ns;
    }
  }

  /** What the assignment of the j-th field leaves: its constant, or a field whose
      factory is the built-in unless an earlier attribute has that name. */
  ghost predicate AssignedAt(defs: seq<FieldDef>, ns: Namespace, j: nat)
    requires j < |defs|
  {
    && defs[j].attr in ns
    && match defs[j].rhs
       case Constant(v) => ns[defs[j].attr] == Data(v)
       case Factory(b) =>
         ns[defs[j].attr].AField? && (ns[defs[j].attr].factory == Outer <==> forall i :: 0 <= i < j ==> defs[i].attr != b)
  }

  lemma {:induction false} FieldNameAt(defs: seq<FieldDef>, j: nat)
    requires DistinctFields(defs) && FieldNames(defs).Ok? && j < |defs|
    ensures AssignedAt(defs, FieldNames(defs).value, j)
  {
    var n := |defs| - 1;
    var before := defs[..n];
    assert forall i :: 0 <= i < n ==> before[i] == defs[i];
    FieldNamesExact(before);
    if j < n {
      FieldNameAt(before, j);
    } else {
      LastAssigned(defs);
    }
  }

  lemma LastAssigned(defs: seq<FieldDef>)
    requires defs != [] && FieldNames(defs).Ok? && FieldNames(defs[..|defs| - 1]).Ok?
    requires OnlyFields(defs[..|defs| - 1], FieldNames(defs[..|defs| - 1]).value)
    ensures AssignedAt(defs, FieldNames(defs).value, |defs| - 1)
  {
    var n := |defs| - 1;
    if defs[n].rhs.Factory? {
      AssignedBefore(defs, n, FieldNames(defs[..n]).value, defs[n].rhs.factory);
    }
  }

  // ----- nested classes -----

  ghost predicate NoOuter(ns: Namespace) {
    forall k :: k in ns ==> ns[k] != Outer
  }

  /** Each nested message is decorated with the real dataclasses, and each nested
      body runs. */
  ghost predicate InnerReach(ns: Namespace, inner: seq<PyClass>) {
    && (forall j :: 0 <= j < |inner| && inner[j].Dataclass? ==>
          "dataclasses" !in ns && forall i :: 0 <= i < j ==> inner[i].name != "dataclasses")
    && (forall j :: 0 <= j < |inner| ==> BodyNames(inner[j]).Ok?)
  }

  /** The nested classes are bound over what was there. */
  ghost predicate InnerBound(ns: Namespace, inner: seq<PyClass>, r: Namespace) {
    && (forall k :: k in r <==> k in ns || NamedIn(inner, k))
    && forall k :: k in r ==> r[k] == if NamedIn(inner, k) || k !in ns then Nested else ns[k]
  }

  lemma {:induction false} InnerNamesExact(ns: Namespace, inner: seq<PyClass>)
    requires NoOuter(ns)
    ensures InnerNames(ns, inner).Ok? <==> InnerReach(ns, inner)
    ensures InnerNames(ns, inner).Ok? ==> InnerBound(ns, inner, InnerNames(ns, inner).value)
  {
    if inner != [] {
      var n := |inner| - 1;
      var before := inner[..n];
      InnerNamesExact(ns, before);
      assert forall i :: 0 <= i < n ==> before[i] == inner[i];
      InnerReachLast(ns, inner);
      if InnerNames(ns, inner).Ok? {
        InnerBoundLast(ns, inner);
      }
    }
  }

  lemma InnerReachLast(ns: Namespace, inner: seq<PyClass>)
    requires NoOuter(ns) && inner != []
    requires var before := inner[..|inner| - 1];
             && (InnerNames(ns, before).Ok? <==> InnerReach(ns, before))
             && (InnerNames(ns, before).Ok? ==> InnerBound(ns, before, InnerNames(ns, before).value))
    ensures InnerNames(ns, inner).Ok? <==> InnerReach(ns, inner)
  {
    var n := |inner| - 1;
    var before, last := inner[..n], inner[n];
    assert forall i :: 0 <= i < n ==> before[i] == inner[i];
    if InnerReach(ns, inner) {
      assert InnerReach(ns, before);
    }
    if InnerReach(ns, before) {
      var r := InnerNames(ns, before).value;
      assert Look(r, "dataclasses") == Outer <==> "dataclasses" !in r;
      assert "dataclasses" in r <==> "dataclasses" in ns || NamedIn(before, "dataclasses");
      LastDecorated(ns, inner);
    }
  }

  lemma LastDecorated(ns: Namespace, inner: seq<PyClass>)
    requires inner != [] && InnerReach(ns, inner[..|inner| - 1])
    ensures var n := |inner| - 1;
            InnerReach(ns, inner) <==>
              && BodyNames(inner[n]).Ok?
              && (inner[n].Dataclass? ==>
                    "dataclasses" !in ns && forall i :: 0 <= i < n ==> inner[..n][i].name != "dataclasses")
  {
    var n := |inner| - 1;
    assert forall i :: 0 <= i < n ==> inner[..n][i] == inner[i];
  }

  ghost predicate NamedIn(inner: seq<PyClass>, k: string) {
    exists i :: 0 <= i < |inner| && inner[i].name == k
  }

  lemma NamedLast(inner: seq<PyClass>, k: string)
    requires inner != []
    ensures NamedIn(inner, k) <==> NamedIn(inner[..|inner| - 1], k) || inner[|inner| - 1].name == k
  {
    var n := |inner| - 1;
    if i :| 0 <= i < |inner| && inner[i].name == k && i < n {
      assert inner[..n][i].name == k;
    }
    if i :| 0 <= i < n && inner[..n][i].name == k {
      assert inner[i].name == k;
    }
  }

  lemma InnerBoundLast(ns: Namespace, inner: seq<PyClass>)
    requires inner != [] && InnerNames(ns, inner).Ok?
    requires var before := inner[..|inner| - 1];
             InnerNames(ns, before).Ok? && InnerBound(ns, before, InnerNames(ns, before).value)
    ensures InnerBound(ns, inner, InnerNames(ns, inner).value)
  {
    var n := |inner| - 1;
    BoundLast(ns, inner, InnerNames(ns, inner[..n]).value);
  }

  lemma BoundLast(ns: Namespace, inner: seq<PyClass>, r: Namespace)
    requires inner != [] && InnerBound(ns, inner[..|inner| - 1], r)
    ensures InnerBound(ns, inner, r[inner[|inner| - 1].name := Nested])
  {
    var last := inner[|inner| - 1].name;
    forall k
      ensures k in r[last := Nested] <==> k in ns || NamedIn(inner, k)
      ensures k in r[last := Nested] ==> r[last := Nested][k] == if NamedIn(inner, k) || k !in ns then Nested else ns[k]
    {
      NamedLast(inner, k);
    }
  }

  // ----- the object a call makes -----

  lemma {:induction false} ConstructEach(defs: seq<FieldDef>, ns: Namespace, want: map<string, Val>)
    requires DistinctFields(defs) && want.Keys == set i | 0 <= i < |defs| :: defs[i].attr
    ensures Construct(defs, ns) == Ok(want) <==>
            forall j :: 0 <= j < |defs| ==> defs[j].attr in want && Fresh(ns, defs[j]) == Ok(want[defs[j].attr])
  {
    if defs == [] {
      assert want == map[];
    } else {
      var n := |defs| - 1;
      var last, less := defs[n], want - {defs[n].attr};
      LessWants(defs, want);
      ConstructEach(defs[..n], ns, less);
      ConstructLast(defs, ns, want);
      EachLast(defs, ns, want);
    }
  }

  lemma LessWants(defs: seq<FieldDef>, want: map<string, Val>)
    requires defs != [] && DistinctFields(defs) && want.Keys == set i | 0 <= i < |defs| :: defs[i].attr
    ensures DistinctFields(defs[..|defs| - 1])
    ensures var before := defs[..|defs| - 1];
            (want - {defs[|defs| - 1].attr}).Keys == set i | 0 <= i < |before| :: before[i].attr
  {
    var n := |defs| - 1;
    assert forall i :: 0 <= i < n ==> defs[..n][i] == defs[i];
  }

  /** Each field before the last is made the same whether or not the last counts. */
  lemma EachLast(defs: seq<FieldDef>, ns: Namespace, want: map<string, Val>)
    requires defs != [] && DistinctFields(defs) && want.Keys == set i | 0 <= i < |defs| :: defs[i].attr
    ensures var n, less := |defs| - 1, want - {defs[|defs| - 1].attr};
            (forall j :: 0 <= j < |defs| ==> defs[j].attr in want && Fresh(ns, defs[j]) == Ok(want[defs[j].attr])) <==>
            (&& (forall j :: 0 <= j < n ==> defs[..n][j].attr in less && Fresh(ns, defs[..n][j]) == Ok(less[defs[..n][j].attr]))
             && Fresh(ns, defs[n]) == Ok(want[defs[n].attr]))
  {
    var n, less := |defs| - 1, want - {defs[|defs| - 1].attr};
    forall j | 0 <= j < |defs| ensures defs[j].attr in want && (j < n ==> defs[j].attr in less && defs[..n][j] == defs[j]) {
    }
  }

  lemma ConstructLast(defs: seq<FieldDef>, ns: Namespace, want: map<string, Val>)
    requires defs != [] && DistinctFields(defs) && want.Keys == set i | 0 <= i < |defs| :: defs[i].attr
    ensures var last := defs[|defs| - 1];
            && last.attr in want
            && (Construct(defs, ns) == Ok(want) <==>
                Construct(defs[..|defs| - 1], ns) == Ok(want - {last.attr}) && Fresh(ns, last) == Ok(want[last.attr]))
  {
    var n := |defs| - 1;
    var before, last := defs[..n], defs[n];
    var r := Construct(before, ns);
    ConstructKeys(before, ns);
    assert forall i :: 0 <= i < n ==> before[i] == defs[i];
    if r.Ok? {
      assert last.attr !in r.value;
      Readded(r.value, last.attr);
      assert want == (want - {last.attr})[last.attr := want[last.attr]];
    }
  }

  lemma Readded(m: map<string, Val>, k: string)
    requires k !in m
    ensures forall v: Val {:trigger m[k := v]} :: m[k := v] - {k} == m
  {
  }

  lemma {:induction false} ConstructKeys(defs: seq<FieldDef>, ns: Namespace)
    ensures Construct(defs, ns).Ok? ==> Construct(defs, ns).value.Keys == set i | 0 <= i < |defs| :: defs[i].attr
  {
    if defs != [] {
      var n := |defs| - 1;
      ConstructKeys(defs[..n], ns);
      assert forall i :: 0 <= i < n ==> defs[..n][i] == defs[i];
    }
  }
}
