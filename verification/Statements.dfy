/** The statements renderToDict emits: every field exactly once, every group
    checked, and what running a whole to_dict or from_dict body does. */
module Statements {
  import opened Wrappers
  import opened Py
  import opened Render

  // ----- which statements are rendered -----

  lemma {:induction false} PlainMembers(fields: seq<GenField>, s: Stmt)
    ensures s in PlainPass(fields) <==>
            exists i :: 0 <= i < |fields| && fields[i].oneof == "" && s == EmitOf(fields[i])
  {
    if fields != [] {
      var n := |fields| - 1;
      PlainMembers(fields[..n], s);
    }
  }

  lemma {:induction false} ArmsMembers(fields: seq<GenField>, group: string, f: GenField)
    ensures f in ArmsOf(fields, group) <==> f in fields && f.oneof == group
  {
    if fields != [] {
      var n := |fields| - 1;
      assert fields == fields[..n] + [fields[n]];
      ArmsMembers(fields[..n], group, f);
    }
  }

  lemma {:induction false} GroupsMembers(fields: seq<GenField>, n: nat, g: string)
    requires n <= |fields|
    ensures g in Groups(fields, n) <==> g != "" && exists i :: 0 <= i < n && fields[i].oneof == g
  {
    if n > 0 {
      GroupsMembers(fields, n - 1, g);
    }
  }

  lemma {:induction false} OneofHas(fields: seq<GenField>, n: nat, g: string, s: Stmt)
    requires n <= |fields| && g in Groups(fields, n) && s in GroupStmts(fields, g)
    ensures s in OneofPass(fields, n)
  {
    if g in Groups(fields, n - 1) {
      OneofHas(fields, n - 1, g, s);
    }
  }

  /** What the n-th field adds to the second pass. */
  function PassPart(fields: seq<GenField>, n: nat): seq<Stmt>
    requires 0 < n <= |fields|
  {
    var g := fields[n - 1].oneof;
    if g == "" || g in Groups(fields, n - 1) then [] else GroupStmts(fields, g)
  }

  lemma PassGrows(fields: seq<GenField>, n: nat)
    requires 0 < n <= |fields|
    ensures OneofPass(fields, n) == OneofPass(fields, n - 1) + PassPart(fields, n)
    ensures Groups(fields, n - 1) <= Groups(fields, n)
    ensures PassPart(fields, n) != [] ==> fields[n - 1].oneof in Groups(fields, n)
  {
  }

  lemma {:induction false} OneofFrom(fields: seq<GenField>, n: nat, s: Stmt) returns (g: string)
    requires n <= |fields| && s in OneofPass(fields, n)
    ensures g in Groups(fields, n) && s in GroupStmts(fields, g)
  {
    PassGrows(fields, n);
    if s in OneofPass(fields, n - 1) {
      g := OneofFrom(fields, n - 1, s);
    } else {
      g := fields[n - 1].oneof;
    }
  }

  function CheckOf(fields: seq<GenField>, group: string): Stmt {
    OneofCheck(AttrsOf(ArmsOf(fields, group)))
  }

  lemma GroupMembers(fields: seq<GenField>, group: string, s: Stmt)
    ensures s in GroupStmts(fields, group) <==>
            s == CheckOf(fields, group) || exists f :: f in fields && f.oneof == group && s == EmitOf(f)
  {
    var arms := ArmsOf(fields, group);
    forall f ensures f in arms <==> f in fields && f.oneof == group {
      ArmsMembers(fields, group, f);
    }
    assert GroupStmts(fields, group) == [CheckOf(fields, group)] + EmitsOf(arms);
    if s in EmitsOf(arms) {
      var i :| 0 <= i < |arms| && EmitsOf(arms)[i] == s;
      assert arms[i] in arms;
    }
    if f :| f in fields && f.oneof == group && s == EmitOf(f) {
      assert f in arms;
      var i :| 0 <= i < |arms| && arms[i] == f;
      assert EmitsOf(arms)[i] == s;
    }
  }

  lemma EmitIsRendered(fields: seq<GenField>, i: nat)
    requires i < |fields|
    ensures EmitOf(fields[i]) in ToDictStmts(fields)
  {
    var s, g := EmitOf(fields[i]), fields[i].oneof;
    if g == "" {
      PlainMembers(fields, s);
    } else {
      GroupsMembers(fields, |fields|, g);
      GroupMembers(fields, g, s);
      OneofHas(fields, |fields|, g, s);
    }
  }

  lemma CheckIsRendered(fields: seq<GenField>, i: nat)
    requires i < |fields| && fields[i].oneof != ""
    ensures CheckOf(fields, fields[i].oneof) in ToDictStmts(fields)
  {
    var g := fields[i].oneof;
    var s := CheckOf(fields, g);
    GroupsMembers(fields, |fields|, g);
    GroupMembers(fields, g, s);
    OneofHas(fields, |fields|, g, s);
  }

  /** s is the check of some field's group. */
  ghost predicate ChecksGroup(fields: seq<GenField>, s: Stmt) {
    exists i :: 0 <= i < |fields| && fields[i].oneof != "" && s == CheckOf(fields, fields[i].oneof)
  }

  /** Every rendered statement emits a field or checks a group. */
  lemma RenderedIs(fields: seq<GenField>, s: Stmt)
    requires s in ToDictStmts(fields)
    ensures (exists f :: f in fields && s == EmitOf(f)) || ChecksGroup(fields, s)
  {
    if s in PlainPass(fields) {
      PlainMembers(fields, s);
      var i :| 0 <= i < |fields| && fields[i].oneof == "" && s == EmitOf(fields[i]);
      assert fields[i] in fields;
    } else {
      var g := OneofFrom(fields, |fields|, s);
      GroupsMembers(fields, |fields|, g);
      GroupMembers(fields, g, s);
    }
  }

  // ----- exactly once -----

  /** The emitting statements, in order. */
  function Emits(stmts: seq<Stmt>): seq<Stmt> {
    if stmts == [] then []
    else
      var last := stmts[|stmts| - 1];
      Emits(stmts[..|stmts| - 1]) + (if last.Emit? then [last] else [])
  }

  lemma {:induction false} EmitsAppend(a: seq<Stmt>, b: seq<Stmt>)
    ensures Emits(a + b) == Emits(a) + Emits(b)
  {
    if b == [] {
      assert a + b == a;
    } else {
      var n := |b| - 1;
      assert (a + b)[..|a + b| - 1] == a + b[..n];
      EmitsAppend(a, b[..n]);
    }
  }

  lemma {:induction false} EmitsOfFields(fs: seq<GenField>)
    ensures Emits(EmitsOf(fs)) == EmitsOf(fs)
  {
    if fs != [] {
      var n := |fs| - 1;
      assert EmitsOf(fs)[..n] == EmitsOf(fs[..n]);
      EmitsOfFields(fs[..n]);
    }
  }

  /** The fields of the groups in gs, in field order. */
  function Within(fields: seq<GenField>, gs: set<string>): seq<GenField> {
    if fields == [] then []
    else
      var last := fields[|fields| - 1];
      Within(fields[..|fields| - 1], gs) + (if last.oneof in gs then [last] else [])
  }

  /** The bag of emitting statements of a field list. */
  function Bag(fs: seq<GenField>): multiset<Stmt> {
    multiset(EmitsOf(fs))
  }

  lemma BagAppend(fs: seq<GenField>, f: GenField, keep: bool)
    ensures Bag(fs + (if keep then [f] else [])) == Bag(fs) + (if keep then multiset{EmitOf(f)} else multiset{})
  {
    if keep {
      assert EmitsOf(fs + [f]) == EmitsOf(fs) + [EmitOf(f)];
    } else {
      assert fs + [] == fs;
    }
  }

  lemma {:induction false} WithinSplits(fields: seq<GenField>, gs: set<string>, g: string)
    requires g !in gs
    ensures Bag(Within(fields, gs + {g})) == Bag(Within(fields, gs)) + Bag(ArmsOf(fields, g))
  {
    if fields != [] {
      var n := |fields| - 1;
      var last := fields[n];
      WithinSplits(fields[..n], gs, g);
      BagAppend(Within(fields[..n], gs + {g}), last, last.oneof in gs + {g});
      BagAppend(Within(fields[..n], gs), last, last.oneof in gs);
      BagAppend(ArmsOf(fields[..n], g), last, last.oneof == g);
    }
  }

  lemma {:induction false} WithinNone(fields: seq<GenField>)
    ensures Within(fields, {}) == []
  {
    if fields != [] {
      WithinNone(fields[..|fields| - 1]);
    }
  }

  lemma GroupEmits(fields: seq<GenField>, g: string)
    ensures Emits(GroupStmts(fields, g)) == EmitsOf(ArmsOf(fields, g))
  {
    var check := [OneofCheck(AttrsOf(ArmsOf(fields, g)))];
    EmitsAppend(check, EmitsOf(ArmsOf(fields, g)));
    EmitsOfFields(ArmsOf(fields, g));
    assert check[..0] == [];
  }

  /** The bag of emitting statements of the second pass over n fields. */
  function PassBag(fields: seq<GenField>, n: nat): multiset<Stmt>
    requires n <= |fields|
  {
    multiset(Emits(OneofPass(fields, n)))
  }

  /** The second pass over n fields emits the arms of exactly the groups met. */
  ghost predicate PassDone(fields: seq<GenField>, n: nat) {
    n <= |fields| && PassBag(fields, n) == Bag(Within(fields, Groups(fields, n)))
  }

  lemma PassNone(fields: seq<GenField>)
    ensures PassDone(fields, 0)
  {
    WithinNone(fields);
    assert EmitsOf([]) == [];
  }

  lemma PassSkip(fields: seq<GenField>, n: nat, g: string)
    requires 0 < n <= |fields| && g == fields[n - 1].oneof && (g == "" || g in Groups(fields, n - 1))
    ensures PassBag(fields, n) == PassBag(fields, n - 1) && Groups(fields, n) == Groups(fields, n - 1)
  {
    assert OneofPass(fields, n) == OneofPass(fields, n - 1);
  }

  lemma PassStep(fields: seq<GenField>, n: nat, g: string)
    requires 0 < n <= |fields| && g == fields[n - 1].oneof && g != "" && g !in Groups(fields, n - 1)
    ensures PassBag(fields, n) == PassBag(fields, n - 1) + Bag(ArmsOf(fields, g))
    ensures Groups(fields, n) == Groups(fields, n - 1) + {g}
  {
    EmitsAppend(OneofPass(fields, n - 1), GroupStmts(fields, g));
    GroupEmits(fields, g);
  }

  lemma PassInduction(fields: seq<GenField>, n: nat, g: string)
    requires 0 < n <= |fields| && g == fields[n - 1].oneof
    requires PassDone(fields, n - 1)
    ensures PassDone(fields, n)
  {
    var gs := Groups(fields, n - 1);
    if g == "" || g in gs {
      PassSkip(fields, n, g);
    } else {
      PassStep(fields, n, g);
      WithinSplits(fields, gs, g);
    }
  }

  lemma {:induction false} OneofPassEmits(fields: seq<GenField>, n: nat)
    requires n <= |fields|
    ensures PassDone(fields, n)
  {
    if n == 0 {
      PassNone(fields);
    } else {
      OneofPassEmits(fields, n - 1);
      PassInduction(fields, n, fields[n - 1].oneof);
    }
  }

  lemma {:induction false} PlainPassEmits(fields: seq<GenField>)
    ensures Emits(PlainPass(fields)) == PlainPass(fields)
  {
    if fields != [] {
      var n := |fields| - 1;
      PlainPassEmits(fields[..n]);
      if fields[n].oneof == "" {
        EmitsAppend(PlainPass(fields[..n]), [EmitOf(fields[n])]);
        assert [EmitOf(fields[n])][..0] == [];
      } else {
        assert PlainPass(fields) == PlainPass(fields[..n]);
      }
    }
  }

  lemma {:induction false} PlainOrGrouped(fields: seq<GenField>, gs: set<string>)
    requires forall i :: 0 <= i < |fields| ==> (fields[i].oneof in gs <==> fields[i].oneof != "")
    ensures multiset(PlainPass(fields)) + Bag(Within(fields, gs)) == Bag(fields)
  {
    if fields != [] {
      var n := |fields| - 1;
      PlainOrGrouped(fields[..n], gs);
      BagAppend(fields[..n], fields[n], true);
      BagAppend(Within(fields[..n], gs), fields[n], fields[n].oneof in gs);
      assert fields == fields[..n] + [fields[n]];
    }
  }

  /** The two passes together emit every field exactly once, whatever the
      oneofs: the emitting statements are those of the fields, permuted. */
  lemma EachFieldOnce(fields: seq<GenField>)
    ensures multiset(Emits(ToDictStmts(fields))) == multiset(EmitsOf(fields))
  {
    var gs := Groups(fields, |fields|);
    forall i | 0 <= i < |fields| ensures fields[i].oneof in gs <==> fields[i].oneof != "" {
      GroupsMembers(fields, |fields|, fields[i].oneof);
    }
    PlainPassEmits(fields);
    PlainOrGrouped(fields, gs);
    OneofPassEmits(fields, |fields|);
    EmitsAppend(PlainPass(fields), OneofPass(fields, |fields|));
  }

  // ----- counting the arms of a group -----

  lemma {:induction false} SetArmsAppend(attrs: map<string, Val>, a: seq<string>, b: seq<string>)
    requires forall x :: x in a + b ==> x in attrs
    ensures forall x :: x in a ==> x in attrs
    ensures forall x :: x in b ==> x in attrs
    ensures SetArms(attrs, a + b) == SetArms(attrs, a) + SetArms(attrs, b)
  {
    forall x | x in a ensures x in attrs { assert x in a + b; }
    forall x | x in b ensures x in attrs { assert x in a + b; }
    if a == [] {
      assert a + b == b;
    } else {
      assert (a + b)[1..] == a[1..] + b;
      SetArmsAppend(attrs, a[1..], b);
    }
  }

  /** The field is a set arm of the group. */
  predicate SetArm(attrs: map<string, Val>, f: GenField, group: string) {
    f.oneof == group && f.attr in attrs && attrs[f.attr] != VNone
  }

  lemma {:induction false} ArmAttrsStored(attrs: map<string, Val>, fields: seq<GenField>, group: string)
    requires forall i :: 0 <= i < |fields| ==> fields[i].attr in attrs
    ensures forall x :: x in AttrsOf(ArmsOf(fields, group)) ==> x in attrs
  {
    var arms := ArmsOf(fields, group);
    forall x | x in AttrsOf(arms) ensures x in attrs {
      var i :| 0 <= i < |arms| && AttrsOf(arms)[i] == x;
      ArmsMembers(fields, group, arms[i]);
    }
  }

  lemma {:induction false} CountArms(attrs: map<string, Val>, fields: seq<GenField>, group: string)
    requires forall i :: 0 <= i < |fields| ==> fields[i].attr in attrs
    ensures forall x :: x in AttrsOf(ArmsOf(fields, group)) ==> x in attrs
    ensures SetArms(attrs, AttrsOf(ArmsOf(fields, group))) > 0 <==>
            exists i :: 0 <= i < |fields| && SetArm(attrs, fields[i], group)
    ensures SetArms(attrs, AttrsOf(ArmsOf(fields, group))) > 1 <==>
            exists i, j :: 0 <= i < j < |fields| && SetArm(attrs, fields[i], group) && SetArm(attrs, fields[j], group)
  {
    ArmAttrsStored(attrs, fields, group);
    if fields != [] {
      var n := |fields| - 1;
      var fs := fields[..n];
      CountArms(attrs, fs, group);
      assert forall i :: 0 <= i < n ==> fs[i] == fields[i];
      if fields[n].oneof == group {
        LastArm(attrs, fields, group);
        if SetArm(attrs, fields[n], group) && SetArms(attrs, AttrsOf(ArmsOf(fs, group))) > 0 {
          var i :| 0 <= i < |fs| && SetArm(attrs, fs[i], group);
          assert SetArm(attrs, fields[i], group) && SetArm(attrs, fields[n], group);
        }
      } else {
        assert ArmsOf(fields, group) == ArmsOf(fs, group);
      }
    }
  }

  lemma LastArm(attrs: map<string, Val>, fields: seq<GenField>, group: string)
    requires fields != [] && fields[|fields| - 1].oneof == group
    requires forall x :: x in AttrsOf(ArmsOf(fields, group)) ==> x in attrs
    requires forall x :: x in AttrsOf(ArmsOf(fields[..|fields| - 1], group)) ==> x in attrs
    requires fields[|fields| - 1].attr in attrs
    ensures SetArms(attrs, AttrsOf(ArmsOf(fields, group))) ==
            SetArms(attrs, AttrsOf(ArmsOf(fields[..|fields| - 1], group))) +
            (if attrs[fields[|fields| - 1].attr] != VNone then 1 else 0)
  {
    var n := |fields| - 1;
    var before, a := AttrsOf(ArmsOf(fields[..n], group)), fields[n].attr;
    assert AttrsOf(ArmsOf(fields, group)) == before + [a];
    SetArmsAppend(attrs, before, [a]);
    assert SetArms(attrs, [a]) == SetArms(attrs, [a][1..]) + (if attrs[a] != VNone then 1 else 0);
  }

  /** A group of two fields has two arms in its check. */
  lemma {:induction false} TwoArms(fields: seq<GenField>, i: nat, j: nat, group: string)
    requires i < j < |fields| && fields[i].oneof == fields[j].oneof == group
    ensures |ArmsOf(fields, group)| > 1
  {
    var n := |fields| - 1;
    if j < n {
      TwoArms(fields[..n], i, j, group);
    } else {
      assert fields[..n][i] in fields[..n];
      ArmsMembers(fields[..n], group, fields[i]);
    }
  }

  // ----- running a to_dict body -----

  /** The statement runs without a fault of its own: at worst its expression
      raises. */
  ghost predicate Runs(p: Program, current: string, s: Stmt, self: Val)
    requires self.VObj?
  {
    match s
    case Emit(_, attr, _, _) => attr in self.attrs
    case OneofCheck(arms) => |arms| > 1 && forall a :: a in arms ==> a in self.attrs
  }

  ghost predicate Fails(p: Program, current: string, s: Stmt, self: Val)
    requires self.VObj? && Runs(p, current, s, self)
  {
    match s
    case Emit(test, attr, _, expr) => Holds(test, self.attrs[attr]) && Eval(p, current, expr, self.attrs[attr]).Raise?
    case OneofCheck(arms) => SetArms(self.attrs, arms) > 1
  }

  /** When the statement fails, it is with the oneof error. */
  ghost predicate FailsAsOneof(p: Program, current: string, s: Stmt, self: Val)
    requires self.VObj? && Runs(p, current, s, self)
  {
    Fails(p, current, s, self) ==>
      match s
      case Emit(_, attr, _, expr) => Eval(p, current, expr, self.attrs[attr]) == Raise(ValueError)
      case OneofCheck(_) => !HidesErrors(p, current)
  }

  lemma {:induction false} RunRaises(p: Program, current: string, stmts: seq<Stmt>, self: Val, out: map<MapKey, Val>)
    requires self.VObj?
    requires forall s :: s in stmts ==> Runs(p, current, s, self) && FailsAsOneof(p, current, s, self)
    requires exists s :: s in stmts && Fails(p, current, s, self)
    ensures RunStmts(p, current, stmts, self, out) == Raise(ValueError)
    decreases |stmts|
  {
    var s := stmts[0];
    assert Runs(p, current, s, self) && FailsAsOneof(p, current, s, self);
    if !Fails(p, current, s, self) {
      var bad :| bad in stmts && Fails(p, current, bad, self);
      assert bad in stmts[1..];
      if s.Emit? && Holds(s.test, self.attrs[s.attr]) {
        RunRaises(p, current, stmts[1..], self, out[Str(s.wire) := Eval(p, current, s.expr, self.attrs[s.attr]).value]);
      } else {
        RunRaises(p, current, stmts[1..], self, out);
      }
    }
  }

  /** The statement raises whatever ran before it. */
  ghost predicate Breaks(p: Program, current: string, s: Stmt, self: Val)
    requires self.VObj?
  {
    match s
    case Emit(test, attr, _, expr) =>
      attr in self.attrs && Holds(test, self.attrs[attr]) && Eval(p, current, expr, self.attrs[attr]).Raise?
    case OneofCheck(arms) =>
      (forall a :: a in arms ==> a in self.attrs) && ArmCount(self.attrs, arms).Raise?
  }

  /** A body with a statement that raises never finishes. */
  lemma {:induction false} RunStuck(p: Program, current: string, stmts: seq<Stmt>, self: Val, out: map<MapKey, Val>, s: Stmt)
    requires self.VObj? && s in stmts && Breaks(p, current, s, self)
    ensures RunStmts(p, current, stmts, self, out).Raise?
    decreases |stmts|
  {
    if stmts[0] != s {
      assert s in stmts[1..];
      match stmts[0]
      case Emit(test, attr, wire, expr) =>
        if attr in self.attrs && Holds(test, self.attrs[attr]) && Eval(p, current, expr, self.attrs[attr]).Ok? {
          RunStuck(p, current, stmts[1..], self, out[Str(wire) := Eval(p, current, expr, self.attrs[attr]).value], s);
        } else {
          RunStuck(p, current, stmts[1..], self, out, s);
        }
      case OneofCheck(_) => RunStuck(p, current, stmts[1..], self, out, s);
    }
  }

  /** The statement writes nothing, or writes what target holds for its key. */
  ghost predicate Writes(p: Program, current: string, s: Stmt, self: Val, target: map<MapKey, Val>)
    requires self.VObj? && Runs(p, current, s, self)
  {
    && !Fails(p, current, s, self)
    && (s.Emit? && Holds(s.test, self.attrs[s.attr]) ==>
          Str(s.wire) in target && Eval(p, current, s.expr, self.attrs[s.attr]) == Ok(target[Str(s.wire)]))
  }

  lemma {:induction false} RunSucceeds(p: Program, current: string, stmts: seq<Stmt>, self: Val,
                                       out: map<MapKey, Val>, target: map<MapKey, Val>)
    requires self.VObj?
    requires forall s :: s in stmts ==> Runs(p, current, s, self) && Writes(p, current, s, self, target)
    requires forall k :: k in out ==> k in target && out[k] == target[k]
    ensures var r := RunStmts(p, current, stmts, self, out);
            && r.Ok?
            && (forall k :: k in out ==> k in r.value)
            && (forall k :: k in r.value ==> k in target && r.value[k] == target[k])
            && (forall s :: s in stmts && s.Emit? && s.attr in self.attrs && Holds(s.test, self.attrs[s.attr]) ==>
                  Str(s.wire) in r.value)
    decreases |stmts|
  {
    if stmts != [] {
      var s := stmts[0];
      assert Runs(p, current, s, self) && Writes(p, current, s, self, target);
      assert forall x :: x in stmts ==> x == s || x in stmts[1..];
      if s.Emit? && Holds(s.test, self.attrs[s.attr]) {
        RunSucceeds(p, current, stmts[1..], self, out[Str(s.wire) := target[Str(s.wire)]], target);
      } else {
        RunSucceeds(p, current, stmts[1..], self, out, target);
      }
    }
  }

  /** The statement writes key k. */
  predicate Emitting(s: Stmt, self: Val, k: MapKey)
    requires self.VObj?
  {
    s.Emit? && Str(s.wire) == k && s.attr in self.attrs && Holds(s.test, self.attrs[s.attr])
  }

  /** A body all of whose statements write into target, and which writes every
      key of it, builds target. */
  lemma RunExactly(p: Program, current: string, stmts: seq<Stmt>, self: Val, target: map<MapKey, Val>)
    requires self.VObj?
    requires forall s :: s in stmts ==> Runs(p, current, s, self) && Writes(p, current, s, self, target)
    requires forall k :: k in target ==> exists s :: s in stmts && Emitting(s, self, k)
    ensures RunStmts(p, current, stmts, self, map[]) == Ok(target)
  {
    RunSucceeds(p, current, stmts, self, map[], target);
    var r := RunStmts(p, current, stmts, self, map[]).value;
    forall k | k in target ensures k in r {
      var s :| s in stmts && Emitting(s, self, k);
    }
    assert r == target;
  }

  // ----- running a from_dict body -----

  /** What loading field f from d leaves in its attribute: want. */
  ghost predicate Loads(p: Program, current: string, f: GenField, d: Val, want: Val)
    requires d.VDict?
  {
    if Str(f.wire) in d.m then d.m[Str(f.wire)] != VNone && Eval(p, current, DecodeExpr(f.kind), d.m[Str(f.wire)]) == Ok(want)
    else FieldDefault(f) == want
  }

  ghost predicate DistinctAttrs(fields: seq<GenField>) {
    forall a, b :: 0 <= a < b < |fields| ==> fields[a].attr != fields[b].attr
  }

  /** want holds, attribute by attribute, what loading d yields. */
  ghost predicate LoadPlan(p: Program, current: string, fields: seq<GenField>, d: Val, want: map<string, Val>)
    requires d.VDict?
  {
    && DistinctAttrs(fields)
    && want.Keys == (set a | 0 <= a < |fields| :: fields[a].attr)
    && forall a :: 0 <= a < |fields| ==> Loads(p, current, fields[a], d, want[fields[a].attr])
  }

  /** The first i fields are loaded and the others still at their defaults. */
  ghost predicate Loaded(fields: seq<GenField>, i: nat, attrs: map<string, Val>, want: map<string, Val>) {
    && attrs.Keys == want.Keys
    && forall a :: 0 <= a < |fields| ==>
         fields[a].attr in want && attrs[fields[a].attr] == if a < i then want[fields[a].attr] else FieldDefault(fields[a])
  }

  lemma NextLoaded(fields: seq<GenField>, i: nat, attrs: map<string, Val>, want: map<string, Val>)
    requires i < |fields| && DistinctAttrs(fields) && Loaded(fields, i, attrs, want)
    ensures Loaded(fields, i + 1, attrs[fields[i].attr := want[fields[i].attr]], want)
  {
  }

  lemma LoadStep(p: Program, current: string, f: GenField, loads: seq<Load>, d: Val, attrs: map<string, Val>, want: Val)
    requires d.VDict? && loads != [] && loads[0] == LoadOf(f) && Loads(p, current, f, d, want)
    requires f.attr in attrs && attrs[f.attr] == FieldDefault(f)
    ensures RunLoads(p, current, loads, d, attrs) == RunLoads(p, current, loads[1..], d, attrs[f.attr := want])
  {
    assert Str(f.wire) !in d.m ==> attrs[f.attr := want] == attrs;
  }

  lemma {:induction false} LoadsRun(p: Program, current: string, fields: seq<GenField>, i: nat, d: Val,
                                    attrs: map<string, Val>, want: map<string, Val>)
    requires d.VDict? && i <= |fields| && LoadPlan(p, current, fields, d, want) && Loaded(fields, i, attrs, want)
    ensures RunLoads(p, current, LoadsOf(fields)[i..], d, attrs) == Ok(want)
    decreases |fields| - i
  {
    if i == |fields| {
      assert attrs == want;
    } else {
      var f := fields[i];
      var loads := LoadsOf(fields)[i..];
      assert loads[1..] == LoadsOf(fields)[i + 1..] && loads[0] == LoadOf(f);
      LoadStep(p, current, f, loads, d, attrs, want[f.attr]);
      NextLoaded(fields, i, attrs, want);
      LoadsRun(p, current, fields, i + 1, d, attrs[f.attr := want[f.attr]], want);
    }
  }

  lemma {:induction false} DefaultAt(fields: seq<GenField>, i: nat)
    requires i < |fields| && DistinctAttrs(fields)
    ensures fields[i].attr in DefaultsOf(fields) && DefaultsOf(fields)[fields[i].attr] == FieldDefault(fields[i])
  {
    var n := |fields| - 1;
    if i < n {
      assert fields[..n][i] == fields[i];
      DefaultAt(fields[..n], i);
    }
  }
}
