/** The subagents beneath a target, found by a walk up the parent links that is
    cut off after as many steps as there are children. */
module Cascade {

  datatype Child = Child(id: string, labels: map<string, string>, status: string)

  /** A missing label reads as the empty string. */
  function Label(c: Child, key: string): string {
    if key in c.labels then c.labels[key] else ""
  }

  /** A non-empty label of the current name wins over one of the old name. */
  function ParentLabel(c: Child): (p: string)
    ensures "rafiki/parent" in c.labels && c.labels["rafiki/parent"] != "" ==> p == c.labels["rafiki/parent"]
    ensures "rafiki/parent" !in c.labels || c.labels["rafiki/parent"] == "" ==>
              if "fundi/parent" in c.labels then p == c.labels["fundi/parent"] else p == ""
  {
    if Label(c, "rafiki/parent") != "" then Label(c, "rafiki/parent") else Label(c, "fundi/parent")
  }

  // ----- the parent relation -----

  ghost predicate Listed(children: seq<Child>, id: string) {
    exists i :: 0 <= i < |children| && children[i].id == id
  }

  /** The i-th child gives id a parent that is itself listed. */
  ghost predicate Links(children: seq<Child>, i: int, id: string) {
    0 <= i < |children| && children[i].id == id && Listed(children, ParentLabel(children[i]))
  }

  /** p is the parent of id: the last listed child with that id and a listed
      parent says so. */
  ghost predicate ParentOf(children: seq<Child>, id: string, p: string) {
    exists i :: Links(children, i, id) && p == ParentLabel(children[i]) && LastLink(children, i, id)
  }

  ghost predicate LastLink(children: seq<Child>, i: int, id: string) {
    forall j :: i < j ==> !Links(children, j, id)
  }

  lemma ParentUnique(children: seq<Child>, id: string, p: string, q: string)
    requires ParentOf(children, id, p) && ParentOf(children, id, q)
    ensures p == q
  {
    var i :| Links(children, i, id) && p == ParentLabel(children[i]) && LastLink(children, i, id);
    var j :| Links(children, j, id) && q == ParentLabel(children[j]) && LastLink(children, j, id);
    assert i == j;
  }

  /** out holds exactly the parent relation. */
  ghost predicate Represents(children: seq<Child>, out: map<string, string>) {
    forall id, p :: ParentOf(children, id, p) <==> id in out && out[id] == p
  }

  /** The same, as far as the first k children go. */
  ghost predicate RepresentsUpTo(children: seq<Child>, k: nat, out: map<string, string>) {
    && (forall i, id :: i < k && Links(children, i, id) ==> id in out)
    && forall id :: id in out ==> Newest(children, k, id, out[id])
  }

  ghost predicate Newest(children: seq<Child>, k: nat, id: string, p: string) {
    exists i :: i < k && NewestIn(children, i, k, id, p)
  }

  ghost predicate NewestIn(children: seq<Child>, i: int, k: nat, id: string, p: string) {
    && Links(children, i, id) && p == ParentLabel(children[i])
    && forall j :: i < j < k ==> !Links(children, j, id)
  }

  lemma UpToAll(children: seq<Child>, out: map<string, string>)
    requires RepresentsUpTo(children, |children|, out)
    ensures Represents(children, out)
  {
    forall id, p ensures ParentOf(children, id, p) <==> id in out && out[id] == p {
      if id in out {
        var i :| i < |children| && NewestIn(children, i, |children|, id, out[id]);
        assert LastLink(children, i, id);
        assert ParentOf(children, id, out[id]);
        if ParentOf(children, id, p) {
          ParentUnique(children, id, p, out[id]);
        }
      }
    }
  }

  lemma UpToNext(children: seq<Child>, k: nat, out: map<string, string>)
    requires k < |children| && RepresentsUpTo(children, k, out)
    ensures var c := children[k];
            RepresentsUpTo(children, k + 1, if Listed(children, ParentLabel(c)) then out[c.id := ParentLabel(c)] else out)
  {
    var c := children[k];
    var linked := Listed(children, ParentLabel(c));
    var next := if linked then out[c.id := ParentLabel(c)] else out;
    forall id | id in next ensures Newest(children, k + 1, id, next[id]) {
      if linked && id == c.id {
        assert NewestIn(children, k, k + 1, id, next[id]);
      } else {
        var i :| i < k && NewestIn(children, i, k, id, out[id]);
        assert NewestIn(children, i, k + 1, id, next[id]);
      }
    }
  }

  method EffectiveParents(children: seq<Child>) returns (out: map<string, string>)
    ensures Represents(children, out)
  {
    var byId: set<string> := {};
    for i := 0 to |children|
      invariant forall id :: id in byId <==> exists j :: 0 <= j < i && children[j].id == id
    {
      byId := byId + {children[i].id};
    }
    assert forall id :: id in byId <==> Listed(children, id);
    out := map[];
    for k := 0 to |children|
      invariant RepresentsUpTo(children, k, out)
    {
      UpToNext(children, k, out);
      var p := ParentLabel(children[k]);
      if p in byId {
        out := out[children[k].id := p];
      }
    }
    UpToAll(children, out);
  }

  // ----- descent -----

  /** A walk up: each element's parent is the next. */
  ghost predicate Walk(children: seq<Child>, w: seq<string>) {
    forall k :: 0 <= k < |w| - 1 ==> ParentOf(children, w[k], w[k + 1])
  }

  /** A walk from id to target of at least one step. */
  ghost predicate WalkTo(children: seq<Child>, id: string, target: string, w: seq<string>) {
    |w| >= 2 && w[0] == id && w[|w| - 1] == target && Walk(children, w)
  }

  /** target is an ancestor of id, over any number of steps. */
  ghost predicate Beneath(children: seq<Child>, id: string, target: string) {
    exists w :: WalkTo(children, id, target, w)
  }

  lemma BeneathTransitive(children: seq<Child>, a: string, b: string, c: string)
    requires Beneath(children, a, b) && Beneath(children, b, c)
    ensures Beneath(children, a, c)
  {
    var v :| WalkTo(children, a, b, v);
    var w :| WalkTo(children, b, c, w);
    var u := v + w[1..];
    forall k | 0 <= k < |u| - 1 ensures ParentOf(children, u[k], u[k + 1]) {
      if k >= |v| - 1 {
        assert u[k] == w[k - |v| + 1] && u[k + 1] == w[k - |v| + 2];
      }
    }
    assert WalkTo(children, a, c, u);
  }

  // ----- the bound suffices -----

  ghost predicate Distinct(s: seq<string>) {
    forall i, j :: 0 <= i < j < |s| ==> s[i] != s[j]
  }

  lemma {:induction false} DistinctFits(s: seq<string>, room: set<string>)
    requires Distinct(s) && forall k :: 0 <= k < |s| ==> s[k] in room
    ensures |s| <= |room|
  {
    if s != [] {
      DistinctFits(s[1..], room - {s[0]});
    }
  }

  ghost function Ids(children: seq<Child>): set<string> {
    set i | 0 <= i < |children| :: children[i].id
  }

  lemma {:induction false} IdsCount(children: seq<Child>)
    ensures |Ids(children)| <= |children|
  {
    if children != [] {
      var n := |children| - 1;
      assert Ids(children) == Ids(children[..n]) + {children[n].id};
      IdsCount(children[..n]);
    }
  }

  ghost predicate HasParent(children: seq<Child>, id: string) {
    exists p :: ParentOf(children, id, p)
  }

  lemma StepUp(children: seq<Child>, w: seq<string>, k: nat)
    requires Walk(children, w) && k + 1 < |w|
    ensures HasParent(children, w[k]) && w[k] in Ids(children)
  {
    assert ParentOf(children, w[k], w[k + 1]);
    var i :| Links(children, i, w[k]) && w[k + 1] == ParentLabel(children[i]) && LastLink(children, i, w[k]);
  }

  /** Cutting out the loop between two visits of the same child. */
  lemma Shortcut(children: seq<Child>, id: string, target: string, w: seq<string>, i: nat, j: nat)
    requires WalkTo(children, id, target, w) && i < j < |w| - 1 && w[i] == w[j]
    ensures WalkTo(children, id, target, w[..i] + w[j..])
  {
    var u := w[..i] + w[j..];
    forall k | 0 <= k < |u| - 1 ensures ParentOf(children, u[k], u[k + 1]) {
      if k + 1 < i {
        assert u[k] == w[k] && u[k + 1] == w[k + 1];
      } else if k + 1 == i {
        assert u[k] == w[k] && u[k + 1] == w[k + 1];
      } else {
        assert u[k] == w[k - i + j] && u[k + 1] == w[k - i + j + 1];
      }
    }
  }

  lemma {:induction false} ShortWalk(children: seq<Child>, id: string, target: string, w: seq<string>) returns (u: seq<string>)
    requires WalkTo(children, id, target, w)
    ensures WalkTo(children, id, target, u) && |u| <= |children| + 1
    decreases |w|
  {
    var n := |w| - 1;
    if n <= |children| {
      return w;
    }
    forall k | 0 <= k < n ensures w[..n][k] in Ids(children) {
      StepUp(children, w, k);
    }
    IdsCount(children);
    if Distinct(w[..n]) {
      DistinctFits(w[..n], Ids(children));
    }
    var i, j :| 0 <= i < j < n && w[..n][i] == w[..n][j];
    Shortcut(children, id, target, w, i, j);
    u := ShortWalk(children, id, target, w[..i] + w[j..]);
  }

  /** A walk follows the trail any other walk from the same child leaves. */
  lemma {:induction false} SameTrail(children: seq<Child>, v: seq<string>, w: seq<string>, k: nat)
    requires Walk(children, v) && Walk(children, w) && k < |v| && k < |w| && v[0] == w[0]
    ensures v[k] == w[k]
  {
    if k > 0 {
      SameTrail(children, v, w, k - 1);
      ParentUnique(children, v[k - 1], v[k], w[k]);
    }
  }

  /** A trail that met the target nowhere, and either took a step per child or
      ended at a child without a parent, shows that the target is no ancestor. */
  lemma NotBeneath(children: seq<Child>, target: string, trail: seq<string>)
    requires trail != [] && Walk(children, trail) && target !in trail[1..]
    requires |trail| > |children| || !HasParent(children, trail[|trail| - 1])
    ensures !Beneath(children, trail[0], target)
  {
    if Beneath(children, trail[0], target) {
      var w :| WalkTo(children, trail[0], target, w);
      var u := ShortWalk(children, trail[0], target, w);
      TrailMeets(children, target, trail, u);
    }
  }

  lemma TrailMeets(children: seq<Child>, target: string, trail: seq<string>, u: seq<string>)
    requires trail != [] && Walk(children, trail) && WalkTo(children, trail[0], target, u) && |u| <= |children| + 1
    requires |trail| > |children| || !HasParent(children, trail[|trail| - 1])
    ensures target in trail[1..]
  {
    var n := |u| - 1;
    if n < |trail| {
      SameTrail(children, u, trail, n);
      assert trail[1..][n - 1] == target;
    } else {
      SameTrail(children, u, trail, |trail| - 1);
      StepUp(children, u, |trail| - 1);
      assert false;
    }
  }

  // ----- the search -----

  const NATIVE_SUBAGENT := "rafiki/native-subagent"

  predicate Considered(c: Child, onlyLive: bool) {
    Label(c, NATIVE_SUBAGENT) != "1" && !(onlyLive && c.status == "exited")
  }

  /** A child that a stop or close takes a position on: a Task subagent that the
      proxy made up is none, nor an exited child where only live ones matter. */
  ghost predicate TakesPart(c: Child, onlyLive: bool) {
    && !("rafiki/native-subagent" in c.labels && c.labels["rafiki/native-subagent"] == "1")
    && (onlyLive ==> c.status != "exited")
  }

  /** The children beneath target that take part, among the first k, in listing
      order. */
  ghost function Subagents(children: seq<Child>, target: string, onlyLive: bool, k: nat): seq<Child>
    requires k <= |children|
  {
    if k == 0 then [] else
      Subagents(children, target, onlyLive, k - 1)
      + (if IsSubagent(children, target, onlyLive, k - 1) then [children[k - 1]] else [])
  }

  ghost predicate IsSubagent(children: seq<Child>, target: string, onlyLive: bool, i: nat)
    requires i < |children|
  {
    TakesPart(children[i], onlyLive) && Beneath(children, children[i].id, target)
  }

  /** at are the places of the subagents among the first k children, in order, and
      out the children there. */
  ghost predicate PlacesOf(children: seq<Child>, target: string, onlyLive: bool, k: nat, out: seq<Child>, at: seq<nat>)
    requires k <= |children|
  {
    && |at| == |out| && (forall n :: 0 <= n < |at| ==> at[n] < k && out[n] == children[at[n]])
    && (forall m, n :: 0 <= m < n < |at| ==> at[m] < at[n])
    && (forall n :: 0 <= n < |at| ==> IsSubagent(children, target, onlyLive, at[n]))
    && (forall i: nat :: i < k && IsSubagent(children, target, onlyLive, i) ==> i in at)
  }

  lemma NextPlace(children: seq<Child>, target: string, onlyLive: bool, k: nat, out: seq<Child>, at: seq<nat>)
    requires k < |children| && PlacesOf(children, target, onlyLive, k, out, at)
    ensures if IsSubagent(children, target, onlyLive, k)
            then PlacesOf(children, target, onlyLive, k + 1, out + [children[k]], at + [k])
            else PlacesOf(children, target, onlyLive, k + 1, out, at)
  {
    forall i: nat | i < k && IsSubagent(children, target, onlyLive, i) ensures i in at + [k] {
      assert i in at;
    }
  }

  /** at are the places of what the search returns for the first k children. */
  ghost predicate Places(children: seq<Child>, target: string, onlyLive: bool, k: nat, at: seq<nat>) {
    k <= |children| && PlacesOf(children, target, onlyLive, k, Subagents(children, target, onlyLive, k), at)
  }

  lemma NoPlaces(children: seq<Child>, target: string, onlyLive: bool)
    ensures Places(children, target, onlyLive, 0, [])
  {
  }

  lemma SubagentsLast(children: seq<Child>, target: string, onlyLive: bool, k: nat)
    requires k < |children|
    ensures var before := Subagents(children, target, onlyLive, k);
            Subagents(children, target, onlyLive, k + 1) ==
            if IsSubagent(children, target, onlyLive, k) then before + [children[k]] else before
  {
  }

  lemma NextPlaces(children: seq<Child>, target: string, onlyLive: bool, k: nat, before: seq<nat>) returns (at: seq<nat>)
    requires k < |children| && Places(children, target, onlyLive, k, before)
    ensures Places(children, target, onlyLive, k + 1, at)
  {
    SubagentsLast(children, target, onlyLive, k);
    NextPlace(children, target, onlyLive, k, Subagents(children, target, onlyLive, k), before);
    at := if IsSubagent(children, target, onlyLive, k) then before + [k] else before;
  }

  /** The result lists exactly the subagents, each once, in the order of the
      listing. */
  lemma {:induction false} SubagentsAre(children: seq<Child>, target: string, onlyLive: bool, k: nat) returns (at: seq<nat>)
    requires k <= |children|
    ensures Places(children, target, onlyLive, k, at)
    decreases k
  {
    at := [];
    NoPlaces(children, target, onlyLive);
    if k > 0 {
      at := SubagentsAre(children, target, onlyLive, k - 1);
      at := NextPlaces(children, target, onlyLive, k - 1, at);
    }
  }

  /** The walk up from one child, cut off after a step per listed child. */
  method Climbs(children: seq<Child>, parent: map<string, string>, id: string, target: string) returns (found: bool)
    requires Represents(children, parent)
    ensures found <==> Beneath(children, id, target)
  {
    var cur := id;
    ghost var trail := [id];
    for k := 0 to |children|
      invariant |trail| == k + 1 && trail[0] == id && trail[k] == cur
      invariant Walk(children, trail) && target !in trail[1..]
    {
      if cur !in parent {
        NotBeneath(children, target, trail);
        return false;
      }
      var p := parent[cur];
      assert ParentOf(children, cur, p);
      if p == target {
        assert WalkTo(children, id, target, trail + [p]);
        return true;
      }
      trail, cur := trail + [p], p;
    }
    NotBeneath(children, target, trail);
    return false;
  }

  method SubagentsOf(children: seq<Child>, target: string, onlyLive: bool) returns (out: seq<Child>)
    ensures out == Subagents(children, target, onlyLive, |children|)
  {
    var parent := EffectiveParents(children);
    out := [];
    for i := 0 to |children|
      invariant out == Subagents(children, target, onlyLive, i)
    {
      assert Considered(children[i], onlyLive) <==> TakesPart(children[i], onlyLive);
      if Considered(children[i], onlyLive) {
        var found := Climbs(children, parent, children[i].id, target);
        if found {
          out := out + [children[i]];
        }
      }
    }
  }

  lemma AncestorListed(children: seq<Child>, id: string, target: string)
    requires Beneath(children, id, target)
    ensures Listed(children, target)
  {
    var w :| WalkTo(children, id, target, w);
    assert ParentOf(children, w[|w| - 2], w[|w| - 1]);
  }

  /** A target outside the listing has no subagents. */
  lemma {:induction false} UnlistedHasNone(children: seq<Child>, target: string, onlyLive: bool, k: nat)
    requires k <= |children| && !Listed(children, target)
    ensures Subagents(children, target, onlyLive, k) == []
  {
    if k > 0 {
      UnlistedHasNone(children, target, onlyLive, k - 1);
      if Beneath(children, children[k - 1].id, target) {
        AncestorListed(children, children[k - 1].id, target);
      }
    }
  }
}
