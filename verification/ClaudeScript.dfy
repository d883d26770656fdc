/** Multi-run scripts: which runs validate, and which session each one gets. */
module ClaudeScript {
  import opened Wrappers

  datatype Run = Run(name: string, resume: string, turns: seq<string>, interrupt: string, args: seq<string>)

  datatype Script = Script(args: seq<string>, runs: seq<Run>)

  const DRIVER_FLAGS: seq<string> := [
    "-p", "--print", "--input-format", "--output-format", "--verbose", "--resume", "-r", "--continue", "-c",
    "--session-id", "--fork-session", "--no-session-persistence", "--model", "--system-prompt", "--tools"]

  const TOOL_USE := "tool_use"

  // ----- validate -----

  /** The text before the first '='. */
  function FlagOf(arg: string): string {
    if arg == [] || arg[0] == '=' then "" else [arg[0]] + FlagOf(arg[1..])
  }

  /** The argument is a flag of the driver, alone or with a value. */
  ghost predicate IsDriverFlag(arg: string) {
    exists i :: 0 <= i < |DRIVER_FLAGS| && (arg == DRIVER_FLAGS[i] || DRIVER_FLAGS[i] + "=" <= arg)
  }

  ghost predicate FlagsOk(args: seq<string>) {
    forall i :: 0 <= i < |args| ==> !IsDriverFlag(args[i])
  }

  /** The cut leaves a flag exactly when the argument is that flag, alone or with a
      value. */
  lemma {:induction false} CutIs(arg: string, flag: string)
    requires '=' !in flag
    ensures FlagOf(arg) == flag <==> arg == flag || flag + "=" <= arg
  {
    if arg != [] && arg[0] != '=' && flag != [] {
      CutIs(arg[1..], flag[1..]);
      if arg[0] == flag[0] {
        SamePrefix(arg, flag);
      }
    }
  }

  lemma SamePrefix(arg: string, flag: string)
    requires arg != [] && flag != [] && arg[0] == flag[0]
    ensures arg == flag <==> arg[1..] == flag[1..]
    ensures flag + "=" <= arg <==> flag[1..] + "=" <= arg[1..]
  {
    assert arg == [arg[0]] + arg[1..] && flag == [flag[0]] + flag[1..];
    assert flag + "=" == [flag[0]] + (flag[1..] + "=");
  }

  lemma DriverFlagCut(arg: string)
    ensures FlagOf(arg) in DRIVER_FLAGS <==> IsDriverFlag(arg)
  {
    forall i | 0 <= i < |DRIVER_FLAGS|
      ensures FlagOf(arg) == DRIVER_FLAGS[i] <==> arg == DRIVER_FLAGS[i] || DRIVER_FLAGS[i] + "=" <= arg
    {
      NoEquals(i);
      CutIs(arg, DRIVER_FLAGS[i]);
    }
  }

  lemma NoEquals(i: nat)
    requires i < |DRIVER_FLAGS|
    ensures '=' !in DRIVER_FLAGS[i]
  {
  }

  datatype Problem =
    | NoRuns | ScriptFlag
    | NoTurns(at: nat) | NameTwice(at: nat) | NoEarlierRun(at: nat) | AlreadyResumed(at: nat)
    | BadInterrupt(at: nat) | RunFlag(at: nat)

  ghost predicate NamedBefore(runs: seq<Run>, i: nat, name: string) {
    exists j :: 0 <= j < i && j < |runs| && runs[j].name == name
  }

  ghost predicate ResumedBefore(runs: seq<Run>, i: nat, name: string) {
    exists j :: 0 <= j < i && j < |runs| && runs[j].resume == name
  }

  /** Run i has turns, a new name, an earlier run to resume that nobody resumed
      yet, a known interrupt and no driver flag. */
  ghost predicate RunOk(runs: seq<Run>, i: nat)
    requires i < |runs|
  {
    var r := runs[i];
    && r.turns != []
    && (r.name != "" ==> !NamedBefore(runs, i, r.name))
    && (r.resume != "" ==> NamedBefore(runs, i, r.resume) && !ResumedBefore(runs, i, r.resume))
    && (r.interrupt == "" || r.interrupt == "tool_use")
    && FlagsOk(r.args)
  }

  ghost predicate Accepted(s: Script) {
    s.runs != [] && FlagsOk(s.args) && forall i :: 0 <= i < |s.runs| ==> RunOk(s.runs, i)
  }

  ghost predicate NameNew(runs: seq<Run>, i: nat)
    requires i < |runs|
  {
    runs[i].name != "" ==> !NamedBefore(runs, i, runs[i].name)
  }

  ghost predicate ResumesEarlier(runs: seq<Run>, i: nat)
    requires i < |runs|
  {
    runs[i].resume != "" ==> NamedBefore(runs, i, runs[i].resume)
  }

  ghost predicate ResumesAlone(runs: seq<Run>, i: nat)
    requires i < |runs|
  {
    runs[i].resume != "" ==> !ResumedBefore(runs, i, runs[i].resume)
  }

  predicate InterruptOk(r: Run) {
    r.interrupt == "" || r.interrupt == "tool_use"
  }

  /** The problem is the first one of the script, in the order of the checks. */
  ghost predicate Explains(s: Script, p: Problem) {
    match p
    case NoRuns => s.runs == []
    case ScriptFlag => s.runs != [] && !FlagsOk(s.args)
    case _ =>
      && p.at < |s.runs| && FlagsOk(s.args) && (forall k :: 0 <= k < p.at ==> RunOk(s.runs, k))
      && var runs, i, r := s.runs, p.at, s.runs[p.at];
         match p
         case NoTurns(_) => r.turns == []
         case NameTwice(_) => r.turns != [] && !NameNew(runs, i)
         case NoEarlierRun(_) => r.turns != [] && NameNew(runs, i) && !ResumesEarlier(runs, i)
         case AlreadyResumed(_) =>
           r.turns != [] && NameNew(runs, i) && ResumesEarlier(runs, i) && !ResumesAlone(runs, i)
         case BadInterrupt(_) =>
           r.turns != [] && NameNew(runs, i) && ResumesEarlier(runs, i) && ResumesAlone(runs, i) && !InterruptOk(r)
         case RunFlag(_) =>
           && r.turns != [] && NameNew(runs, i) && ResumesEarlier(runs, i) && ResumesAlone(runs, i) && InterruptOk(r)
           && !FlagsOk(r.args)
  }

  /** At most one problem is the first. */
  lemma ExplainsUnique(s: Script, p: Problem, q: Problem)
    requires Explains(s, p) && Explains(s, q)
    ensures p == q
  {
    if !p.NoRuns? && !p.ScriptFlag? && !q.NoRuns? && !q.ScriptFlag? {
      NotOk(s, p);
      NotOk(s, q);
      assert p.at == q.at;
    }
  }

  lemma NotOk(s: Script, p: Problem)
    requires Explains(s, p) && !p.NoRuns? && !p.ScriptFlag?
    ensures p.at < |s.runs| && !RunOk(s.runs, p.at)
  {
  }

  method CheckFlags(args: seq<string>) returns (ok: bool)
    ensures ok <==> FlagsOk(args)
  {
    for i := 0 to |args|
      invariant forall k :: 0 <= k < i ==> !IsDriverFlag(args[k])
    {
      DriverFlagCut(args[i]);
      if FlagOf(args[i]) in DRIVER_FLAGS {
        return false;
      }
    }
    return true;
  }

  method Validate(s: Script) returns (p: Option<Problem>)
    ensures p.None? <==> Accepted(s)
    ensures p.Some? ==> Explains(s, p.value)
  {
    if |s.runs| == 0 {
      return Some(NoRuns);
    }
    var ok := CheckFlags(s.args);
    if !ok {
      return Some(ScriptFlag);
    }
    var earlier: set<string>, resumed: set<string> := {}, {};
    for i := 0 to |s.runs|
      invariant forall n :: n in earlier <==> n != "" && NamedBefore(s.runs, i, n)
      invariant forall n :: n in resumed <==> n != "" && ResumedBefore(s.runs, i, n)
      invariant forall k :: 0 <= k < i ==> RunOk(s.runs, k)
    {
      p := ValidateRun(s, i, earlier, resumed);
      if p.Some? {
        return;
      }
      var r := s.runs[i];
      if r.resume != "" {
        resumed := resumed + {r.resume};
      }
      if r.name != "" {
        earlier := earlier + {r.name};
      }
    }
    return None;
  }

  method ValidateRun(s: Script, i: nat, earlier: set<string>, resumed: set<string>) returns (p: Option<Problem>)
    requires i < |s.runs| && FlagsOk(s.args) && forall k :: 0 <= k < i ==> RunOk(s.runs, k)
    requires forall n :: n in earlier <==> n != "" && NamedBefore(s.runs, i, n)
    requires forall n :: n in resumed <==> n != "" && ResumedBefore(s.runs, i, n)
    ensures p.None? <==> RunOk(s.runs, i)
    ensures p.Some? ==> Explains(s, p.value)
  {
    var r := s.runs[i];
    if |r.turns| == 0 {
      return Some(NoTurns(i));
    }
    if r.name != "" && r.name in earlier {
      return Some(NameTwice(i));
    }
    if r.resume != "" {
      if r.resume !in earlier {
        return Some(NoEarlierRun(i));
      }
      if r.resume in resumed {
        return Some(AlreadyResumed(i));
      }
    }
    if r.interrupt != "" && r.interrupt != TOOL_USE {
      return Some(BadInterrupt(i));
    }
    var ok := CheckFlags(r.args);
    if !ok {
      return Some(RunFlag(i));
    }
    return None;
  }

  // ----- plan -----

  datatype Plan = Plan(name: string, session: string, resume: bool, persist: bool)

  /** The last run before i with that name, or -1. */
  function Earlier(runs: seq<Run>, i: nat, name: string): (j: int)
    requires i <= |runs|
    ensures -1 <= j < i
    ensures j >= 0 ==> runs[j].name == name
    ensures forall k :: j < k < i ==> runs[k].name != name
  {
    if i == 0 then -1 else if runs[i - 1].name == name then i - 1 else Earlier(runs, i - 1, name)
  }

  /** The session of run i: the resumed run's, the operator's for the first run,
      or the id minted for it. */
  function SessionOf(runs: seq<Run>, given: string, minted: seq<string>, i: nat): string
    requires i < |runs| == |minted|
  {
    if runs[i].resume != "" then
      var j := Earlier(runs, i, runs[i].resume);
      if j < 0 then "" else SessionOf(runs, given, minted, j)
    else if i == 0 && given != "" then given
    else minted[i]
  }

  ghost predicate ResumedBySome(runs: seq<Run>, name: string) {
    exists j :: 0 <= j < |runs| && runs[j].resume == name
  }

  ghost predicate PlanOk(runs: seq<Run>, given: string, minted: seq<string>, i: nat, p: Plan)
    requires i < |runs| == |minted|
  {
    && p.name == runs[i].name && p.session == SessionOf(runs, given, minted, i)
    && p.resume == (runs[i].resume != "")
    && p.persist == (runs[i].resume != "" || (runs[i].name != "" && ResumedBySome(runs, runs[i].name)))
  }

  method CollectResumed(runs: seq<Run>) returns (resumedBy: set<string>)
    ensures forall n :: n in resumedBy <==> n != "" && ResumedBySome(runs, n)
  {
    resumedBy := {};
    for i := 0 to |runs|
      invariant forall n :: n in resumedBy <==> n != "" && exists j :: 0 <= j < i && runs[j].resume == n
    {
      if runs[i].resume != "" {
        resumedBy := resumedBy + {runs[i].resume};
      }
    }
  }

  /** sessions holds, for each name met in the first i runs, its session. */
  ghost predicate SessionsOk(runs: seq<Run>, given: string, minted: seq<string>, i: nat, sessions: map<string, string>)
    requires i <= |runs| == |minted|
  {
    && (forall n :: n in sessions <==> n != "" && Earlier(runs, i, n) >= 0)
    && (forall n :: n in sessions ==> sessions[n] == SessionOf(runs, given, minted, Earlier(runs, i, n)))
  }

  lemma NextSessions(runs: seq<Run>, given: string, minted: seq<string>, i: nat, sessions: map<string, string>, session: string)
    requires i < |runs| == |minted| && SessionsOk(runs, given, minted, i, sessions)
    requires session == SessionOf(runs, given, minted, i)
    ensures SessionsOk(runs, given, minted, i + 1,
                       if runs[i].name != "" then sessions[runs[i].name := session] else sessions)
  {
  }

  lemma PlanIsOk(runs: seq<Run>, given: string, minted: seq<string>, i: nat, p: Plan, resumedBy: set<string>)
    requires i < |runs| == |minted| && forall n :: n in resumedBy <==> n != "" && ResumedBySome(runs, n)
    requires p.name == runs[i].name && p.session == SessionOf(runs, given, minted, i) && p.resume == (runs[i].resume != "")
    requires p.persist == (runs[i].resume != "" || runs[i].name in resumedBy)
    ensures PlanOk(runs, given, minted, i, p)
  {
  }

  method MakePlans(runs: seq<Run>, given: string, minted: seq<string>) returns (plans: seq<Plan>)
    requires |minted| == |runs|
    ensures |plans| == |runs| && forall i :: 0 <= i < |runs| ==> PlanOk(runs, given, minted, i, plans[i])
  {
    var resumedBy := CollectResumed(runs);
    var sessions: map<string, string> := map[];
    plans := [];
    for i := 0 to |runs|
      invariant |plans| == i && forall k :: 0 <= k < i ==> PlanOk(runs, given, minted, k, plans[k])
      invariant SessionsOk(runs, given, minted, i, sessions)
    {
      var r := runs[i];
      var session;
      if r.resume != "" {
        session := if r.resume in sessions then sessions[r.resume] else "";
      } else if i == 0 && given != "" {
        session := given;
      } else {
        session := minted[i];
      }
      assert session == SessionOf(runs, given, minted, i);
      NextSessions(runs, given, minted, i, sessions, session);
      if r.name != "" {
        sessions := sessions[r.name := session];
      }
      var p := Plan(r.name, session, r.resume != "", r.resume != "" || r.name in resumedBy);
      PlanIsOk(runs, given, minted, i, p, resumedBy);
      plans := plans + [p];
    }
  }

  // ----- resume links -----

  /** Run j resumes run i. */
  predicate Resumes(runs: seq<Run>, j: nat, i: nat) {
    j < |runs| && i < |runs| && runs[j].resume != "" && runs[j].resume == runs[i].name
  }

  /** The runs are linked one to the next, in either direction. */
  ghost predicate LinkPath(runs: seq<Run>, path: seq<nat>) {
    && path != []
    && forall k, l :: 0 <= k && l == k + 1 && l < |path| ==> Resumes(runs, path[k], path[l]) || Resumes(runs, path[l], path[k])
  }

  ghost predicate Connected(runs: seq<Run>, i: nat, j: nat) {
    exists path :: LinkPath(runs, path) && path[0] == i && path[|path| - 1] == j
  }

  ghost predicate AllOk(runs: seq<Run>) {
    forall i :: 0 <= i < |runs| ==> RunOk(runs, i)
  }

  /** In an accepted script, a run resumes exactly one run, an earlier one, and
      is resumed by at most one. */
  lemma ResumesUnique(runs: seq<Run>, i: nat)
    requires AllOk(runs) && i < |runs| && runs[i].resume != ""
    ensures var j := Earlier(runs, i, runs[i].resume);
            0 <= j < i && Resumes(runs, i, j) && forall k: nat :: k < |runs| && Resumes(runs, i, k) ==> k == j
  {
    assert RunOk(runs, i);
    var j := Earlier(runs, i, runs[i].resume);
    forall k: nat | k < |runs| && Resumes(runs, i, k) ensures k == j {
      if k != j {
        var lo, hi := if k < j then k else j, if k < j then j else k;
        assert RunOk(runs, hi) && NamedBefore(runs, hi, runs[hi].name);
      }
    }
  }

  lemma ResumedOnce(runs: seq<Run>, a: nat, b: nat, i: nat)
    requires AllOk(runs) && Resumes(runs, a, i) && Resumes(runs, b, i)
    ensures a == b
  {
    if a != b {
      var lo, hi := if a < b then a else b, if a < b then b else a;
      assert RunOk(runs, hi) && ResumedBefore(runs, hi, runs[hi].resume);
    }
  }

  /** The runs from the start of i's chain to i. */
  function Chain(runs: seq<Run>, i: nat): (c: seq<nat>)
    requires i < |runs|
    ensures c != [] && c[|c| - 1] == i
    decreases i
  {
    if runs[i].resume == "" then [i]
    else
      var j := Earlier(runs, i, runs[i].resume);
      if j < 0 then [i] else Chain(runs, j) + [i]
  }

  function Root(runs: seq<Run>, i: nat): nat
    requires i < |runs|
  {
    Chain(runs, i)[0]
  }

  /** c climbs resume links in file order from a run that resumes nothing. */
  ghost predicate IsChain(runs: seq<Run>, c: seq<nat>) {
    && c != [] && (forall k :: 0 <= k < |c| ==> c[k] < |runs|)
    && runs[c[0]].resume == ""
    && forall k, l :: 0 <= k && l == k + 1 && l < |c| ==> c[k] < c[l] && Resumes(runs, c[l], c[k])
  }

  lemma {:induction false} ChainClimbs(runs: seq<Run>, i: nat)
    requires AllOk(runs) && i < |runs|
    ensures IsChain(runs, Chain(runs, i))
  {
    if runs[i].resume != "" {
      ResumesUnique(runs, i);
      ChainClimbs(runs, Earlier(runs, i, runs[i].resume));
    }
  }

  /** Every member of a chain ends its own chain, a prefix of it. */
  lemma {:induction false} ChainPrefix(runs: seq<Run>, i: nat, k: nat)
    requires AllOk(runs) && i < |runs| && k < |Chain(runs, i)|
    ensures Chain(runs, i)[k] < |runs| && Chain(runs, Chain(runs, i)[k]) == Chain(runs, i)[..k + 1]
  {
    var c := Chain(runs, i);
    if k == |c| - 1 {
      assert c[..k + 1] == c;
    } else {
      ResumesUnique(runs, i);
      var j := Earlier(runs, i, runs[i].resume);
      ChainPrefix(runs, j, k);
      assert c[..k + 1] == Chain(runs, j)[..k + 1];
    }
  }

  lemma {:induction false} SessionIsRoots(runs: seq<Run>, given: string, minted: seq<string>, i: nat)
    requires AllOk(runs) && i < |runs| == |minted|
    ensures Root(runs, i) < |runs| && runs[Root(runs, i)].resume == ""
    ensures SessionOf(runs, given, minted, i) == SessionOf(runs, given, minted, Root(runs, i))
  {
    if runs[i].resume != "" {
      ResumesUnique(runs, i);
      SessionIsRoots(runs, given, minted, Earlier(runs, i, runs[i].resume));
    }
  }

  /** Fresh ids: all different, and none the operator's. */
  ghost predicate Fresh(minted: seq<string>, given: string) {
    && (forall i, j :: 0 <= i < j < |minted| ==> minted[i] != minted[j])
    && (forall i :: 0 <= i < |minted| ==> minted[i] != given)
  }

  lemma SameSessionSameRoot(runs: seq<Run>, given: string, minted: seq<string>, i: nat, j: nat)
    requires AllOk(runs) && i < |runs| && j < |runs| && |minted| == |runs| && Fresh(minted, given)
    ensures SessionOf(runs, given, minted, i) == SessionOf(runs, given, minted, j) <==> Root(runs, i) == Root(runs, j)
  {
    SessionIsRoots(runs, given, minted, i);
    SessionIsRoots(runs, given, minted, j);
  }

  // ----- connection -----

  lemma LinkKeepsRoot(runs: seq<Run>, i: nat, j: nat)
    requires AllOk(runs) && Resumes(runs, j, i)
    ensures Root(runs, i) == Root(runs, j)
  {
    ResumesUnique(runs, j);
  }

  lemma {:induction false} PathKeepsRoot(runs: seq<Run>, path: seq<nat>)
    requires AllOk(runs) && LinkPath(runs, path) && path[0] < |runs|
    ensures path[|path| - 1] < |runs| && Root(runs, path[0]) == Root(runs, path[|path| - 1])
    decreases |path|
  {
    if |path| > 1 {
      var a, b := path[0], path[1];
      assert Resumes(runs, a, b) || Resumes(runs, b, a);
      if Resumes(runs, a, b) {
        LinkKeepsRoot(runs, b, a);
      } else {
        LinkKeepsRoot(runs, a, b);
      }
      PathKeepsRoot(runs, path[1..]);
    }
  }

  lemma PathJoin(runs: seq<Run>, p: seq<nat>, q: seq<nat>)
    requires LinkPath(runs, p) && LinkPath(runs, q) && p[|p| - 1] == q[0]
    ensures LinkPath(runs, p + q[1..]) && (p + q[1..])[0] == p[0]
    ensures (p + q[1..])[|p + q[1..]| - 1] == q[|q| - 1]
  {
    var r := p + q[1..];
    forall k, l | 0 <= k && l == k + 1 && l < |r| ensures Resumes(runs, r[k], r[l]) || Resumes(runs, r[l], r[k]) {
      if l < |p| {
        assert r[k] == p[k] && r[l] == p[l];
      } else {
        assert r[l] == q[l - |p| + 1] && r[k] == q[k - |p| + 1];
      }
    }
  }

  function Reversed(c: seq<nat>): (r: seq<nat>)
    ensures |r| == |c| && forall k :: 0 <= k < |c| ==> r[k] == c[|c| - 1 - k]
  {
    seq(|c|, k requires 0 <= k < |c| => c[|c| - 1 - k])
  }

  lemma ChainIsPath(runs: seq<Run>, c: seq<nat>)
    requires IsChain(runs, c)
    ensures LinkPath(runs, c) && LinkPath(runs, Reversed(c))
  {
    var r := Reversed(c);
    forall k, l | 0 <= k && l == k + 1 && l < |r| ensures Resumes(runs, r[k], r[l]) {
      var a, b := |c| - 1 - l, |c| - 1 - k;
      assert b == a + 1 && Resumes(runs, c[b], c[a]);
    }
  }

  /** Runs are connected by resume links exactly when their chains start alike. */
  lemma ConnectedIsSameRoot(runs: seq<Run>, i: nat, j: nat)
    requires AllOk(runs) && i < |runs| && j < |runs|
    ensures Connected(runs, i, j) <==> Root(runs, i) == Root(runs, j)
  {
    if Connected(runs, i, j) {
      var path :| LinkPath(runs, path) && path[0] == i && path[|path| - 1] == j;
      PathKeepsRoot(runs, path);
    }
    if Root(runs, i) == Root(runs, j) {
      var p, q := Reversed(Chain(runs, i)), Chain(runs, j);
      ChainClimbs(runs, i);
      ChainClimbs(runs, j);
      ChainIsPath(runs, Chain(runs, i));
      ChainIsPath(runs, q);
      PathJoin(runs, p, q);
    }
  }

  // ----- one chain per session -----

  /** Chains that start alike agree as far as they go. */
  lemma {:induction false} ChainsAgree(runs: seq<Run>, c: seq<nat>, d: seq<nat>, k: nat)
    requires AllOk(runs) && IsChain(runs, c) && IsChain(runs, d) && c[0] == d[0] && k < |c| && k < |d|
    ensures c[k] == d[k]
  {
    if k > 0 {
      ChainsAgree(runs, c, d, k - 1);
      assert Resumes(runs, c[k], c[k - 1]) && Resumes(runs, d[k], d[k - 1]);
      ResumedOnce(runs, c[k], d[k], c[k - 1]);
    }
  }

  lemma {:induction false} ChainIncreases(runs: seq<Run>, c: seq<nat>, a: nat, b: nat)
    requires IsChain(runs, c) && a <= b < |c|
    ensures c[a] <= c[b]
  {
    if a < b {
      ChainIncreases(runs, c, a, b - 1);
    }
  }

  /** Of two runs with one root, the earlier is on the later's chain. */
  lemma EarlierOnChain(runs: seq<Run>, i: nat, j: nat)
    requires AllOk(runs) && i <= j < |runs| && Root(runs, i) == Root(runs, j)
    ensures i in Chain(runs, j)
  {
    var c, d := Chain(runs, i), Chain(runs, j);
    ChainClimbs(runs, i);
    ChainClimbs(runs, j);
    if |c| <= |d| {
      ChainsAgree(runs, c, d, |c| - 1);
    } else {
      ChainsAgree(runs, c, d, |d| - 1);
      ChainIncreases(runs, c, |d| - 1, |c| - 1);
    }
  }

  /** The last run with a root. */
  lemma {:induction false} LastWithRoot(runs: seq<Run>, root: nat, i: nat) returns (last: nat)
    requires i < |runs| && Root(runs, i) == root
    ensures last < |runs| && Root(runs, last) == root
    ensures forall k :: 0 <= k < |runs| && Root(runs, k) == root ==> k <= last
    decreases |runs| - i
  {
    if k :| i < k < |runs| && Root(runs, k) == root {
      last := LastWithRoot(runs, root, k);
    } else {
      last := i;
    }
  }

  /** The runs of i's session are exactly those of one chain. */
  lemma SessionIsChain(runs: seq<Run>, i: nat) returns (c: seq<nat>)
    requires AllOk(runs) && i < |runs|
    ensures IsChain(runs, c) && forall k :: 0 <= k < |runs| ==> (k in c <==> Root(runs, k) == Root(runs, i))
  {
    var last := LastWithRoot(runs, Root(runs, i), i);
    c := Chain(runs, last);
    ChainClimbs(runs, last);
    forall k | 0 <= k < |runs| ensures k in c <==> Root(runs, k) == Root(runs, i) {
      if k in c {
        var n :| 0 <= n < |c| && c[n] == k;
        ChainPrefix(runs, last, n);
      } else if Root(runs, k) == Root(runs, i) {
        EarlierOnChain(runs, k, last);
      }
    }
  }

  /** What the planned runs of one session look like. */
  ghost predicate OneSession(runs: seq<Run>, plans: seq<Plan>, i: nat, c: seq<nat>)
    requires |plans| == |runs| && i < |runs|
  {
    && IsChain(runs, c)
    && (forall k :: 0 <= k < |runs| ==> (k in c <==> plans[k].session == plans[i].session))
    && (forall n :: 0 <= n < |c| ==> (plans[c[n]].resume <==> n > 0) && (plans[c[n]].persist <==> |c| >= 2))
  }

  lemma PersistOnChain(runs: seq<Run>, c: seq<nat>, n: nat, i: nat)
    requires AllOk(runs) && IsChain(runs, c) && n < |c| && i < |runs|
    requires forall k :: 0 <= k < |runs| ==> (k in c <==> Root(runs, k) == Root(runs, i))
    ensures runs[c[n]].resume != "" <==> n > 0
    ensures runs[c[n]].resume != "" || (runs[c[n]].name != "" && ResumedBySome(runs, runs[c[n]].name)) <==> |c| >= 2
  {
    if n > 0 {
      assert Resumes(runs, c[n], c[n - 1]);
    } else if |c| >= 2 {
      assert Resumes(runs, c[1], c[0]);
    } else if runs[c[0]].name != "" && ResumedBySome(runs, runs[c[0]].name) {
      var j :| 0 <= j < |runs| && runs[j].resume == runs[c[0]].name;
      LinkKeepsRoot(runs, c[0], j);
    }
  }

  /** For every accepted script and every supply of fresh ids: two runs share a
      session exactly when resume links connect them, and the runs of a session
      form one chain in file order, whose first run alone does not resume and
      whose runs are persisted exactly when there are two or more. The session is
      the operator's when the first run of the script starts it and the operator
      named one, and is minted for the chain's first run otherwise. */
  lemma PlansAreSessions(s: Script, given: string, minted: seq<string>, plans: seq<Plan>, i: nat, j: nat) returns (c: seq<nat>)
    requires Accepted(s) && |minted| == |s.runs| == |plans| && Fresh(minted, given)
    requires forall k :: 0 <= k < |plans| ==> PlanOk(s.runs, given, minted, k, plans[k])
    requires i < |plans| && j < |plans|
    ensures plans[i].session == plans[j].session <==> Connected(s.runs, i, j)
    ensures OneSession(s.runs, plans, i, c)
    ensures plans[i].session == if c[0] == 0 && given != "" then given else minted[c[0]]
  {
    var runs := s.runs;
    assert PlanOk(runs, given, minted, i, plans[i]) && PlanOk(runs, given, minted, j, plans[j]);
    SameSessionSameRoot(runs, given, minted, i, j);
    ConnectedIsSameRoot(runs, i, j);
    c := SessionIsChain(runs, i);
    forall k | 0 <= k < |runs| ensures k in c <==> plans[k].session == plans[i].session {
      assert PlanOk(runs, given, minted, k, plans[k]);
      SameSessionSameRoot(runs, given, minted, k, i);
    }
    forall n | 0 <= n < |c| ensures (plans[c[n]].resume <==> n > 0) && (plans[c[n]].persist <==> |c| >= 2) {
      assert PlanOk(runs, given, minted, c[n], plans[c[n]]);
      PersistOnChain(runs, c, n, i);
    }
    assert c[0] in c && PlanOk(runs, given, minted, c[0], plans[c[0]]);
  }
}
