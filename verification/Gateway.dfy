/** Concurrent webhook requests over one dedup memory: probe, notify the daemon,
    record, answer. */
module Gateway {
  import opened Dedup

  // ----- failures -----

  datatype Code =
    | NotFound | InvalidArgument | FailedPrecondition | Unavailable | DeadlineExceeded
    | PermissionDenied | Unauthenticated | OtherCode

  /** A Notify error: the daemon's verdict, our own deadline, or no verdict. */
  datatype NotifyError = Verdict(code: Code) | Cancelled | Transport

  datatype Reply =
    | Rejected      // 4xx or 500 before the delivery id is read
    | Duplicate     // 200 duplicate
    | Delivered200  // 200 ok
    | BadJson       // 400
    | Ignored       // 200 ignored
    | Refused       // 422
    | RetryLater    // 503
    | ServerError   // 500

  function Classify(e: NotifyError): Code {
    match e
    case Verdict(code) => code
    case Cancelled => DeadlineExceeded
    case Transport => Unavailable
  }

  function FailureReply(e: NotifyError): Reply {
    match Classify(e)
    case NotFound | InvalidArgument | FailedPrecondition => Refused
    case Unavailable | DeadlineExceeded => RetryLater
    case PermissionDenied | Unauthenticated | OtherCode => ServerError
  }

  /** No verdict on the delivery itself: the daemon or the path to it is down. */
  predicate Temporary(e: NotifyError) {
    e == Transport || e == Cancelled || e == Verdict(Unavailable) || e == Verdict(DeadlineExceeded)
  }

  /** A retry would be refused again. */
  predicate Final(e: NotifyError) {
    e == Verdict(NotFound) || e == Verdict(InvalidArgument) || e == Verdict(FailedPrecondition)
  }

  // ----- states and steps -----

  /** Where a request stands, with the delivery id and the clock reading it took
      when it probed. */
  datatype Phase =
    | Arrived(id: string)
    | Hit(id: string, now: int)
    | Cleared(id: string, now: int)
    | Accepted(id: string, now: int)
    | Stored200(id: string, now: int)
    | Answering(reply: Reply)
    | Done

  datatype Event =
    | Probe(r: nat, id: string, now: int, hit: bool)
    | Delivered(r: nat, id: string, now: int)
    | Undelivered(r: nat, id: string, now: int, err: NotifyError)
    | Malformed(r: nat, id: string, now: int)
    | Unmatched(r: nat, id: string, now: int)
    | Kept(r: nat, id: string, now: int, evicted: set<string>)
    | Replied(r: nat, reply: Reply)

  datatype State = State(entries: Entries, clock: int, phases: map<nat, Phase>, log: seq<Event>)

  datatype Action =
    | Tick(to: int)
    | Arrive(r: nat, id: string)
    | Reject(r: nat)
    | Contains(r: nat)
    | Unparsed(r: nat)
    | NoRule(r: nat)
    | NotifyOk(r: nat)
    | NotifyFail(r: nat, err: NotifyError)
    | Record(r: nat, after: Entries)
    | Answer(r: nat)

  ghost predicate Init(s: State) {
    s.entries == map[] && s.phases == map[] && s.log == []
  }

  /** The request moves to a phase and the event is logged. */
  function Move(s: State, r: nat, phase: Phase, e: Event): State {
    s.(phases := s.phases[r := phase], log := s.log + [e])
  }

  /** contains, with the clock read in the same step. */
  ghost predicate ContainsStep(s: State, r: nat, ttl: int, s': State) {
    && r in s.phases && s.phases[r].Arrived?
    && var id := s.phases[r].id;
       var hit := id != "" && Live(s.entries, id, s.clock, ttl);
       s' == Move(s, r, if hit then Hit(id, s.clock) else Cleared(id, s.clock), Probe(r, id, s.clock, hit))
             .(entries := if id == "" then s.entries else AfterProbe(s.entries, id, s.clock, ttl))
  }

  /** record, with the reading taken before Notify. */
  ghost predicate RecordStep(s: State, r: nat, after: Entries, ttl: int, max: int, s': State) {
    && r in s.phases && s.phases[r].Accepted?
    && var Accepted(id, now) := s.phases[r];
       if id == "" then s' == Move(s, r, Stored200(id, now), Kept(r, id, now, {}))
       else
         && RecordLeaves(s.entries, id, now, ttl, max, after)
         && s' == Move(s, r, Stored200(id, now), Kept(r, id, now, Stored(s.entries, id, now, ttl, max).Keys - after.Keys))
                  .(entries := after)
  }

  function ReplyOf(p: Phase): Reply
    requires p.Hit? || p.Stored200? || p.Answering?
  {
    match p
    case Hit(_, _) => Duplicate
    case Stored200(_, _) => Delivered200
    case Answering(reply) => reply
  }

  ghost predicate Step(s: State, a: Action, ttl: int, max: int, s': State) {
    match a
    case Tick(to) => to >= s.clock && s' == s.(clock := to)
    case Arrive(r, id) => r !in s.phases && s' == s.(phases := s.phases[r := Arrived(id)])
    case Reject(r) => r !in s.phases && s' == Move(s, r, Done, Replied(r, Rejected))
    case Contains(r) => ContainsStep(s, r, ttl, s')
    case Unparsed(r) =>
      Clear(s, r) && var Cleared(id, now) := s.phases[r];
      s' == Move(s, r, Answering(BadJson), Malformed(r, id, now))
    case NoRule(r) =>
      Clear(s, r) && var Cleared(id, now) := s.phases[r];
      s' == Move(s, r, Answering(Ignored), Unmatched(r, id, now))
    case NotifyOk(r) =>
      Clear(s, r) && var Cleared(id, now) := s.phases[r];
      s' == Move(s, r, Accepted(id, now), Delivered(r, id, now))
    case NotifyFail(r, err) =>
      Clear(s, r) && var Cleared(id, now) := s.phases[r];
      s' == Move(s, r, Answering(FailureReply(err)), Undelivered(r, id, now, err))
    case Record(r, after) => RecordStep(s, r, after, ttl, max, s')
    case Answer(r) =>
      && r in s.phases && (s.phases[r].Hit? || s.phases[r].Stored200? || s.phases[r].Answering?)
      && s' == Move(s, r, Done, Replied(r, ReplyOf(s.phases[r])))
  }

  predicate Clear(s: State, r: nat) {
    r in s.phases && s.phases[r].Cleared?
  }

  // ----- the log as a dedup history -----

  function OpOf(e: Event): Op {
    match e
    case Probe(_, id, now, _) => if id == "" then Other else Probed(id, now)
    case Kept(_, id, now, evicted) => if id == "" then Other else Recorded(id, now, evicted)
    case _ => Other
  }

  function Ops(log: seq<Event>): (h: seq<Op>)
    ensures |h| == |log| && forall i :: 0 <= i < |log| ==> h[i] == OpOf(log[i])
  {
    seq(|log|, i requires 0 <= i < |log| => OpOf(log[i]))
  }

  lemma OpsAppend(log: seq<Event>, e: Event)
    ensures Ops(log + [e]) == Ops(log) + [OpOf(e)]
  {
  }

  // ----- the invariant -----

  ghost predicate KeptAt(log: seq<Event>, p: int, id: string) {
    0 <= p < |log| && log[p].Kept? && log[p].id == id
  }

  /** Since the record at p the id was pushed out, or some record of it from p on
      is a time to live old by now. */
  ghost predicate Forgotten(log: seq<Event>, p: int, i: int, id: string, now: int, ttl: int) {
    || (exists q :: p < q < i && 0 <= q < |log| && log[q].Kept? && id in log[q].evicted)
    || (exists q :: p <= q < i && KeptAt(log, q, id) && now - log[q].now >= ttl)
  }

  ghost predicate DeliveredBefore(log: seq<Event>, i: int, r: nat, id: string, now: int) {
    exists j :: 0 <= j < i && j < |log| && log[j] == Delivered(r, id, now)
  }

  ghost predicate ProbedBefore(log: seq<Event>, i: int, r: nat, id: string, now: int, hit: bool) {
    exists j :: 0 <= j < i && j < |log| && log[j] == Probe(r, id, now, hit)
  }

  ghost predicate KeptFresh(log: seq<Event>, i: int, id: string, now: int, ttl: int) {
    exists j :: 0 <= j < i && KeptAt(log, j, id) && now - log[j].now < ttl
  }

  /** The event settles how its request is answered. */
  predicate Settles(e: Event) {
    match e
    case Probe(_, _, _, hit) => hit
    case Malformed(_, _, _) | Unmatched(_, _, _) | Delivered(_, _, _) | Undelivered(_, _, _, _) => true
    case Kept(_, _, _, _) | Replied(_, _) => false
  }

  /** The event calls for this reply. */
  predicate CallsFor(e: Event, reply: Reply) {
    match e
    case Probe(_, _, _, hit) => hit && reply == Duplicate
    case Malformed(_, _, _) => reply == BadJson
    case Unmatched(_, _, _) => reply == Ignored
    case Delivered(_, _, _) => reply == Delivered200
    case Undelivered(_, _, _, err) =>
      reply == if Temporary(err) then RetryLater else if Final(err) then Refused else ServerError
    case Kept(_, _, _, _) | Replied(_, _) => false
  }

  /** An event of the request before i calls for the reply. */
  ghost predicate Earned(log: seq<Event>, i: int, r: nat, reply: Reply) {
    exists j :: 0 <= j < i && j < |log| && log[j].r == r && CallsFor(log[j], reply)
  }

  ghost predicate Silent(log: seq<Event>, i: int, r: nat) {
    forall j :: 0 <= j < i && j < |log| ==> log[j].r != r
  }

  /** What each event of the log rests on. */
  ghost predicate EventOk(log: seq<Event>, i: int, ttl: int)
    requires 0 <= i < |log|
  {
    match log[i]
    case Probe(_, id, now, true) => id != "" && KeptFresh(log, i, id, now, ttl)
    case Probe(_, id, now, false) => id != "" ==> forall p :: p < i && KeptAt(log, p, id) ==> Forgotten(log, p, i, id, now, ttl)
    case Delivered(r, id, now) => ProbedBefore(log, i, r, id, now, false)
    case Undelivered(r, id, now, _) => ProbedBefore(log, i, r, id, now, false)
    case Malformed(r, id, now) => ProbedBefore(log, i, r, id, now, false)
    case Unmatched(r, id, now) => ProbedBefore(log, i, r, id, now, false)
    case Kept(r, id, now, _) => DeliveredBefore(log, i, r, id, now)
    case Replied(r, reply) => if reply == Rejected then Silent(log, i, r) else Earned(log, i, r, reply)
  }

  ghost predicate NoReply(log: seq<Event>, r: nat) {
    forall i :: 0 <= i < |log| && log[i].r == r ==> !log[i].Replied?
  }

  /** What the log holds of a request in a phase. */
  ghost predicate PhaseOk(log: seq<Event>, r: nat, phase: Phase) {
    match phase
    case Arrived(_) => Silent(log, |log|, r)
    case Hit(id, now) => ProbedBefore(log, |log|, r, id, now, true) && NoReply(log, r)
    case Cleared(id, now) => ProbedBefore(log, |log|, r, id, now, false) && OnlyMissed(log, r)
    case Accepted(id, now) => DeliveredBefore(log, |log|, r, id, now) && NoReply(log, r)
    case Stored200(id, now) => DeliveredBefore(log, |log|, r, id, now) && NoReply(log, r)
    case Answering(reply) => reply != Rejected && Earned(log, |log|, r, reply) && NoReply(log, r)
    case Done => true
  }

  /** Nothing but a probe that missed. */
  ghost predicate OnlyMissed(log: seq<Event>, r: nat) {
    forall i :: 0 <= i < |log| && log[i].r == r ==> log[i].Probe? && !log[i].hit
  }

  ghost predicate TimesOk(log: seq<Event>, clock: int) {
    forall i :: 0 <= i < |log| && !log[i].Replied? ==> log[i].now <= clock
  }

  /** A request probes once, is settled once and ends with its answer. */
  ghost predicate OnceEach(log: seq<Event>) {
    forall i, j :: 0 <= i < j < |log| && log[i].r == log[j].r ==>
      && !(log[i].Probe? && log[j].Probe?) && !(Settles(log[i]) && Settles(log[j]))
      && !log[i].Replied?
  }

  ghost predicate Inv(s: State, ttl: int, max: int) {
    && Explained(s.entries, Ops(s.log), ttl, max) && "" !in s.entries
    && TimesOk(s.log, s.clock) && OnceEach(s.log)
    && (forall i :: 0 <= i < |s.log| ==> EventOk(s.log, i, ttl))
    && (forall i :: 0 <= i < |s.log| ==> s.log[i].r in s.phases)
    && (forall r :: r in s.phases ==> PhaseOk(s.log, r, s.phases[r]))
  }

  lemma InitInv(s: State, ttl: int, max: int)
    requires Init(s)
    ensures Inv(s, ttl, max)
  {
    assert Ops(s.log) == [];
  }

  // ----- the log only grows -----

  lemma EventStays(log: seq<Event>, e: Event, i: int, ttl: int)
    requires 0 <= i < |log| && EventOk(log, i, ttl)
    ensures EventOk(log + [e], i, ttl)
  {
    var log' := log + [e];
    match log[i]
    case Probe(_, id, now, true) =>
      var j :| 0 <= j < i && KeptAt(log, j, id) && now - log[j].now < ttl;
      assert KeptAt(log', j, id);
    case Probe(_, id, now, false) =>
      forall p | id != "" && p < i && KeptAt(log', p, id) ensures Forgotten(log', p, i, id, now, ttl) {
        assert KeptAt(log, p, id);
        if q :| p < q < i && 0 <= q < |log| && log[q].Kept? && id in log[q].evicted {
          assert log'[q] == log[q];
        } else {
          var q :| p <= q < i && KeptAt(log, q, id) && now - log[q].now >= ttl;
          assert KeptAt(log', q, id);
        }
      }
    case Delivered(r, id, now) => BeforeStays(log, e, i, r, id, now, false);
    case Undelivered(r, id, now, _) => BeforeStays(log, e, i, r, id, now, false);
    case Malformed(r, id, now) => BeforeStays(log, e, i, r, id, now, false);
    case Unmatched(r, id, now) => BeforeStays(log, e, i, r, id, now, false);
    case Kept(r, id, now, _) => BeforeStays(log, e, i, r, id, now, false);
    case Replied(r, reply) => EarnedStays(log, e, i, r, reply);
  }

  lemma EarnedStays(log: seq<Event>, e: Event, i: int, r: nat, reply: Reply)
    requires i <= |log|
    ensures Earned(log, i, r, reply) ==> Earned(log + [e], i, r, reply) && Earned(log + [e], i + 1, r, reply)
    ensures Silent(log, i, r) ==> Silent(log + [e], i, r)
  {
    if Earned(log, i, r, reply) {
      var j :| 0 <= j < i && j < |log| && log[j].r == r && CallsFor(log[j], reply);
      assert (log + [e])[j] == log[j];
    }
  }

  /** A logged event is what calls for the reply. */
  lemma EarnedNow(log: seq<Event>, e: Event, reply: Reply)
    requires CallsFor(e, reply)
    ensures Earned(log + [e], |log| + 1, e.r, reply)
  {
    assert (log + [e])[|log|] == e;
  }

  lemma EarnedBy(log: seq<Event>, i: int, r: nat, id: string, now: int)
    ensures DeliveredBefore(log, i, r, id, now) ==> Earned(log, i, r, Delivered200)
    ensures ProbedBefore(log, i, r, id, now, true) ==> Earned(log, i, r, Duplicate)
  {
  }

  lemma BeforeStays(log: seq<Event>, e: Event, i: int, r: nat, id: string, now: int, hit: bool)
    requires i <= |log|
    ensures DeliveredBefore(log, i, r, id, now) ==> DeliveredBefore(log + [e], i, r, id, now)
    ensures ProbedBefore(log, i, r, id, now, hit) ==> ProbedBefore(log + [e], i, r, id, now, hit)
    ensures DeliveredBefore(log, i, r, id, now) ==> DeliveredBefore(log + [e], i + 1, r, id, now)
    ensures ProbedBefore(log, i, r, id, now, hit) ==> ProbedBefore(log + [e], i + 1, r, id, now, hit)
  {
    var log' := log + [e];
    if DeliveredBefore(log, i, r, id, now) {
      var j :| 0 <= j < i && j < |log| && log[j] == Delivered(r, id, now);
      assert log'[j] == log[j];
    }
    if ProbedBefore(log, i, r, id, now, hit) {
      var j :| 0 <= j < i && j < |log| && log[j] == Probe(r, id, now, hit);
      assert log'[j] == log[j];
    }
  }

  lemma PhaseStays(log: seq<Event>, e: Event, r: nat, phase: Phase)
    requires PhaseOk(log, r, phase) && e.r != r
    ensures PhaseOk(log + [e], r, phase)
  {
    match phase
    case Hit(id, now) => BeforeStays(log, e, |log|, r, id, now, true);
    case Cleared(id, now) => BeforeStays(log, e, |log|, r, id, now, false);
    case Accepted(id, now) => BeforeStays(log, e, |log|, r, id, now, false);
    case Stored200(id, now) => BeforeStays(log, e, |log|, r, id, now, false);
    case Answering(reply) => EarnedStays(log, e, |log|, r, reply);
    case _ =>
  }

  /** What the log may hold of a request before an event of it. */
  ghost predicate Fits(log: seq<Event>, e: Event) {
    && (e.Probe? ==> Silent(log, |log|, e.r))
    && (Settles(e) ==> OnlyMissed(log, e.r))
    && NoReply(log, e.r)
  }

  lemma OnceMore(log: seq<Event>, e: Event)
    requires OnceEach(log) && Fits(log, e)
    ensures OnceEach(log + [e])
  {
  }

  /** Logging one event keeps the invariant when the event rests on the log and
      the memory follows it. */
  lemma MoveInv(s: State, r: nat, phase: Phase, e: Event, entries: Entries, ttl: int, max: int)
    requires Inv(s, ttl, max) && e.r == r && "" !in entries
    requires Explained(entries, Ops(s.log) + [OpOf(e)], ttl, max)
    requires EventOk(s.log + [e], |s.log|, ttl) && PhaseOk(s.log + [e], r, phase)
    requires !e.Replied? ==> e.now <= s.clock
    requires Fits(s.log, e)
    ensures Inv(Move(s, r, phase, e).(entries := entries), ttl, max)
  {
    OpsAppend(s.log, e);
    OnceMore(s.log, e);
    var s' := Move(s, r, phase, e).(entries := entries);
    forall i | 0 <= i < |s'.log| ensures EventOk(s'.log, i, ttl) {
      if i < |s.log| {
        EventStays(s.log, e, i, ttl);
      }
    }
    forall k | k in s'.phases ensures PhaseOk(s'.log, k, s'.phases[k]) {
      if k != r {
        PhaseStays(s.log, e, k, s.phases[k]);
      }
    }
  }

  // ----- every step keeps the invariant -----

  /** A miss has a reason for every record of the id before it. */
  lemma MissForgets(s: State, id: string, p: int, ttl: int, max: int)
    requires Inv(s, ttl, max) && id != "" && !Live(s.entries, id, s.clock, ttl) && KeptAt(s.log, p, id)
    ensures Forgotten(s.log, p, |s.log|, id, s.clock, ttl)
  {
    var h := Ops(s.log);
    assert RecordsAt(h, p, id);
    var last := LastRecordExists(h, p, id);
    assert Accounted(s.entries, h, last, id, ttl, max);
    assert KeptAt(s.log, last, id);
    if id in s.entries {
      var p0 :| LastRecord(h, p0, id) && h[p0].now == s.entries[id];
      assert p0 == last;
    } else if q :| ExpiredAt(h, last, q, ttl) {
      assert s.clock - s.log[last].now >= ttl;
    } else {
      var q :| EvictedAt(h, last, q, max);
      assert s.log[q].Kept? && id in s.log[q].evicted;
    }
  }

  lemma HitFresh(s: State, id: string, ttl: int, max: int)
    requires Inv(s, ttl, max) && Live(s.entries, id, s.clock, ttl)
    ensures id != "" && KeptFresh(s.log, |s.log|, id, s.clock, ttl)
  {
    var h := Ops(s.log);
    var p :| LastRecord(h, p, id) && h[p].now == s.entries[id];
    assert KeptAt(s.log, p, id);
  }

  lemma ForgottenStays(log: seq<Event>, e: Event, p: int, id: string, now: int, ttl: int)
    requires Forgotten(log, p, |log|, id, now, ttl)
    ensures Forgotten(log + [e], p, |log|, id, now, ttl)
  {
    var log' := log + [e];
    if q :| p < q < |log| && 0 <= q < |log| && log[q].Kept? && id in log[q].evicted {
      assert log'[q] == log[q];
    } else {
      var q :| p <= q < |log| && KeptAt(log, q, id) && now - log[q].now >= ttl;
      assert KeptAt(log', q, id);
    }
  }

  lemma ProbeOk(s: State, r: nat, id: string, hit: bool, ttl: int, max: int)
    requires Inv(s, ttl, max) && hit == (id != "" && Live(s.entries, id, s.clock, ttl))
    ensures EventOk(s.log + [Probe(r, id, s.clock, hit)], |s.log|, ttl)
  {
    var e := Probe(r, id, s.clock, hit);
    var log' := s.log + [e];
    if hit {
      HitFresh(s, id, ttl, max);
      var j :| 0 <= j < |s.log| && KeptAt(s.log, j, id) && s.clock - s.log[j].now < ttl;
      assert KeptAt(log', j, id);
    } else {
      forall p | id != "" && p < |s.log| && KeptAt(log', p, id) ensures Forgotten(log', p, |s.log|, id, s.clock, ttl) {
        assert KeptAt(s.log, p, id);
        MissForgets(s, id, p, ttl, max);
        ForgottenStays(s.log, e, p, id, s.clock, ttl);
      }
    }
  }

  lemma ContainsInv(s: State, r: nat, ttl: int, max: int, s': State)
    requires Inv(s, ttl, max) && ContainsStep(s, r, ttl, s')
    ensures Inv(s', ttl, max)
  {
    var id := s.phases[r].id;
    var hit := id != "" && Live(s.entries, id, s.clock, ttl);
    var e := Probe(r, id, s.clock, hit);
    var phase := if hit then Hit(id, s.clock) else Cleared(id, s.clock);
    var entries := if id == "" then s.entries else AfterProbe(s.entries, id, s.clock, ttl);
    ProbeOk(s, r, id, hit, ttl, max);
    assert (s.log + [e])[|s.log|] == e;
    if id == "" {
      OtherExplained(s.entries, Ops(s.log), ttl, max);
    } else {
      ProbeExplained(s.entries, Ops(s.log), id, s.clock, ttl, max);
    }
    MoveInv(s, r, phase, e, entries, ttl, max);
  }

  lemma RecordInv(s: State, r: nat, after: Entries, ttl: int, max: int, s': State)
    requires Inv(s, ttl, max) && RecordStep(s, r, after, ttl, max, s')
    ensures Inv(s', ttl, max)
  {
    var Accepted(id, now) := s.phases[r];
    var evicted := if id == "" then {} else Stored(s.entries, id, now, ttl, max).Keys - after.Keys;
    var e := Kept(r, id, now, evicted);
    BeforeStays(s.log, e, |s.log|, r, id, now, false);
    assert now <= s.clock;
    if id == "" {
      OtherExplained(s.entries, Ops(s.log), ttl, max);
      MoveInv(s, r, Stored200(id, now), e, s.entries, ttl, max);
    } else {
      RecordExplained(s.entries, Ops(s.log), id, now, ttl, max, after);
      MoveInv(s, r, Stored200(id, now), e, after, ttl, max);
    }
  }

  /** Steps that log something the memory does not see. */
  lemma QuietInv(s: State, r: nat, phase: Phase, e: Event, ttl: int, max: int)
    requires Inv(s, ttl, max) && e.r == r && OpOf(e) == Other
    requires EventOk(s.log + [e], |s.log|, ttl) && PhaseOk(s.log + [e], r, phase)
    requires !e.Replied? ==> e.now <= s.clock
    requires Fits(s.log, e)
    ensures Inv(Move(s, r, phase, e), ttl, max)
  {
    OtherExplained(s.entries, Ops(s.log), ttl, max);
    MoveInv(s, r, phase, e, s.entries, ttl, max);
  }

  lemma NotifyInv(s: State, r: nat, ttl: int, max: int)
    requires Inv(s, ttl, max) && Clear(s, r)
    ensures var Cleared(id, now) := s.phases[r];
            Inv(Move(s, r, Accepted(id, now), Delivered(r, id, now)), ttl, max)
  {
    var Cleared(id, now) := s.phases[r];
    var e := Delivered(r, id, now);
    BeforeStays(s.log, e, |s.log|, r, id, now, false);
    assert (s.log + [e])[|s.log|] == e;
    QuietInv(s, r, Accepted(id, now), e, ttl, max);
  }

  /** A cleared request is settled by an event that calls for its reply. */
  lemma SettleInv(s: State, r: nat, reply: Reply, e: Event, ttl: int, max: int)
    requires Inv(s, ttl, max) && Clear(s, r) && reply != Rejected && CallsFor(e, reply)
    requires var Cleared(id, now) := s.phases[r];
             e == Malformed(r, id, now) || e == Unmatched(r, id, now) || (e.Undelivered? && e == Undelivered(r, id, now, e.err))
    ensures Inv(Move(s, r, Answering(reply), e), ttl, max)
  {
    var Cleared(id, now) := s.phases[r];
    BeforeStays(s.log, e, |s.log|, r, id, now, false);
    assert (s.log + [e])[|s.log|] == e;
    EarnedNow(s.log, e, reply);
    QuietInv(s, r, Answering(reply), e, ttl, max);
  }

  lemma AnswerInv(s: State, r: nat, ttl: int, max: int)
    requires Inv(s, ttl, max) && r in s.phases && (s.phases[r].Hit? || s.phases[r].Stored200? || s.phases[r].Answering?)
    ensures Inv(Move(s, r, Done, Replied(r, ReplyOf(s.phases[r]))), ttl, max)
  {
    var e := Replied(r, ReplyOf(s.phases[r]));
    match s.phases[r] {
      case Hit(id, now) => EarnedBy(s.log, |s.log|, r, id, now);
      case Stored200(id, now) => EarnedBy(s.log, |s.log|, r, id, now);
      case _ =>
    }
    EarnedStays(s.log, e, |s.log|, r, e.reply);
    QuietInv(s, r, Done, e, ttl, max);
  }

  lemma StepInv(s: State, a: Action, ttl: int, max: int, s': State)
    requires Inv(s, ttl, max) && Step(s, a, ttl, max, s')
    ensures Inv(s', ttl, max)
  {
    match a
    case Contains(r) => ContainsInv(s, r, ttl, max, s');
    case NotifyOk(r) => NotifyInv(s, r, ttl, max);
    case NotifyFail(r, err) => SettleInv(s, r, FailureReply(err), Undelivered(r, s.phases[r].id, s.phases[r].now, err), ttl, max);
    case Unparsed(r) => SettleInv(s, r, BadJson, Malformed(r, s.phases[r].id, s.phases[r].now), ttl, max);
    case NoRule(r) => SettleInv(s, r, Ignored, Unmatched(r, s.phases[r].id, s.phases[r].now), ttl, max);
    case Record(r, after) => RecordInv(s, r, after, ttl, max, s');
    case Answer(r) => AnswerInv(s, r, ttl, max);
    case Reject(r) => QuietInv(s, r, Done, Replied(r, Rejected), ttl, max);
    case _ =>
  }

  // ----- every run -----

  ghost predicate Next(s: State, ttl: int, max: int, s': State) {
    exists a :: Step(s, a, ttl, max, s')
  }

  /** A run: any interleaving of the requests' steps and the clock. */
  ghost predicate Run(states: seq<State>, ttl: int, max: int) {
    && states != [] && Init(states[0])
    && forall i, j :: 0 <= i && j == i + 1 && j < |states| ==> Next(states[i], ttl, max, states[j])
  }

  lemma {:induction false} RunInv(states: seq<State>, n: nat, ttl: int, max: int)
    requires Run(states, ttl, max) && n < |states|
    ensures Inv(states[n], ttl, max)
  {
    if n == 0 {
      InitInv(states[0], ttl, max);
    } else {
      RunInv(states, n - 1, ttl, max);
      assert Next(states[n - 1], ttl, max, states[n]);
      var a :| Step(states[n - 1], a, ttl, max, states[n]);
      StepInv(states[n - 1], a, ttl, max, states[n]);
    }
  }

  /** The answer is a request's last event. What settled it before, and nothing
      else, says how; it is rejected exactly when nothing of it was logged. */
  lemma ReplyExact(states: seq<State>, n: nat, i: nat, ttl: int, max: int)
    requires Run(states, ttl, max) && n < |states| && i < |states[n].log| && states[n].log[i].Replied?
    ensures var log, r, reply := states[n].log, states[n].log[i].r, states[n].log[i].reply;
            && (reply == Rejected <==> Silent(log, i, r))
            && (reply != Rejected <==> exists j :: 0 <= j < i && log[j].r == r && Settles(log[j]))
            && (forall j :: 0 <= j < i && log[j].r == r && Settles(log[j]) ==> CallsFor(log[j], reply))
            && (forall j :: i < j < |log| ==> log[j].r != r)
  {
    RunInv(states, n, ttl, max);
    var log, r, reply := states[n].log, states[n].log[i].r, states[n].log[i].reply;
    assert EventOk(log, i, ttl) && OnceEach(log);
    if reply != Rejected {
      var k :| 0 <= k < i && k < |log| && log[k].r == r && CallsFor(log[k], reply);
      assert Settles(log[k]);
      forall j | 0 <= j < i && log[j].r == r && Settles(log[j]) ensures j == k {
      }
    }
  }

  /** A 200 "ok" is sent only after the daemon accepted that request's Notify. */
  lemma OkWasDelivered(states: seq<State>, n: nat, i: nat, r: nat, ttl: int, max: int)
    requires Run(states, ttl, max) && n < |states|
    requires i < |states[n].log| && states[n].log[i] == Replied(r, Delivered200)
    ensures exists id, now :: DeliveredBefore(states[n].log, i, r, id, now)
  {
    RunInv(states, n, ttl, max);
    var log := states[n].log;
    assert EventOk(log, i, ttl);
    var j :| 0 <= j < i && j < |log| && log[j].r == r && CallsFor(log[j], Delivered200);
    assert DeliveredBefore(log, i, r, log[j].id, log[j].now);
  }

  /** Earlier in the log, a request with this id was accepted and recorded less
      than a time to live before now. */
  ghost predicate AcceptedRecently(log: seq<Event>, i: int, id: string, now: int, ttl: int) {
    exists r, t :: DeliveredBefore(log, i, r, id, t) && now - t < ttl
  }

  /** A 200 "duplicate" answers a probe that hit, and before that probe the
      daemon had accepted the same non-empty id within the time to live: no retry
      of a failed Notify is swallowed. */
  lemma DuplicateWasDelivered(states: seq<State>, n: nat, i: nat, r: nat, ttl: int, max: int)
    returns (c: int, id: string, now: int)
    requires Run(states, ttl, max) && n < |states|
    requires i < |states[n].log| && states[n].log[i] == Replied(r, Duplicate)
    ensures 0 <= c < i && states[n].log[c] == Probe(r, id, now, true) && id != ""
    ensures AcceptedRecently(states[n].log, c, id, now, ttl)
  {
    RunInv(states, n, ttl, max);
    var log := states[n].log;
    assert EventOk(log, i, ttl);
    c :| 0 <= c < i && c < |log| && log[c].r == r && CallsFor(log[c], Duplicate);
    id, now := log[c].id, log[c].now;
    HitWasAccepted(states, n, c, ttl, max);
  }

  lemma HitWasAccepted(states: seq<State>, n: nat, c: int, ttl: int, max: int)
    requires Run(states, ttl, max) && n < |states|
    requires 0 <= c < |states[n].log| && states[n].log[c].Probe? && states[n].log[c].hit
    ensures states[n].log[c].id != ""
    ensures AcceptedRecently(states[n].log, c, states[n].log[c].id, states[n].log[c].now, ttl)
  {
    RunInv(states, n, ttl, max);
    var log, id, now := states[n].log, states[n].log[c].id, states[n].log[c].now;
    assert EventOk(log, c, ttl);
    var j :| 0 <= j < c && KeptAt(log, j, id) && now - log[j].now < ttl;
    assert EventOk(log, j, ttl);
    var d :| 0 <= d < j && d < |log| && log[d] == Delivered(log[j].r, id, log[j].now);
    assert DeliveredBefore(log, c, log[j].r, id, log[j].now);
  }

  /** A request whose Notify failed is told to retry exactly when the daemon or
      the path to it failed, refused exactly when it is the sender's or the target's
      fault, and told of a server error otherwise. */
  lemma FailureIsReported(states: seq<State>, n: nat, j: nat, i: nat, ttl: int, max: int)
    requires Run(states, ttl, max) && n < |states| && j < |states[n].log| && i < |states[n].log|
    requires states[n].log[j].Undelivered? && states[n].log[i].Replied? && states[n].log[i].r == states[n].log[j].r
    ensures var reply, err := states[n].log[i].reply, states[n].log[j].err;
            && j < i && reply in {RetryLater, Refused, ServerError}
            && (reply == RetryLater <==> err in {Transport, Cancelled, Verdict(Unavailable), Verdict(DeadlineExceeded)})
            && (reply == Refused <==> err in {Verdict(NotFound), Verdict(InvalidArgument), Verdict(FailedPrecondition)})
  {
    ReplyExact(states, n, i, ttl, max);
    RunInv(states, n, ttl, max);
  }

  /** A probe after a record of the id hits, unless the id was pushed out in
      between or a record of it is a time to live old at the probe. */
  lemma RetryHits(states: seq<State>, n: nat, p: int, c: int, id: string, ttl: int, max: int)
    requires Run(states, ttl, max) && n < |states| && id != "" && KeptAt(states[n].log, p, id)
    requires p < c < |states[n].log| && states[n].log[c].Probe? && states[n].log[c].id == id
    ensures states[n].log[c].hit || Forgotten(states[n].log, p, c, id, states[n].log[c].now, ttl)
  {
    RunInv(states, n, ttl, max);
    assert EventOk(states[n].log, c, ttl);
  }

  /** The request r recorded the id only after the probe at c, or that record was
      forgotten by then. */
  ghost predicate RecordedAfter(log: seq<Event>, c: int, r: nat, id: string, ttl: int)
    requires 0 <= c < |log| && log[c].Probe?
  {
    forall q :: KeptAt(log, q, id) && log[q].r == r ==> c < q || Forgotten(log, q, c, id, log[c].now, ttl)
  }

  /** The probe that cleared the delivery at d. */
  lemma DeliveryProbe(states: seq<State>, n: nat, d: nat, ttl: int, max: int) returns (c: int)
    requires Run(states, ttl, max) && n < |states| && d < |states[n].log| && states[n].log[d].Delivered?
    ensures 0 <= c < d
    ensures var e := states[n].log[d]; states[n].log[c] == Probe(e.r, e.id, e.now, false)
  {
    RunInv(states, n, ttl, max);
    var log := states[n].log;
    assert EventOk(log, d, ttl);
    c :| 0 <= c < d && c < |log| && log[c] == Probe(log[d].r, log[d].id, log[d].now, false);
  }

  /** A probe that misses comes before every record of the id, forgotten ones
      aside. */
  lemma MissBeforeRecords(states: seq<State>, n: nat, c: int, r: nat, ttl: int, max: int)
    requires Run(states, ttl, max) && n < |states| && 0 <= c < |states[n].log|
    requires var e := states[n].log[c]; e.Probe? && e.id != "" && !e.hit
    ensures RecordedAfter(states[n].log, c, r, states[n].log[c].id, ttl)
  {
    var log := states[n].log;
    var id := log[c].id;
    forall q | KeptAt(log, q, id) && log[q].r == r ensures c < q || Forgotten(log, q, c, id, log[c].now, ttl) {
      if q < c {
        RetryHits(states, n, q, c, id, ttl, max);
      }
    }
  }

  /** The events at d1 and d2 are two accepted notifications for one id. */
  ghost predicate DeliveredTwice(log: seq<Event>, d1: nat, d2: nat) {
    && d1 < |log| && d2 < |log| && d1 != d2
    && log[d1].Delivered? && log[d2].Delivered? && log[d1].id == log[d2].id != ""
  }

  /** Two accepted notifications for one id come from two requests whose
      probe-to-record intervals overlap, unless the memory lost the record of one
      before the other probed. */
  lemma DoubleDeliveryOverlaps(states: seq<State>, n: nat, d1: nat, d2: nat, ttl: int, max: int) returns (c1: int, c2: int)
    requires Run(states, ttl, max) && n < |states| && DeliveredTwice(states[n].log, d1, d2)
    ensures var log, e1, e2 := states[n].log, states[n].log[d1], states[n].log[d2];
            && e1.r != e2.r && 0 <= c1 < d1 && 0 <= c2 < d2
            && log[c1] == Probe(e1.r, e1.id, e1.now, false) && log[c2] == Probe(e2.r, e2.id, e2.now, false)
            && RecordedAfter(log, c2, e1.r, e1.id, ttl) && RecordedAfter(log, c1, e2.r, e1.id, ttl)
  {
    var log := states[n].log;
    c1 := DeliveryProbe(states, n, d1, ttl, max);
    c2 := DeliveryProbe(states, n, d2, ttl, max);
    MissBeforeRecords(states, n, c1, log[d2].r, ttl, max);
    MissBeforeRecords(states, n, c2, log[d1].r, ttl, max);
    RunInv(states, n, ttl, max);
    assert OnceEach(log);
  }

  /** Retries that do not overlap are delivered at most once: a request that
      probes after another recorded the id delivers only what was forgotten. */
  lemma SequentialOnce(states: seq<State>, n: nat, q: int, c: int, d: nat, ttl: int, max: int)
    requires Run(states, ttl, max) && n < |states|
    requires d < |states[n].log| && states[n].log[d].Delivered? && states[n].log[d].id != ""
    requires 0 <= q < c < |states[n].log| && KeptAt(states[n].log, q, states[n].log[d].id)
    requires states[n].log[c].Probe? && states[n].log[c].r == states[n].log[d].r
    ensures Forgotten(states[n].log, q, c, states[n].log[d].id, states[n].log[c].now, ttl)
  {
    var log := states[n].log;
    var c' := DeliveryProbe(states, n, d, ttl, max);
    RunInv(states, n, ttl, max);
    assert OnceEach(log) && c' == c;
    assert EventOk(log, c, ttl);
  }
}
