/** The webhook gateway's memory of delivered ids: a bounded map with a time to
    live and oldest-first eviction. */
module Dedup {

  type Entries = map<string, int>

  const DAY: int := 24 * 60 * 60 * 1000000000  // nanoseconds
  const CAP: int := 10000

  // ----- the operations on values -----

  predicate Live(e: Entries, id: string, now: int, ttl: int) {
    id in e && now - e[id] < ttl
  }

  /** A probe drops the entry it finds expired. */
  function AfterProbe(e: Entries, id: string, now: int, ttl: int): Entries {
    if id in e && now - e[id] >= ttl then e - {id} else e
  }

  function Swept(e: Entries, now: int, ttl: int): Entries {
    map k | k in e && now - e[k] < ttl :: e[k]
  }

  /** The entries before eviction: swept when full, then the id stored. */
  function Stored(e: Entries, id: string, now: int, ttl: int, max: int): Entries {
    (if |e| >= max then Swept(e, now, ttl) else e)[id := now]
  }

  /** What the map can hold: the id just recorded is never evicted. */
  function Room(max: int): nat {
    if max < 1 then 1 else max
  }

  /** e' is what recording may leave: the stored entries less the oldest ones
      other than id, as few as the cap allows. */
  ghost predicate RecordLeaves(e: Entries, id: string, now: int, ttl: int, max: int, e': Entries) {
    var all := Stored(e, id, now, ttl, max);
    && id in e' && (forall k :: k in e' ==> k in all && e'[k] == all[k])
    && (if |all| > max then |e'| == Room(max) else e' == all)
    && forall v, s :: v in all && v !in e' && s in e' && s != id ==> all[v] <= all[s]
  }

  // ----- the history of a map -----

  /** What happened to the map; evicted are the ids a record pushed out. */
  datatype Op = Recorded(id: string, now: int, evicted: set<string>) | Probed(id: string, now: int) | Other

  ghost predicate RecordsAt(h: seq<Op>, p: int, id: string) {
    0 <= p < |h| && h[p].Recorded? && h[p].id == id
  }

  ghost predicate LastRecord(h: seq<Op>, p: int, id: string) {
    RecordsAt(h, p, id) && forall q :: p < q < |h| ==> !RecordsAt(h, q, id)
  }

  /** A later reading finds the record at p expired. */
  ghost predicate ExpiredAt(h: seq<Op>, p: int, q: int, ttl: int)
    requires 0 <= p < |h| && h[p].Recorded?
  {
    p < q < |h| && !h[q].Other? && h[q].now - h[p].now >= ttl
  }

  /** s has a record no older than t before q. */
  ghost predicate RecordedSince(h: seq<Op>, q: int, s: string, t: int) {
    exists r :: 0 <= r < q && RecordsAt(h, r, s) && h[r].now >= t
  }

  /** At least max other ids, each recorded before q no earlier than the record
      at p, the one recorded at q aside. */
  ghost predicate Crowd(h: seq<Op>, p: int, q: int, max: int, others: set<string>)
    requires 0 <= p < q < |h| && h[p].Recorded? && h[q].Recorded?
  {
    && |others| >= max && h[p].id !in others && h[q].id in others
    && forall s :: s in others && s != h[q].id ==> RecordedSince(h, q, s, h[p].now)
  }

  /** The record at q pushes the one at p out of the map. */
  ghost predicate EvictedAt(h: seq<Op>, p: int, q: int, max: int)
    requires 0 <= p < |h| && h[p].Recorded?
  {
    && p < q < |h| && h[q].Recorded? && h[p].id in h[q].evicted
    && exists others :: Crowd(h, p, q, max, others)
  }

  /** Every entry is its id's last record; a last record that is no entry has
      expired or was evicted since. */
  ghost predicate Explained(e: Entries, h: seq<Op>, ttl: int, max: int) {
    && (forall id :: id in e ==> exists p :: LastRecord(h, p, id) && h[p].now == e[id])
    && (forall id, p :: LastRecord(h, p, id) ==>
          id in e || (exists q :: ExpiredAt(h, p, q, ttl)) || (exists q :: EvictedAt(h, p, q, max)))
  }

  // ----- the class -----

  class Memory {
    var entries: Entries
    const ttl: int
    const max: int
    ghost var history: seq<Op>

    ghost predicate Valid()
      reads this
    {
      "" !in entries && |entries| <= Room(max) && Explained(entries, history, ttl, max)
    }

    constructor ()
      ensures Valid() && entries == map[] && history == [] && ttl == 86400 * 1000000000 && max == 10000
    {
      entries, ttl, max := map[], DAY, CAP;
      history := [];
    }

    /** live: present and unexpired, dropping an expired entry. */
    method Probe(id: string, now: int) returns (b: bool)
      requires Valid() && id != ""
      modifies this
      ensures Valid() && b == Live(old(entries), id, now, ttl)
      ensures entries == AfterProbe(old(entries), id, now, ttl)
      ensures history == old(history) + [Probed(id, now)]
    {
      ghost var h := history;
      history := history + [Probed(id, now)];
      ProbeExplained(entries, h, id, now, ttl, max);
      if id !in entries {
        return false;
      }
      if now - entries[id] >= ttl {
        entries := entries - {id};
        assert entries.Keys == old(entries).Keys - {id};
        return false;
      }
      return true;
    }

    method Contains(id: string, now: int) returns (b: bool)
      requires Valid()
      modifies this
      ensures Valid() && b == (id != "" && Live(old(entries), id, now, ttl))
      ensures id == "" ==> entries == old(entries) && history == old(history)
      ensures id != "" ==> entries == AfterProbe(old(entries), id, now, ttl) && history == old(history) + [Probed(id, now)]
    {
      if id == "" {
        return false;
      }
      b := Probe(id, now);
    }

    method Record(id: string, now: int)
      requires Valid()
      modifies this
      ensures Valid() && (id == "" ==> entries == old(entries) && history == old(history))
      ensures id != "" ==>
                RecordLeaves(old(entries), id, now, ttl, max, entries) &&
                history == old(history) +
                  [Recorded(id, now, Stored(old(entries), id, now, ttl, max).Keys - entries.Keys)]
    {
      if id != "" {
        RecordLocked(id, now);
      }
    }

    method Seen(id: string, now: int) returns (b: bool)
      requires Valid()
      modifies this
      ensures Valid() && b == (id != "" && Live(old(entries), id, now, ttl))
      ensures id == "" || b ==> entries == old(entries)
      ensures id != "" && !b ==> RecordLeaves(AfterProbe(old(entries), id, now, ttl), id, now, ttl, max, entries)
    {
      if id == "" {
        return false;
      }
      b := Probe(id, now);
      if !b {
        RecordLocked(id, now);
      }
    }

    method RecordLocked(id: string, now: int)
      requires Valid() && id != ""
      modifies this
      ensures Valid() && RecordLeaves(old(entries), id, now, ttl, max, entries)
      ensures history == old(history) +
                [Recorded(id, now, Stored(old(entries), id, now, ttl, max).Keys - entries.Keys)]
    {
      ghost var e, h := entries, history;
      if |entries| >= max {
        Sweep(now);
      }
      entries := entries[id := now];
      assert entries == Stored(e, id, now, ttl, max);
      Evict(id);
      history := h + [Recorded(id, now, Stored(e, id, now, ttl, max).Keys - entries.Keys)];
      RecordExplained(e, h, id, now, ttl, max, entries);
      RecordFits(e, id, now, ttl, max, entries);
    }

    /** Drops every expired entry. */
    method Sweep(now: int)
      modifies this`entries
      ensures entries == Swept(old(entries), now, ttl)
    {
      var todo := entries.Keys;
      while todo != {}
        invariant todo <= entries.Keys
        invariant forall k :: k in entries <==> k in old(entries) && (k in todo || now - old(entries)[k] < ttl)
        invariant forall k :: k in entries ==> entries[k] == old(entries)[k]
        decreases |todo|
      {
        var k :| k in todo;
        todo := todo - {k};
        if now - entries[k] >= ttl {
          entries := entries - {k};
        }
      }
    }

    /** Removes oldest entries other than id until the map fits. */
    method Evict(id: string)
      requires "" !in entries && id in entries
      modifies this`entries
      ensures id in entries && (forall k :: k in entries ==> k in old(entries) && entries[k] == old(entries)[k])
      ensures |old(entries)| > max ==> |entries| == Room(max)
      ensures |old(entries)| <= max ==> entries == old(entries)
      ensures forall v, s :: v in old(entries) && v !in entries && s in entries && s != id ==>
                old(entries)[v] <= old(entries)[s]
    {
      while |entries| > max
        invariant id in entries && "" !in entries
        invariant forall k :: k in entries ==> k in old(entries) && entries[k] == old(entries)[k]
        invariant |entries| >= Room(max) || entries == old(entries)
        invariant |old(entries)| <= max ==> entries == old(entries)
        invariant forall v, s :: v in old(entries) && v !in entries && s in entries && s != id ==>
                    old(entries)[v] <= old(entries)[s]
        decreases |entries|
      {
        var oldest := Oldest(id);
        if oldest == "" {
          OnlyKey(entries, id);
          return;
        }
        RemoveOne(entries, oldest);
        entries := entries - {oldest};
      }
    }

    /** The oldest entry other than id, or "" when there is none. */
    method Oldest(id: string) returns (oldest: string)
      requires "" !in entries && id in entries
      ensures oldest == "" ==> forall k :: k in entries ==> k == id
      ensures oldest != "" ==> oldest in entries && oldest != id &&
                               forall k :: k in entries && k != id ==> entries[oldest] <= entries[k]
    {
      oldest := "";
      var oldestAt := 0;
      var todo := entries.Keys;
      while todo != {}
        invariant todo <= entries.Keys
        invariant oldest == "" ==> forall k :: k in entries && k !in todo ==> k == id
        invariant oldest != "" ==> oldest in entries && oldest != id && oldestAt == entries[oldest] &&
                                   forall k :: k in entries && k !in todo && k != id ==> oldestAt <= entries[k]
        decreases |todo|
      {
        var k :| k in todo;
        todo := todo - {k};
        if k != id && (oldest == "" || entries[k] < oldestAt) {
          oldest, oldestAt := k, entries[k];
        }
      }
    }
  }

  lemma RemoveOne(e: Entries, k: string)
    requires k in e
    ensures |e - {k}| == |e| - 1
  {
    assert (e - {k}).Keys == e.Keys - {k};
  }

  lemma OnlyKey(e: Entries, id: string)
    requires id in e && forall k :: k in e ==> k == id
    ensures |e| == 1
  {
    assert e.Keys == {id};
  }

  // ----- the history explains the map -----

  lemma LastRecordAppend(h: seq<Op>, op: Op, p: int, id: string)
    requires !(op.Recorded? && op.id == id)
    ensures LastRecord(h + [op], p, id) <==> LastRecord(h, p, id)
  {
    var h' := h + [op];
    forall q ensures RecordsAt(h', q, id) <==> RecordsAt(h, q, id) {
    }
  }

  /** Expiry and eviction, once they happened, stay in the history. */
  lemma GoneAppend(h: seq<Op>, op: Op, p: int, q: int, ttl: int, max: int)
    requires 0 <= p < |h| && h[p].Recorded?
    ensures ExpiredAt(h, p, q, ttl) ==> ExpiredAt(h + [op], p, q, ttl)
    ensures EvictedAt(h, p, q, max) ==> EvictedAt(h + [op], p, q, max)
  {
    var h' := h + [op];
    if EvictedAt(h, p, q, max) {
      var others :| Crowd(h, p, q, max, others);
      forall s | s in others && s != h[q].id ensures RecordedSince(h', q, s, h[p].now) {
        var r :| 0 <= r < q && RecordsAt(h, r, s) && h[r].now >= h[p].now;
        assert RecordsAt(h', r, s);
      }
      assert Crowd(h', p, q, max, others);
    }
  }

  /** The record at p is an entry still, or gone for a reason. */
  ghost predicate Accounted(e: Entries, h: seq<Op>, p: int, id: string, ttl: int, max: int)
    requires LastRecord(h, p, id)
  {
    id in e || (exists q :: ExpiredAt(h, p, q, ttl)) || (exists q :: EvictedAt(h, p, q, max))
  }

  lemma StaysAccounted(e: Entries, h: seq<Op>, op: Op, e': Entries, p: int, id: string, ttl: int, max: int)
    requires LastRecord(h, p, id) && Accounted(e, h, p, id, ttl, max) && (id in e ==> id in e')
    requires LastRecord(h + [op], p, id)
    ensures Accounted(e', h + [op], p, id, ttl, max)
  {
    if q :| ExpiredAt(h, p, q, ttl) {
      GoneAppend(h, op, p, q, ttl, max);
    } else if q :| EvictedAt(h, p, q, max) {
      GoneAppend(h, op, p, q, ttl, max);
    }
  }

  /** An operation that stores nothing and drops at most one expired id. */
  lemma ProbeExplained(e: Entries, h: seq<Op>, id: string, now: int, ttl: int, max: int)
    requires Explained(e, h, ttl, max)
    ensures Explained(AfterProbe(e, id, now, ttl), h + [Probed(id, now)], ttl, max)
  {
    var op, e' := Probed(id, now), AfterProbe(e, id, now, ttl);
    var h' := h + [op];
    forall k | k in e' ensures exists p :: LastRecord(h', p, k) && h'[p].now == e'[k] {
      var p :| LastRecord(h, p, k) && h[p].now == e[k];
      LastRecordAppend(h, op, p, k);
    }
    forall k, p | LastRecord(h', p, k) ensures Accounted(e', h', p, k, ttl, max) {
      LastRecordAppend(h, op, p, k);
      if k == id && id in e && now - e[id] >= ttl {
        var p0 :| LastRecord(h, p0, k) && h[p0].now == e[k];
        assert p0 == p;
        assert ExpiredAt(h', p, |h|, ttl);
      } else {
        StaysAccounted(e, h, op, e', p, k, ttl, max);
      }
    }
  }

  lemma OtherExplained(e: Entries, h: seq<Op>, ttl: int, max: int)
    requires Explained(e, h, ttl, max)
    ensures Explained(e, h + [Other], ttl, max)
  {
    var h' := h + [Other];
    forall k | k in e ensures exists p :: LastRecord(h', p, k) && h'[p].now == e[k] {
      var p :| LastRecord(h, p, k) && h[p].now == e[k];
      LastRecordAppend(h, Other, p, k);
    }
    forall k, p | LastRecord(h', p, k) ensures Accounted(e, h', p, k, ttl, max) {
      LastRecordAppend(h, Other, p, k);
      StaysAccounted(e, h, Other, e, p, k, ttl, max);
    }
  }

  /** A victim was crowded out by entries recorded no earlier. */
  lemma VictimEvicted(e: Entries, h: seq<Op>, op: Op, ttl: int, max: int, e': Entries, k: string, p: int)
    requires Explained(e, h, ttl, max) && op.Recorded? && op.id != k
    requires RecordLeaves(e, op.id, op.now, ttl, max, e')
    requires op.evicted == Stored(e, op.id, op.now, ttl, max).Keys - e'.Keys
    requires LastRecord(h, p, k) && k in e && h[p].now == e[k] && k in op.evicted
    ensures EvictedAt(h + [op], p, |h|, max)
  {
    var h', q, others := h + [op], |h|, e'.Keys;
    assert |others| == |e'|;
    forall s | s in others && s != op.id ensures RecordedSince(h', q, s, h[p].now) {
      assert s in e && e[s] == e'[s];
      var r :| LastRecord(h, r, s) && h[r].now == e[s];
      assert RecordsAt(h', r, s);
    }
    assert Crowd(h', p, q, max, others);
  }

  lemma RecordExplained(e: Entries, h: seq<Op>, id: string, now: int, ttl: int, max: int, e': Entries)
    requires Explained(e, h, ttl, max) && RecordLeaves(e, id, now, ttl, max, e')
    ensures Explained(e', h + [Recorded(id, now, Stored(e, id, now, ttl, max).Keys - e'.Keys)], ttl, max)
  {
    var all := Stored(e, id, now, ttl, max);
    var op := Recorded(id, now, all.Keys - e'.Keys);
    var h' := h + [op];
    forall k | k in e' ensures exists p :: LastRecord(h', p, k) && h'[p].now == e'[k] {
      if k == id {
        assert LastRecord(h', |h|, k);
      } else {
        var p :| LastRecord(h, p, k) && h[p].now == e[k];
        LastRecordAppend(h, op, p, k);
      }
    }
    forall k, p | LastRecord(h', p, k) ensures Accounted(e', h', p, k, ttl, max) {
      if k != id {
        LastRecordAppend(h, op, p, k);
        if k in e && k !in e' {
          var p0 :| LastRecord(h, p0, k) && h[p0].now == e[k];
          assert p0 == p;
          if k in all {
            VictimEvicted(e, h, op, ttl, max, e', k, p);
          } else {
            assert ExpiredAt(h', p, |h|, ttl);
          }
        } else {
          StaysAccounted(e, h, op, e', p, k, ttl, max);
        }
      } else {
        assert RecordsAt(h', |h|, id);
      }
    }
  }

  // ----- what the memory promises -----

  /** The readings never go back, and now is no earlier than any of them. */
  ghost predicate Nondecreasing(h: seq<Op>, now: int) {
    && (forall i, j :: 0 <= i <= j < |h| && !h[i].Other? && !h[j].Other? ==> h[i].now <= h[j].now)
    && (forall i :: 0 <= i < |h| && !h[i].Other? ==> h[i].now <= now)
  }

  lemma {:induction false} LastRecordExists(h: seq<Op>, p: int, id: string) returns (last: int)
    requires RecordsAt(h, p, id)
    ensures p <= last && LastRecord(h, last, id)
    decreases |h| - p
  {
    if q :| p < q < |h| && RecordsAt(h, q, id) {
      last := LastRecordExists(h, q, id);
    } else {
      last := p;
    }
  }

  /** At least max other ids were recorded with readings no earlier than t. */
  ghost predicate Crowded(h: seq<Op>, id: string, t: int, max: int) {
    exists others: set<string> :: |others| >= max && id !in others && AllSince(h, others, t)
  }

  ghost predicate AllSince(h: seq<Op>, others: set<string>, t: int) {
    forall s :: s in others ==> RecordedSince(h, |h|, s, t)
  }

  /** Within its time to live a recorded id is reported as a duplicate, unless
      max other ids were recorded no earlier than it. */
  lemma Remembered(e: Entries, h: seq<Op>, ttl: int, max: int, p: int, id: string, now: int)
    requires Explained(e, h, ttl, max) && Nondecreasing(h, now)
    requires RecordsAt(h, p, id) && now - h[p].now < ttl
    ensures Live(e, id, now, ttl) || Crowded(h, id, h[p].now, max)
  {
    var last := LastRecordExists(h, p, id);
    assert Accounted(e, h, last, id, ttl, max);
    if id in e {
      var p0 :| LastRecord(h, p0, id) && h[p0].now == e[id];
      assert p0 == last;
    } else {
      assert forall q :: !ExpiredAt(h, last, q, ttl);
      var q :| EvictedAt(h, last, q, max);
      var others :| Crowd(h, last, q, max, others);
      forall s | s in others ensures RecordedSince(h, |h|, s, h[p].now) {
        if s == h[q].id {
          assert RecordsAt(h, q, s);
        } else {
          var r :| 0 <= r < q && RecordsAt(h, r, s) && h[r].now >= h[last].now;
        }
      }
      assert AllSince(h, others, h[p].now);
    }
  }

  /** An id is never reported as a duplicate unless it was recorded within the
      time to live, whatever the clock did. */
  lemma NeverInvented(e: Entries, h: seq<Op>, ttl: int, max: int, id: string, now: int)
    requires Explained(e, h, ttl, max) && Live(e, id, now, ttl)
    ensures exists p :: RecordsAt(h, p, id) && now - h[p].now < ttl
  {
    var p :| LastRecord(h, p, id) && h[p].now == e[id];
    assert RecordsAt(h, p, id);
  }

  /** What recording leaves fits: what is dropped makes up for what is too much. */
  lemma RecordFits(e: Entries, id: string, now: int, ttl: int, max: int, e': Entries)
    requires RecordLeaves(e, id, now, ttl, max, e')
    ensures |e'| <= Room(max)
  {
    var all := Stored(e, id, now, ttl, max);
    if |all| <= max {
      assert id in all && all.Keys != {} && |all.Keys| == |all|;
    }
  }

  /** With no room at all the cap is broken by the id just recorded, and only
      then: a map that may hold one entry always fits. */
  lemma CapHoldsExactly(max: int)
    ensures (forall e, id, now, ttl, e' :: RecordLeaves(e, id, now, ttl, max, e') ==> |e'| <= max) <==> max >= 1
  {
    if max < 1 {
      var e: Entries, e': Entries := map[], map["a" := 0];
      assert Stored(e, "a", 0, 1, max) == e';
      OnlyKey(e', "a");
      assert RecordLeaves(e, "a", 0, 1, max, e');
    } else {
      forall e, id, now, ttl, e' | RecordLeaves(e, id, now, ttl, max, e') ensures |e'| <= max {
        RecordFits(e, id, now, ttl, max, e');
      }
    }
  }
}
