/** The completion cache: writers, readers and drops over one directory, each
    taking its file-system steps in any interleaving. */
module CompletionCache {
  import opened Wrappers

  // ----- files and their contents -----

  datatype Key = Key(kind: string, endpoint: string)

  /** Cache files and the temporary files beside them; the two never coincide. */
  datatype Path = Cache(key: Key) | Temp(name: string)

  datatype Entry = Entry(written: int, payload: string)

  /** JSON, for values and for the entry that wraps them. */
  datatype Json<!V> = Json(
    encode: V -> Option<string>, decode: string -> Option<V>,
    encodeEntry: Entry -> Option<string>, decodeEntry: string -> Option<Entry>)

  /** The bytes a write of v at a time prepares, or nothing when it cannot be
      marshalled. */
  function EntryBytes<V(!new)>(json: Json<V>, v: V, at: int): Option<string> {
    match json.encode(v)
    case None => None
    case Some(raw) => json.encodeEntry(Entry(at, raw))
  }

  /** Entries made from marshalled values read back as written. */
  ghost predicate Lawful<V(!new)>(json: Json<V>) {
    forall v, at ::
      EntryBytes(json, v, at).Some? ==>
        json.decodeEntry(EntryBytes(json, v, at).value) == Some(Entry(at, json.encode(v).value))
  }

  // ----- processes -----

  datatype Phase = Filling | Closed | Failing

  datatype Proc<V> =
    | Writer(key: Key, v: V, at: int, bytes: string, tmp: Path, ino: nat, done: nat, phase: Phase)
    | Reader(key: Key, ttl: int, ino: nat, start: nat, got: string)

  /** What happened to cache files, in order. */
  datatype Event<V> =
    | Renamed(key: Key, v: V, at: int, ino: nat)
    | Dropped(key: Key)
    | DropFailed(key: Key)
    | Hit(key: Key, start: nat, ttl: int, now: int, out: V)

  /** A directory of inodes, the running processes, what happened, and the
      temporary files nobody will remove. */
  datatype State<V> = State(
    dir: map<Path, nat>, content: seq<string>, procs: map<nat, Proc<V>>, log: seq<Event<V>>, litter: set<Path>)

  function Init<V>(): State<V> {
    State(map[], [], map[], [], {})
  }

  datatype Action<V> =
    | Create(p: nat, key: Key, v: V, at: int, tmp: Path)   // marshal, then a fresh temporary file
    | Chunk(p: nat, n: nat)                                // some of the bytes reach the file
    | Close(p: nat)                                        // all written, closed
    | Fail(p: nat)                                         // writing, closing or renaming failed
    | Rename(p: nat)
    | Remove(p: nat, ok: bool)
    | Crash(p: nat)                                        // a process dies, or a read fails
    | Open(p: nat, key: Key, ttl: int)
    | Read(p: nat, n: nat)
    | Finish(p: nat, now: int)                             // end of file: decode, check the age
    | Drop(key: Key)                                       // a drop that leaves no file
    | DropFails(key: Key)                                  // a drop whose removal fails, unnoticed

  predicate IsWriter<V>(s: State<V>, p: nat) {
    p in s.procs && s.procs[p].Writer?
  }

  predicate IsReader<V>(s: State<V>, p: nat) {
    p in s.procs && s.procs[p].Reader? && s.procs[p].ino < |s.content|
  }

  predicate Enabled<V(!new)>(json: Json<V>, s: State<V>, a: Action<V>) {
    match a
    case Create(p, key, v, at, tmp) => p !in s.procs && EntryBytes(json, v, at).Some? && tmp.Temp? && tmp !in s.dir
    case Chunk(p, n) => IsWriter(s, p) && var w := s.procs[p]; w.phase.Filling? && w.done + n <= |w.bytes| && w.ino < |s.content|
    case Close(p) => IsWriter(s, p) && var w := s.procs[p]; w.phase.Filling? && w.done == |w.bytes|
    case Fail(p) => IsWriter(s, p) && !s.procs[p].phase.Failing?
    case Rename(p) => IsWriter(s, p) && s.procs[p].phase.Closed? && s.procs[p].tmp in s.dir
    case Remove(p, ok) => IsWriter(s, p) && s.procs[p].phase.Failing?
    case Crash(p) => p in s.procs
    case Open(p, key, ttl) => p !in s.procs && Cache(key) in s.dir
    case Read(p, n) => IsReader(s, p) && var r := s.procs[p]; |r.got| + n <= |s.content[r.ino]|
    case Finish(p, now) => IsReader(s, p) && var r := s.procs[p]; |r.got| >= |s.content[r.ino]|
    case Drop(key) => true
    case DropFails(key) => true
  }

  /** What a reader that has read the whole file answers. */
  function Answer<V(!new)>(json: Json<V>, r: Proc<V>, now: int): Option<V>
    requires r.Reader?
  {
    match json.decodeEntry(r.got)
    case None => None
    case Some(e) => if r.ttl <= 0 || now - e.written > r.ttl then None else json.decode(e.payload)
  }

  function Next<V(!new)>(json: Json<V>, s: State<V>, a: Action<V>): State<V>
    requires Enabled(json, s, a)
  {
    match a
    case Create(p, key, v, at, tmp) =>
      var w := Writer(key, v, at, EntryBytes(json, v, at).value, tmp, |s.content|, 0, Filling);
      s.(dir := s.dir[tmp := |s.content|], content := s.content + [""], procs := s.procs[p := w])
    case Chunk(p, n) =>
      var w := s.procs[p];
      s.(content := s.content[w.ino := s.content[w.ino] + w.bytes[w.done..w.done + n]],
         procs := s.procs[p := w.(done := w.done + n)])
    case Close(p) => s.(procs := s.procs[p := s.procs[p].(phase := Closed)])
    case Fail(p) => s.(procs := s.procs[p := s.procs[p].(phase := Failing)])
    case Rename(p) =>
      var w := s.procs[p];
      s.(dir := (s.dir - {w.tmp})[Cache(w.key) := s.dir[w.tmp]], procs := s.procs - {p},
         log := s.log + [Renamed(w.key, w.v, w.at, s.dir[w.tmp])])
    case Remove(p, ok) =>
      var w := s.procs[p];
      if ok then s.(dir := s.dir - {w.tmp}, procs := s.procs - {p})
      else s.(procs := s.procs - {p}, litter := s.litter + {w.tmp})
    case Crash(p) =>
      s.(procs := s.procs - {p}, litter := if s.procs[p].Writer? then s.litter + {s.procs[p].tmp} else s.litter)
    case Open(p, key, ttl) =>
      s.(procs := s.procs[p := Reader(key, ttl, s.dir[Cache(key)], |s.log|, "")])
    case Read(p, n) =>
      var r := s.procs[p];
      s.(procs := s.procs[p := r.(got := r.got + s.content[r.ino][|r.got|..|r.got| + n])])
    case Finish(p, now) =>
      var r := s.procs[p];
      var out := Answer(json, r, now);
      s.(procs := s.procs - {p},
         log := if out.Some? then s.log + [Hit(r.key, r.start, r.ttl, now, out.value)] else s.log)
    case Drop(key) => s.(dir := s.dir - {Cache(key)}, log := s.log + [Dropped(key)])
    case DropFails(key) => s.(log := s.log + [DropFailed(key)])
  }

  /** The state a sequence of steps leads to, if each is possible in its turn. */
  function Exec<V(!new)>(json: Json<V>, acts: seq<Action<V>>): Option<State<V>> {
    if acts == [] then Some(Init())
    else
      var n := |acts| - 1;
      match Exec(json, acts[..n])
      case None => None
      case Some(s) => if Enabled(json, s, acts[n]) then Some(Next(json, s, acts[n])) else None
  }

  // ----- the store the directory implements -----

  function Apply<V>(m: map<Key, nat>, e: Event<V>, n: nat): map<Key, nat> {
    if e.Renamed? then m[e.key := n]
    else if e.Dropped? then m - {e.key}
    else m
  }

  /** One map from keys to the rename each key's entry comes from: a rename puts,
      a drop removes. */
  function Store<V>(log: seq<Event<V>>): map<Key, nat> {
    if log == [] then map[]
    else Apply(Store(log[..|log| - 1]), log[|log| - 1], |log| - 1)
  }

  predicate Touches<V>(e: Event<V>, key: Key) {
    (e.Renamed? || e.Dropped?) && e.key == key
  }

  /** What the store holds for a key is the last event about it. */
  lemma {:induction false} StoreLast<V>(log: seq<Event<V>>, key: Key)
    requires key in Store(log)
    ensures var r := Store(log)[key];
            && r < |log| && log[r].Renamed? && log[r].key == key
            && forall j :: r < j < |log| ==> !Touches(log[j], key)
  {
    var n := |log| - 1;
    if !Touches(log[n], key) {
      StoreLast(log[..n], key);
    }
  }

  lemma StoreAppend<V>(log: seq<Event<V>>, e: Event<V>)
    ensures Store(log + [e]) == Apply(Store(log), e, |log|)
  {
    assert (log + [e])[..|log|] == log;
  }

  // ----- the invariant -----

  /** The inode of a rename holds, for good, the bytes of that one write. */
  ghost predicate Whole<V(!new)>(json: Json<V>, content: seq<string>, e: Event<V>)
    requires e.Renamed?
  {
    e.ino < |content| && EntryBytes(json, e.v, e.at) == Some(content[e.ino])
  }

  ghost predicate LogOk<V(!new)>(json: Json<V>, content: seq<string>, log: seq<Event<V>>) {
    forall r :: 0 <= r < |log| && log[r].Renamed? ==> Whole(json, content, log[r])
  }

  ghost predicate Unpublished<V(!new)>(log: seq<Event<V>>, ino: nat) {
    forall r :: 0 <= r < |log| && log[r].Renamed? ==> log[r].ino != ino
  }

  /** The r-th event is the rename the store holds for key. */
  ghost predicate Holds<V(!new)>(log: seq<Event<V>>, key: Key, r: nat) {
    key in Store(log) && Store(log)[key] == r && r < |log| && log[r].Renamed?
  }

  /** The cache file of a key is the inode of the rename the store holds. */
  ghost predicate FileOk<V(!new)>(dir: map<Path, nat>, log: seq<Event<V>>, key: Key) {
    && (Cache(key) in dir <==> key in Store(log))
    && (key in Store(log) ==> Holds(log, key, Store(log)[key]) && dir[Cache(key)] == log[Store(log)[key]].ino)
  }

  ghost predicate DirOk<V(!new)>(dir: map<Path, nat>, log: seq<Event<V>>) {
    forall key :: FileOk(dir, log, key)
  }

  ghost predicate NoHardLinks(dir: map<Path, nat>) {
    forall x, y :: x in dir && y in dir && x != y ==> dir[x] != dir[y]
  }

  ghost predicate Allocated(dir: map<Path, nat>, content: seq<string>) {
    forall x :: x in dir ==> dir[x] < |content|
  }

  ghost predicate WriterOk<V(!new)>(json: Json<V>, dir: map<Path, nat>, content: seq<string>, log: seq<Event<V>>, w: Proc<V>)
    requires w.Writer?
  {
    && w.tmp.Temp? && w.tmp in dir && dir[w.tmp] == w.ino < |content| && Unpublished(log, w.ino)
    && EntryBytes(json, w.v, w.at) == Some(w.bytes)
    && w.done <= |w.bytes| && content[w.ino] == w.bytes[..w.done]
    && (w.phase.Closed? ==> w.done == |w.bytes|)
  }

  ghost predicate ReaderOk<V(!new)>(content: seq<string>, log: seq<Event<V>>, r: Proc<V>)
    requires r.Reader?
  {
    && r.start <= |log| && r.ino < |content| && r.got <= content[r.ino]
    && exists i: nat :: Holds(log[..r.start], r.key, i) && r.ino == log[i].ino
  }

  ghost predicate ProcOk<V(!new)>(json: Json<V>, dir: map<Path, nat>, content: seq<string>, log: seq<Event<V>>, q: Proc<V>) {
    if q.Writer? then WriterOk(json, dir, content, log, q) else ReaderOk(content, log, q)
  }

  ghost predicate ProcsOk<V(!new)>(json: Json<V>, s: State<V>) {
    forall p :: p in s.procs ==> ProcOk(json, s.dir, s.content, s.log, s.procs[p])
  }

  ghost predicate OwnTemps<V(!new)>(procs: map<nat, Proc<V>>) {
    forall p, q :: p in procs && q in procs && p != q && procs[p].Writer? && procs[q].Writer? ==> procs[p].tmp != procs[q].tmp
  }

  /** A successful read answers with the entry the store held when it opened the
      file: one whole value, no older than the limit. */
  ghost predicate HitOk<V(!new)>(json: Json<V>, log: seq<Event<V>>, hit: Event<V>, i: nat)
    requires hit.Hit?
  {
    && hit.start <= |log| && Holds(log[..hit.start], hit.key, i)
    && json.encode(log[i].v).Some? && json.decode(json.encode(log[i].v).value) == Some(hit.out)
    && 0 < hit.ttl && hit.now - log[i].at <= hit.ttl
  }

  ghost predicate HitsOk<V(!new)>(json: Json<V>, log: seq<Event<V>>) {
    forall h :: 0 <= h < |log| && log[h].Hit? ==> log[h].start <= h && exists i :: HitOk(json, log, log[h], i)
  }

  /** Every temporary file belongs to a running writer, or its process died or
      could not remove it. */
  ghost predicate TempsOwned<V(!new)>(s: State<V>) {
    forall t :: t in s.dir && t.Temp? && t !in s.litter ==> exists p :: p in s.procs && s.procs[p].Writer? && s.procs[p].tmp == t
  }

  ghost predicate Inv<V(!new)>(json: Json<V>, s: State<V>) {
    && LogOk(json, s.content, s.log) && DirOk(s.dir, s.log) && NoHardLinks(s.dir) && Allocated(s.dir, s.content)
    && ProcsOk(json, s) && OwnTemps(s.procs) && HitsOk(json, s.log) && TempsOwned(s)
  }

  // ----- what growing logs and files keep -----

  lemma HoldsAppend<V(!new)>(log: seq<Event<V>>, e: Event<V>, start: nat)
    requires start <= |log|
    ensures (log + [e])[..start] == log[..start]
  {
  }

  lemma ProcAppend<V(!new)>(json: Json<V>, dir: map<Path, nat>, content: seq<string>, log: seq<Event<V>>, e: Event<V>, q: Proc<V>)
    requires ProcOk(json, dir, content, log, q)
    requires q.Writer? && e.Renamed? ==> e.ino != q.ino
    ensures ProcOk(json, dir, content, log + [e], q)
  {
    if q.Reader? {
      HoldsAppend(log, e, q.start);
      var i: nat :| Holds(log[..q.start], q.key, i) && q.ino == log[i].ino;
      assert Holds((log + [e])[..q.start], q.key, i) && q.ino == (log + [e])[i].ino;
    }
  }

  lemma HitsAppend<V(!new)>(json: Json<V>, log: seq<Event<V>>, e: Event<V>)
    requires HitsOk(json, log)
    requires e.Hit? ==> e.start <= |log| && exists i :: HitOk(json, log, e, i)
    ensures HitsOk(json, log + [e])
  {
    var after := log + [e];
    forall h | 0 <= h < |after| && after[h].Hit? ensures after[h].start <= h && exists i :: HitOk(json, after, after[h], i) {
      var hit := after[h];
      if h < |log| {
        assert log[h] == hit;
      }
      var i :| HitOk(json, log, hit, i);
      HoldsAppend(log, e, hit.start);
      assert HitOk(json, after, hit, i);
    }
  }

  /** Content that may only have changed on an inode of no one else's. */
  ghost predicate SameBut(before: seq<string>, after: seq<string>, ino: nat) {
    |before| <= |after| && forall i :: 0 <= i < |before| && i != ino ==> after[i] == before[i]
  }

  lemma LogContent<V(!new)>(json: Json<V>, before: seq<string>, after: seq<string>, ino: nat, log: seq<Event<V>>)
    requires LogOk(json, before, log) && SameBut(before, after, ino) && Unpublished(log, ino)
    ensures LogOk(json, after, log)
  {
    forall r | 0 <= r < |log| && log[r].Renamed? ensures Whole(json, after, log[r]) {
      assert Whole(json, before, log[r]);
    }
  }

  lemma ReaderPublished<V(!new)>(content: seq<string>, log: seq<Event<V>>, q: Proc<V>, ino: nat)
    requires q.Reader? && ReaderOk(content, log, q) && Unpublished(log, ino)
    ensures q.ino != ino
  {
    var i: nat :| Holds(log[..q.start], q.key, i) && q.ino == log[i].ino;
    assert log[..q.start][i] == log[i];
  }

  lemma ProcContent<V(!new)>(json: Json<V>, dir: map<Path, nat>, before: seq<string>, after: seq<string>, ino: nat, log: seq<Event<V>>, q: Proc<V>)
    requires ProcOk(json, dir, before, log, q) && SameBut(before, after, ino) && Unpublished(log, ino)
    requires q.Writer? ==> q.ino != ino
    ensures ProcOk(json, dir, after, log, q)
  {
    if q.Reader? {
      ReaderPublished(before, log, q, ino);
    }
  }

  lemma ProcDir<V(!new)>(json: Json<V>, before: map<Path, nat>, after: map<Path, nat>, content: seq<string>, log: seq<Event<V>>, q: Proc<V>)
    requires ProcOk(json, before, content, log, q)
    requires q.Writer? ==> q.tmp in after && after[q.tmp] == before[q.tmp]
    ensures ProcOk(json, after, content, log, q)
  {
  }

  ghost predicate SameCaches(before: map<Path, nat>, after: map<Path, nat>) {
    forall key :: (Cache(key) in before <==> Cache(key) in after) && (Cache(key) in before ==> after[Cache(key)] == before[Cache(key)])
  }

  lemma DirCaches<V(!new)>(before: map<Path, nat>, after: map<Path, nat>, log: seq<Event<V>>)
    requires DirOk(before, log) && SameCaches(before, after)
    ensures DirOk(after, log)
  {
    forall key ensures FileOk(after, log, key) {
      assert FileOk(before, log, key);
    }
  }

  lemma TempUnpublished<V(!new)>(json: Json<V>, content: seq<string>, log: seq<Event<V>>)
    requires LogOk(json, content, log)
    ensures Unpublished(log, |content|)
  {
    forall r | 0 <= r < |log| && log[r].Renamed? ensures log[r].ino != |content| {
      assert Whole(json, content, log[r]);
    }
  }

  // ----- every step keeps it -----

  lemma CreateInv<V(!new)>(json: Json<V>, s: State<V>, a: Action<V>)
    requires Inv(json, s) && a.Create? && Enabled(json, s, a)
    ensures Inv(json, Next(json, s, a))
  {
    var t := Next(json, s, a);
    var ino := |s.content|;
    TempUnpublished(json, s.content, s.log);
    LogContent(json, s.content, t.content, ino, s.log);
    DirCaches(s.dir, t.dir, s.log);
    forall p | p in t.procs ensures ProcOk(json, t.dir, t.content, t.log, t.procs[p]) {
      if p != a.p {
        assert ProcOk(json, s.dir, s.content, s.log, s.procs[p]);
        ProcContent(json, s.dir, s.content, t.content, ino, s.log, s.procs[p]);
        ProcDir(json, s.dir, t.dir, t.content, s.log, s.procs[p]);
      }
    }
    forall p, q | p in t.procs && q in t.procs && p != q && t.procs[p].Writer? && t.procs[q].Writer?
      ensures t.procs[p].tmp != t.procs[q].tmp
    {
      if p == a.p || q == a.p {
        var o := if p == a.p then q else p;
        assert ProcOk(json, s.dir, s.content, s.log, s.procs[o]);
      }
    }
    forall x | x in t.dir && x.Temp? && x !in t.litter ensures exists p :: p in t.procs && t.procs[p].Writer? && t.procs[p].tmp == x {
      if x == a.tmp {
        assert t.procs[a.p].tmp == x;
      } else {
        var p :| p in s.procs && s.procs[p].Writer? && s.procs[p].tmp == x;
        assert t.procs[p] == s.procs[p];
      }
    }
  }

  /** One process moved on, keeping its temporary file. */
  ghost predicate Moved<V(!new)>(s: State<V>, t: State<V>, p: nat) {
    && p in s.procs && t.procs.Keys == s.procs.Keys && t.dir == s.dir && t.litter == s.litter && t.log == s.log
    && (s.procs[p].Writer? <==> t.procs[p].Writer?) && (s.procs[p].Writer? ==> t.procs[p].tmp == s.procs[p].tmp)
    && forall q :: q in s.procs && q != p ==> t.procs[q] == s.procs[q]
  }

  lemma MovedTemps<V(!new)>(s: State<V>, t: State<V>, p: nat)
    requires Moved(s, t, p) && OwnTemps(s.procs) && TempsOwned(s)
    ensures OwnTemps(t.procs) && TempsOwned(t)
  {
    forall x | x in t.dir && x.Temp? && x !in t.litter ensures exists q :: q in t.procs && t.procs[q].Writer? && t.procs[q].tmp == x {
      var q :| q in s.procs && s.procs[q].Writer? && s.procs[q].tmp == x;
      assert t.procs[q].Writer? && t.procs[q].tmp == x;
    }
  }

  /** Distinct writers fill distinct inodes. */
  lemma OtherIno<V(!new)>(json: Json<V>, s: State<V>, p: nat, q: nat)
    requires Inv(json, s) && IsWriter(s, p) && IsWriter(s, q) && p != q
    ensures s.procs[p].ino != s.procs[q].ino
  {
    assert ProcOk(json, s.dir, s.content, s.log, s.procs[p]) && ProcOk(json, s.dir, s.content, s.log, s.procs[q]);
  }

  lemma ChunkProc<V(!new)>(json: Json<V>, dir: map<Path, nat>, content: seq<string>, log: seq<Event<V>>, w: Proc<V>, n: nat)
    requires w.Writer? && WriterOk(json, dir, content, log, w) && w.phase.Filling? && w.done + n <= |w.bytes|
    ensures WriterOk(json, dir, content[w.ino := content[w.ino] + w.bytes[w.done..w.done + n]], log, w.(done := w.done + n))
  {
    assert w.bytes[..w.done] + w.bytes[w.done..w.done + n] == w.bytes[..w.done + n];
  }

  lemma ChunkInv<V(!new)>(json: Json<V>, s: State<V>, a: Action<V>)
    requires Inv(json, s) && a.Chunk? && Enabled(json, s, a)
    ensures Inv(json, Next(json, s, a))
  {
    var t := Next(json, s, a);
    var w := s.procs[a.p];
    assert ProcOk(json, s.dir, s.content, s.log, w);
    LogContent(json, s.content, t.content, w.ino, s.log);
    ChunkProc(json, s.dir, s.content, s.log, w, a.n);
    forall p | p in t.procs ensures ProcOk(json, t.dir, t.content, t.log, t.procs[p]) {
      if p != a.p {
        assert ProcOk(json, s.dir, s.content, s.log, s.procs[p]);
        if s.procs[p].Writer? {
          OtherIno(json, s, a.p, p);
        }
        ProcContent(json, s.dir, s.content, t.content, w.ino, s.log, s.procs[p]);
      }
    }
    MovedTemps(s, t, a.p);
  }

  lemma MoveInv<V(!new)>(json: Json<V>, s: State<V>, t: State<V>, p: nat)
    requires Inv(json, s) && Moved(s, t, p) && t.content == s.content
    requires ProcOk(json, s.dir, s.content, s.log, s.procs[p]) ==> ProcOk(json, s.dir, s.content, s.log, t.procs[p])
    ensures Inv(json, t)
  {
    MovedTemps(s, t, p);
    MovedProcs(json, s, t, p);
  }

  lemma MovedProcs<V(!new)>(json: Json<V>, s: State<V>, t: State<V>, p: nat)
    requires ProcsOk(json, s) && Moved(s, t, p) && t.content == s.content
    requires ProcOk(json, s.dir, s.content, s.log, s.procs[p]) ==> ProcOk(json, s.dir, s.content, s.log, t.procs[p])
    ensures ProcsOk(json, t)
  {
    forall q | q in t.procs ensures ProcOk(json, t.dir, t.content, t.log, t.procs[q]) {
      assert ProcOk(json, s.dir, s.content, s.log, s.procs[q]);
    }
  }

  lemma ReadProc<V(!new)>(content: seq<string>, log: seq<Event<V>>, r: Proc<V>, n: nat)
    requires r.Reader? && ReaderOk(content, log, r) && |r.got| + n <= |content[r.ino]|
    ensures ReaderOk(content, log, r.(got := r.got + content[r.ino][|r.got|..|r.got| + n]))
  {
    assert r.got + content[r.ino][|r.got|..|r.got| + n] == content[r.ino][..|r.got| + n];
  }

  /** A process is gone; a temporary file it left behind is litter. */
  lemma GoneInv<V(!new)>(json: Json<V>, s: State<V>, t: State<V>, p: nat)
    requires Inv(json, s) && p in s.procs && t.procs == s.procs - {p} && t.content == s.content && t.log == s.log
    requires t.dir == s.dir && s.litter <= t.litter && (s.procs[p].Writer? ==> s.procs[p].tmp in t.litter)
    ensures Inv(json, t)
  {
    forall q | q in t.procs ensures ProcOk(json, t.dir, t.content, t.log, t.procs[q]) {
      assert ProcOk(json, s.dir, s.content, s.log, s.procs[q]);
    }
    forall x | x in t.dir && x.Temp? && x !in t.litter ensures exists q :: q in t.procs && t.procs[q].Writer? && t.procs[q].tmp == x {
      var q :| q in s.procs && s.procs[q].Writer? && s.procs[q].tmp == x;
      assert q in t.procs;
    }
  }

  lemma RemoveInv<V(!new)>(json: Json<V>, s: State<V>, a: Action<V>)
    requires Inv(json, s) && a.Remove? && Enabled(json, s, a)
    ensures Inv(json, Next(json, s, a))
  {
    var t := Next(json, s, a);
    if !a.ok {
      GoneInv(json, s, t, a.p);
    } else {
      assert ProcOk(json, s.dir, s.content, s.log, s.procs[a.p]);
      DirCaches(s.dir, t.dir, s.log);
      UnlinkedProcs(json, s, t, a.p);
      UnlinkedTemps(json, s, t, a.p);
    }
  }

  /** The other processes do not notice a writer's temporary file going away. */
  lemma UnlinkedProcs<V(!new)>(json: Json<V>, s: State<V>, t: State<V>, p: nat)
    requires Inv(json, s) && IsWriter(s, p) && t.procs == s.procs - {p} && t.content == s.content && t.log == s.log
    requires forall x: Path :: x.Temp? && x in s.dir && x != s.procs[p].tmp ==> x in t.dir && t.dir[x] == s.dir[x]
    ensures ProcsOk(json, t) && OwnTemps(t.procs)
  {
    forall q | q in t.procs ensures ProcOk(json, t.dir, t.content, t.log, t.procs[q]) {
      assert ProcOk(json, s.dir, s.content, s.log, s.procs[q]);
      ProcDir(json, s.dir, t.dir, s.content, s.log, s.procs[q]);
    }
  }

  lemma UnlinkedTemps<V(!new)>(json: Json<V>, s: State<V>, t: State<V>, p: nat)
    requires Inv(json, s) && IsWriter(s, p) && t.procs == s.procs - {p} && t.litter == s.litter
    requires forall x: Path :: x.Temp? && x in t.dir ==> x in s.dir && x != s.procs[p].tmp
    ensures TempsOwned(t)
  {
    forall x | x in t.dir && x.Temp? && x !in t.litter ensures exists q :: q in t.procs && t.procs[q].Writer? && t.procs[q].tmp == x {
      var q :| q in s.procs && s.procs[q].Writer? && s.procs[q].tmp == x;
      assert q in t.procs;
    }
  }

  lemma FileAppend<V(!new)>(dir: map<Path, nat>, log: seq<Event<V>>, e: Event<V>, key: Key)
    requires FileOk(dir, log, key) && !Touches(e, key)
    ensures FileOk(dir, log + [e], key)
  {
    StoreAppend(log, e);
  }

  lemma RenameDir<V(!new)>(dir: map<Path, nat>, after: map<Path, nat>, log: seq<Event<V>>, e: Event<V>)
    requires DirOk(dir, log) && e.Renamed? && Cache(e.key) in after && after[Cache(e.key)] == e.ino
    requires SameCaches(dir - {Cache(e.key)}, after - {Cache(e.key)})
    ensures DirOk(after, log + [e])
  {
    StoreAppend(log, e);
    forall key ensures FileOk(after, log + [e], key) {
      if key != e.key {
        assert FileOk(dir, log, key);
        assert Cache(key) in dir <==> Cache(key) in dir - {Cache(e.key)};
        assert Cache(key) in after <==> Cache(key) in after - {Cache(e.key)};
        FileAppend(after, log, e, key);
      }
    }
  }

  lemma LogAppend<V(!new)>(json: Json<V>, content: seq<string>, log: seq<Event<V>>, e: Event<V>)
    requires LogOk(json, content, log) && (e.Renamed? ==> Whole(json, content, e))
    ensures LogOk(json, content, log + [e])
  {
  }

  lemma ProcsAppend<V(!new)>(json: Json<V>, s: State<V>, e: Event<V>)
    requires ProcsOk(json, s)
    requires e.Renamed? ==> forall q :: IsWriter(s, q) ==> s.procs[q].ino != e.ino
    ensures ProcsOk(json, s.(log := s.log + [e]))
  {
    forall q | q in s.procs ensures ProcOk(json, s.dir, s.content, s.log + [e], s.procs[q]) {
      assert q in s.procs && (s.procs[q].Writer? ==> IsWriter(s, q));
      ProcAppend(json, s.dir, s.content, s.log, e, s.procs[q]);
    }
  }

  lemma RenameProcs<V(!new)>(json: Json<V>, s: State<V>, a: Action<V>)
    requires Inv(json, s) && a.Rename? && Enabled(json, s, a)
    ensures ProcsOk(json, Next(json, s, a)) && OwnTemps(Next(json, s, a).procs)
  {
    var t := Next(json, s, a);
    var w := s.procs[a.p];
    assert ProcOk(json, s.dir, s.content, s.log, w);
    var mid := t.(log := s.log);
    UnlinkedProcs(json, s, mid, a.p);
    forall q | IsWriter(mid, q) ensures mid.procs[q].ino != w.ino {
      OtherIno(json, s, a.p, q);
    }
    ProcsAppend(json, mid, Renamed(w.key, w.v, w.at, w.ino));
  }

  lemma RenameInv<V(!new)>(json: Json<V>, s: State<V>, a: Action<V>)
    requires Inv(json, s) && a.Rename? && Enabled(json, s, a)
    ensures Inv(json, Next(json, s, a))
  {
    var t := Next(json, s, a);
    var w := s.procs[a.p];
    assert ProcOk(json, s.dir, s.content, s.log, w);
    var e := Renamed(w.key, w.v, w.at, w.ino);
    assert w.bytes[..w.done] == w.bytes;
    LogAppend(json, s.content, s.log, e);
    RenameDir(s.dir, t.dir, s.log, e);
    RenameProcs(json, s, a);
    HitsAppend(json, s.log, e);
    UnlinkedTemps(json, s, t, a.p);
  }

  lemma DropDir<V(!new)>(dir: map<Path, nat>, log: seq<Event<V>>, key: Key)
    requires DirOk(dir, log)
    ensures DirOk(dir - {Cache(key)}, log + [Dropped(key)])
  {
    var e: Event<V> := Dropped(key);
    StoreAppend(log, e);
    forall k ensures FileOk(dir - {Cache(key)}, log + [e], k) {
      assert FileOk(dir, log, k);
      if k != key {
        FileAppend(dir - {Cache(key)}, log, e, k);
      }
    }
  }

  lemma DropInv<V(!new)>(json: Json<V>, s: State<V>, a: Action<V>)
    requires Inv(json, s) && a.Drop?
    ensures Inv(json, Next(json, s, a))
  {
    var t := Next(json, s, a);
    var e: Event<V> := Dropped(a.key);
    LogAppend(json, s.content, s.log, e);
    DropDir(s.dir, s.log, a.key);
    HitsAppend(json, s.log, e);
    var mid := s.(dir := t.dir);
    forall p | p in s.procs ensures ProcOk(json, t.dir, s.content, s.log, s.procs[p]) {
      assert ProcOk(json, s.dir, s.content, s.log, s.procs[p]);
      ProcDir(json, s.dir, t.dir, s.content, s.log, s.procs[p]);
    }
    ProcsAppend(json, mid, e);
  }

  lemma OpenInv<V(!new)>(json: Json<V>, s: State<V>, a: Action<V>)
    requires Inv(json, s) && a.Open? && Enabled(json, s, a)
    ensures Inv(json, Next(json, s, a))
  {
    var t := Next(json, s, a);
    assert FileOk(s.dir, s.log, a.key);
    assert s.log[..|s.log|] == s.log;
    assert Holds(s.log[..|s.log|], a.key, Store(s.log)[a.key]);
    forall p | p in t.procs ensures ProcOk(json, t.dir, t.content, t.log, t.procs[p]) {
      if p != a.p {
        assert ProcOk(json, s.dir, s.content, s.log, s.procs[p]);
      }
    }
    forall x | x in t.dir && x.Temp? && x !in t.litter ensures exists q :: q in t.procs && t.procs[q].Writer? && t.procs[q].tmp == x {
      var q :| q in s.procs && s.procs[q].Writer? && s.procs[q].tmp == x;
      assert t.procs[q].tmp == x;
    }
  }

  /** A reader at the end of the file has the bytes of one write, which decode to
      what that write marshalled: no reader ever meets a corrupt entry. */
  lemma NeverCorrupt<V(!new)>(json: Json<V>, s: State<V>, p: nat) returns (i: nat)
    requires Lawful(json) && Inv(json, s) && IsReader(s, p) && |s.procs[p].got| >= |s.content[s.procs[p].ino]|
    ensures s.procs[p].start <= |s.log| && Holds(s.log[..s.procs[p].start], s.procs[p].key, i)
    ensures json.encode(s.log[i].v).Some?
    ensures json.decodeEntry(s.procs[p].got) == Some(Entry(s.log[i].at, json.encode(s.log[i].v).value))
  {
    var r := s.procs[p];
    assert ProcOk(json, s.dir, s.content, s.log, r);
    i :| Holds(s.log[..r.start], r.key, i) && r.ino == s.log[i].ino;
    assert Whole(json, s.content, s.log[i]);
    assert r.got == s.content[r.ino];
  }

  lemma FinishInv<V(!new)>(json: Json<V>, s: State<V>, a: Action<V>)
    requires Lawful(json) && Inv(json, s) && a.Finish? && Enabled(json, s, a)
    ensures Inv(json, Next(json, s, a))
  {
    var t := Next(json, s, a);
    var r := s.procs[a.p];
    var mid := s.(procs := t.procs);
    GoneInv(json, s, mid, a.p);
    var out := Answer(json, r, a.now);
    if out.Some? {
      var e := Hit(r.key, r.start, r.ttl, a.now, out.value);
      var i := NeverCorrupt(json, s, a.p);
      assert HitOk(json, s.log, e, i);
      QuietInv(json, mid, e);
    }
  }

  /** An event that touches no file. */
  lemma QuietInv<V(!new)>(json: Json<V>, s: State<V>, e: Event<V>)
    requires Inv(json, s) && (e.DropFailed? || e.Hit?)
    requires e.Hit? ==> e.start <= |s.log| && exists i :: HitOk(json, s.log, e, i)
    ensures Inv(json, s.(log := s.log + [e]))
  {
    LogAppend(json, s.content, s.log, e);
    forall key ensures FileOk(s.dir, s.log + [e], key) {
      assert FileOk(s.dir, s.log, key);
      FileAppend(s.dir, s.log, e, key);
    }
    ProcsAppend(json, s, e);
    HitsAppend(json, s.log, e);
  }

  lemma DropFailsInv<V(!new)>(json: Json<V>, s: State<V>, a: Action<V>)
    requires Inv(json, s) && a.DropFails?
    ensures Inv(json, Next(json, s, a))
  {
    QuietInv(json, s, DropFailed(a.key));
  }

  lemma PhaseInv<V(!new)>(json: Json<V>, s: State<V>, a: Action<V>)
    requires Inv(json, s) && (a.Close? || a.Fail?) && Enabled(json, s, a)
    ensures Inv(json, Next(json, s, a))
  {
    MoveInv(json, s, Next(json, s, a), a.p);
  }

  lemma CrashInv<V(!new)>(json: Json<V>, s: State<V>, a: Action<V>)
    requires Inv(json, s) && a.Crash? && Enabled(json, s, a)
    ensures Inv(json, Next(json, s, a))
  {
    GoneInv(json, s, Next(json, s, a), a.p);
  }

  lemma ReadInv<V(!new)>(json: Json<V>, s: State<V>, a: Action<V>)
    requires Inv(json, s) && a.Read? && Enabled(json, s, a)
    ensures Inv(json, Next(json, s, a))
  {
    var r := s.procs[a.p];
    assert ProcOk(json, s.dir, s.content, s.log, r);
    ReadProc(s.content, s.log, r, a.n);
    MoveInv(json, s, Next(json, s, a), a.p);
  }

  lemma StepInv<V(!new)>(json: Json<V>, s: State<V>, a: Action<V>)
    requires Lawful(json) && Inv(json, s) && Enabled(json, s, a)
    ensures Inv(json, Next(json, s, a))
  {
    match a {
      case Create(_, _, _, _, _) => CreateInv(json, s, a);
      case Chunk(_, _) => ChunkInv(json, s, a);
      case Close(_) => PhaseInv(json, s, a);
      case Fail(_) => PhaseInv(json, s, a);
      case Rename(_) => RenameInv(json, s, a);
      case Remove(_, _) => RemoveInv(json, s, a);
      case Crash(_) => CrashInv(json, s, a);
      case Open(_, _, _) => OpenInv(json, s, a);
      case Read(_, _) => ReadInv(json, s, a);
      case Finish(_, _) => FinishInv(json, s, a);
      case Drop(_) => DropInv(json, s, a);
      case DropFails(_) => DropFailsInv(json, s, a);
    }
  }

  lemma {:induction false} ExecInv<V(!new)>(json: Json<V>, acts: seq<Action<V>>)
    requires Lawful(json) && Exec(json, acts).Some?
    ensures Inv(json, Exec(json, acts).value)
  {
    if acts != [] {
      var n := |acts| - 1;
      ExecInv(json, acts[..n]);
      StepInv(json, Exec(json, acts[..n]).value, acts[n]);
    }
  }

  // ----- what every run keeps -----

  /** The r-th event is the rename of one write for key, and nothing about key
      happened between it and n. */
  ghost predicate LatestBefore<V(!new)>(log: seq<Event<V>>, key: Key, r: nat, n: nat) {
    && r < n <= |log| && log[r].Renamed? && log[r].key == key
    && forall j :: r < j < n ==> !Touches(log[j], key)
  }

  lemma LastHeld<V(!new)>(log: seq<Event<V>>, key: Key, r: nat, n: nat)
    requires n <= |log| && Holds(log[..n], key, r)
    ensures LatestBefore(log, key, r, n)
  {
    StoreLast(log[..n], key);
  }

  /** Over every interleaving, a successful read answers with the value of one
      write for its key, the one most recently renamed into place when the file was
      opened, and no older than the limit. */
  lemma HitIsLatestWrite<V(!new)>(json: Json<V>, acts: seq<Action<V>>, h: nat) returns (r: nat)
    requires Lawful(json) && Exec(json, acts).Some?
    requires var log := Exec(json, acts).value.log; h < |log| && log[h].Hit?
    ensures var log := Exec(json, acts).value.log;
            && log[h].start <= h && LatestBefore(log, log[h].key, r, log[h].start)
            && json.encode(log[r].v).Some? && json.decode(json.encode(log[r].v).value) == Some(log[h].out)
            && 0 < log[h].ttl && log[h].now - log[r].at <= log[h].ttl
  {
    var log := Exec(json, acts).value.log;
    ExecInv(json, acts);
    r :| HitOk(json, log, log[h], r);
    LastHeld(log, log[h].key, r, log[h].start);
  }

  /** The event is a call of drop for the key, whatever came of its removal. */
  predicate DropCall<V>(e: Event<V>, key: Key) {
    (e.Dropped? || e.DropFailed?) && e.key == key
  }

  /** In this stretch of the log nothing was renamed into place for the key and no
      removal of it succeeded. */
  ghost predicate Untouched<V(!new)>(log: seq<Event<V>>, key: Key, d: nat, n: nat) {
    forall j :: d <= j < n && j < |log| ==> !Touches(log[j], key)
  }

  /** A read that opens the file after a call of drop answers with an entry
      renamed into place before that call exactly when the call's removal failed
      and, until the file was opened, no other removal succeeded and nothing was
      renamed into place. Otherwise it answers with a later entry. */
  lemma DropHoldsExactly<V(!new)>(json: Json<V>, acts: seq<Action<V>>, d: nat, h: nat) returns (r: nat)
    requires Lawful(json) && Exec(json, acts).Some?
    requires var log := Exec(json, acts).value.log;
             h < |log| && log[h].Hit? && d < log[h].start && d < |log| && DropCall(log[d], log[h].key)
    ensures var log := Exec(json, acts).value.log;
            && LatestBefore(log, log[h].key, r, log[h].start) && r != d
            && json.encode(log[r].v).Some? && json.decode(json.encode(log[r].v).value) == Some(log[h].out)
            && (r < d <==> Untouched(log, log[h].key, d, log[h].start))
  {
    r := HitIsLatestWrite(json, acts, h);
    var log := Exec(json, acts).value.log;
    assert Touches(log[r], log[h].key);
  }

  /** A drop whose removal worked is never outlived: a read that opens the file
      later answers with what was renamed into place in between. */
  lemma DropHolds<V(!new)>(json: Json<V>, acts: seq<Action<V>>, d: nat, h: nat) returns (r: nat)
    requires Lawful(json) && Exec(json, acts).Some?
    requires var log := Exec(json, acts).value.log;
             h < |log| && log[h].Hit? && d < log[h].start && d < |log| && log[d] == Dropped(log[h].key)
    ensures var log := Exec(json, acts).value.log;
            d < r < log[h].start <= |log| && LatestBefore(log, log[h].key, r, log[h].start)
            && json.encode(log[r].v).Some? && json.decode(json.encode(log[r].v).value) == Some(log[h].out)
  {
    r := HitIsLatestWrite(json, acts, h);
  }

  /** Why a whole entry read in time is or is not answered. */
  ghost predicate AnswerOk<V(!new)>(json: Json<V>, q: Proc<V>, now: int, e: Event<V>) {
    && q.Reader? && e.Renamed? && json.encode(e.v).Some?
    && (Answer(json, q, now).None? <==>
        q.ttl <= 0 || now - e.at > q.ttl || json.decode(json.encode(e.v).value).None?)
  }

  lemma AnswerExact<V(!new)>(json: Json<V>, q: Proc<V>, now: int, e: Event<V>)
    requires q.Reader? && e.Renamed? && json.encode(e.v).Some?
    requires json.decodeEntry(q.got) == Some(Entry(e.at, json.encode(e.v).value))
    ensures AnswerOk(json, q, now, e)
  {
  }

  /** A read that gets to the end of the file misses only for being too old, for a
      limit that is not positive, or for a payload its caller cannot use. */
  lemma MissExplained<V(!new)>(json: Json<V>, acts: seq<Action<V>>, s: State<V>, p: nat, now: int) returns (r: nat)
    requires Lawful(json) && Exec(json, acts) == Some(s) && Enabled(json, s, Finish(p, now))
    ensures var q := s.procs[p]; LatestBefore(s.log, q.key, r, q.start) && AnswerOk(json, q, now, s.log[r])
  {
    ExecInv(json, acts);
    r := NeverCorrupt(json, s, p);
    var q := s.procs[p];
    LastHeld(s.log, q.key, r, q.start);
    AnswerExact(json, q, now, s.log[r]);
  }

  /** With no process running, none having died and every removal having worked,
      only cache files remain. */
  lemma NothingLeftBehind<V(!new)>(json: Json<V>, acts: seq<Action<V>>, t: Path)
    requires Lawful(json) && Exec(json, acts).Some?
    requires var s := Exec(json, acts).value; s.procs == map[] && s.litter == {} && t in s.dir
    ensures t.Cache?
  {
    ExecInv(json, acts);
  }

  // ----- a drop that is outlived -----

  lemma ExecStep<V(!new)>(json: Json<V>, acts: seq<Action<V>>, a: Action<V>, s: State<V>)
    requires Exec(json, acts) == Some(s) && Enabled(json, s, a)
    ensures Exec(json, acts + [a]) == Some(Next(json, s, a))
  {
    assert (acts + [a])[..|acts|] == acts;
  }

  /** One value in place under its key, and nothing else. */
  function Placed<V>(key: Key, v: V, bytes: string): State<V> {
    State(map[Cache(key) := 0], [bytes], map[], [Renamed(key, v, 0, 0)], {})
  }

  function Filled<V>(key: Key, v: V, bytes: string, tmp: Path): State<V> {
    State(map[tmp := 0], [bytes], map[1 := Writer(key, v, 0, bytes, tmp, 0, |bytes|, Filling)], [], {})
  }

  lemma FilledBy<V(!new)>(json: Json<V>, key: Key, v: V, bytes: string, tmp: Path) returns (acts: seq<Action<V>>)
    requires EntryBytes(json, v, 0) == Some(bytes) && tmp.Temp?
    ensures Exec(json, acts) == Some(Filled(key, v, bytes, tmp))
  {
    var none: seq<Action<V>> := [];
    var init: State<V> := Init();
    var create := Create(1, key, v, 0, tmp);
    var s := State(map[tmp := 0], [""], map[1 := Writer(key, v, 0, bytes, tmp, 0, 0, Filling)], [], {});
    ExecStep(json, none, create, init);
    assert Next(json, init, create) == s;
    ExecStep(json, none + [create], Chunk(1, |bytes|), s);
    assert "" + bytes[0..|bytes|] == bytes;
    assert Next(json, s, Chunk(1, |bytes|)) == Filled(key, v, bytes, tmp);
    acts := none + [create] + [Chunk(1, |bytes|)];
  }

  lemma PlacedBy<V(!new)>(json: Json<V>, key: Key, v: V, bytes: string, tmp: Path) returns (acts: seq<Action<V>>)
    requires EntryBytes(json, v, 0) == Some(bytes) && tmp.Temp?
    ensures Exec(json, acts) == Some(Placed(key, v, bytes))
  {
    acts := FilledBy(json, key, v, bytes, tmp);
    var s := Filled(key, v, bytes, tmp);
    var t := s.(procs := map[1 := s.procs[1].(phase := Closed)]);
    ExecStep(json, acts, Close(1), s);
    assert Next(json, s, Close(1)) == t;
    ExecStep(json, acts + [Close(1)], Rename(1), t);
    assert Next(json, t, Rename(1)).dir == map[Cache(key) := 0];
    assert Next(json, t, Rename(1)).procs == map[];
    assert Next(json, t, Rename(1)) == Placed(key, v, bytes);
    acts := acts + [Close(1)] + [Rename(1)];
  }

  /** The state when a reader has read the file the failed drop left. */
  function Reread<V>(key: Key, v: V, bytes: string, got: string): State<V> {
    Placed(key, v, bytes).(log := [Renamed(key, v, 0, 0), DropFailed(key)], procs := map[2 := Reader(key, 1, 0, 2, got)])
  }

  lemma OpenedBy<V(!new)>(json: Json<V>, key: Key, v: V, bytes: string, tmp: Path) returns (acts: seq<Action<V>>)
    requires EntryBytes(json, v, 0) == Some(bytes) && tmp.Temp?
    ensures Exec(json, acts) == Some(Reread(key, v, bytes, ""))
  {
    acts := PlacedBy(json, key, v, bytes, tmp);
    var s := Placed(key, v, bytes);
    var t := s.(log := [Renamed(key, v, 0, 0), DropFailed(key)]);
    ExecStep(json, acts, DropFails(key), s);
    assert Next(json, s, DropFails(key)) == t;
    ExecStep(json, acts + [DropFails(key)], Open(2, key, 1), t);
    assert Next(json, t, Open(2, key, 1)) == Reread(key, v, bytes, "");
    acts := acts + [DropFails(key)] + [Open(2, key, 1)];
  }

  lemma RereadBy<V(!new)>(json: Json<V>, key: Key, v: V, bytes: string, tmp: Path) returns (acts: seq<Action<V>>)
    requires EntryBytes(json, v, 0) == Some(bytes) && tmp.Temp?
    ensures Exec(json, acts) == Some(Reread(key, v, bytes, bytes))
  {
    acts := OpenedBy(json, key, v, bytes, tmp);
    ExecStep(json, acts, Read(2, |bytes|), Reread(key, v, bytes, ""));
    assert "" + bytes[0..|bytes|] == bytes;
    assert Next(json, Reread(key, v, bytes, ""), Read(2, |bytes|)) == Reread(key, v, bytes, bytes);
    acts := acts + [Read(2, |bytes|)];
  }

  /** A run in which a drop's removal fails and a read that starts after it hits
      the entry the drop was to take away. */
  lemma FailedDropIsOutlived<V(!new)>(json: Json<V>, key: Key, v: V, out: V, tmp: Path) returns (acts: seq<Action<V>>)
    requires Lawful(json) && EntryBytes(json, v, 0).Some? && json.decode(json.encode(v).value) == Some(out) && tmp.Temp?
    ensures Exec(json, acts).Some?
    ensures Exec(json, acts).value.log == [Renamed(key, v, 0, 0), DropFailed(key), Hit(key, 2, 1, 0, out)]
  {
    var bytes := EntryBytes(json, v, 0).value;
    acts := RereadBy(json, key, v, bytes, tmp);
    ExecStep(json, acts, Finish(2, 0), Reread(key, v, bytes, bytes));
    acts := acts + [Finish(2, 0)];
  }
}
