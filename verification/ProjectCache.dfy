/** The read-through cache in front of the project table
    (internal/repository/redis/cached_project_repo.go). A miss reads Postgres and stores the answer
    later, as the source does, so other requests and deletes can come in between; times are in
    milliseconds. API keys are random and unused before, so no two rows share a key hash. */
module ProjectCache {

  type Hash = string
  type ProjectId = string
  type ReadId = nat

  const PROJECT_CACHE_TTL: nat := 5 * 60 * 1000

  datatype Option<T> = None | Some(value: T)

  datatype Project = Project(id: ProjectId, userId: string, name: string, apiKeyHash: Hash)

  /** A cached value: None when it does not decode. `fetchedAt` is when Postgres gave the answer. */
  datatype Entry = Entry(payload: Option<Project>, fetchedAt: int, storedAt: int) {
    function ExpiresAt(): int { storedAt + PROJECT_CACHE_TTL }
  }

  /** A request that has its answer from Postgres and has yet to write it to Redis. */
  datatype Fetched = Fetched(project: Project, at: int)

  datatype State = State(now: int, table: map<ProjectId, Project>, cache: map<Hash, Entry>, lookups: map<ReadId, Fetched>)

  const INIT: State := State(0, map[], map[], map[])

  datatype Reply = Ok | Failed(applied: bool) {
    predicate Applied() { Ok? || applied }
  }

  datatype Action =
    | Advance(elapsed: nat)
    | Create(project: Project)
    | Fetch(read: ReadId, project: Project)
    | Store(read: ReadId, reply: Reply)
    | Invalidate(hash: Hash)
    | RemoveRow(id: ProjectId)
    | Garble(hash: Hash)

  predicate HasRow(s: State, hash: Hash) {
    exists id :: id in s.table && s.table[id].apiKeyHash == hash
  }

  /** The inner repository may answer `p` to a lookup of `hash`. */
  predicate Answers(s: State, hash: Hash, p: Project) {
    p in s.table.Values && p.apiKeyHash == hash
  }

  predicate InFlight(s: State, hash: Hash) {
    exists r :: r in s.lookups && s.lookups[r].project.apiKeyHash == hash
  }

  /** What a request finds in the cache. */
  function Hit(s: State, hash: Hash): Option<Project> {
    if hash in s.cache && s.now < s.cache[hash].ExpiresAt() then s.cache[hash].payload else None
  }

  predicate Enabled(s: State, a: Action) {
    match a
    case Create(p) => p.id !in s.table && !HasRow(s, p.apiKeyHash)
    case Fetch(read, p) => read !in s.lookups && Answers(s, p.apiKeyHash, p)
    case Store(read, _) => read in s.lookups
    case _ => true
  }

  function Apply(s: State, a: Action): State
    requires Enabled(s, a)
  {
    match a
    case Advance(elapsed) => s.(now := s.now + elapsed)
    case Create(p) => s.(table := s.table[p.id := p])
    case Fetch(read, p) => s.(lookups := s.lookups[read := Fetched(p, s.now)])
    case Store(read, reply) =>
      var f := s.lookups[read];
      s.(lookups := s.lookups - {read},
         cache := if reply.Applied() then s.cache[f.project.apiKeyHash := Entry(Some(f.project), f.at, s.now)]
                  else s.cache)
    case Invalidate(hash) => s.(cache := s.cache - {hash})
    case RemoveRow(id) => s.(table := s.table - {id})
    case Garble(hash) =>
      if hash in s.cache then s.(cache := s.cache[hash := s.cache[hash].(payload := None)]) else s
  }

  ghost predicate Next(s: State, s': State) {
    exists a :: Enabled(s, a) && s' == Apply(s, a)
  }

  ghost predicate Behaviour(b: seq<State>) {
    b != [] && b[0] == INIT && forall i :: 0 <= i < |b| - 1 ==> Next(b[i], b[i + 1])
  }

  // ------------------------------------------------------------------ bounded staleness

  /** At time `at`, in or before state `i`, Postgres would have answered `p`. */
  ghost predicate Known(b: seq<State>, i: nat, p: Project, at: int)
    requires i < |b|
  {
    exists j :: 0 <= j <= i && b[j].now == at && Answers(b[j], p.apiKeyHash, p)
  }

  /** Every answer on its way to the cache, or in it, comes from the table. */
  ghost predicate Sourced(b: seq<State>, i: nat)
    requires i < |b|
  {
    && (forall r :: r in b[i].lookups ==> b[i].lookups[r].at <= b[i].now && Known(b, i, b[i].lookups[r].project, b[i].lookups[r].at))
    && (forall h :: h in b[i].cache ==>
          var e := b[i].cache[h];
          && e.fetchedAt <= e.storedAt <= b[i].now
          && (e.payload.Some? ==> e.payload.value.apiKeyHash == h && Known(b, i, e.payload.value, e.fetchedAt)))
  }

  lemma StepKeepsSourced(b: seq<State>, i: nat, a: Action)
    requires i + 1 < |b| && Sourced(b, i) && Enabled(b[i], a) && b[i + 1] == Apply(b[i], a)
    ensures Sourced(b, i + 1)
  {}

  lemma {:induction false} AlwaysSourced(b: seq<State>, i: nat)
    requires Behaviour(b) && i < |b|
    ensures Sourced(b, i)
  {
    if i > 0 {
      AlwaysSourced(b, i - 1);
      assert Next(b[i - 1], b[i - 1 + 1]);
      var a :| Enabled(b[i - 1], a) && b[i] == Apply(b[i - 1], a);
      StepKeepsSourced(b, i - 1, a);
    }
  }

  /** Bounded staleness, in every run: a project served from the cache was in Postgres under that
      very key at some moment no further back than the TTL plus the time the request that cached it
      took from its query to its SET. When requests are atomic that delay is zero. */
  lemma BoundedStaleness(b: seq<State>, i: nat, hash: Hash)
    requires Behaviour(b) && i < |b| && Hit(b[i], hash).Some?
    ensures var e := b[i].cache[hash];
            exists j :: 0 <= j <= i && Answers(b[j], hash, Hit(b[i], hash).value)
                        && b[i].now - 300_000 - (e.storedAt - e.fetchedAt) < b[j].now <= b[i].now
  {
    AlwaysSourced(b, i);
    var e := b[i].cache[hash];
    var j :| 0 <= j <= i && b[j].now == e.fetchedAt && Answers(b[j], hash, e.payload.value);
  }

  // ------------------------------------------------------------------ what a delete achieves

  ghost predicate Run(s: State, actions: seq<Action>, s': State)
    decreases |actions|
  {
    if actions == [] then s == s'
    else Enabled(s, actions[0]) && Run(Apply(s, actions[0]), actions[1..], s')
  }

  /** The key is not given out again. */
  ghost predicate NotRecreated(actions: seq<Action>, hash: Hash) {
    forall a :: a in actions && a.Create? ==> a.project.apiKeyHash != hash
  }

  /** Some continuation serves the key from the cache at time `t`. */
  ghost predicate CanBeServed(s: State, hash: Hash, t: int) {
    exists actions, s' :: Run(s, actions, s') && NotRecreated(actions, hash) && s'.now == t && Hit(s', hash).Some?
  }

  /** A cached answer that lasts until after `t`, or one still to be written. */
  predicate Source(s: State, hash: Hash, t: int) {
    || (hash in s.cache && s.cache[hash].payload.Some? && t < s.cache[hash].ExpiresAt())
    || InFlight(s, hash)
  }

  lemma NoSourceStep(s: State, a: Action, hash: Hash, t: int)
    requires Enabled(s, a) && !HasRow(s, hash) && !Source(s, hash, t)
    requires a.Create? ==> a.project.apiKeyHash != hash
    ensures !HasRow(Apply(s, a), hash) && !Source(Apply(s, a), hash, t) && s.now <= Apply(s, a).now
  {}

  lemma {:induction false} NoSourceNoService(s: State, actions: seq<Action>, s': State, hash: Hash, t: int)
    requires Run(s, actions, s') && NotRecreated(actions, hash) && !HasRow(s, hash) && !Source(s, hash, t)
    ensures !HasRow(s', hash) && !Source(s', hash, t)
    decreases |actions|
  {
    if actions != [] {
      assert actions[0] in actions;
      NoSourceStep(s, actions[0], hash, t);
      NoSourceNoService(Apply(s, actions[0]), actions[1..], s', hash, t);
    }
  }

  lemma {:induction false} TimeAdvances(s: State, actions: seq<Action>, s': State)
    requires Run(s, actions, s')
    ensures s.now <= s'.now
    decreases |actions|
  {
    if actions != [] { TimeAdvances(Apply(s, actions[0]), actions[1..], s'); }
  }

  /** A deleted project can still be served at time `t` exactly when an answer is cached until after
      `t`, or some request that read it before the delete has yet to write it. */
  lemma ServedAfterDeleteExactlyWhen(s: State, hash: Hash, t: int)
    requires !HasRow(s, hash)
    ensures CanBeServed(s, hash, t) <==> s.now <= t && Source(s, hash, t)
  {
    if CanBeServed(s, hash, t) {
      var actions, s' :| Run(s, actions, s') && NotRecreated(actions, hash) && s'.now == t && Hit(s', hash).Some?;
      TimeAdvances(s, actions, s');
      if !Source(s, hash, t) { NoSourceNoService(s, actions, s', hash, t); }
    }
    if s.now <= t && Source(s, hash, t) {
      var later := Apply(s, Advance(t - s.now));
      if InFlight(s, hash) {
        var r :| r in s.lookups && s.lookups[r].project.apiKeyHash == hash;
        var s' := Apply(later, Store(r, Ok));
        assert Run(later, [Store(r, Ok)], s') by { assert Run(s', [], s'); }
        Continue(s, [Advance(t - s.now), Store(r, Ok)], s');
        assert Hit(s', hash).Some? && s'.now == t;
      } else {
        Continue(s, [Advance(t - s.now)], later);
        assert Hit(later, hash).Some? && later.now == t;
      }
    }
  }

  /** Unfolds a run of one or two steps. */
  lemma Continue(s: State, actions: seq<Action>, s': State)
    requires 1 <= |actions| <= 2 && Enabled(s, actions[0])
    requires var s1 := Apply(s, actions[0]);
             if |actions| == 1 then s' == s1 else Enabled(s1, actions[1]) && s' == Apply(s1, actions[1])
    ensures Run(s, actions, s')
  {}

  // ------------------------------------------------------------------ the decorator's delete

  ghost predicate UniqueKeys(s: State) {
    forall i, j :: i in s.table && j in s.table && s.table[i].apiKeyHash == s.table[j].apiKeyHash ==> i == j
  }

  lemma {:induction false} RunKeepsUniqueKeys(s: State, actions: seq<Action>, s': State)
    requires Run(s, actions, s') && UniqueKeys(s)
    ensures UniqueKeys(s')
    decreases |actions|
  {
    if actions != [] {
      assert UniqueKeys(Apply(s, actions[0]));
      RunKeepsUniqueKeys(Apply(s, actions[0]), actions[1..], s');
    }
  }

  predicate Dormant(s: State, hash: Hash) { hash !in s.cache && !InFlight(s, hash) }

  /** No request for the key misses the cache and finds the row. */
  ghost predicate NotRead(actions: seq<Action>, hash: Hash) {
    forall a :: a in actions && a.Fetch? ==> a.project.apiKeyHash != hash
  }

  lemma {:induction false} QuietGap(s: State, actions: seq<Action>, s': State, hash: Hash)
    requires Run(s, actions, s') && NotRead(actions, hash) && Dormant(s, hash)
    ensures Dormant(s', hash)
    decreases |actions|
  {
    if actions != [] {
      assert actions[0] in actions;
      var s1 := Apply(s, actions[0]);
      QuietGap(s1, actions[1..], s', hash);
    }
  }

  /** The decorator's delete: DEL of the cache key, `gap` by others, DELETE of the row. With no
      request for that key in flight at the DEL and none reading it in the gap, the key is never
      served again unless it is created again. */
  lemma DecoratorDeleteIsFinal(s: State, id: ProjectId, gap: seq<Action>, s': State, t: int)
    requires UniqueKeys(s) && id in s.table
    requires var hash := s.table[id].apiKeyHash;
             && !InFlight(s, hash) && NotRead(gap, hash)
             && Run(Apply(s, Invalidate(hash)), gap, s') && id in s'.table && s'.table[id].apiKeyHash == hash
    ensures !CanBeServed(Apply(s', RemoveRow(id)), s.table[id].apiKeyHash, t)
  {
    var hash := s.table[id].apiKeyHash;
    var s0 := Apply(s, Invalidate(hash));
    RunKeepsUniqueKeys(s0, gap, s');
    QuietGap(s0, gap, s', hash);
    RemovalAlone(s', id);
    ServedAfterDeleteExactlyWhen(Apply(s', RemoveRow(id)), hash, t);
  }

  lemma RemovalAlone(s: State, id: ProjectId)
    requires UniqueKeys(s) && id in s.table
    ensures !HasRow(Apply(s, RemoveRow(id)), s.table[id].apiKeyHash)
    ensures forall t :: Source(Apply(s, RemoveRow(id)), s.table[id].apiKeyHash, t) <==> Source(s, s.table[id].apiKeyHash, t)
  {}

  /** A delete that goes to the inner repository alone, which is how `DELETE /projects/:id` is wired
      (cmd/api/main.go gives the project use case the undecorated repository), ends nothing early:
      with no request in flight, the key is served until precisely the expiry of its entry. */
  lemma UnwiredDeleteServesUntilExpiry(s: State, id: ProjectId, t: int)
    requires UniqueKeys(s) && id in s.table && !InFlight(s, s.table[id].apiKeyHash)
    requires Hit(s, s.table[id].apiKeyHash).Some?
    ensures CanBeServed(Apply(s, RemoveRow(id)), s.table[id].apiKeyHash, t)
            <==> s.now <= t < s.cache[s.table[id].apiKeyHash].storedAt + 300_000
  {
    RemovalAlone(s, id);
    ServedAfterDeleteExactlyWhen(Apply(s, RemoveRow(id)), s.table[id].apiKeyHash, t);
  }

  /** The gap matters: one request that reads the row between the DEL and the DELETE brings the key
      back for a full TTL, although lookup, cache delete and row delete all succeed. */
  lemma ReadInTheGapRevives(s: State, id: ProjectId, read: ReadId, t: int)
    requires UniqueKeys(s) && id in s.table && read !in s.lookups
    requires s.now <= t < s.now + 300_000
    ensures var s0 := Apply(s, Invalidate(s.table[id].apiKeyHash));
            && Enabled(s0, Fetch(read, s.table[id]))
            && var s1 := Apply(s0, Fetch(read, s.table[id]));
               CanBeServed(Apply(Apply(s1, Store(read, Ok)), RemoveRow(id)), s.table[id].apiKeyHash, t)
  {
    var hash := s.table[id].apiKeyHash;
    var s2 := Apply(Apply(Apply(s, Invalidate(hash)), Fetch(read, s.table[id])), Store(read, Ok));
    RemovalAlone(s2, id);
    ServedAfterDeleteExactlyWhen(Apply(s2, RemoveRow(id)), hash, t);
  }

  // ------------------------------------------------------------------ what the table holds

  /** The last creation or removal of the project. */
  function LastTurn(actions: seq<Action>, id: ProjectId): Option<Action> {
    if actions == [] then None
    else if LastTurn(actions[1..], id).Some? then LastTurn(actions[1..], id)
    else if (actions[0].Create? && actions[0].project.id == id) || actions[0] == RemoveRow(id) then Some(actions[0])
    else None
  }

  /** The table is what was created and not removed since. */
  lemma {:induction false} TableFollowsTheTurns(s: State, actions: seq<Action>, s': State, id: ProjectId)
    requires Run(s, actions, s')
    ensures var last := LastTurn(actions, id);
            if last.None? then (id in s'.table <==> id in s.table) && (id in s.table ==> s'.table[id] == s.table[id])
            else if last.value.Create? then id in s'.table && s'.table[id] == last.value.project
            else id !in s'.table
    decreases |actions|
  {
    if actions != [] { TableFollowsTheTurns(Apply(s, actions[0]), actions[1..], s', id); }
  }

  /** A project that is served was created, and its creation is the last turn it had when Postgres gave the
      answer; a request that finds nothing cached is answered so. */
  lemma AnswersWereCreated(actions: seq<Action>, s: State, hash: Hash, p: Project)
    requires Run(INIT, actions, s)
    ensures Answers(s, hash, p) <==> p.apiKeyHash == hash && LastTurn(actions, p.id) == Some(Create(p))
  {
    RowsKeepTheirIds(INIT, actions, s);
    TableFollowsTheTurns(INIT, actions, s, p.id);
    LastTurnIsTheirs(actions, p.id);
    if p in s.table.Values {
      var id :| id in s.table && s.table[id] == p;
      assert id == p.id;
    }
  }

  lemma {:induction false} LastTurnIsTheirs(actions: seq<Action>, id: ProjectId)
    ensures var o := LastTurn(actions, id);
            o.Some? ==> (o.value.Create? && o.value.project.id == id) || o.value == RemoveRow(id)
  {
    if actions != [] { LastTurnIsTheirs(actions[1..], id); }
  }

  lemma {:induction false} RowsKeepTheirIds(s: State, actions: seq<Action>, s': State)
    requires Run(s, actions, s') && forall id :: id in s.table ==> s.table[id].id == id
    ensures forall id :: id in s'.table ==> s'.table[id].id == id
    decreases |actions|
  {
    if actions != [] { RowsKeepTheirIds(Apply(s, actions[0]), actions[1..], s'); }
  }
}

module CachedProjectRepository {
  import opened ProjectCache

  datatype Result = Found(project: Project) | NotFound | Error

  class CachedProjectRepository {
    var s: State
    ghost var history: seq<State>

    ghost predicate Valid()
      reads this
    {
      Behaviour(history) && history[|history| - 1] == s
    }

    constructor ()
      ensures Valid() && s == INIT
    {
      s := INIT;
      history := [INIT];
    }

    /** Step `k` of the run is `a`. */
    ghost predicate Took(k: nat, a: Action)
      reads this
    {
      k + 1 < |history| && Enabled(history[k], a) && history[k + 1] == Apply(history[k], a)
    }

    method Take(a: Action)
      requires Valid() && Enabled(s, a)
      modifies this
      ensures Valid() && s == Apply(old(s), a) && history == old(history) + [s]
      ensures Took(|old(history)| - 1, a)
    {
      assert Next(s, Apply(s, a));
      s := Apply(s, a);
      history := history + [s];
      assert forall i :: 0 <= i < |old(history)| - 1 ==> Next(old(history)[i], old(history)[i + 1]);
    }

    /** Any number of steps of the other requests; `me` is the id of this one. */
    method Interfere(me: ReadId, alone: bool)
      requires Valid()
      modifies this
      ensures Valid() && old(history) <= history
      ensures (me in s.lookups) == (me in old(s.lookups))
      ensures me in s.lookups ==> s.lookups[me] == old(s.lookups[me])
      ensures alone ==> s == old(s)
    {
      if alone { return; }
      var n: nat := *;
      while n > 0
        invariant Valid() && old(history) <= history
        invariant (me in s.lookups) == (me in old(s.lookups))
        invariant me in s.lookups ==> s.lookups[me] == old(s.lookups[me])
      {
        var a: Action := *;
        if Enabled(s, a) && ((a.Store? || a.Fetch?) ==> a.read != me) { Take(a); }
        n := n - 1;
      }
    }

    /** `get`, `query` and `encoded` say whether the Redis read, the Postgres query and the encoding
        went through. At moment `at` the answer was the cached one (`hit`) or the table's; only an
        answer of the table is stored, and nothing about a failed lookup is. */
    method GetByAPIKeyHash(me: ReadId, hash: Hash, get: bool, query: bool, encoded: bool, reply: Reply, alone: bool)
      returns (r: Result, ghost hit: bool, ghost at: nat)
      requires Valid() && me !in s.lookups
      modifies this
      ensures Valid() && old(history) <= history && |old(history)| - 1 <= at < |history| && me !in s.lookups
      ensures r.Found? ==> if hit then Hit(history[at], hash) == Some(r.project)
                           else Answers(history[at], hash, r.project) && Took(at, Fetch(me, r.project))
      ensures r.NotFound? ==> !HasRow(history[at], hash)
      ensures (hit ==> get && r.Found?) && (r.Error? ==> !query)
      ensures r.Found? && !hit ==> Took(|history| - 2, Store(me, if encoded then reply else Failed(false)))
      ensures alone ==> hit == (get && Hit(old(s), hash).Some?)
      ensures alone && !hit ==> r.Error? == !query && (query ==> r.Found? == HasRow(old(s), hash))
      ensures alone && (hit || !r.Found?) ==> s == old(s)
      ensures alone && !hit && r.Found? ==>
                s == old(s).(cache := if encoded && reply.Applied()
                                      then old(s).cache[hash := Entry(Some(r.project), old(s).now, old(s).now)]
                                      else old(s).cache)
    {
      Interfere(me, alone);
      at, hit := |history| - 1, get && Hit(s, hash).Some?;
      if get && Hit(s, hash).Some? { return Found(Hit(s, hash).value), hit, at; }
      Interfere(me, alone);
      at := |history| - 1;
      if !query { return Error, hit, at; }
      if !HasRow(s, hash) { return NotFound, hit, at; }
      var id :| id in s.table && s.table[id].apiKeyHash == hash;
      var project := s.table[id];
      Fill(me, project, encoded, reply, alone);
      return Found(project), hit, at;
    }

    /** The answer has come from the table: write it to the cache, best effort. */
    method Fill(me: ReadId, project: Project, encoded: bool, reply: Reply, alone: bool)
      requires Valid() && me !in s.lookups && Answers(s, project.apiKeyHash, project)
      modifies this
      ensures Valid() && old(history) <= history && me !in s.lookups && |old(history)| < |history| - 1
      ensures Took(|old(history)| - 1, Fetch(me, project))
      ensures Took(|history| - 2, Store(me, if encoded then reply else Failed(false)))
      ensures alone ==>
                s == old(s).(cache := if encoded && reply.Applied()
                                      then old(s).cache[project.apiKeyHash := Entry(Some(project), old(s).now, old(s).now)]
                                      else old(s).cache)
    {
      Take(Fetch(me, project));
      Interfere(me, alone);
      Take(Store(me, if encoded then reply else Failed(false)));
    }

    /** The cache key goes first, if the row can be looked up; its failure is ignored. */
    method Delete(me: ReadId, id: ProjectId, lookup: bool, del: Reply, remove: Reply, alone: bool)
      returns (ok: bool, ghost at: nat)
      requires Valid()
      modifies this
      ensures Valid() && old(history) <= history && |old(history)| - 1 <= at < |history| && ok == remove.Ok?
      ensures ok ==> |old(history)| < |history| && Took(|history| - 2, RemoveRow(id))
      ensures lookup && id in history[at].table && del.Ok? ==>
                exists k :: at <= k && Took(k, Invalidate(history[at].table[id].apiKeyHash)) && (ok ==> k < |history| - 2)
      ensures alone && ok && lookup && del.Ok? && id in old(s).table ==>
                s == Apply(Apply(old(s), Invalidate(old(s).table[id].apiKeyHash)), RemoveRow(id))
      ensures alone && !(lookup && del.Applied() && id in old(s).table) ==> s.cache == old(s).cache
      ensures alone ==> s.table == if remove.Applied() then old(s).table - {id} else old(s).table
    {
      Interfere(me, alone);
      at := |history| - 1;
      ghost var k := at;
      if lookup && id in s.table {
        var project := s.table[id];
        Interfere(me, alone);
        k := |history| - 1;
        if del.Applied() { Take(Invalidate(project.apiKeyHash)); }
      }
      Interfere(me, alone);
      if remove.Applied() { Take(RemoveRow(id)); }
      ok := remove.Ok?;
      assert lookup && id in history[at].table && del.Ok? ==> Took(k, Invalidate(history[at].table[id].apiKeyHash));
    }
  }
}
