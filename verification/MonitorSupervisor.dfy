/** The code around monitor synchronisation: `MonitorSupervisor` with its mutex-guarded map of
    cancel functions, the dispatch of `RunMonitorSync`, and the commit-then-publish methods of
    `MonitorUsecase`. */
module CheckerPool {
  import MonitorSync

  type MonitorId = MonitorSync.MonitorId
  type Row = MonitorSync.Row

  /** One goroutine started by `spawn`; its position in `checkers` identifies its cancel function. */
  datatype Checker = Checker(id: MonitorId, row: Row, cancelled: bool)

  datatype Pool = Pool(cancels: map<MonitorId, nat>, checkers: seq<Checker>, parentDone: bool)

  const EMPTY: Pool := Pool(map[], [], false)

  function Cancelled(checkers: seq<Checker>, h: nat): seq<Checker> {
    if h < |checkers| then checkers[h := checkers[h].(cancelled := true)] else checkers
  }

  /** The checkers after the registered cancel functions of all monitors but those in `todo` have
      been called. */
  function CancelAllBut(p: Pool, todo: set<MonitorId>): seq<Checker> {
    seq(|p.checkers|, h requires 0 <= h < |p.checkers| => CancelIfDone(p, todo, h))
  }

  function CancelIfDone(p: Pool, todo: set<MonitorId>, h: nat): Checker
    requires h < |p.checkers|
  {
    var c := p.checkers[h];
    if c.id !in todo && c.id in p.cancels && p.cancels[c.id] == h then c.(cancelled := true) else c
  }

  lemma CancelOneMore(p: Pool, todo: set<MonitorId>, id: MonitorId)
    requires id in todo && id in p.cancels && p.cancels[id] < |p.checkers| && p.checkers[p.cancels[id]].id == id
    ensures Cancelled(CancelAllBut(p, todo), p.cancels[id]) == CancelAllBut(p, todo - {id})
  {}

  lemma CancelNobody(p: Pool)
    ensures CancelAllBut(p, p.cancels.Keys) == p.checkers
  {}

  datatype Op = Spawn(id: MonitorId, row: Row) | Remove(id: MonitorId) | CancelParent | CancelAll

  function Apply(p: Pool, op: Op): Pool {
    match op
    case Spawn(id, row) =>
      var rest := if id in p.cancels then Cancelled(p.checkers, p.cancels[id]) else p.checkers;
      p.(checkers := rest + [Checker(id, row, false)], cancels := p.cancels[id := |rest|])
    case Remove(id) =>
      if id in p.cancels
      then p.(checkers := Cancelled(p.checkers, p.cancels[id]), cancels := p.cancels - {id})
      else p
    case CancelParent => p.(parentDone := true)
    case CancelAll => p.(checkers := CancelAllBut(p, {}))
  }

  /** A checker runs until its own cancel function or its parent context stops it. */
  predicate Running(p: Pool, h: nat) {
    h < |p.checkers| && !p.checkers[h].cancelled && !p.parentDone
  }

  ghost predicate Consistent(p: Pool) {
    && (forall id :: id in p.cancels ==> p.cancels[id] < |p.checkers| && p.checkers[p.cancels[id]].id == id)
    && (forall h :: 0 <= h < |p.checkers| && !p.checkers[h].cancelled ==>
          p.checkers[h].id in p.cancels && p.cancels[p.checkers[h].id] == h)
    && (!p.parentDone ==> forall id :: id in p.cancels ==> !p.checkers[p.cancels[id]].cancelled)
  }

  /** `CancelAll` is the end of `Run`, reached only once the parent context is done. */
  predicate Enabled(p: Pool, op: Op) { op.CancelAll? ==> p.parentDone }

  lemma OpKeepsConsistent(p: Pool, op: Op)
    requires Consistent(p) && Enabled(p, op)
    ensures Consistent(Apply(p, op))
  {
    var p' := Apply(p, op);
    forall h | 0 <= h < |p'.checkers| && !p'.checkers[h].cancelled
      ensures p'.checkers[h].id in p'.cancels && p'.cancels[p'.checkers[h].id] == h
    {
      if h < |p.checkers| { assert !p.checkers[h].cancelled; }
    }
  }

  ghost predicate Run(p: Pool, ops: seq<Op>, p': Pool)
    decreases |ops|
  {
    if ops == [] then p == p' else Enabled(p, ops[0]) && Run(Apply(p, ops[0]), ops[1..], p')
  }

  lemma {:induction false} RunKeepsConsistent(p: Pool, ops: seq<Op>, p': Pool)
    requires Consistent(p) && Run(p, ops, p')
    ensures Consistent(p') && (p.parentDone ==> p'.parentDone)
    decreases |ops|
  {
    if ops != [] {
      OpKeepsConsistent(p, ops[0]);
      RunKeepsConsistent(Apply(p, ops[0]), ops[1..], p');
    }
  }

  /** The uncancelled checkers and the rows they run. */
  function Live(p: Pool): map<MonitorId, Row>
    requires forall id :: id in p.cancels ==> p.cancels[id] < |p.checkers|
  {
    map id | id in p.cancels :: p.checkers[p.cancels[id]].row
  }

  /** Single live checker: in every interleaving of rebuild, sync and removal, a monitor has at most
      one running checker, and while the parent context is live the cancel map lists exactly those. */
  lemma SingleLiveChecker(ops: seq<Op>, p: Pool, id: MonitorId)
    requires Run(EMPTY, ops, p)
    ensures forall h: nat, h': nat ::
              Running(p, h) && Running(p, h') && p.checkers[h].id == p.checkers[h'].id ==> h == h'
    ensures !p.parentDone ==> (id in p.cancels <==> exists h: nat :: Running(p, h) && p.checkers[h].id == id)
  {
    RunKeepsConsistent(EMPTY, ops, p);
    if id in p.cancels && !p.parentDone { assert Running(p, p.cancels[id]); }
  }

  /** Shutdown leaves none: once the parent context is done nothing runs, whatever is spawned later,
      and the final loop of `Run` has also cancelled every checker itself. */
  lemma ShutdownLeavesNone(before: seq<Op>, p: Pool, after: seq<Op>, p': Pool)
    requires Run(EMPTY, before, p) && p.parentDone && Run(p, after, p')
    ensures forall h: nat :: !Running(p', h)
    ensures forall h :: 0 <= h < |p'.checkers| ==> Apply(p', CancelAll).checkers[h].cancelled
  {
    RunKeepsConsistent(EMPTY, before, p);
    RunKeepsConsistent(p, after, p');
  }

  lemma CancelAllKeepsLive(p: Pool)
    requires Consistent(p) && p.parentDone
    ensures var p' := Apply(p, CancelAll);
            && Consistent(p') && Live(p') == Live(p)
            && forall h :: 0 <= h < |p'.checkers| ==> p'.checkers[h].cancelled
  {
    OpKeepsConsistent(p, CancelAll);
  }

  /** The pool's view of the two supervisor steps of the synchronisation protocol. */
  lemma SpawnRefinesSync(p: Pool, id: MonitorId, row: Row)
    requires Consistent(p)
    ensures var p' := Apply(p, Spawn(id, row)); Consistent(p') && Live(p') == Live(p)[id := row]
  {
    OpKeepsConsistent(p, Spawn(id, row));
    var p' := Apply(p, Spawn(id, row));
    assert p'.cancels[id] == |p.checkers|;
    assert Live(p').Keys == Live(p).Keys + {id};
  }

  lemma RemoveRefinesSync(p: Pool, id: MonitorId)
    requires Consistent(p)
    ensures var p' := Apply(p, Remove(id)); Consistent(p') && Live(p') == Live(p) - {id}
  {}
}

module MonitorSupervisor {
  import opened MonitorSync
  import Pools = CheckerPool

  datatype Option<T> = None | Some(value: T)

  /** A message on the `ws:broadcast` channel, as `RunMonitorSync` decodes it. */
  datatype Message = Undecodable | Message(kind: string, id: Option<MonitorId>)

  const MONITOR_SYNC_CREATED := "monitor.created"
  const MONITOR_SYNC_UPDATED := "monitor.updated"
  const MONITOR_SYNC_DELETED := "monitor.deleted"

  predicate IsNotice(msg: Message) {
    && msg.Message? && msg.id.Some?
    && msg.kind in {MONITOR_SYNC_CREATED, MONITOR_SYNC_UPDATED, MONITOR_SYNC_DELETED}
  }

  function Decoded(msg: Message): Notice
    requires IsNotice(msg)
  {
    Notice(if msg.kind == MONITOR_SYNC_CREATED then Created
           else if msg.kind == MONITOR_SYNC_UPDATED then Updated else Deleted, msg.id.value)
  }

  /** The two goroutines that share the supervisor. */
  datatype Goroutine = Dispatcher | Rebuilder

  /** Steps of the API and of the other goroutine. */
  predicate Foreign(me: Goroutine, a: Action) {
    match a
    case Receive(_, _) => me.Rebuilder?
    case Spawn => me.Rebuilder?
    case List(_) => me.Dispatcher?
    case RebuildSpawn => me.Dispatcher?
    case _ => true
  }

  /** What a goroutine holds stays as it is; notices stay until the dispatcher takes them. */
  predicate Undisturbed(me: Goroutine, s: System, s': System) {
    match me
    case Dispatcher => s'.handler == s.handler && s.channel <= s'.channel
    case Rebuilder => s'.rebuild == s.rebuild && s'.listed == s.listed
  }

  lemma ForeignStepsDoNotDisturb(me: Goroutine, s: System, a: Action)
    requires Enabled(s, a) && Foreign(me, a)
    ensures Undisturbed(me, s, Apply(s, a))
  {}

  lemma ReceiveFetches(s: System, n: Notice, lookupOk: bool)
    requires Enabled(s, Receive(n, lookupOk)) && !n.kind.Deleted?
    ensures Apply(s, Receive(n, lookupOk)).handler
         == if lookupOk && n.id in s.db then Fetched(n.id, s.db[n.id]) else Idle
  {}

  class MonitorSupervisor {
    var cancels: map<MonitorId, nat>
    var checkers: seq<Pools.Checker>
    var parentDone: bool
    var s: System                  // the database, the channel, and what each goroutine holds
    ghost var history: seq<System>

    ghost function Pool(): Pools.Pool
      reads this
    {
      Pools.Pool(cancels, checkers, parentDone)
    }

    ghost predicate PoolOk()
      reads this
    {
      Pools.Consistent(Pool())
    }

    ghost function Live(): map<MonitorId, Row>
      requires PoolOk()
      reads this
    {
      Pools.Live(Pool())
    }

    /** The state is the last one of a run of the protocol, and its checkers are the pool's. */
    ghost predicate Valid()
      reads this
    {
      Behaviour(history) && history[|history| - 1] == s && PoolOk() && s.live == Live()
    }

    /** Step `k` of the run was `a`. */
    ghost predicate Took(k: nat, a: Action)
      reads this
    {
      k + 1 < |history| && Enabled(history[k], a) && history[k + 1] == Apply(history[k], a)
    }

    constructor (db: map<MonitorId, Row>)
      ensures Valid() && Pool() == Pools.EMPTY && s == Booting(db) && history == [s]
    {
      cancels, checkers, parentDone := map[], [], false;
      s := Booting(db);
      history := [Booting(db)];
    }

    /** Convergence, of this code: once everything is processed and nothing was lost, the uncancelled
        checkers are the table if and only if the rebuild was not overtaken. */
    lemma PoolConverges()
      requires Valid() && Quiescent(s) && s.dropped == {}
      ensures Live() == s.db <==> s.overtaken == {}
    {
      Converges(s);
    }

    /** Cancels the running checker of the monitor, if any, and starts a new one. */
    method Spawn(id: MonitorId, row: Row)
      requires PoolOk()
      modifies this`cancels, this`checkers
      ensures PoolOk() && Pool() == Pools.Apply(old(Pool()), Pools.Spawn(id, row))
      ensures Live() == old(Live())[id := row]
    {
      Pools.SpawnRefinesSync(Pool(), id, row);
      if id in cancels {
        checkers := Pools.Cancelled(checkers, cancels[id]);
      }
      cancels := cancels[id := |checkers|];
      checkers := checkers + [Pools.Checker(id, row, false)];
    }

    method Remove(id: MonitorId)
      requires PoolOk()
      modifies this`cancels, this`checkers
      ensures PoolOk() && Pool() == Pools.Apply(old(Pool()), Pools.Remove(id))
      ensures Live() == old(Live()) - {id}
    {
      Pools.RemoveRefinesSync(Pool(), id);
      if id in cancels {
        checkers := Pools.Cancelled(checkers, cancels[id]);
        cancels := cancels - {id};
      }
    }

    /** What a step does to the checkers goes through `Spawn` and `Remove`. */
    method Perform(a: Action)
      requires PoolOk() && s.live == Live() && Enabled(s, a)
      modifies this`cancels, this`checkers
      ensures PoolOk() && Live() == Apply(s, a).live
    {
      if a.Spawn? {
        Spawn(s.handler.id, s.handler.row);
      } else if a.RebuildSpawn? {
        Spawn(s.rebuild[0].0, s.rebuild[0].1);
      } else if a.Receive? && a.notice.kind.Deleted? {
        Remove(a.notice.id);
      }
    }

    method Act(a: Action)
      requires Valid() && Enabled(s, a)
      modifies this`cancels, this`checkers, this`s, this`history
      ensures Valid() && s == Apply(old(s), a) && history == old(history) + [s]
      ensures Took(|old(history)| - 1, a)
    {
      Perform(a);
      BehaviourExtends(history, a);
      s := Apply(s, a);
      history := history + [s];
    }

    method ActForeign(me: Goroutine, a: Action)
      requires Valid() && Enabled(s, a) && Foreign(me, a)
      modifies this`cancels, this`checkers, this`s, this`history
      ensures Valid() && old(history) <= history && Undisturbed(me, old(s), s)
    {
      ForeignStepsDoNotDisturb(me, s, a);
      Act(a);
    }

    /** Any number of steps of the API and of the other goroutine. */
    method Interfere(me: Goroutine)
      requires Valid()
      modifies this`cancels, this`checkers, this`s, this`history
      ensures Valid() && old(history) <= history && Undisturbed(me, old(s), s)
    {
      var n: nat := *;
      while n > 0
        invariant Valid() && old(history) <= history && Undisturbed(me, old(s), s)
      {
        var a: Action := *;
        if Enabled(s, a) && Foreign(me, a) { ActForeign(me, a); }
        n := n - 1;
      }
    }

    /** Look the row up, and spawn it if it was found: two steps, with everything else free to move in
        between. */
    method Sync(n: Notice, lookupOk: bool) returns (ghost at: nat)
      requires Valid() && s.handler.Idle? && n in s.channel && !n.kind.Deleted?
      modifies this`cancels, this`checkers, this`s, this`history
      ensures Valid() && s.handler.Idle? && old(history) <= history
      ensures |old(history)| - 1 <= at && Took(at, Receive(n, lookupOk))
      ensures lookupOk && n.id in history[at].db ==>
                at + 1 < |history| - 1 && Took(|history| - 2, MonitorSync.Spawn)
                && history[|history| - 2].handler == Fetched(n.id, history[at].db[n.id])
      ensures !(lookupOk && n.id in history[at].db) ==> |history| == at + 2
    {
      at := Lookup(n, lookupOk);
      if s.handler.Fetched? { SpawnFetched(); }
    }

    /** `GetByID`, whose result is the row as it is at that moment. */
    method Lookup(n: Notice, ok: bool) returns (ghost at: nat)
      requires Valid() && s.handler.Idle? && n in s.channel && !n.kind.Deleted?
      modifies this`cancels, this`checkers, this`s, this`history
      ensures Valid() && old(history) <= history && |old(history)| - 1 <= at == |history| - 2 && Took(at, Receive(n, ok))
      ensures s.handler == if ok && n.id in history[at].db then Fetched(n.id, history[at].db[n.id]) else Idle
    {
      Interfere(Dispatcher);
      at := |history| - 1;
      ReceiveFetches(s, n, ok);
      Act(Receive(n, ok));
    }

    method SpawnFetched()
      requires Valid() && s.handler.Fetched?
      modifies this`cancels, this`checkers, this`s, this`history
      ensures Valid() && s.handler.Idle? && old(history) <= history && |old(history)| < |history|
      ensures Took(|history| - 2, MonitorSync.Spawn) && history[|history| - 2].handler == old(s.handler)
    {
      Interfere(Dispatcher);
      Act(MonitorSync.Spawn);
    }

    /** The switch in `RunMonitorSync`: a notice is received and dealt with, anything else is skipped. */
    method Dispatch(msg: Message, lookupOk: bool) returns (ghost at: nat)
      requires Valid() && s.handler.Idle? && (IsNotice(msg) ==> Decoded(msg) in s.channel)
      modifies this`cancels, this`checkers, this`s, this`history
      ensures Valid() && s.handler.Idle? && old(history) <= history
      ensures !IsNotice(msg) ==> history == old(history)
      ensures IsNotice(msg) ==>
                |old(history)| - 1 <= at && Took(at, Receive(Decoded(msg), Decoded(msg).kind.Deleted? || lookupOk))
      ensures IsNotice(msg) && !Decoded(msg).kind.Deleted? && lookupOk && Decoded(msg).id in history[at].db ==>
                at + 1 < |history| - 1 && Took(|history| - 2, MonitorSync.Spawn)
    {
      at := 0;
      if msg.Undecodable? { return; }
      if msg.kind == MONITOR_SYNC_CREATED || msg.kind == MONITOR_SYNC_UPDATED {
        if msg.id.None? { return; }
        at := Sync(Decoded(msg), lookupOk);
      } else if msg.kind == MONITOR_SYNC_DELETED {
        if msg.id.None? { return; }
        at := Drop(Decoded(msg));
      }
    }

    method Drop(n: Notice) returns (ghost at: nat)
      requires Valid() && s.handler.Idle? && n in s.channel && n.kind.Deleted?
      modifies this`cancels, this`checkers, this`s, this`history
      ensures Valid() && s.handler.Idle? && old(history) <= history
      ensures |old(history)| - 1 <= at && Took(at, Receive(n, true))
    {
      Interfere(Dispatcher);
      at := |history| - 1;
      Act(Receive(n, true));
    }

    /** The first half of `Run`: list the table, then one checker per row. Undisturbed, the checkers
        are afterwards exactly the rows listed. */
    method Run(rows: seq<(MonitorId, Row)>, alone: bool)
      requires Valid() && !s.listed && Lists(rows, s.db)
      modifies this`cancels, this`checkers, this`s, this`history
      ensures Valid() && s.listed && s.rebuild == [] && old(history) <= history
      ensures alone ==> Live() == WithRows(old(Live()), rows)
    {
      Act(List(rows));
      for i := 0 to |rows|
        invariant Valid() && s.listed && s.rebuild == rows[i..] && old(history) <= history
        invariant alone ==> Live() == WithRows(old(Live()), rows[..i])
      {
        RunNext(rows, i, alone);
        assert rows[..i + 1][..i] == rows[..i];
      }
      assert rows[..|rows|] == rows;
    }

    /** The body of that loop. */
    method RunNext(ghost rows: seq<(MonitorId, Row)>, ghost i: nat, alone: bool)
      requires Valid() && s.listed && i < |rows| && s.rebuild == rows[i..]
      modifies this`cancels, this`checkers, this`s, this`history
      ensures Valid() && s.listed && s.rebuild == rows[i + 1..] && old(history) <= history
      ensures alone ==> Live() == old(Live())[rows[i].0 := rows[i].1]
    {
      if !alone { Interfere(Rebuilder); }
      Act(RebuildSpawn);
    }

    /** The second half of `Run`, entered when the context is done: cancel every checker there is. */
    method Shutdown()
      requires Valid()
      modifies this`parentDone, this`checkers
      ensures Valid() && Pool() == Pools.Apply(old(Pool()).(parentDone := true), Pools.CancelAll)
      ensures forall h :: 0 <= h < |checkers| ==> checkers[h].cancelled
    {
      parentDone := true;
      Pools.CancelAllKeepsLive(Pool());
      CancelRegistered();
    }

    /** The loop over the cancel map, in whatever order the map is visited. */
    method CancelRegistered()
      requires PoolOk()
      modifies this`checkers
      ensures checkers == Pools.CancelAllBut(old(Pool()), {})
    {
      var todo := cancels.Keys;
      Pools.CancelNobody(Pool());
      while todo != {}
        invariant todo <= cancels.Keys && checkers == Pools.CancelAllBut(old(Pool()), todo)
        decreases |todo|
      {
        var id :| id in todo;
        Pools.CancelOneMore(old(Pool()), todo, id);
        checkers := Pools.Cancelled(checkers, cancels[id]);
        todo := todo - {id};
      }
    }
  }

  /** The listed rows laid over `live`, later ones winning. */
  function WithRows(live: map<MonitorId, Row>, rows: seq<(MonitorId, Row)>): map<MonitorId, Row> {
    if rows == [] then live
    else WithRows(live, rows[..|rows| - 1])[rows[|rows| - 1].0 := rows[|rows| - 1].1]
  }

  /** A rebuild of an empty supervisor leaves exactly the table: the start of every synchronised run. */
  lemma RebuildMatchesTable(rows: seq<(MonitorId, Row)>, db: map<MonitorId, Row>)
    requires Lists(rows, db)
    ensures WithRows(map[], rows) == db
  {
    RowsAreFromTable(rows, db);
    forall id | id in db ensures id in WithRows(map[], rows) {
      var i :| 0 <= i < |rows| && rows[i].0 == id;
      RowIsListed(rows, i);
    }
  }

  lemma {:induction false} RowsAreFromTable(rows: seq<(MonitorId, Row)>, db: map<MonitorId, Row>)
    requires forall i :: 0 <= i < |rows| ==> rows[i].0 in db && db[rows[i].0] == rows[i].1
    ensures forall id :: id in WithRows(map[], rows) ==> id in db && WithRows(map[], rows)[id] == db[id]
  {
    if rows != [] { RowsAreFromTable(rows[..|rows| - 1], db); }
  }

  lemma {:induction false} RowIsListed(rows: seq<(MonitorId, Row)>, i: nat)
    requires i < |rows|
    ensures rows[i].0 in WithRows(map[], rows)
  {
    if i < |rows| - 1 { RowIsListed(rows[..|rows| - 1], i); }
  }
}

module MonitorUsecase {
  import opened MonitorSync

  datatype Option<T> = None | Some(value: T)

  /** The optional fields of a PATCH request. */
  datatype Patch = Patch(url: Option<string>, name: Option<string>, intervalSec: Option<int>,
                         channel: Option<string>, channelTarget: Option<string>, failureThreshold: Option<int>)

  function Or<T>(o: Option<T>, default: T): T { if o.Some? then o.value else default }

  /** Each field is the patch's where it gives one and the old row's otherwise. */
  predicate IsMerge(row: Row, patch: Patch, merged: Row) {
    && merged.projectId == row.projectId
    && merged.url == Or(patch.url, row.url) && merged.name == Or(patch.name, row.name)
    && merged.intervalSec == Or(patch.intervalSec, row.intervalSec)
    && merged.channel == Or(patch.channel, row.channel)
    && merged.channelTarget == Or(patch.channelTarget, row.channelTarget)
    && merged.failureThreshold == Or(patch.failureThreshold, row.failureThreshold)
  }

  /** The field-by-field merge of `Update`. */
  method Merge(row: Row, patch: Patch) returns (monitor: Row)
    ensures IsMerge(row, patch, monitor)
  {
    monitor := row;
    if patch.url.Some? { monitor := monitor.(url := patch.url.value); }
    if patch.name.Some? { monitor := monitor.(name := patch.name.value); }
    if patch.intervalSec.Some? { monitor := monitor.(intervalSec := patch.intervalSec.value); }
    if patch.channel.Some? { monitor := monitor.(channel := patch.channel.value); }
    if patch.channelTarget.Some? { monitor := monitor.(channelTarget := patch.channelTarget.value); }
    if patch.failureThreshold.Some? { monitor := monitor.(failureThreshold := patch.failureThreshold.value); }
  }

  datatype Outcome = Done | Refused | Failed

  /** A call to Postgres or Redis may fail, before or after it took effect. */
  datatype Reply = Ok | Error(applied: bool) {
    predicate Applied() { Ok? || applied }
  }

  lemma OthersKeep(mine: multiset<Notice>, s: System, a: Action)
    requires mine <= s.committed && Enabled(s, a) && (a.Publish? ==> mine <= s.committed - multiset{a.notice})
    ensures mine <= Apply(s, a).committed && s.used <= Apply(s, a).used
  {}

  class MonitorUsecase {
    var s: System
    ghost var history: seq<System>

    ghost predicate Valid()
      reads this
    {
      Behaviour(history) && history[|history| - 1] == s
    }

    /** Step `k` of the run was `a`. */
    ghost predicate Took(k: nat, a: Action)
      reads this
    {
      k + 1 < |history| && Enabled(history[k], a) && history[k + 1] == Apply(history[k], a)
    }

    constructor (db: map<MonitorId, Row>)
      ensures Valid() && s == Booting(db)
    {
      s := Booting(db);
      history := [Booting(db)];
    }

    method Take(a: Action)
      requires Valid() && Enabled(s, a)
      modifies this
      ensures Valid() && s == Apply(old(s), a) && history == old(history) + [s]
    {
      BehaviourExtends(history, a);
      s := Apply(s, a);
      history := history + [s];
    }

    /** Other requests and the worker at work. The notices this request still has to publish are its
        own, and ids once used stay used. */
    method Interfere(mine: multiset<Notice>)
      requires Valid() && mine <= s.committed
      modifies this
      ensures Valid() && mine <= s.committed && old(history) <= history && old(s.used) <= s.used
    {
      var n: nat := *;
      while n > 0
        invariant Valid() && mine <= s.committed && old(history) <= history && old(s.used) <= s.used
      {
        var a: Action := *;
        if Enabled(s, a) && (a.Publish? ==> mine <= s.committed - multiset{a.notice}) {
          OthersKeep(mine, s, a);
          Take(a);
        }
        n := n - 1;
      }
    }

    /** `Publish`, whose error every caller discards. */
    method Announce(n: Notice, publish: Reply) returns (ghost at: nat)
      requires Valid() && n in s.committed
      modifies this
      ensures Valid() && old(history) <= history
      ensures |old(history)| - 1 <= at && Took(at, Publish(n, publish.Applied()))
    {
      assert multiset{n} <= s.committed;
      Interfere(multiset{n});
      at := |history| - 1;
      Take(Publish(n, publish.Applied()));
    }

    /** Commit the change, then publish its notice; a failed write publishes nothing. */
    method CommitAndAnnounce(a: Action, n: Notice, write: Reply, publish: Reply) returns (o: Outcome, ghost k: nat)
      requires Commits(a)
      requires Valid() && Enabled(s, a) && n == NoticeOf(a)
      modifies this
      ensures Valid() && old(history) <= history
      ensures o == if write.Ok? then Done else Failed
      ensures if write.Applied() then Took(|old(history)| - 1, a) else history == old(history)
      ensures write.Applied() ==> |old(history)| <= k && Took(k, Publish(n, write.Ok? && publish.Applied()))
    {
      k := |history|;
      if !write.Applied() { return Failed, k; }
      Take(a);
      if write.Error? {
        // The write took effect but its reply was lost: the notice is never published.
        Take(Publish(n, false));
        return Failed, k;
      }
      ghost var prefix := history;
      k := Announce(n, publish);
      assert prefix <= history && Took(|old(history)| - 1, a);
      o := Done;
    }

    /** The request's write, made in state `at`, and the publish of its notice after an Ok write. */
    ghost predicate Carried(at: nat, k: nat, a: Action, n: Notice, write: Reply, publish: Reply)
      reads this
    {
      && (write.Applied() ==> Took(at, a))
      && (write.Ok? ==> at < k && Took(k, Publish(n, publish.Applied())))
    }

    /** `Create`: the id is the one the database generates. Once allowed, the request is done if and only if
        the insert replies Ok, and its notice is then published. */
    method Create(id: MonitorId, row: Row, allowed: bool, write: Reply, publish: Reply)
      returns (o: Outcome, ghost at: nat, ghost k: nat)
      requires Valid()
      modifies this
      ensures Valid() && old(history) <= history && |old(history)| - 1 <= at < |history|
      ensures !allowed ==> o.Refused? && history == old(history)
      ensures allowed && id in history[at].used ==> o.Failed?
      ensures allowed && id !in history[at].used ==> (o.Done? <==> write.Ok?) && (o.Failed? <==> !write.Ok?)
      ensures allowed && id !in history[at].used ==>
                Carried(at, k, MonitorSync.Create(id, row), Notice(Created, id), write, publish)
    {
      at, k := |history| - 1, 0;
      if !allowed { return Refused, at, k; }
      Interfere(multiset{});
      at := |history| - 1;
      if id in s.used { return Failed, at, k; }
      o, k := CommitAndAnnounce(MonitorSync.Create(id, row), Notice(Created, id), write, publish);
    }

    /** `Update`: read, merge field by field, validate, write the whole row, publish. What is written
        merges the patch into the row as it was read, however the table has changed since. Once the row is
        found, the user's and valid, the request is done if and only if the write replies Ok. */
    method Update(id: MonitorId, patch: Patch, owned: bool, valid: bool, write: Reply, publish: Reply)
      returns (o: Outcome, ghost readAt: nat, ghost at: nat, ghost k: nat, ghost written: Row)
      requires Valid()
      modifies this
      ensures Valid() && old(history) <= history && |old(history)| - 1 <= readAt <= at < |history|
      ensures !(id in history[readAt].db && owned && valid) ==> o.Refused? && |history| == readAt + 1
      ensures id in history[readAt].db && owned && valid ==>
                && IsMerge(history[readAt].db[id], patch, written)
                && (o.Done? <==> write.Ok?) && (o.Failed? <==> !write.Ok?)
                && Carried(at, k, MonitorSync.Update(id, written), Notice(Updated, id), write, publish)
    {
      Interfere(multiset{});
      readAt, at, k := |history| - 1, |history| - 1, 0;
      if id !in s.db || !owned { written := Row("", "", "", 0, "", "", 0); return Refused, readAt, at, k, written; }
      ReachableHere();
      var monitor := Merge(s.db[id], patch);
      written := monitor;
      if !valid { return Refused, readAt, at, k, written; }
      ghost var prefix := history;
      Interfere(multiset{});
      at := |history| - 1;
      o, k := CommitAndAnnounce(MonitorSync.Update(id, monitor), Notice(Updated, id), write, publish);
      assert prefix <= history;
    }

    /** `Delete`: the row is looked up for its owner, then deleted whether or not it is still there. */
    method Delete(id: MonitorId, owned: bool, write: Reply, publish: Reply)
      returns (o: Outcome, ghost readAt: nat, ghost at: nat, ghost k: nat)
      requires Valid()
      modifies this
      ensures Valid() && old(history) <= history && |old(history)| - 1 <= readAt <= at < |history|
      ensures !(id in history[readAt].db && owned) ==> o.Refused? && |history| == readAt + 1
      ensures id in history[readAt].db && owned ==>
                && (o.Done? <==> write.Ok?) && (o.Failed? <==> !write.Ok?)
                && Carried(at, k, MonitorSync.Delete(id), Notice(Deleted, id), write, publish)
    {
      Interfere(multiset{});
      readAt, at, k := |history| - 1, |history| - 1, 0;
      if id !in s.db || !owned { return Refused, readAt, at, k; }
      ReachableHere();
      ghost var prefix := history;
      Interfere(multiset{});
      at := |history| - 1;
      o, k := CommitAndAnnounce(MonitorSync.Delete(id), Notice(Deleted, id), write, publish);
      assert prefix <= history;
    }

    lemma ReachableHere()
      requires Valid()
      ensures Consistent(s)
    {
      BehaviourConsistent(history, |history| - 1);
    }
  }
}
