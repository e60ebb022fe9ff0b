/** Keeping the running checkers in step with the monitors table: the API commits a change and
    then publishes a notice (internal/usecase/monitor.go); the worker receives notices one at a
    time, looks the monitor up again and respawns or removes its checker
    (internal/worker/monitor_sync.go, internal/worker/monitor_checker.go).

    Commits, publishes, lookups and the startup rebuild interleave, and notices arrive in any order. */
module MonitorSync {

  type MonitorId = string

  /** The columns a user can set. `status` is written by the checker itself and not synchronised. */
  datatype Row = Row(projectId: string, url: string, name: string, intervalSec: int,
                     channel: string, channelTarget: string, failureThreshold: int)

  datatype Kind = Created | Updated | Deleted

  datatype Notice = Notice(kind: Kind, id: MonitorId)

  /** `RunMonitorSync` between `GetByID` and `spawn`. */
  datatype Handler = Idle | Fetched(id: MonitorId, row: Row)

  datatype System = System(
    db: map<MonitorId, Row>,
    used: set<MonitorId>,          // ids ever given out; gen_random_uuid() does not repeat them
    committed: multiset<Notice>,   // changes committed and not yet published
    channel: multiset<Notice>,     // notices published and not yet received
    handler: Handler,
    live: map<MonitorId, Row>,     // uncancelled checkers and the row each runs
    listed: bool,                  // ListAll has returned
    rebuild: seq<(MonitorId, Row)>, // rows listed at startup and not yet spawned
    dropped: set<MonitorId>,       // ids with a lost notice or failed lookup not made good since
    overtaken: set<MonitorId>)     // ids the rebuild spawned too late, not made good since

  datatype Action =
    | Create(id: MonitorId, row: Row)
    | Update(id: MonitorId, row: Row)
    | Delete(id: MonitorId)
    | Publish(notice: Notice, delivered: bool)
    | Receive(notice: Notice, lookupOk: bool)
    | Spawn
    | List(rows: seq<(MonitorId, Row)>)
    | RebuildSpawn

  /** What ListAll returns: every row of the table, and nothing else. */
  predicate Lists(rows: seq<(MonitorId, Row)>, db: map<MonitorId, Row>) {
    && (forall i :: 0 <= i < |rows| ==> rows[i].0 in db && db[rows[i].0] == rows[i].1)
    && (forall id :: id in db ==> exists i :: 0 <= i < |rows| && rows[i].0 == id)
  }

  predicate Enabled(s: System, a: Action) {
    match a
    case Create(id, _) => id !in s.used
    case Update(id, _) => id in s.used
    case Delete(id) => id in s.used
    case Publish(n, _) => n in s.committed
    case Receive(n, _) => s.handler.Idle? && n in s.channel
    case Spawn => s.handler.Fetched?
    case List(rows) => !s.listed && Lists(rows, s.db)
    case RebuildSpawn => s.rebuild != []
  }

  predicate Commits(a: Action) { a.Create? || a.Update? || a.Delete? }

  function NoticeOf(a: Action): Notice
    requires Commits(a)
  {
    Notice(if a.Create? then Created else if a.Update? then Updated else Deleted, a.id)
  }

  predicate Due(s: System, n: Notice) { n in s.committed || n in s.channel }

  predicate SyncDue(s: System, id: MonitorId) { Due(s, Notice(Created, id)) || Due(s, Notice(Updated, id)) }

  predicate RemovalDue(s: System, id: MonitorId) { Due(s, Notice(Deleted, id)) }

  predicate Handling(s: System, id: MonitorId) { s.handler.Fetched? && s.handler.id == id }

  /** The rebuild is about to spawn a row that is not the table's any more, while every notice that
      would put it right has been dealt with already. */
  predicate Overtaken(s: System)
    requires s.rebuild != []
  {
    var (id, row) := s.rebuild[0];
    !Handling(s, id) && if id in s.db then row != s.db[id] && !SyncDue(s, id) else !RemovalDue(s, id)
  }

  function Apply(s: System, a: Action): System
    requires Enabled(s, a)
  {
    match a
    case Create(id, row) =>
      s.(db := s.db[id := row], used := s.used + {id}, committed := s.committed + multiset{Notice(Created, id)})
    case Update(id, row) =>
      // UPDATE ... WHERE id touches no row once the monitor is gone; the notice follows all the same.
      s.(db := if id in s.db then s.db[id := row] else s.db,
         committed := s.committed + multiset{Notice(Updated, id)})
    case Delete(id) =>
      s.(db := s.db - {id}, committed := s.committed + multiset{Notice(Deleted, id)})
    case Publish(n, delivered) =>
      var s' := s.(committed := s.committed - multiset{n});
      if delivered then s'.(channel := s.channel + multiset{n}) else s'.(dropped := s.dropped + {n.id})
    case Receive(n, lookupOk) =>
      var s' := s.(channel := s.channel - multiset{n});
      if n.kind.Deleted? then
        s'.(live := s.live - {n.id}, dropped := s.dropped - {n.id}, overtaken := s.overtaken - {n.id})
      else if !lookupOk then s'.(dropped := s.dropped + {n.id})
      else if n.id in s.db then
        s'.(handler := Fetched(n.id, s.db[n.id]), dropped := s.dropped - {n.id}, overtaken := s.overtaken - {n.id})
      else s'
    case Spawn => s.(live := s.live[s.handler.id := s.handler.row], handler := Idle)
    case List(rows) => s.(listed := true, rebuild := rows)
    case RebuildSpawn =>
      var (id, row) := s.rebuild[0];
      s.(live := s.live[id := row], rebuild := s.rebuild[1..],
         overtaken := if Overtaken(s) then s.overtaken + {id} else s.overtaken - {id})
  }

  ghost predicate Next(s: System, s': System) {
    exists a :: Enabled(s, a) && s' == Apply(s, a)
  }

  /** A worker that starts with all earlier changes published. */
  function Booting(db: map<MonitorId, Row>): System {
    System(db, db.Keys, multiset{}, multiset{}, Idle, map[], false, [], {}, {})
  }

  /** The worker starts: nothing listed, nothing received, no checkers. The API may be at work. */
  ghost predicate Start(s: System) {
    && s == System(s.db, s.used, s.committed, multiset{}, Idle, map[], false, [], {}, {})
    && (forall id :: id in s.db ==> id in s.used)
    && (forall n :: n in s.committed ==> n.id in s.used && (n.kind.Deleted? ==> n.id !in s.db))
  }

  ghost predicate NextAt(b: seq<System>, i: int)
    requires 0 <= i < |b| - 1
  {
    Next(b[i], b[i + 1])
  }

  ghost predicate Behaviour(b: seq<System>) {
    b != [] && Start(b[0]) && forall i :: 0 <= i < |b| - 1 ==> NextAt(b, i)
  }

  ghost predicate Reachable(s: System) {
    exists b :: Behaviour(b) && b[|b| - 1] == s
  }

  lemma BehaviourExtends(b: seq<System>, a: Action)
    requires Behaviour(b) && Enabled(b[|b| - 1], a)
    ensures Behaviour(b + [Apply(b[|b| - 1], a)])
  {
    var b' := b + [Apply(b[|b| - 1], a)];
    forall i | 0 <= i < |b'| - 1 ensures NextAt(b', i) {
      if i < |b| - 1 { assert NextAt(b, i); } else { assert Next(b'[i], b'[i + 1]); }
    }
  }

  // ------------------------------------------------------------------ the invariant

  /** Startup has yet to spawn a checker for the id. */
  predicate Pending(s: System, id: MonitorId) { !s.listed || exists p :: p in s.rebuild && p.0 == id }

  predicate HasCurrentChecker(s: System, id: MonitorId)
    requires id in s.db
  {
    id in s.live && s.live[id] == s.db[id]
  }

  /** A checker exactly when there is a row, and it runs that row. */
  predicate InStep(s: System, id: MonitorId) {
    if id in s.db then HasCurrentChecker(s, id) else id !in s.live
  }

  /** The checker of `id` is right, is about to be, or a notice that puts it right is still to come. */
  predicate OnTrack(s: System, id: MonitorId) {
    if id in s.db then
      SyncDue(s, id) || (if Handling(s, id) then s.handler.row == s.db[id] else Pending(s, id) || HasCurrentChecker(s, id))
    else RemovalDue(s, id) || (id !in s.live && !Handling(s, id))
  }

  /** The checker of `id` is not right, unless a notice that puts it right is still to come. */
  predicate OffTrack(s: System, id: MonitorId) {
    && !Handling(s, id)
    && if id in s.db then SyncDue(s, id) || (id in s.live && s.live[id] != s.db[id])
       else RemovalDue(s, id) || id in s.live
  }

  predicate Tracked(s: System, id: MonitorId) {
    id in s.dropped || if id in s.overtaken then OffTrack(s, id) else OnTrack(s, id)
  }

  /** Notices are about ids given out, and a removal is announced only of a monitor that is gone. */
  ghost predicate NoticesOk(s: System) {
    && (forall id :: id in s.db ==> id in s.used)
    && (forall n :: Due(s, n) ==> n.id in s.used && (n.kind.Deleted? ==> n.id !in s.db))
  }

  ghost predicate IdsOk(s: System) {
    && (forall id :: id in s.live ==> id in s.used)
    && (s.handler.Fetched? ==> s.handler.id in s.used)
    && (forall p :: p in s.rebuild ==> p.0 in s.used)
    && (!s.listed ==> s.rebuild == [])
  }

  ghost predicate Consistent(s: System) {
    NoticesOk(s) && IdsOk(s) && forall id :: Tracked(s, id)
  }

  /** The id a step is about. `List` is about all of them. */
  predicate About(s: System, a: Action, id: MonitorId) {
    match a
    case Publish(n, _) => n.id == id
    case Receive(n, _) => n.id == id
    case Spawn => Handling(s, id)
    case List(_) => true
    case RebuildSpawn => s.rebuild != [] && s.rebuild[0].0 == id
    case _ => a.id == id
  }

  predicate SameTables(s: System, s': System, id: MonitorId) {
    && (id in s.db <==> id in s'.db) && (id in s.db ==> s'.db[id] == s.db[id])
    && (id in s.live <==> id in s'.live) && (id in s.live ==> s'.live[id] == s.live[id])
    && Handling(s, id) == Handling(s', id) && (Handling(s, id) ==> s'.handler.row == s.handler.row)
    && (id in s.dropped <==> id in s'.dropped) && (id in s.overtaken <==> id in s'.overtaken)
  }

  /** Nothing that bears on the id differs. */
  predicate SameFor(s: System, s': System, id: MonitorId) {
    && SameTables(s, s', id) && Pending(s, id) == Pending(s', id)
    && SyncDue(s, id) == SyncDue(s', id) && RemovalDue(s, id) == RemovalDue(s', id)
  }

  lemma CommitFramesTables(s: System, a: Action, id: MonitorId)
    requires Enabled(s, a) && Commits(a) && a.id != id
    ensures SameTables(s, Apply(s, a), id)
  {}

  lemma NoticeFramesTables(s: System, a: Action, id: MonitorId)
    requires Enabled(s, a) && (a.Publish? || a.Receive?) && a.notice.id != id
    ensures SameTables(s, Apply(s, a), id)
  {}

  lemma StepFramesTables(s: System, a: Action, id: MonitorId)
    requires Enabled(s, a) && !About(s, a, id)
    ensures SameTables(s, Apply(s, a), id)
  {
    if Commits(a) {
      CommitFramesTables(s, a, id);
    } else if a.Publish? || a.Receive? {
      NoticeFramesTables(s, a, id);
    }
  }

  lemma CommitFramesNotice(s: System, a: Action, n: Notice)
    requires Enabled(s, a) && Commits(a) && a.id != n.id
    ensures Due(s, n) == Due(Apply(s, a), n)
  {
    assert n in s.committed + multiset{NoticeOf(a)} <==> n in s.committed;
  }

  lemma PublishFramesNotice(s: System, a: Action, n: Notice)
    requires Enabled(s, a) && a.Publish? && a.notice != n
    ensures Due(s, n) == Due(Apply(s, a), n)
  {
    assert n in s.committed - multiset{a.notice} <==> n in s.committed;
    assert n in s.channel + multiset{a.notice} <==> n in s.channel;
  }

  lemma ReceiveFramesNotice(s: System, a: Action, n: Notice)
    requires Enabled(s, a) && a.Receive? && a.notice != n
    ensures Due(s, n) == Due(Apply(s, a), n)
  {
    assert n in s.channel - multiset{a.notice} <==> n in s.channel;
  }

  lemma StepFramesNotice(s: System, a: Action, n: Notice)
    requires Enabled(s, a) && !About(s, a, n.id)
    ensures Due(s, n) == Due(Apply(s, a), n)
  {
    if Commits(a) {
      CommitFramesNotice(s, a, n);
    } else if a.Publish? {
      PublishFramesNotice(s, a, n);
    } else if a.Receive? {
      ReceiveFramesNotice(s, a, n);
    }
  }

  lemma StepFramesPending(s: System, a: Action, id: MonitorId)
    requires Enabled(s, a) && !About(s, a, id)
    ensures Pending(s, id) == Pending(Apply(s, a), id)
  {
    if a.RebuildSpawn? {
      assert forall p :: p in s.rebuild ==> p == s.rebuild[0] || p in s.rebuild[1..];
    }
  }

  lemma StepFrames(s: System, a: Action, id: MonitorId)
    requires Enabled(s, a) && !About(s, a, id)
    ensures SameFor(s, Apply(s, a), id)
  {
    StepFramesTables(s, a, id);
    StepFramesNotice(s, a, Notice(Created, id));
    StepFramesNotice(s, a, Notice(Updated, id));
    StepFramesNotice(s, a, Notice(Deleted, id));
    StepFramesPending(s, a, id);
  }

  lemma SameForSameTrack(s: System, s': System, id: MonitorId)
    requires SameFor(s, s', id)
    ensures Tracked(s, id) == Tracked(s', id) && InStep(s, id) == InStep(s', id)
  {}

  lemma CommitKeepsTracked(s: System, a: Action, id: MonitorId)
    requires NoticesOk(s) && IdsOk(s) && Enabled(s, a) && Commits(a) && a.id == id && Tracked(s, id)
    ensures Tracked(Apply(s, a), id)
  {
    var s' := Apply(s, a);
    assert Due(s', NoticeOf(a));
    assert forall m :: Due(s, m) ==> Due(s', m);
  }

  lemma PublishKeepsTracked(s: System, n: Notice, delivered: bool)
    requires Enabled(s, Publish(n, delivered)) && Tracked(s, n.id)
    ensures Tracked(Apply(s, Publish(n, delivered)), n.id)
  {
    var s' := Apply(s, Publish(n, delivered));
    assert forall m :: Due(s, m) && m != n ==> Due(s', m);
    assert delivered ==> Due(s', n);
  }

  lemma ReceiveKeepsTracked(s: System, n: Notice, lookupOk: bool)
    requires NoticesOk(s) && Enabled(s, Receive(n, lookupOk)) && Tracked(s, n.id)
    ensures Tracked(Apply(s, Receive(n, lookupOk)), n.id)
  {
    var s' := Apply(s, Receive(n, lookupOk));
    assert Due(s, n);
    assert RemovalDue(s, n.id) && !n.kind.Deleted? ==> RemovalDue(s', n.id);
  }

  lemma StartupKeepsTracked(s: System, a: Action, id: MonitorId)
    requires IdsOk(s) && Enabled(s, a) && (a.Spawn? || a.List? || a.RebuildSpawn?) && Tracked(s, id)
    ensures Tracked(Apply(s, a), id)
  {
    var s' := Apply(s, a);
    if a.List? && id in s.db {
      var i :| 0 <= i < |a.rows| && a.rows[i].0 == id;
      assert a.rows[i] in s'.rebuild;
    }
    if a.RebuildSpawn? {
      assert forall p :: p in s.rebuild ==> p == s.rebuild[0] || p in s'.rebuild;
    }
  }

  lemma StepKeepsTracked(s: System, a: Action, id: MonitorId)
    requires NoticesOk(s) && IdsOk(s) && Enabled(s, a) && Tracked(s, id)
    ensures Tracked(Apply(s, a), id)
  {
    if !About(s, a, id) {
      StepFrames(s, a, id);
      SameForSameTrack(s, Apply(s, a), id);
    } else {
      match a {
        case Publish(n, delivered) => PublishKeepsTracked(s, n, delivered);
        case Receive(n, lookupOk) => ReceiveKeepsTracked(s, n, lookupOk);
        case Spawn => StartupKeepsTracked(s, a, id);
        case List(_) => StartupKeepsTracked(s, a, id);
        case RebuildSpawn => StartupKeepsTracked(s, a, id);
        case _ => CommitKeepsTracked(s, a, id);
      }
    }
  }

  lemma StepAddsOneNotice(s: System, a: Action, n: Notice)
    requires Enabled(s, a) && Due(Apply(s, a), n)
    ensures Due(s, n) || (Commits(a) && n == NoticeOf(a))
  {}

  lemma StepKeepsNotices(s: System, a: Action)
    requires NoticesOk(s) && Enabled(s, a)
    ensures NoticesOk(Apply(s, a))
  {
    var s' := Apply(s, a);
    forall n | Due(s', n) ensures n.id in s'.used && (n.kind.Deleted? ==> n.id !in s'.db) {
      StepAddsOneNotice(s, a, n);
    }
  }

  lemma StepKeepsIds(s: System, a: Action)
    requires NoticesOk(s) && IdsOk(s) && Enabled(s, a)
    ensures IdsOk(Apply(s, a))
  {
    if a.Receive? { assert Due(s, a.notice); }
  }

  lemma StepKeepsConsistent(s: System, a: Action)
    requires Consistent(s) && Enabled(s, a)
    ensures Consistent(Apply(s, a))
  {
    StepKeepsNotices(s, a);
    StepKeepsIds(s, a);
    forall id ensures Tracked(Apply(s, a), id) { StepKeepsTracked(s, a, id); }
  }

  lemma {:induction false} BehaviourConsistent(b: seq<System>, i: nat)
    requires Behaviour(b) && i < |b|
    ensures Consistent(b[i])
  {
    if i > 0 {
      BehaviourConsistent(b, i - 1);
      assert NextAt(b, i - 1);
      var a :| Enabled(b[i - 1], a) && b[i] == Apply(b[i - 1], a);
      StepKeepsConsistent(b[i - 1], a);
    }
  }

  lemma ReachableConsistent(s: System)
    requires Reachable(s)
    ensures Consistent(s)
  {
    var b :| Behaviour(b) && b[|b| - 1] == s;
    BehaviourConsistent(b, |b| - 1);
  }

  // ------------------------------------------------------------------ convergence

  /** The rebuild has finished, every committed change has been published and every notice processed. */
  predicate Quiescent(s: System) {
    s.listed && s.rebuild == [] && s.committed == multiset{} && s.channel == multiset{} && s.handler.Idle?
  }

  /** Convergence, monitor by monitor, and exactly: once everything is processed, an id without an
      unhealed lost notice is out of step if and only if the startup rebuild spawned an outdated row
      for it after the last notice about it had been dealt with, and no notice has come since. */
  lemma ConvergesPerMonitor(s: System, id: MonitorId)
    requires Reachable(s) && Quiescent(s) && id !in s.dropped
    ensures InStep(s, id) <==> id !in s.overtaken
  {
    ReachableConsistent(s);
    assert Tracked(s, id);
  }

  /** Convergence: when no notice was lost and no lookup failed, the checkers are the table if and
      only if the rebuild was not overtaken, whatever the order of everything else. */
  lemma Converges(s: System)
    requires Reachable(s) && Quiescent(s) && s.dropped == {}
    ensures s.live == s.db <==> s.overtaken == {}
  {
    forall id ensures InStep(s, id) <==> id !in s.overtaken { ConvergesPerMonitor(s, id); }
    if s.overtaken == {} {
      assert forall id :: id in s.live <==> id in s.db by {
        forall id ensures id in s.live <==> id in s.db { assert InStep(s, id); }
      }
      assert s.live.Keys == s.db.Keys;
      assert forall id :: id in s.db ==> InStep(s, id);
    } else {
      var id :| id in s.overtaken;
      assert !InStep(s, id);
    }
  }

  /** No listed row changes before it is spawned. */
  ghost predicate CalmRebuild(b: seq<System>) {
    forall k, p :: 0 <= k < |b| && p in b[k].rebuild ==> p.0 in b[k].db && b[k].db[p.0] == p.1
  }

  lemma CalmStepOvertakesNobody(s: System, a: Action)
    requires Enabled(s, a) && s.overtaken == {} && forall p :: p in s.rebuild ==> p.0 in s.db && s.db[p.0] == p.1
    ensures Apply(s, a).overtaken == {}
  {
    if a.RebuildSpawn? { assert s.rebuild[0] in s.rebuild; }
  }

  lemma {:induction false} CalmRebuildIsNotOvertaken(b: seq<System>, i: nat)
    requires Behaviour(b) && CalmRebuild(b) && i < |b|
    ensures b[i].overtaken == {}
  {
    if i > 0 {
      CalmRebuildIsNotOvertaken(b, i - 1);
      var s := b[i - 1];
      assert NextAt(b, i - 1);
      var a :| Enabled(s, a) && b[i] == Apply(s, a);
      CalmStepOvertakesNobody(s, a);
    }
  }

  /** So after a rebuild that nobody disturbed, the checkers converge to the table in every run. */
  lemma ConvergesAfterCalmRebuild(b: seq<System>)
    requires Behaviour(b) && CalmRebuild(b) && Quiescent(b[|b| - 1]) && b[|b| - 1].dropped == {}
    ensures b[|b| - 1].live == b[|b| - 1].db
  {
    CalmRebuildIsNotOvertaken(b, |b| - 1);
    Converges(b[|b| - 1]);
  }

  /** A removal that overtakes the rebuild: the deleted monitor keeps a checker in a settled system
      that lost no notice. */
  lemma RebuildRace(id: MonitorId, row: Row) returns (b: seq<System>)
    ensures Behaviour(b)
    ensures var s := b[|b| - 1]; Quiescent(s) && s.dropped == {} && s.overtaken == {id} && id !in s.db && id in s.live
  {
    var n := Notice(Deleted, id);
    b := ListedThenDeleted(id, row);
    var s2 := b[|b| - 1];
    BehaviourExtends(b, Publish(n, true));
    var s3 := Apply(s2, Publish(n, true));
    assert s3 == s2.(committed := multiset{}, channel := multiset{n});
    BehaviourExtends(b + [s3], Receive(n, true));
    var s4 := Apply(s3, Receive(n, true));
    assert s4 == s2.(committed := multiset{});
    BehaviourExtends(b + [s3] + [s4], RebuildSpawn);
    b := b + [s3] + [s4] + [Apply(s4, RebuildSpawn)];
  }

  lemma ListedThenDeleted(id: MonitorId, row: Row) returns (b: seq<System>)
    ensures Behaviour(b)
    ensures b[|b| - 1] == System(map[], {id}, multiset{Notice(Deleted, id)}, multiset{}, Idle, map[], true, [(id, row)], {}, {})
  {
    var s0, rows := Booting(map[id := row]), [(id, row)];
    assert rows[0].0 == id;
    b := [s0];
    BehaviourExtends(b, List(rows));
    var s1 := Apply(s0, List(rows));
    BehaviourExtends(b + [s1], Delete(id));
    b := b + [s1] + [Apply(s1, Delete(id))];
  }

  // ------------------------------------------------------------------ lost notices

  /** One change to a settled system, processed to the end: committed, published if the publish
      works, then received, looked up and spawned. */
  function ChangeAndSettle(s: System, a: Action, delivered: bool): System
    requires Quiescent(s) && Commits(a) && Enabled(s, a)
  {
    var n := NoticeOf(a);
    var s1 := Apply(s, a);
    var s2 := Apply(s1, Publish(n, delivered));
    if !delivered then s2
    else
      var s3 := Apply(s2, Receive(n, true));
      if s3.handler.Fetched? then Apply(s3, Spawn) else s3
  }

  lemma LostSettles(s: System, a: Action)
    requires Quiescent(s) && Commits(a) && Enabled(s, a)
    ensures var s' := ChangeAndSettle(s, a, false);
            Quiescent(s') && s'.live == s.live && s'.db == Apply(s, a).db
  {
    assert Apply(s, a).committed == multiset{NoticeOf(a)};
  }

  lemma DeliveredSettles(s: System, a: Action)
    requires Consistent(s) && Quiescent(s) && s.live == s.db && Commits(a) && Enabled(s, a)
    ensures var s' := ChangeAndSettle(s, a, true);
            Quiescent(s') && s'.live == s'.db == Apply(s, a).db
  {
    var s1 := Apply(s, a);
    assert s1.committed == multiset{NoticeOf(a)};
    assert Apply(s1, Publish(NoticeOf(a), true)) == s1.(committed := multiset{}, channel := multiset{NoticeOf(a)});
  }

  /** The publish error the API swallows costs convergence exactly when the change had an effect:
      always for a create, for a delete unless the row was gone, for an update unless the row was gone
      or stayed the same. */
  lemma SwallowedPublishExactlyWhen(s: System, a: Action, delivered: bool)
    requires Reachable(s) && Quiescent(s) && s.live == s.db && Commits(a) && Enabled(s, a)
    ensures var s' := ChangeAndSettle(s, a, delivered);
            Quiescent(s') && s'.db == Apply(s, a).db && (s'.live == s'.db <==> delivered || s'.db == s.db)
  {
    ReachableConsistent(s);
    if delivered { DeliveredSettles(s, a); } else { LostSettles(s, a); }
  }

  /** Nothing is on its way that concerns the id. */
  ghost predicate Silent(s: System, id: MonitorId) {
    s.listed && s.rebuild == [] && !Handling(s, id) && forall kind :: !Due(s, Notice(kind, id))
  }

  predicate Concerns(a: Action, id: MonitorId) { Commits(a) && a.id == id }

  ghost predicate Leads(s: System, path: seq<Action>, s': System)
    decreases |path|
  {
    if path == [] then s == s' else Enabled(s, path[0]) && Leads(Apply(s, path[0]), path[1..], s')
  }

  lemma SilentStep(s: System, a: Action, id: MonitorId)
    requires Enabled(s, a) && Silent(s, id) && !Concerns(a, id)
    ensures Silent(Apply(s, a), id) && InStep(Apply(s, a), id) == InStep(s, id)
  {
    assert !About(s, a, id) by {
      if a.Publish? || a.Receive? { assert Due(s, Notice(a.notice.kind, a.notice.id)); }
    }
    StepFrames(s, a, id);
    SameForSameTrack(s, Apply(s, a), id);
    forall kind ensures !Due(Apply(s, a), Notice(kind, id)) { StepFramesNotice(s, a, Notice(kind, id)); }
  }

  lemma {:induction false} SilenceLasts(s: System, path: seq<Action>, s': System, id: MonitorId)
    requires Leads(s, path, s') && Silent(s, id) && forall a :: a in path ==> !Concerns(a, id)
    ensures Silent(s', id) && InStep(s', id) == InStep(s, id)
    decreases |path|
  {
    if path != [] {
      assert path[0] in path;
      SilentStep(s, path[0], id);
      SilenceLasts(Apply(s, path[0]), path[1..], s', id);
    }
  }

  /** And it is not made good by itself: as long as nobody changes that monitor again, its checker
      stays out of step in every continuation. */
  lemma LostNoticeLasts(s: System, a: Action, path: seq<Action>, s': System)
    requires Reachable(s) && Quiescent(s) && s.live == s.db && Commits(a) && Enabled(s, a)
    requires Apply(s, a).db != s.db && Leads(ChangeAndSettle(s, a, false), path, s')
    requires forall c :: c in path ==> !Concerns(c, a.id)
    ensures !InStep(s', a.id)
  {
    ReachableConsistent(s);
    var lost := ChangeAndSettle(s, a, false);
    LostSettles(s, a);
    SilenceLasts(lost, path, s', a.id);
  }

  // ------------------------------------------------------------------ what the table holds

  datatype Option<T> = None | Some(value: T)

  /** The last creation or deletion of the id on the path. */
  function LastTurn(path: seq<Action>, id: MonitorId): Option<Action> {
    if path == [] then None
    else if LastTurn(path[1..], id).Some? then LastTurn(path[1..], id)
    else if (path[0].Create? || path[0].Delete?) && path[0].id == id then Some(path[0])
    else None
  }

  /** The last row written for the id on the path. */
  function LastRow(path: seq<Action>, id: MonitorId): Option<Row> {
    if path == [] then None
    else if LastRow(path[1..], id).Some? then LastRow(path[1..], id)
    else if (path[0].Create? || path[0].Update?) && path[0].id == id then Some(path[0].row)
    else None
  }

  /** The table is what the API wrote last: a monitor is there if and only if its last turn on the path was
      its creation, or it had none and was there before; its row is the last one written for it. */
  lemma {:induction false} TableIsLastWrites(s: System, path: seq<Action>, s': System, id: MonitorId)
    requires Leads(s, path, s') && (id in s.db ==> id in s.used)
    ensures id in s'.db <==> if LastTurn(path, id).Some? then LastTurn(path, id).value.Create? else id in s.db
    ensures id in s'.db && LastRow(path, id).Some? ==> s'.db[id] == LastRow(path, id).value
    ensures id in s'.db && LastRow(path, id).None? ==> id in s.db && s'.db[id] == s.db[id]
    decreases |path|
  {
    if path != [] {
      TableIsLastWrites(Apply(s, path[0]), path[1..], s', id);
      OneWrite(s, path[0], id);
      GoneIsGone(Apply(s, path[0]), path[1..], s', id);
    }
  }

  lemma OneWrite(s: System, a: Action, id: MonitorId)
    requires Enabled(s, a) && (id in s.db ==> id in s.used)
    ensures var s' := Apply(s, a);
            && (id in s'.db ==> id in s'.used) && s.used <= s'.used
            && (id in s'.db <==> if (a.Create? || a.Delete?) && a.id == id then a.Create? else id in s.db)
            && (id in s'.db ==>
                  s'.db[id] == if (a.Create? || a.Update?) && a.id == id then a.row else s.db[id])
  {}

  /** An id that has been used and is not in the table never comes back. */
  lemma {:induction false} GoneIsGone(s: System, path: seq<Action>, s': System, id: MonitorId)
    requires Leads(s, path, s')
    ensures id in s.used && id !in s.db ==> id !in s'.db
    decreases |path|
  {
    if path != [] {
      if id in s.used && id !in s.db { OneWrite(s, path[0], id); }
      GoneIsGone(Apply(s, path[0]), path[1..], s', id);
    }
  }

  /** A monitor's checker is replaced only by a spawn for it and removed only by its removal notice: no
      commit, no publish, and no lookup, whatever it finds, touches it. */
  lemma CheckersChangeOnlyBy(s: System, a: Action, id: MonitorId)
    requires Enabled(s, a)
    ensures var s' := Apply(s, a);
            match a
            case Spawn =>
              if id == s.handler.id then id in s'.live && s'.live[id] == s.handler.row else SameChecker(s, s', id)
            case RebuildSpawn =>
              if id == s.rebuild[0].0 then id in s'.live && s'.live[id] == s.rebuild[0].1 else SameChecker(s, s', id)
            case Receive(n, _) => if n == Notice(Deleted, id) then id !in s'.live else SameChecker(s, s', id)
            case _ => SameChecker(s, s', id)
  {}

  predicate SameChecker(s: System, s': System, id: MonitorId) {
    (id in s'.live <==> id in s.live) && (id in s.live ==> s'.live[id] == s.live[id])
  }

  // ------------------------------------------------------------------ without losses

  /** A publish that does not arrive, or a lookup that fails. */
  predicate Loses(a: Action) {
    (a.Publish? && !a.delivered) || (a.Receive? && !a.lookupOk && !a.notice.kind.Deleted?)
  }

  lemma {:induction false} NothingDropped(s: System, path: seq<Action>, s': System)
    requires Leads(s, path, s') && s.dropped == {} && forall a :: a in path ==> !Loses(a)
    ensures s'.dropped == {}
    decreases |path|
  {
    if path != [] {
      assert path[0] in path;
      NothingDropped(Apply(s, path[0]), path[1..], s');
    }
  }

  lemma {:induction false} LeadsToReachable(s: System, path: seq<Action>, s': System)
    requires Reachable(s) && Leads(s, path, s')
    ensures Reachable(s')
    decreases |path|
  {
    if path != [] {
      var b :| Behaviour(b) && b[|b| - 1] == s;
      BehaviourExtends(b, path[0]);
      var b', s1 := b + [Apply(s, path[0])], Apply(s, path[0]);
      assert b'[|b'| - 1] == s1;
      LeadsToReachable(s1, path[1..], s');
    }
  }

  /** From a worker's start, when every publish arrives and every lookup works: once everything has been
      processed, the checkers are what the API last wrote if and only if the rebuild was not overtaken. */
  lemma ConvergesWithoutLoss(s: System, path: seq<Action>, s': System)
    requires Start(s) && Leads(s, path, s') && Quiescent(s') && forall a :: a in path ==> !Loses(a)
    ensures s'.live == s'.db <==> s'.overtaken == {}
  {
    assert Behaviour([s]) && [s][|[s]| - 1] == s;
    LeadsToReachable(s, path, s');
    NothingDropped(s, path, s');
    Converges(s');
  }
}
