/** The ingest pipeline as a step system: the Redis stream `queue:ingest` with its consumer
    group, the dead-letter stream, the Postgres tables `issues` and `events`, and the two
    loops of `IngestConsumer` that share them (internal/worker/ingest_consumer.go).

    A step is one call to Redis or Postgres, so the steps of the two loops, the producer,
    the clock and crashes interleave freely. Every call may fail, and a failed call may or may
    not have taken effect at the server. */
module IngestProtocol {
  import Fingerprint

  // ------------------------------------------------------------------ entities

  /** Stream entries are never deleted, so an entry's position serves as its id. */
  type EntryId = nat

  datatype Event = Event(project: string, level: string, message: string, stackTrace: string, occurredAt: int)

  /** What `processMessage` finds in the `data` field of an entry. */
  datatype Payload = MissingData | InvalidJson | Json(event: Event)

  /** issues has a UNIQUE(project_id, fingerprint) constraint. */
  datatype IssueKey = IssueKey(project: string, fingerprint: string)

  datatype Issue = Issue(title: string, level: string, firstSeen: int, lastSeen: int, count: nat)

  /** A row of `events`; `entry` records which stream entry it came from. */
  datatype EventRow = EventRow(entry: EntryId, key: IssueKey, event: Event)

  datatype Reason = DataFieldMissing | UnmarshalError | RetriesExceeded

  datatype DeadLetter = DeadLetter(originalId: EntryId, data: Payload, reason: Reason)

  /** An entry of the group's pending list. */
  datatype Pending = Pending(count: nat, at: int)

  /** The reply a caller gets. A failed call may still have been applied by the server. */
  datatype Reply = Ok | Failed(applied: bool) {
    predicate Applied() { Ok? || applied }
  }

  datatype Config = Config(maxDeliveryCount: int, reclaimMinIdle: nat)

  const READ_COUNT: nat := 10
  const SCAN_COUNT: nat := 50

  /** Bookkeeping that the protocol's properties speak about; no step reads it. */
  datatype Ledger = Ledger(
    runTries: multiset<EntryId>,       // processMessage calls made by Run
    reclaimTries: multiset<EntryId>,   // processMessage calls made by the reclaim loop
    claims: multiset<EntryId>,         // claims applied
    dlqFailed: set<EntryId>,           // a DLQ append for the entry failed
    upserted: multiset<IssueKey>,      // upserts applied
    trail: seq<Event>,                 // their events, in order
    orphaned: multiset<IssueKey>,      // upserts whose event row was never inserted
    announced: multiset<IssueKey>,     // issue.created broadcasts that reached Redis
    unannounced: multiset<IssueKey>,   // creating upserts whose broadcast never will
    alerted: multiset<IssueKey>,       // new-issue rules evaluated
    unalerted: multiset<IssueKey>)     // creating upserts whose rules never will be

  datatype World = World(
    stream: seq<Payload>,
    delivered: nat,                    // the group's last-delivered position
    pel: map<EntryId, Pending>,
    dlq: seq<DeadLetter>,
    issues: map<IssueKey, Issue>,
    events: seq<EventRow>,
    now: int,
    ledger: Ledger)

  /** Where a loop stands inside `processMessage` or `moveToDLQ`: the call it makes next. */
  datatype Proc =
    | Idle
    | DlqAppend(id: EntryId, reason: Reason)
    | DlqAck(id: EntryId)
    | Upsert(id: EntryId)
    | Insert(id: EntryId, key: IssueKey, created: bool)
    | Publish(id: EntryId, key: IssueKey, created: bool)
    | Alert(id: EntryId, key: IssueKey)
    | Ack(id: EntryId)

  datatype Scanned = Scanned(id: EntryId, retryCount: nat)

  datatype State = State(
    w: World,
    batch: seq<EntryId>,   // Run: messages read but not yet started
    run: Proc,
    scan: seq<Scanned>,    // reclaimOnce: pending entries not yet looked at
    reclaim: Proc)

  const INIT: State := State(
    World([], 0, map[], [], map[], [], 0,
          Ledger(multiset{}, multiset{}, multiset{}, {}, multiset{}, [],
                 multiset{}, multiset{}, multiset{}, multiset{}, multiset{})),
    [], Idle, [], Idle)

  // ------------------------------------------------------------------ processMessage

  function Key(e: Event): IssueKey {
    IssueKey(e.project, Fingerprint.PreHash(e.message, e.stackTrace))
  }

  /** The first lines of `processMessage`: a structurally bad entry goes straight to the DLQ. */
  function Begin(w: World, id: EntryId): Proc
    requires id < |w.stream|
  {
    match w.stream[id]
    case MissingData => DlqAppend(id, DataFieldMissing)
    case InvalidJson => DlqAppend(id, UnmarshalError)
    case Json(_) => Upsert(id)
  }

  /** INSERT ... ON CONFLICT (project_id, fingerprint) DO UPDATE. `last_seen` is overwritten. */
  function UpsertRow(issues: map<IssueKey, Issue>, e: Event): map<IssueKey, Issue> {
    var key := Key(e);
    if key in issues
    then issues[key := issues[key].(count := issues[key].count + 1, lastSeen := e.occurredAt)]
    else issues[key := Issue(e.message, e.level, e.occurredAt, e.occurredAt, 1)]
  }

  function AppendDeadLetter(w: World, id: EntryId, reason: Reason, r: Reply): World
    requires id < |w.stream|
  {
    if r.Applied()
    then w.(dlq := w.dlq + [DeadLetter(id, w.stream[id], reason)])
    else w.(ledger := w.ledger.(dlqFailed := w.ledger.dlqFailed + {id}))
  }

  function AckEntry(w: World, id: EntryId, r: Reply): World {
    if r.Applied() then w.(pel := w.pel - {id}) else w
  }

  /** One more of the key, if `b`. */
  function Plus(m: multiset<IssueKey>, key: IssueKey, b: bool): multiset<IssueKey> {
    if b then m[key := m[key] + 1] else m
  }

  /** The attempt ends after its upsert: no broadcast and no alert will follow from it. */
  function Abandon(l: Ledger, key: IssueKey, created: bool, orphan: bool): Ledger {
    l.(orphaned := Plus(l.orphaned, key, orphan),
       unannounced := Plus(l.unannounced, key, created), unalerted := Plus(l.unalerted, key, created))
  }

  function Broadcasted(l: Ledger, key: IssueKey, created: bool, sent: bool): Ledger {
    if sent then l.(announced := Plus(l.announced, key, created))
    else l.(unannounced := Plus(l.unannounced, key, created))
  }

  function Evaluated(l: Ledger, key: IssueKey, done: bool): Ledger {
    if done then l.(alerted := Plus(l.alerted, key, true)) else l.(unalerted := Plus(l.unalerted, key, true))
  }

  predicate Runnable(w: World, p: Proc) {
    && !p.Idle? && p.id < |w.stream|
    && (p.Upsert? || p.Insert? ==> w.stream[p.id].Json?)
  }

  predicate HasEvent(w: World, id: EntryId) { id < |w.stream| && w.stream[id].Json? }

  function UpsertStep(w: World, id: EntryId, r: Reply): (World, Proc)
    requires HasEvent(w, id)
  {
    var e := w.stream[id].event;
    var key, created := Key(e), Key(e) !in w.issues;
    if !r.Applied() then (w, Idle)
    else
      var l := w.ledger.(upserted := Plus(w.ledger.upserted, key, true), trail := w.ledger.trail + [e]);
      if r.Ok? then (w.(issues := UpsertRow(w.issues, e), ledger := l), Insert(id, key, created))
      else (w.(issues := UpsertRow(w.issues, e), ledger := Abandon(l, key, created, true)), Idle)
  }

  function InsertStep(w: World, id: EntryId, key: IssueKey, created: bool, r: Reply): (World, Proc)
    requires HasEvent(w, id)
  {
    var events' := if r.Applied() then w.events + [EventRow(id, key, w.stream[id].event)] else w.events;
    if r.Ok? then (w.(events := events'), Publish(id, key, created))
    else (w.(events := events', ledger := Abandon(w.ledger, key, created, !r.Applied())), Idle)
  }

  /** A failed publish is only logged. */
  function PublishStep(w: World, id: EntryId, key: IssueKey, created: bool, r: Reply): (World, Proc) {
    (w.(ledger := Broadcasted(w.ledger, key, created, r.Applied())), if created then Alert(id, key) else Ack(id))
  }

  /** And so is a failure to list the rules, after which none is evaluated. */
  function AlertStep(w: World, id: EntryId, key: IssueKey, r: Reply): (World, Proc) {
    (w.(ledger := Evaluated(w.ledger, key, r.Applied())), Ack(id))
  }

  /** One call of `processMessage` / `moveToDLQ` / `Execute`, and where it leaves the loop. */
  function ProcStep(w: World, p: Proc, r: Reply): (World, Proc)
    requires Runnable(w, p)
  {
    match p
    case DlqAppend(id, reason) => (AppendDeadLetter(w, id, reason, r), DlqAck(id))
    case DlqAck(id) => (AckEntry(w, id, r), Idle)
    case Upsert(id) => UpsertStep(w, id, r)
    case Insert(id, key, created) => InsertStep(w, id, key, created, r)
    case Publish(id, key, created) => PublishStep(w, id, key, created, r)
    case Alert(id, key) => AlertStep(w, id, key, r)
    case Ack(id) => (AckEntry(w, id, r), Idle)
  }

  // ------------------------------------------------------------------ the two loops

  function Fresh(from: nat, n: nat): (ids: seq<EntryId>)
    ensures |ids| == n
    ensures forall i :: 0 <= i < n ==> ids[i] == from + i
    ensures forall id :: id in ids <==> from <= id < from + n
  {
    if n == 0 then [] else Fresh(from, n - 1) + [from + n - 1]
  }

  function Available(w: World): nat
    requires w.delivered <= |w.stream|
  {
    if |w.stream| - w.delivered < READ_COUNT then |w.stream| - w.delivered else READ_COUNT
  }

  /** XREADGROUP ... > : new entries enter the pending list with delivery count 1. */
  function Deliver(w: World): World
    requires w.delivered <= |w.stream|
  {
    var n := Available(w);
    w.(delivered := w.delivered + n,
       pel := w.pel + map id | id in Fresh(w.delivered, n) :: Pending(1, w.now))
  }

  predicate IdleLongEnough(cfg: Config, w: World, id: EntryId)
    requires id in w.pel
  {
    w.now - w.pel[id].at >= cfg.reclaimMinIdle
  }

  /** XPENDING - + count with IDLE: the first `limit` entries idle long enough, in id order. */
  function PendingScan(cfg: Config, w: World, from: nat, limit: nat): (scan: seq<Scanned>)
    ensures |scan| <= limit
    ensures forall p :: p in scan ==> from <= p.id && p.id in w.pel && p.retryCount == w.pel[p.id].count
    ensures forall p :: p in scan ==> IdleLongEnough(cfg, w, p.id)
    ensures forall i, j :: 0 <= i < j < |scan| ==> scan[i].id < scan[j].id
    decreases w.delivered - from
  {
    if from >= w.delivered || limit == 0 then []
    else if from in w.pel && IdleLongEnough(cfg, w, from)
    then [Scanned(from, w.pel[from].count)] + PendingScan(cfg, w, from + 1, limit - 1)
    else PendingScan(cfg, w, from + 1, limit)
  }

  datatype Action =
    | Push(payload: Payload)
    | Tick(elapsed: nat)
    | Read(reply: Reply)
    | RunNext
    | RunStep(reply: Reply)
    | Scan(reply: Reply)
    | Claim(reply: Reply)
    | ReclaimStep(reply: Reply)
    | Crash

  predicate Enabled(s: State, a: Action) {
    match a
    case Push(_) => true
    case Tick(_) => true
    case Read(_) => s.run.Idle? && s.batch == [] && s.w.delivered < |s.w.stream|
    case RunNext => s.run.Idle? && s.batch != [] && s.batch[0] < |s.w.stream|
    case RunStep(_) => Runnable(s.w, s.run)
    case Scan(_) => s.reclaim.Idle? && s.scan == []
    case Claim(_) => s.reclaim.Idle? && s.scan != [] && s.scan[0].id < |s.w.stream|
    case ReclaimStep(_) => Runnable(s.w, s.reclaim)
    case Crash => true
  }

  /** XCLAIM with MinIdle applies only to a pending entry that is idle long enough. */
  predicate Claimable(cfg: Config, w: World, id: EntryId) {
    id in w.pel && IdleLongEnough(cfg, w, id)
  }

  /** One turn of the loop in `reclaimOnce`. `retryCount` is the count before the claim. */
  function ClaimStep(cfg: Config, s: State, r: Reply): State
    requires Enabled(s, Claim(r))
  {
    var p, rest := s.scan[0], s.scan[1..];
    if !(r.Applied() && Claimable(cfg, s.w, p.id)) then s.(scan := rest)
    else
      var w := s.w.(pel := s.w.pel[p.id := Pending(s.w.pel[p.id].count + 1, s.w.now)],
                    ledger := s.w.ledger.(claims := s.w.ledger.claims + multiset{p.id}));
      if !r.Ok? then s.(w := w, scan := rest)
      else if p.retryCount > cfg.maxDeliveryCount
      then s.(w := w, scan := rest, reclaim := DlqAppend(p.id, RetriesExceeded))
      else
        var tried := w.(ledger := w.ledger.(reclaimTries := w.ledger.reclaimTries + multiset{p.id}));
        s.(w := tried, scan := rest, reclaim := Begin(w, p.id))
  }

  /** An upsert in flight is one that has no event row yet and is not written off. */
  function InFlight(p: Proc): multiset<IssueKey> {
    if p.Insert? then multiset{p.key} else multiset{}
  }

  /** What a new issue is entitled to: the broadcast, and the evaluation of the new-issue rules. */
  datatype Signal = Broadcast | Evaluation

  /** The attempt created the issue, and the signal is still to come. */
  predicate Owes(p: Proc, signal: Signal) {
    ((p.Insert? || p.Publish?) && p.created) || (p.Alert? && signal.Evaluation?)
  }

  function Owed(p: Proc, signal: Signal, key: IssueKey): nat {
    if Owes(p, signal) && p.key == key then 1 else 0
  }

  /** A loop dies, and what it owed is missed. */
  function Forfeit(l: Ledger, p: Proc): Ledger {
    if p.Insert? then Abandon(l, p.key, p.created, true)
    else if p.Publish? then Abandon(l, p.key, p.created, false)
    else if p.Alert? then Evaluated(l, p.key, false)
    else l
  }

  /** The worker process dies: both loops lose their local state, nothing else does. */
  function CrashStep(s: State): State {
    State(s.w.(ledger := Forfeit(Forfeit(s.w.ledger, s.run), s.reclaim)), [], Idle, [], Idle)
  }

  function Apply(cfg: Config, s: State, a: Action): State
    requires Enabled(s, a)
  {
    match a
    case Push(payload) => s.(w := s.w.(stream := s.w.stream + [payload]))
    case Tick(elapsed) => s.(w := s.w.(now := s.w.now + elapsed))
    case Read(r) =>
      if !r.Applied() then s
      else s.(w := Deliver(s.w), batch := if r.Ok? then Fresh(s.w.delivered, Available(s.w)) else [])
    case RunNext =>
      var id, l := s.batch[0], s.w.ledger;
      s.(w := s.w.(ledger := l.(runTries := l.runTries + multiset{id})),
         batch := s.batch[1..], run := Begin(s.w, id))
    case RunStep(r) =>
      var (w, p) := ProcStep(s.w, s.run, r);
      s.(w := w, run := p)
    case Scan(r) => if r.Ok? then s.(scan := PendingScan(cfg, s.w, 0, SCAN_COUNT)) else s
    case Claim(r) => ClaimStep(cfg, s, r)
    case ReclaimStep(r) =>
      var (w, p) := ProcStep(s.w, s.reclaim, r);
      s.(w := w, reclaim := p)
    case Crash => CrashStep(s)
  }

  ghost predicate Next(cfg: Config, s: State, s': State) {
    exists a :: Enabled(s, a) && s' == Apply(cfg, s, a)
  }

  ghost predicate NextAt(cfg: Config, b: seq<State>, i: int)
    requires 0 <= i < |b| - 1
  {
    Next(cfg, b[i], b[i + 1])
  }

  /** A finite run of the whole system from the empty state. */
  ghost predicate Behaviour(cfg: Config, b: seq<State>) {
    b != [] && b[0] == INIT && forall i :: 0 <= i < |b| - 1 ==> NextAt(cfg, b, i)
  }

  /** `s` can be reached in some run. */
  ghost predicate Reachable(cfg: Config, s: State) {
    exists b :: Behaviour(cfg, b) && b[|b| - 1] == s
  }

  lemma BehaviourExtends(cfg: Config, b: seq<State>, a: Action)
    requires Behaviour(cfg, b) && Enabled(b[|b| - 1], a)
    ensures Behaviour(cfg, b + [Apply(cfg, b[|b| - 1], a)])
  {
    var b' := b + [Apply(cfg, b[|b| - 1], a)];
    forall i | 0 <= i < |b'| - 1 ensures NextAt(cfg, b', i) {
      if i < |b| - 1 { assert NextAt(cfg, b, i); } else { assert Next(cfg, b'[i], b'[i + 1]); }
    }
  }
}
