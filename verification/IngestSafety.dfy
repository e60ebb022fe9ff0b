/** What every reachable state of the ingest pipeline satisfies: no entry is lost silently,
    no entry is tried too often, and the issue counts add up. */
module IngestSafety {
  import opened IngestProtocol

  // ------------------------------------------------------------------ runs

  /** All three invariants together are kept by every step. */
  ghost predicate Invariant(cfg: Config, s: State) {
    NothingLost(s) && TriesBounded(cfg, s) && Accounted(s)
  }

  lemma StepKeepsInvariant(cfg: Config, s: State, a: Action)
    requires Invariant(cfg, s) && Enabled(s, a)
    ensures Invariant(cfg, Apply(cfg, s, a))
  {
    StepKeepsNothingLost(cfg, s, a);
    StepKeepsTries(cfg, s, a);
    StepKeepsAccounts(cfg, s, a);
  }

  lemma InitInvariant(cfg: Config)
    ensures Invariant(cfg, INIT)
  {}

  lemma NextKeepsInvariant(cfg: Config, s: State, s': State)
    requires Invariant(cfg, s) && Next(cfg, s, s')
    ensures Invariant(cfg, s')
  {
    var a :| Enabled(s, a) && s' == Apply(cfg, s, a);
    StepKeepsInvariant(cfg, s, a);
  }

  lemma {:induction false} BehaviourKeepsInvariant(cfg: Config, b: seq<State>, i: nat)
    requires Behaviour(cfg, b) && i < |b|
    ensures Invariant(cfg, b[i])
  {
    if i == 0 {
      InitInvariant(cfg);
    } else {
      BehaviourKeepsInvariant(cfg, b, i - 1);
      assert NextAt(cfg, b, i - 1);
      NextKeepsInvariant(cfg, b[i - 1], b[i]);
    }
  }

  lemma ReachableInvariant(cfg: Config, s: State)
    requires Reachable(cfg, s)
    ensures Invariant(cfg, s)
  {
    var b :| Behaviour(cfg, b) && b[|b| - 1] == s;
    var last := |b| - 1;
    BehaviourKeepsInvariant(cfg, b, last);
    assert b[last] == s;
  }

  // ------------------------------------------------------------------ no silent loss

  /** The entry's own event is a row of `events`. */
  ghost predicate Stored(w: World, id: EntryId) {
    exists i :: 0 <= i < |w.events| && w.events[i].entry == id
  }

  /** The DLQ holds the entry under its original id. */
  ghost predicate DeadLettered(w: World, id: EntryId) {
    exists i :: 0 <= i < |w.dlq| && w.dlq[i].originalId == id
  }

  ghost predicate Settled(w: World, id: EntryId) {
    Stored(w, id) || DeadLettered(w, id) || id in w.ledger.dlqFailed
  }

  /** Rows and dead letters hold what was pushed. */
  ghost predicate Genuine(w: World) {
    && (forall i :: 0 <= i < |w.events| ==>
          var r := w.events[i];
          r.entry < |w.stream| && w.stream[r.entry] == Json(r.event) && r.key == Key(r.event))
    && (forall i :: 0 <= i < |w.dlq| ==>
          w.dlq[i].originalId < |w.stream| && w.dlq[i].data == w.stream[w.dlq[i].originalId])
  }

  ghost predicate WorldOk(w: World) {
    && w.delivered <= |w.stream|
    && (forall id :: id in w.pel ==> id < w.delivered)
    && (forall id :: 0 <= id < w.delivered && id !in w.pel ==> Settled(w, id))
    && Genuine(w)
  }

  /** A loop about to ack has settled its entry. */
  ghost predicate Justified(w: World, p: Proc) {
    && (!p.Idle? ==> Runnable(w, p) && p.id < w.delivered)
    && (p.DlqAck? ==> DeadLettered(w, p.id) || p.id in w.ledger.dlqFailed)
    && (p.Publish? || p.Alert? || p.Ack? ==> Stored(w, p.id))
    && (p.Insert? ==> p.key == Key(w.stream[p.id].event))
  }

  ghost predicate NothingLost(s: State) {
    && WorldOk(s.w) && Justified(s.w, s.run) && Justified(s.w, s.reclaim)
    && (forall id :: id in s.batch ==> id < s.w.delivered)
    && (forall p :: p in s.scan ==> p.id < s.w.delivered)
  }

  /** The stream, the tables and the DLQ only grow; a settled entry stays settled. */
  ghost predicate Grows(w: World, w': World) {
    && w.stream <= w'.stream && w.delivered <= w'.delivered
    && w.events <= w'.events && w.dlq <= w'.dlq
    && w.ledger.dlqFailed <= w'.ledger.dlqFailed
  }

  lemma SettledStays(w: World, w': World, id: EntryId)
    requires Grows(w, w')
    ensures Stored(w, id) ==> Stored(w', id)
    ensures DeadLettered(w, id) ==> DeadLettered(w', id)
    ensures Settled(w, id) ==> Settled(w', id)
  {}

  lemma JustifiedStays(w: World, w': World, p: Proc)
    requires Grows(w, w') && Justified(w, p)
    ensures Justified(w', p)
  {}

  lemma WorldOkStays(w: World, w': World)
    requires Grows(w, w') && WorldOk(w) && w'.delivered <= |w'.stream| && Genuine(w')
    requires forall id :: id in w'.pel ==> id < w'.delivered
    requires forall id :: 0 <= id < w'.delivered && id !in w'.pel && (id in w.pel || id >= w.delivered) ==>
                            Settled(w', id)
    ensures WorldOk(w')
  {}

  /** Nothing that no-loss speaks about differs. */
  predicate SameRecords(w: World, w': World) {
    && w'.stream == w.stream && w'.delivered == w.delivered && w'.pel.Keys == w.pel.Keys
    && w'.events == w.events && w'.dlq == w.dlq && w'.ledger.dlqFailed == w.ledger.dlqFailed
  }

  lemma SameRecordsSameWorld(w: World, w': World)
    requires SameRecords(w, w') && WorldOk(w)
    ensures WorldOk(w') && Grows(w, w')
  {
    assert forall id :: Settled(w', id) == Settled(w, id);
  }

  lemma SameRecordsJustified(w: World, w': World, p: Proc)
    requires SameRecords(w, w') && Justified(w, p)
    ensures Justified(w', p)
  {}

  lemma AppendKeepsWorld(w: World, id: EntryId, reason: Reason, r: Reply)
    requires WorldOk(w) && id < w.delivered
    ensures var w' := AppendDeadLetter(w, id, reason, r);
            WorldOk(w') && Grows(w, w') && Justified(w', DlqAck(id))
  {
    var w' := AppendDeadLetter(w, id, reason, r);
    if r.Applied() { assert w'.dlq[|w.dlq|].originalId == id; }
    WorldOkStays(w, w');
  }

  lemma AckKeepsWorld(w: World, id: EntryId, r: Reply)
    requires WorldOk(w) && Settled(w, id)
    ensures WorldOk(AckEntry(w, id, r)) && Grows(w, AckEntry(w, id, r))
  {
    SettledStays(w, AckEntry(w, id, r), id);
    WorldOkStays(w, AckEntry(w, id, r));
  }

  lemma InsertKeepsWorld(w: World, id: EntryId, key: IssueKey, created: bool, r: Reply)
    requires WorldOk(w) && Justified(w, Insert(id, key, created))
    ensures var (w', p') := InsertStep(w, id, key, created, r);
            WorldOk(w') && Justified(w', p') && Grows(w, w')
  {
    var w' := InsertStep(w, id, key, created, r).0;
    if r.Applied() { assert w'.events[|w.events|].entry == id; }
    WorldOkStays(w, w');
  }

  lemma UpsertKeepsWorld(w: World, id: EntryId, r: Reply)
    requires WorldOk(w) && Justified(w, Upsert(id))
    ensures var (w', p') := UpsertStep(w, id, r);
            WorldOk(w') && Justified(w', p') && SameRecords(w, w') && Grows(w, w')
  {
    SameRecordsSameWorld(w, UpsertStep(w, id, r).0);
  }

  lemma PublishKeepsWorld(w: World, id: EntryId, key: IssueKey, created: bool, r: Reply)
    requires WorldOk(w) && Justified(w, Publish(id, key, created))
    ensures var (w', p') := PublishStep(w, id, key, created, r);
            WorldOk(w') && Justified(w', p') && SameRecords(w, w') && Grows(w, w')
  {
    SameRecordsSameWorld(w, PublishStep(w, id, key, created, r).0);
  }

  lemma AlertKeepsWorld(w: World, id: EntryId, key: IssueKey, r: Reply)
    requires WorldOk(w) && Justified(w, Alert(id, key))
    ensures var (w', p') := AlertStep(w, id, key, r);
            WorldOk(w') && Justified(w', p') && SameRecords(w, w') && Grows(w, w')
  {
    SameRecordsSameWorld(w, AlertStep(w, id, key, r).0);
  }

  lemma ProcStepKeepsNothingLost(w: World, p: Proc, r: Reply)
    requires WorldOk(w) && Justified(w, p) && !p.Idle?
    ensures var (w', p') := ProcStep(w, p, r);
            WorldOk(w') && Justified(w', p') && Grows(w, w')
  {
    match p {
      case DlqAppend(id, reason) => AppendKeepsWorld(w, id, reason, r);
      case DlqAck(id) => AckKeepsWorld(w, id, r);
      case Ack(id) => AckKeepsWorld(w, id, r);
      case Insert(id, key, created) => InsertKeepsWorld(w, id, key, created, r);
      case Upsert(id) => UpsertKeepsWorld(w, id, r);
      case Publish(id, key, created) => PublishKeepsWorld(w, id, key, created, r);
      case Alert(id, key) => AlertKeepsWorld(w, id, key, r);
    }
  }

  lemma BeginIsJustified(w: World, id: EntryId)
    requires WorldOk(w) && id < w.delivered
    ensures Justified(w, Begin(w, id))
  {}

  lemma ClaimKeepsRecords(cfg: Config, s: State, r: Reply)
    requires Enabled(s, Claim(r))
    ensures var s' := ClaimStep(cfg, s, r);
            && SameRecords(s.w, s'.w) && s'.run == s.run && s'.batch == s.batch && s'.scan == s.scan[1..]
            && (s'.reclaim.Idle? || s'.reclaim == DlqAppend(s.scan[0].id, RetriesExceeded)
                || s'.reclaim == Begin(s'.w, s.scan[0].id))
  {}

  lemma ClaimKeepsNothingLost(cfg: Config, s: State, r: Reply)
    requires NothingLost(s) && Enabled(s, Claim(r))
    ensures NothingLost(ClaimStep(cfg, s, r)) && Grows(s.w, ClaimStep(cfg, s, r).w)
  {
    var s' := ClaimStep(cfg, s, r);
    ClaimKeepsRecords(cfg, s, r);
    assert s.scan[0] in s.scan;
    assert forall p :: p in s'.scan ==> p in s.scan;
    SameRecordsSameWorld(s.w, s'.w);
    SameRecordsJustified(s.w, s'.w, s.run);
    BeginIsJustified(s'.w, s.scan[0].id);
  }

  lemma RunNextKeepsNothingLost(cfg: Config, s: State)
    requires NothingLost(s) && Enabled(s, RunNext)
    ensures NothingLost(Apply(cfg, s, RunNext)) && Grows(s.w, Apply(cfg, s, RunNext).w)
  {
    var s' := Apply(cfg, s, RunNext);
    assert s.batch[0] in s.batch;
    assert forall id :: id in s'.batch ==> id in s.batch;
    SameRecordsSameWorld(s.w, s'.w);
    SameRecordsJustified(s.w, s'.w, s.reclaim);
    BeginIsJustified(s'.w, s.batch[0]);
  }

  lemma CrashKeepsNothingLost(s: State)
    requires NothingLost(s)
    ensures NothingLost(CrashStep(s)) && Grows(s.w, CrashStep(s).w)
  {
    CrashKeepsRecords(s);
    SameRecordsSameWorld(s.w, CrashStep(s).w);
  }

  lemma StepKeepsNothingLost(cfg: Config, s: State, a: Action)
    requires NothingLost(s) && Enabled(s, a)
    ensures NothingLost(Apply(cfg, s, a)) && Grows(s.w, Apply(cfg, s, a).w)
  {
    match a {
      case RunStep(r) => ProcStepsKeepNothingLost(cfg, s, a);
      case ReclaimStep(r) => ProcStepsKeepNothingLost(cfg, s, a);
      case Claim(r) => ClaimKeepsNothingLost(cfg, s, r);
      case RunNext => RunNextKeepsNothingLost(cfg, s);
      case Crash => CrashKeepsNothingLost(s);
      case Push(_) => OtherStepsKeepNothingLost(cfg, s, a);
      case Tick(_) => OtherStepsKeepNothingLost(cfg, s, a);
      case Read(_) => OtherStepsKeepNothingLost(cfg, s, a);
      case Scan(_) => OtherStepsKeepNothingLost(cfg, s, a);
    }
  }

  lemma ProcStepsKeepNothingLost(cfg: Config, s: State, a: Action)
    requires NothingLost(s) && Enabled(s, a) && (a.RunStep? || a.ReclaimStep?)
    ensures NothingLost(Apply(cfg, s, a)) && Grows(s.w, Apply(cfg, s, a).w)
  {
    var mine, other := if a.RunStep? then s.run else s.reclaim, if a.RunStep? then s.reclaim else s.run;
    ProcStepKeepsNothingLost(s.w, mine, a.reply);
    JustifiedStays(s.w, ProcStep(s.w, mine, a.reply).0, other);
  }

  lemma OtherStepsKeepNothingLost(cfg: Config, s: State, a: Action)
    requires NothingLost(s) && Enabled(s, a)
    requires a.Push? || a.Tick? || a.Read? || a.Scan?
    ensures NothingLost(Apply(cfg, s, a)) && Grows(s.w, Apply(cfg, s, a).w)
  {
    var s' := Apply(cfg, s, a);
    WorldOkStays(s.w, s'.w);
    JustifiedStays(s.w, s'.w, s.run);
    JustifiedStays(s.w, s'.w, s.reclaim);
    if a.Scan? && a.reply.Ok? {
      assert forall p :: p in s'.scan ==> p.id in s.w.pel;
    }
  }

  /** No silent loss: in every reachable state each pushed entry is not yet delivered, pending,
      stored with its own event, dead-lettered with its own payload, or one whose DLQ append failed. */
  lemma NoSilentLoss(cfg: Config, s: State, id: EntryId)
    requires Reachable(cfg, s) && id < |s.w.stream|
    ensures id >= s.w.delivered || id in s.w.pel || Stored(s.w, id) || DeadLettered(s.w, id)
         || id in s.w.ledger.dlqFailed
    ensures forall i :: 0 <= i < |s.w.events| && s.w.events[i].entry == id ==>
              s.w.stream[id] == Json(s.w.events[i].event)
    ensures forall i :: 0 <= i < |s.w.dlq| && s.w.dlq[i].originalId == id ==> s.w.dlq[i].data == s.w.stream[id]
  {
    ReachableInvariant(cfg, s);
  }

  /** An entry leaves the pending list only when it is stored, dead-lettered or given up by
      `moveToDLQ`. */
  lemma AckOnlySettled(cfg: Config, s: State, a: Action, id: EntryId)
    requires Reachable(cfg, s) && Enabled(s, a)
    requires id in s.w.pel && id !in Apply(cfg, s, a).w.pel
    ensures Settled(Apply(cfg, s, a).w, id)
  {
    ReachableInvariant(cfg, s);
    StepKeepsNothingLost(cfg, s, a);
  }

  /** Gone without trace: delivered, no longer pending, neither stored nor dead-lettered. */
  ghost predicate Lost(w: World, id: EntryId) {
    id < w.delivered && id !in w.pel && !Stored(w, id) && !DeadLettered(w, id)
  }

  /** The call that settles nothing and still takes the entry off the pending list. */
  ghost predicate LosesEntry(w: World, p: Proc, r: Reply, id: EntryId) {
    p == DlqAck(id) && r.Applied() && id in w.pel && !Stored(w, id) && !DeadLettered(w, id)
  }

  lemma AckLossExactlyWhen(w: World, p: Proc, r: Reply, id: EntryId)
    requires WorldOk(w) && Justified(w, p) && (p.DlqAck? || p.Ack?) && !Lost(w, id)
    ensures Lost(ProcStep(w, p, r).0, id) <==> LosesEntry(w, p, r, id)
  {}

  lemma ProcStepLossExactlyWhen(w: World, p: Proc, r: Reply, id: EntryId)
    requires WorldOk(w) && Justified(w, p) && !p.Idle? && !Lost(w, id)
    ensures Lost(ProcStep(w, p, r).0, id) <==> LosesEntry(w, p, r, id)
  {
    if p.DlqAck? || p.Ack? {
      AckLossExactlyWhen(w, p, r, id);
    } else {
      var w' := ProcStep(w, p, r).0;
      OnlyAcksShrink(w, p, r);
      SettledStays(w, w', id);
    }
  }

  lemma OnlyAcksShrink(w: World, p: Proc, r: Reply)
    requires Runnable(w, p) && !p.DlqAck? && !p.Ack?
    ensures var w' := ProcStep(w, p, r).0; Grows(w, w') && w'.pel == w.pel && w'.delivered == w.delivered
  {
    if p.Upsert? { UpsertKeepsPending(w, p.id, r); }
  }

  lemma UpsertKeepsPending(w: World, id: EntryId, r: Reply)
    requires HasEvent(w, id)
    ensures var w' := UpsertStep(w, id, r).0; Grows(w, w') && w'.pel == w.pel && w'.delivered == w.delivered
  {}

  lemma OtherStepsLoseNothing(cfg: Config, s: State, a: Action, id: EntryId)
    requires NothingLost(s) && Enabled(s, a) && !a.RunStep? && !a.ReclaimStep? && !Lost(s.w, id)
    ensures !Lost(Apply(cfg, s, a).w, id)
  {}

  /** When exactly a step loses an entry: it is the ack of `moveToDLQ`, the append before it was not
      applied, and no other attempt has stored or dead-lettered the entry. */
  lemma LossExactlyWhen(cfg: Config, s: State, a: Action, id: EntryId)
    requires Reachable(cfg, s) && Enabled(s, a) && !Lost(s.w, id)
    ensures Lost(Apply(cfg, s, a).w, id) <==>
            || (a.RunStep? && LosesEntry(s.w, s.run, a.reply, id))
            || (a.ReclaimStep? && LosesEntry(s.w, s.reclaim, a.reply, id))
  {
    ReachableInvariant(cfg, s);
    match a {
      case RunStep(r) => ProcStepLossExactlyWhen(s.w, s.run, r, id);
      case ReclaimStep(r) => ProcStepLossExactlyWhen(s.w, s.reclaim, r, id);
      case _ => OtherStepsLoseNothing(cfg, s, a, id);
    }
  }

  // ------------------------------------------------------------------ retry bound

  function Capped(count: int, max: int): nat {
    if count < max then (if count < 0 then 0 else count) else (if max < 0 then 0 else max)
  }

  ghost predicate RunTriesOk(s: State) {
    && (forall i, j :: 0 <= i < j < |s.batch| ==> s.batch[i] != s.batch[j])
    && (forall id :: id in s.batch ==> s.w.ledger.runTries[id] == 0 && id < s.w.delivered)
    && (forall id :: s.w.ledger.runTries[id] <= 1)
    && (forall id: EntryId :: id >= s.w.delivered ==> s.w.ledger.runTries[id] == 0)
  }

  /** Only the reclaim loop claims, so a scanned count is still the entry's count. */
  ghost predicate ScanFresh(s: State) {
    && (forall i, j :: 0 <= i < j < |s.scan| ==> s.scan[i].id != s.scan[j].id)
    && (forall p :: p in s.scan && p.id in s.w.pel ==> s.w.pel[p.id].count == p.retryCount)
    && (forall p :: p in s.scan ==> p.id < s.w.delivered)
  }

  /** The entry's count leaves room for the tries it has had. */
  predicate Fits(pel: map<EntryId, Pending>, tries: multiset<EntryId>, delivered: nat, max: int, id: EntryId) {
    && (id in pel ==> pel[id].count >= 1 && id < delivered && tries[id] <= Capped(pel[id].count - 1, max))
    && tries[id] <= Capped(max, max)
    && (id >= delivered ==> tries[id] == 0)
  }

  ghost predicate TriesFit(pel: map<EntryId, Pending>, tries: multiset<EntryId>, delivered: nat, max: int) {
    forall id :: Fits(pel, tries, delivered, max, id)
  }

  ghost predicate ReclaimTriesOk(cfg: Config, s: State) {
    TriesFit(s.w.pel, s.w.ledger.reclaimTries, s.w.delivered, cfg.maxDeliveryCount)
  }

  /** A claim makes room, and a try whose count was at most the maximum uses it. */
  lemma ClaimMakesRoom(pel: map<EntryId, Pending>, tries: multiset<EntryId>, delivered: nat, max: int,
                       claimed: EntryId, now: int, retry: bool)
    requires TriesFit(pel, tries, delivered, max) && claimed in pel && (retry ==> pel[claimed].count <= max)
    ensures TriesFit(pel[claimed := Pending(pel[claimed].count + 1, now)],
                     if retry then tries + multiset{claimed} else tries, delivered, max)
  {
    var pel' := pel[claimed := Pending(pel[claimed].count + 1, now)];
    var tries' := if retry then tries + multiset{claimed} else tries;
    forall id ensures Fits(pel', tries', delivered, max, id) {
      assert Fits(pel, tries, delivered, max, id);
      assert tries'[id] == tries[id] + if retry && id == claimed then 1 else 0;
    }
  }

  ghost predicate TriesBounded(cfg: Config, s: State) {
    s.w.delivered <= |s.w.stream| && RunTriesOk(s) && ScanFresh(s) && ReclaimTriesOk(cfg, s)
  }

  lemma ProcStepKeepsTries(w: World, p: Proc, r: Reply)
    requires Runnable(w, p)
    ensures var w' := ProcStep(w, p, r).0;
            && w'.ledger.runTries == w.ledger.runTries && w'.ledger.reclaimTries == w.ledger.reclaimTries
            && w'.delivered == w.delivered && w'.stream == w.stream
            && (forall id :: id in w'.pel ==> id in w.pel && w'.pel[id] == w.pel[id])
  {}

  lemma ClaimKeepsScanFresh(cfg: Config, s: State, r: Reply)
    requires ScanFresh(s) && Enabled(s, Claim(r))
    ensures ScanFresh(ClaimStep(cfg, s, r))
  {
    var s', p := ClaimStep(cfg, s, r), s.scan[0];
    ClaimChanges(cfg, s, r);
    ClaimTakesFirst(cfg, s, r);
    forall q | q in s'.scan ensures q in s.scan && q.id != p.id {
      var i :| 0 < i < |s.scan| && s.scan[i] == q;
    }
  }

  lemma ClaimTakesFirst(cfg: Config, s: State, r: Reply)
    requires Enabled(s, Claim(r))
    ensures ClaimStep(cfg, s, r).scan == s.scan[1..]
  {}

  predicate Retries(cfg: Config, p: Scanned, r: Reply) { r.Ok? && p.retryCount <= cfg.maxDeliveryCount }

  lemma ClaimChanges(cfg: Config, s: State, r: Reply)
    requires Enabled(s, Claim(r))
    ensures var w, w', p := s.w, ClaimStep(cfg, s, r).w, s.scan[0];
            var tries, tries' := w.ledger.reclaimTries, w'.ledger.reclaimTries;
            && w'.delivered == w.delivered
            && if !(r.Applied() && Claimable(cfg, w, p.id)) then w' == w
               else && w'.pel == w.pel[p.id := Pending(w.pel[p.id].count + 1, w.now)]
                    && tries' == if Retries(cfg, p, r) then tries + multiset{p.id} else tries
  {}

  /** A retry needs a scanned count of at most the maximum, and the claim moves the count past it. */
  lemma ClaimKeepsReclaimTries(cfg: Config, s: State, r: Reply)
    requires ScanFresh(s) && ReclaimTriesOk(cfg, s) && Enabled(s, Claim(r))
    ensures ReclaimTriesOk(cfg, ClaimStep(cfg, s, r))
  {
    var p := s.scan[0];
    assert p in s.scan;
    ClaimChanges(cfg, s, r);
    if r.Applied() && Claimable(cfg, s.w, p.id) {
      ClaimMakesRoom(s.w.pel, s.w.ledger.reclaimTries, s.w.delivered, cfg.maxDeliveryCount, p.id, s.w.now,
                     Retries(cfg, p, r));
    }
  }

  lemma ClaimKeepsTries(cfg: Config, s: State, r: Reply)
    requires TriesBounded(cfg, s) && Enabled(s, Claim(r))
    ensures TriesBounded(cfg, ClaimStep(cfg, s, r))
  {
    ClaimKeepsScanFresh(cfg, s, r);
    ClaimKeepsReclaimTries(cfg, s, r);
    var s' := ClaimStep(cfg, s, r);
    assert s'.batch == s.batch && s'.w.ledger.runTries == s.w.ledger.runTries;
  }

  lemma DeliveryFits(w: World, max: int)
    requires w.delivered <= |w.stream| && TriesFit(w.pel, w.ledger.reclaimTries, w.delivered, max)
    ensures TriesFit(Deliver(w).pel, w.ledger.reclaimTries, Deliver(w).delivered, max)
  {
    forall id ensures Fits(Deliver(w).pel, w.ledger.reclaimTries, Deliver(w).delivered, max, id) {
      assert Fits(w.pel, w.ledger.reclaimTries, w.delivered, max, id);
    }
  }

  lemma ReadKeepsTries(cfg: Config, s: State, r: Reply)
    requires TriesBounded(cfg, s) && Enabled(s, Read(r))
    ensures TriesBounded(cfg, Apply(cfg, s, Read(r)))
  {
    var s' := Apply(cfg, s, Read(r));
    if r.Applied() {
      DeliveryFits(s.w, cfg.maxDeliveryCount);
      forall p | p in s'.scan && p.id in s'.w.pel ensures s'.w.pel[p.id].count == p.retryCount {
        assert p.id !in Fresh(s.w.delivered, Available(s.w));
      }
    }
  }

  lemma FewerPendingFit(pel: map<EntryId, Pending>, pel': map<EntryId, Pending>, tries: multiset<EntryId>,
                        delivered: nat, max: int)
    requires TriesFit(pel, tries, delivered, max) && forall id :: id in pel' ==> id in pel && pel'[id] == pel[id]
    ensures TriesFit(pel', tries, delivered, max)
  {
    forall id ensures Fits(pel', tries, delivered, max, id) { assert Fits(pel, tries, delivered, max, id); }
  }

  lemma ProcStepFits(w: World, p: Proc, r: Reply, max: int)
    requires Runnable(w, p) && TriesFit(w.pel, w.ledger.reclaimTries, w.delivered, max)
    ensures var w' := ProcStep(w, p, r).0; TriesFit(w'.pel, w'.ledger.reclaimTries, w'.delivered, max)
  {
    ProcStepKeepsTries(w, p, r);
    FewerPendingFit(w.pel, ProcStep(w, p, r).0.pel, w.ledger.reclaimTries, w.delivered, max);
  }

  lemma RunNextKeepsTries(cfg: Config, s: State)
    requires TriesBounded(cfg, s) && Enabled(s, RunNext)
    ensures TriesBounded(cfg, Apply(cfg, s, RunNext))
  {}

  lemma ScanKeepsTries(cfg: Config, s: State, r: Reply)
    requires TriesBounded(cfg, s) && Enabled(s, Scan(r))
    ensures TriesBounded(cfg, Apply(cfg, s, Scan(r)))
  {
    forall p | p in Apply(cfg, s, Scan(r)).scan ensures p.id < s.w.delivered {
      assert Fits(s.w.pel, s.w.ledger.reclaimTries, s.w.delivered, cfg.maxDeliveryCount, p.id);
    }
  }

  lemma StepKeepsTries(cfg: Config, s: State, a: Action)
    requires TriesBounded(cfg, s) && Enabled(s, a)
    ensures TriesBounded(cfg, Apply(cfg, s, a))
  {
    match a {
      case Read(r) => ReadKeepsTries(cfg, s, r);
      case RunNext => RunNextKeepsTries(cfg, s);
      case RunStep(r) => ProcStepsKeepTries(cfg, s, a);
      case ReclaimStep(r) => ProcStepsKeepTries(cfg, s, a);
      case Claim(r) => ClaimKeepsTries(cfg, s, r);
      case Scan(r) => ScanKeepsTries(cfg, s, r);
      case _ => OtherStepsKeepTries(cfg, s, a);
    }
  }

  lemma ProcStepsKeepTries(cfg: Config, s: State, a: Action)
    requires TriesBounded(cfg, s) && Enabled(s, a) && (a.RunStep? || a.ReclaimStep?)
    ensures TriesBounded(cfg, Apply(cfg, s, a))
  {
    var mine := if a.RunStep? then s.run else s.reclaim;
    ProcStepKeepsTries(s.w, mine, a.reply);
    ProcStepFits(s.w, mine, a.reply, cfg.maxDeliveryCount);
  }

  lemma ForfeitKeepsTries(l: Ledger, p: Proc)
    ensures Forfeit(l, p).runTries == l.runTries && Forfeit(l, p).reclaimTries == l.reclaimTries
  {}

  lemma CrashKeepsTries(s: State)
    ensures var w, w' := s.w, CrashStep(s).w;
            && w'.ledger.runTries == w.ledger.runTries && w'.ledger.reclaimTries == w.ledger.reclaimTries
            && w'.delivered == w.delivered && w'.pel == w.pel && w'.stream == w.stream
  {
    ForfeitKeepsTries(s.w.ledger, s.run);
    ForfeitKeepsTries(Forfeit(s.w.ledger, s.run), s.reclaim);
  }

  lemma OtherStepsKeepTries(cfg: Config, s: State, a: Action)
    requires TriesBounded(cfg, s) && Enabled(s, a) && (a.Push? || a.Tick? || a.Crash?)
    ensures TriesBounded(cfg, Apply(cfg, s, a))
  {
    if a.Crash? {
      CrashKeepsTries(s);
      assert CrashStep(s).batch == [] && CrashStep(s).scan == [];
    }
  }

  /** Retry bound: in every interleaving, with failing acks and crashes, `processMessage` runs at
      most once per entry from `Run` and at most `maxDeliveryCount` times from the reclaim loop. */
  lemma RetryBound(cfg: Config, s: State, id: EntryId)
    requires Reachable(cfg, s)
    ensures var max := if cfg.maxDeliveryCount < 0 then 0 else cfg.maxDeliveryCount;
            && s.w.ledger.runTries[id] <= 1
            && s.w.ledger.reclaimTries[id] <= max
            && s.w.ledger.runTries[id] + s.w.ledger.reclaimTries[id] <= max + 1
  {
    ReachableInvariant(cfg, s);
    assert Fits(s.w.pel, s.w.ledger.reclaimTries, s.w.delivered, cfg.maxDeliveryCount, id);
  }

  // ------------------------------------------------------------------ issue accounting

  function Keys(events: seq<EventRow>): multiset<IssueKey> {
    if events == [] then multiset{} else Keys(events[..|events| - 1]) + multiset{events[|events| - 1].key}
  }

  /** 1 when the key has a row, 0 when it does not. */
  function RowCount(w: World, key: IssueKey): nat { if key in w.issues then 1 else 0 }

  function Sent(l: Ledger, signal: Signal): multiset<IssueKey> {
    if signal.Broadcast? then l.announced else l.alerted
  }

  function Missed(l: Ledger, signal: Signal): multiset<IssueKey> {
    if signal.Broadcast? then l.unannounced else l.unalerted
  }

  ghost predicate Accounted(s: State) { Accounts(s.w, s.run, s.reclaim) }

  ghost predicate CountsAreUpserts(w: World) {
    && (forall key :: key in w.issues ==> w.issues[key].count == w.ledger.upserted[key])
    && (forall key :: key !in w.issues ==> w.ledger.upserted[key] == 0)
  }

  /** Upserts on one side; event rows, written-off attempts and attempts in flight on the other. */
  ghost predicate UpsertsBalance(w: World, p: Proc, q: Proc, key: IssueKey) {
    w.ledger.upserted[key]
    == Keys(w.events)[key] + w.ledger.orphaned[key] + InFlight(p)[key] + InFlight(q)[key]
  }

  /** Every issue row has one creating upsert, and its signal was sent, was missed, or is still owed. */
  ghost predicate SignalsBalance(w: World, p: Proc, q: Proc, key: IssueKey, signal: Signal) {
    Sent(w.ledger, signal)[key] + Missed(w.ledger, signal)[key] + Owed(p, signal, key) + Owed(q, signal, key)
    == RowCount(w, key)
  }

  ghost predicate Accounts(w: World, p: Proc, q: Proc) {
    && CountsAreUpserts(w) && KeyedRight(w, p) && KeyedRight(w, q)
    && (forall key :: UpsertsBalance(w, p, q, key))
    && (forall key, signal :: SignalsBalance(w, p, q, key, signal))
  }

  /** The two loops are interchangeable in the accounts. */
  lemma AccountsSymmetric(w: World, p: Proc, q: Proc)
    requires Accounts(w, p, q)
    ensures Accounts(w, q, p)
  {
    forall key ensures UpsertsBalance(w, q, p, key) { assert UpsertsBalance(w, p, q, key); }
    forall key, signal ensures SignalsBalance(w, q, p, key, signal) { assert SignalsBalance(w, p, q, key, signal); }
  }

  predicate KeyedRight(w: World, p: Proc) {
    p.Insert? ==> p.id < |w.stream| && w.stream[p.id].Json? && p.key == Key(w.stream[p.id].event)
  }

  lemma KeysOfAppend(events: seq<EventRow>, row: EventRow)
    ensures Keys(events + [row]) == Keys(events) + multiset{row.key}
  {}

  lemma UpsertKeepsCounts(w: World, id: EntryId, r: Reply)
    requires HasEvent(w, id) && CountsAreUpserts(w)
    ensures var (w', p') := UpsertStep(w, id, r); CountsAreUpserts(w') && KeyedRight(w', p')
  {}

  lemma UpsertKeepsUpserts(w: World, id: EntryId, q: Proc, r: Reply, key: IssueKey)
    requires HasEvent(w, id) && UpsertsBalance(w, Upsert(id), q, key)
    ensures var (w', p') := UpsertStep(w, id, r); UpsertsBalance(w', p', q, key)
  {}

  lemma UpsertKeepsSignals(w: World, id: EntryId, q: Proc, r: Reply, key: IssueKey, signal: Signal)
    requires HasEvent(w, id) && SignalsBalance(w, Upsert(id), q, key, signal)
    ensures var (w', p') := UpsertStep(w, id, r); SignalsBalance(w', p', q, key, signal)
  {}

  lemma UpsertKeepsAccounts(w: World, id: EntryId, q: Proc, r: Reply)
    requires HasEvent(w, id) && Accounts(w, Upsert(id), q)
    ensures var (w', p') := UpsertStep(w, id, r); Accounts(w', p', q)
  {
    var (w', p') := UpsertStep(w, id, r);
    UpsertKeepsCounts(w, id, r);
    forall key ensures UpsertsBalance(w', p', q, key) {
      assert UpsertsBalance(w, Upsert(id), q, key);
      UpsertKeepsUpserts(w, id, q, r, key);
    }
    forall key, signal ensures SignalsBalance(w', p', q, key, signal) {
      assert SignalsBalance(w, Upsert(id), q, key, signal);
      UpsertKeepsSignals(w, id, q, r, key, signal);
    }
  }

  lemma InsertKeepsUpserts(w: World, id: EntryId, k: IssueKey, created: bool, q: Proc, r: Reply, key: IssueKey)
    requires HasEvent(w, id) && UpsertsBalance(w, Insert(id, k, created), q, key)
    ensures var (w', p') := InsertStep(w, id, k, created, r); UpsertsBalance(w', p', q, key)
  {
    if r.Applied() { KeysOfAppend(w.events, EventRow(id, k, w.stream[id].event)); }
  }

  lemma InsertKeepsSignals(w: World, id: EntryId, k: IssueKey, created: bool, q: Proc, r: Reply, key: IssueKey, signal: Signal)
    requires HasEvent(w, id) && SignalsBalance(w, Insert(id, k, created), q, key, signal)
    ensures var (w', p') := InsertStep(w, id, k, created, r); SignalsBalance(w', p', q, key, signal)
  {}

  lemma InsertKeepsAccounts(w: World, id: EntryId, k: IssueKey, created: bool, q: Proc, r: Reply)
    requires HasEvent(w, id) && Accounts(w, Insert(id, k, created), q)
    ensures var (w', p') := InsertStep(w, id, k, created, r); Accounts(w', p', q)
  {
    var (w', p') := InsertStep(w, id, k, created, r);
    forall key ensures UpsertsBalance(w', p', q, key) {
      assert UpsertsBalance(w, Insert(id, k, created), q, key);
      InsertKeepsUpserts(w, id, k, created, q, r, key);
    }
    forall key, signal ensures SignalsBalance(w', p', q, key, signal) {
      assert SignalsBalance(w, Insert(id, k, created), q, key, signal);
      InsertKeepsSignals(w, id, k, created, q, r, key, signal);
    }
  }

  lemma PublishKeepsUpserts(w: World, id: EntryId, k: IssueKey, created: bool, q: Proc, r: Reply, key: IssueKey)
    requires UpsertsBalance(w, Publish(id, k, created), q, key)
    ensures var (w', p') := PublishStep(w, id, k, created, r); UpsertsBalance(w', p', q, key)
  {}

  lemma PublishKeepsSignals(w: World, id: EntryId, k: IssueKey, created: bool, q: Proc, r: Reply, key: IssueKey, signal: Signal)
    requires SignalsBalance(w, Publish(id, k, created), q, key, signal)
    ensures var (w', p') := PublishStep(w, id, k, created, r); SignalsBalance(w', p', q, key, signal)
  {}

  lemma PublishKeepsAccounts(w: World, id: EntryId, k: IssueKey, created: bool, q: Proc, r: Reply)
    requires Accounts(w, Publish(id, k, created), q)
    ensures var (w', p') := PublishStep(w, id, k, created, r); Accounts(w', p', q)
  {
    var (w', p') := PublishStep(w, id, k, created, r);
    forall key ensures UpsertsBalance(w', p', q, key) {
      assert UpsertsBalance(w, Publish(id, k, created), q, key);
      PublishKeepsUpserts(w, id, k, created, q, r, key);
    }
    forall key, signal ensures SignalsBalance(w', p', q, key, signal) {
      assert SignalsBalance(w, Publish(id, k, created), q, key, signal);
      PublishKeepsSignals(w, id, k, created, q, r, key, signal);
    }
  }

  lemma AlertKeepsUpserts(w: World, id: EntryId, k: IssueKey, q: Proc, r: Reply, key: IssueKey)
    requires UpsertsBalance(w, Alert(id, k), q, key)
    ensures var (w', p') := AlertStep(w, id, k, r); UpsertsBalance(w', p', q, key)
  {}

  lemma AlertKeepsSignals(w: World, id: EntryId, k: IssueKey, q: Proc, r: Reply, key: IssueKey, signal: Signal)
    requires SignalsBalance(w, Alert(id, k), q, key, signal)
    ensures var (w', p') := AlertStep(w, id, k, r); SignalsBalance(w', p', q, key, signal)
  {}

  lemma AlertKeepsAccounts(w: World, id: EntryId, k: IssueKey, q: Proc, r: Reply)
    requires Accounts(w, Alert(id, k), q)
    ensures var (w', p') := AlertStep(w, id, k, r); Accounts(w', p', q)
  {
    var (w', p') := AlertStep(w, id, k, r);
    forall key ensures UpsertsBalance(w', p', q, key) {
      assert UpsertsBalance(w, Alert(id, k), q, key);
      AlertKeepsUpserts(w, id, k, q, r, key);
    }
    forall key, signal ensures SignalsBalance(w', p', q, key, signal) {
      assert SignalsBalance(w, Alert(id, k), q, key, signal);
      AlertKeepsSignals(w, id, k, q, r, key, signal);
    }
  }

  lemma AppendKeepsUpserts(w: World, id: EntryId, reason: Reason, q: Proc, r: Reply, key: IssueKey)
    requires id < |w.stream| && UpsertsBalance(w, DlqAppend(id, reason), q, key)
    ensures var (w', p') := (AppendDeadLetter(w, id, reason, r), DlqAck(id)); UpsertsBalance(w', p', q, key)
  {}

  lemma AppendKeepsSignals(w: World, id: EntryId, reason: Reason, q: Proc, r: Reply, key: IssueKey, signal: Signal)
    requires id < |w.stream| && SignalsBalance(w, DlqAppend(id, reason), q, key, signal)
    ensures var (w', p') := (AppendDeadLetter(w, id, reason, r), DlqAck(id)); SignalsBalance(w', p', q, key, signal)
  {}

  lemma AppendKeepsAccounts(w: World, id: EntryId, reason: Reason, q: Proc, r: Reply)
    requires id < |w.stream| && Accounts(w, DlqAppend(id, reason), q)
    ensures var (w', p') := (AppendDeadLetter(w, id, reason, r), DlqAck(id)); Accounts(w', p', q)
  {
    var (w', p') := (AppendDeadLetter(w, id, reason, r), DlqAck(id));
    forall key ensures UpsertsBalance(w', p', q, key) {
      assert UpsertsBalance(w, DlqAppend(id, reason), q, key);
      AppendKeepsUpserts(w, id, reason, q, r, key);
    }
    forall key, signal ensures SignalsBalance(w', p', q, key, signal) {
      assert SignalsBalance(w, DlqAppend(id, reason), q, key, signal);
      AppendKeepsSignals(w, id, reason, q, r, key, signal);
    }
  }

  lemma AckKeepsUpserts(w: World, id: EntryId, p: Proc, q: Proc, r: Reply, key: IssueKey)
    requires (p.Ack? || p.DlqAck?) && UpsertsBalance(w, p, q, key)
    ensures var (w', p') := (AckEntry(w, id, r), Idle); UpsertsBalance(w', p', q, key)
  {}

  lemma AckKeepsSignals(w: World, id: EntryId, p: Proc, q: Proc, r: Reply, key: IssueKey, signal: Signal)
    requires (p.Ack? || p.DlqAck?) && SignalsBalance(w, p, q, key, signal)
    ensures var (w', p') := (AckEntry(w, id, r), Idle); SignalsBalance(w', p', q, key, signal)
  {}

  lemma AckKeepsAccounts(w: World, id: EntryId, p: Proc, q: Proc, r: Reply)
    requires (p.Ack? || p.DlqAck?) && Accounts(w, p, q)
    ensures var (w', p') := (AckEntry(w, id, r), Idle); Accounts(w', p', q)
  {
    var (w', p') := (AckEntry(w, id, r), Idle);
    forall key ensures UpsertsBalance(w', p', q, key) {
      assert UpsertsBalance(w, p, q, key);
      AckKeepsUpserts(w, id, p, q, r, key);
    }
    forall key, signal ensures SignalsBalance(w', p', q, key, signal) {
      assert SignalsBalance(w, p, q, key, signal);
      AckKeepsSignals(w, id, p, q, r, key, signal);
    }
  }

  lemma ProcStepKeepsAccounts(w: World, p: Proc, q: Proc, r: Reply)
    requires Accounts(w, p, q) && Runnable(w, p)
    ensures var (w', p') := ProcStep(w, p, r); Accounts(w', p', q)
  {
    match p {
      case DlqAppend(id, reason) => AppendKeepsAccounts(w, id, reason, q, r);
      case DlqAck(id) => AckKeepsAccounts(w, id, p, q, r);
      case Upsert(id) => UpsertKeepsAccounts(w, id, q, r);
      case Insert(id, k, created) => InsertKeepsAccounts(w, id, k, created, q, r);
      case Publish(id, k, created) => PublishKeepsAccounts(w, id, k, created, q, r);
      case Alert(id, k) => AlertKeepsAccounts(w, id, k, q, r);
      case Ack(id) => AckKeepsAccounts(w, id, p, q, r);
    }
  }

  /** What the death of a loop does to the books. */
  lemma ForfeitMisses(l: Ledger, p: Proc, key: IssueKey, signal: Signal)
    ensures Missed(Forfeit(l, p), signal)[key] == Missed(l, signal)[key] + Owed(p, signal, key)
    ensures Sent(Forfeit(l, p), signal) == Sent(l, signal)
  {}

  lemma ForfeitOrphans(l: Ledger, p: Proc, key: IssueKey)
    ensures var l' := Forfeit(l, p);
            && l'.orphaned[key] == l.orphaned[key] + InFlight(p)[key]
            && l'.upserted == l.upserted && l'.dlqFailed == l.dlqFailed
  {}

  lemma CrashMisses(s: State, key: IssueKey, signal: Signal)
    ensures var l, l' := s.w.ledger, CrashStep(s).w.ledger;
            && Missed(l', signal)[key] == Missed(l, signal)[key] + Owed(s.run, signal, key) + Owed(s.reclaim, signal, key)
            && Sent(l', signal) == Sent(l, signal)
  {
    ForfeitMisses(s.w.ledger, s.run, key, signal);
    ForfeitMisses(Forfeit(s.w.ledger, s.run), s.reclaim, key, signal);
  }

  lemma CrashOrphans(s: State, key: IssueKey)
    ensures var l, l' := s.w.ledger, CrashStep(s).w.ledger;
            && l'.orphaned[key] == l.orphaned[key] + InFlight(s.run)[key] + InFlight(s.reclaim)[key]
            && l'.upserted == l.upserted && l'.dlqFailed == l.dlqFailed
  {
    ForfeitOrphans(s.w.ledger, s.run, key);
    ForfeitOrphans(Forfeit(s.w.ledger, s.run), s.reclaim, key);
  }

  lemma CrashKeepsRecords(s: State)
    ensures SameRecords(s.w, CrashStep(s).w) && CrashStep(s).w.issues == s.w.issues
    ensures CrashStep(s).w.ledger.upserted == s.w.ledger.upserted
  {
    CrashOrphans(s, IssueKey("", ""));
  }

  lemma CrashKeepsAccounts(s: State)
    requires Accounted(s)
    ensures Accounted(CrashStep(s))
  {
    var s' := CrashStep(s);
    CrashKeepsRecords(s);
    forall key ensures UpsertsBalance(s'.w, Idle, Idle, key) {
      assert UpsertsBalance(s.w, s.run, s.reclaim, key);
      CrashOrphans(s, key);
    }
    forall key, signal ensures SignalsBalance(s'.w, Idle, Idle, key, signal) {
      assert SignalsBalance(s.w, s.run, s.reclaim, key, signal);
      CrashMisses(s, key, signal);
    }
  }

  /** Nothing in the accounts tells an idle loop from one that has not upserted yet. */
  predicate BeforeUpsert(p: Proc) { p.Idle? || p.DlqAppend? || p.Upsert? }

  predicate SameAccounts(w: World, w': World) {
    && w'.issues == w.issues && w'.events == w.events && w.stream <= w'.stream
    && w'.ledger.upserted == w.ledger.upserted && w'.ledger.orphaned == w.ledger.orphaned
    && w'.ledger.announced == w.ledger.announced && w'.ledger.unannounced == w.ledger.unannounced
    && w'.ledger.alerted == w.ledger.alerted && w'.ledger.unalerted == w.ledger.unalerted
  }

  lemma KeyedRightStays(w: World, w': World, p: Proc)
    requires KeyedRight(w, p) && w.stream <= w'.stream
    ensures KeyedRight(w', p)
  {}

  lemma BeforeUpsertOwesNothing(p: Proc, key: IssueKey, signal: Signal)
    requires BeforeUpsert(p)
    ensures InFlight(p)[key] == 0 && Owed(p, signal, key) == 0
  {}

  /** The two stages owe the same. */
  predicate SameStage(p: Proc, p': Proc) { p' == p || (BeforeUpsert(p) && BeforeUpsert(p')) }

  lemma SameUpsertsBalance(w: World, w': World, p: Proc, p': Proc, q: Proc, key: IssueKey)
    requires UpsertsBalance(w, p, q, key) && SameAccounts(w, w') && SameStage(p, p')
    ensures UpsertsBalance(w', p', q, key)
  {
    if p != p' {
      BeforeUpsertOwesNothing(p, key, Broadcast);
      BeforeUpsertOwesNothing(p', key, Broadcast);
    }
  }

  lemma SameSignalsBalance(w: World, w': World, p: Proc, p': Proc, q: Proc, key: IssueKey, signal: Signal)
    requires SignalsBalance(w, p, q, key, signal) && SameAccounts(w, w') && SameStage(p, p')
    ensures SignalsBalance(w', p', q, key, signal)
  {
    if p != p' {
      BeforeUpsertOwesNothing(p, key, signal);
      BeforeUpsertOwesNothing(p', key, signal);
    }
  }

  lemma AccountsIgnoreTheRest(w: World, w': World, p: Proc, p': Proc, q: Proc)
    requires Accounts(w, p, q) && SameAccounts(w, w') && SameStage(p, p')
    ensures Accounts(w', p', q)
  {
    KeyedRightStays(w, w', p);
    KeyedRightStays(w, w', q);
    forall key ensures UpsertsBalance(w', p', q, key) {
      assert UpsertsBalance(w, p, q, key);
      SameUpsertsBalance(w, w', p, p', q, key);
    }
    forall key, signal ensures SignalsBalance(w', p', q, key, signal) {
      assert SignalsBalance(w, p, q, key, signal);
      SameSignalsBalance(w, w', p, p', q, key, signal);
    }
  }

  lemma ReclaimStepKeepsAccounts(s: State, r: Reply)
    requires Accounted(s) && Runnable(s.w, s.reclaim)
    ensures var (w', p') := ProcStep(s.w, s.reclaim, r); Accounts(w', s.run, p')
  {
    AccountsSymmetric(s.w, s.run, s.reclaim);
    var (w', p') := ProcStep(s.w, s.reclaim, r);
    ProcStepKeepsAccounts(s.w, s.reclaim, s.run, r);
    AccountsSymmetric(w', p', s.run);
  }

  lemma ClaimKeepsAccounts(cfg: Config, s: State, r: Reply)
    requires Accounted(s) && Enabled(s, Claim(r))
    ensures Accounted(ClaimStep(cfg, s, r))
  {
    var s' := ClaimStep(cfg, s, r);
    AccountsSymmetric(s.w, s.run, s.reclaim);
    AccountsIgnoreTheRest(s.w, s'.w, s.reclaim, s'.reclaim, s.run);
    AccountsSymmetric(s'.w, s'.reclaim, s'.run);
  }

  lemma OtherStepsKeepAccounts(cfg: Config, s: State, a: Action)
    requires Accounted(s) && Enabled(s, a)
    requires a.Push? || a.Tick? || a.Read? || a.RunNext? || a.Scan?
    ensures Accounted(Apply(cfg, s, a))
  {
    var s' := Apply(cfg, s, a);
    AccountsIgnoreTheRest(s.w, s'.w, s.run, s'.run, s.reclaim);
  }

  lemma StepKeepsAccounts(cfg: Config, s: State, a: Action)
    requires Accounted(s) && Enabled(s, a)
    ensures Accounted(Apply(cfg, s, a))
  {
    match a {
      case RunStep(r) => ProcStepKeepsAccounts(s.w, s.run, s.reclaim, r);
      case ReclaimStep(r) => ReclaimStepKeepsAccounts(s, r);
      case Crash => CrashKeepsAccounts(s);
      case Claim(r) => ClaimKeepsAccounts(cfg, s, r);
      case _ => OtherStepsKeepAccounts(cfg, s, a);
    }
  }

  ghost function TotalCount(issues: map<IssueKey, Issue>, keys: set<IssueKey>): nat
    requires keys <= issues.Keys
  {
    if keys == {} then 0
    else var key :| key in keys; issues[key].count + TotalCount(issues, keys - {key})
  }

  lemma {:induction false} TotalIsSizeOf(issues: map<IssueKey, Issue>, keys: set<IssueKey>, m: multiset<IssueKey>)
    requires keys <= issues.Keys
    requires forall key :: key in keys ==> issues[key].count == m[key]
    requires forall key :: key !in keys ==> m[key] == 0
    ensures TotalCount(issues, keys) == |m|
  {
    if keys == {} {
      assert m == multiset{};
    } else {
      var key :| key in keys && TotalCount(issues, keys) == issues[key].count + TotalCount(issues, keys - {key});
      var rest := m[key := 0];
      TotalIsSizeOf(issues, keys - {key}, rest);
      assert m == rest + multiset{}[key := m[key]];
    }
  }

  lemma {:induction false} SizeOfKeys(events: seq<EventRow>)
    ensures |Keys(events)| == |events|
  {
    if events != [] { SizeOfKeys(events[..|events| - 1]); }
  }

  /** Issue accounting: an issue's count is the number of upserts applied to it, and over all issues
      the counts exceed the event rows by exactly the attempts that upserted without inserting
      (already written off, or still between the two calls). */
  lemma IssueCountsAddUp(cfg: Config, s: State)
    requires Reachable(cfg, s)
    ensures forall key :: key in s.w.issues ==> s.w.issues[key].count == s.w.ledger.upserted[key]
    ensures TotalCount(s.w.issues, s.w.issues.Keys)
         == |s.w.events| + |s.w.ledger.orphaned| + |InFlight(s.run)| + |InFlight(s.reclaim)|
  {
    ReachableInvariant(cfg, s);
    var w, l := s.w, s.w.ledger;
    TotalIsSizeOf(w.issues, w.issues.Keys, l.upserted);
    SizeOfKeys(w.events);
    assert l.upserted == Keys(w.events) + l.orphaned + InFlight(s.run) + InFlight(s.reclaim) by {
      forall key ensures l.upserted[key]
                      == (Keys(w.events) + l.orphaned + InFlight(s.run) + InFlight(s.reclaim))[key] {
        assert UpsertsBalance(w, s.run, s.reclaim, key);
      }
    }
  }

  /** No loop still owes the signal. */
  predicate NothingOwed(s: State, key: IssueKey, signal: Signal) {
    Owed(s.run, signal, key) == 0 && Owed(s.reclaim, signal, key) == 0
  }

  /** The new-issue broadcast and the new-issue alert each happen at most once per issue, retries
      included. Once nobody owes one of them it has happened exactly once, or it has been missed. */
  lemma NewIssueAnnouncedAtMostOnce(cfg: Config, s: State, key: IssueKey, signal: Signal)
    requires Reachable(cfg, s)
    ensures Sent(s.w.ledger, signal)[key] + Missed(s.w.ledger, signal)[key] <= 1
    ensures key in s.w.issues && NothingOwed(s, key, signal) ==>
              (Sent(s.w.ledger, signal)[key] == 1 <==> Missed(s.w.ledger, signal)[key] == 0)
  {
    ReachableInvariant(cfg, s);
    assert SignalsBalance(s.w, s.run, s.reclaim, key, signal);
  }

  /** How often the issue has missed the signal. */
  function Silenced(s: State, key: IssueKey, signal: Signal): nat { Missed(s.w.ledger, signal)[key] }

  lemma ReachableStep(cfg: Config, s: State, a: Action)
    requires Reachable(cfg, s) && Enabled(s, a)
    ensures Reachable(cfg, Apply(cfg, s, a))
  {
    var b :| Behaviour(cfg, b) && b[|b| - 1] == s;
    BehaviourExtends(cfg, b, a);
    var b' := b + [Apply(cfg, s, a)];
    assert b'[|b'| - 1] == Apply(cfg, s, a);
  }

  /** The reply that costs a new issue the signal: the upsert created the row but was reported as
      failed; the event insert after a creating upsert was reported as failed; or the sending itself, of
      the broadcast or of the evaluation, did not take effect. */
  predicate SilencingReply(w: World, p: Proc, r: Reply, key: IssueKey, signal: Signal)
    requires Runnable(w, p)
  {
    match p
    case Upsert(id) => r.Failed? && r.applied && key !in w.issues && key == Key(w.stream[id].event)
    case Insert(_, k, created) => r.Failed? && created && k == key
    case Publish(_, k, created) => signal.Broadcast? && !r.Applied() && created && k == key
    case Alert(_, k) => signal.Evaluation? && !r.Applied() && k == key
    case _ => false
  }

  /** A step that silences a new issue, judged before it is taken: such a reply, or a crash while a
      creating attempt still owes the signal. */
  predicate Silences(s: State, a: Action, key: IssueKey, signal: Signal)
    requires Enabled(s, a)
  {
    match a
    case RunStep(r) => SilencingReply(s.w, s.run, r, key, signal)
    case ReclaimStep(r) => SilencingReply(s.w, s.reclaim, r, key, signal)
    case Crash => !NothingOwed(s, key, signal)
    case _ => false
  }

  /** The count went up if `silenced`, and did not go down. */
  predicate UpExactlyIf(before: nat, after: nat, silenced: bool) {
    before <= after && (before < after <==> silenced)
  }

  lemma UpsertSilences(w: World, id: EntryId, r: Reply, key: IssueKey, signal: Signal)
    requires HasEvent(w, id)
    ensures UpExactlyIf(Missed(w.ledger, signal)[key], Missed(UpsertStep(w, id, r).0.ledger, signal)[key],
                        SilencingReply(w, Upsert(id), r, key, signal))
  {}

  lemma InsertSilences(w: World, id: EntryId, k: IssueKey, created: bool, r: Reply, key: IssueKey, signal: Signal)
    requires HasEvent(w, id)
    ensures UpExactlyIf(Missed(w.ledger, signal)[key], Missed(InsertStep(w, id, k, created, r).0.ledger, signal)[key],
                        SilencingReply(w, Insert(id, k, created), r, key, signal))
  {}

  lemma ReplySilencesExactlyWhen(w: World, p: Proc, r: Reply, key: IssueKey, signal: Signal)
    requires Runnable(w, p)
    ensures UpExactlyIf(Missed(w.ledger, signal)[key], Missed(ProcStep(w, p, r).0.ledger, signal)[key],
                        SilencingReply(w, p, r, key, signal))
  {
    match p {
      case Upsert(id) => UpsertSilences(w, id, r, key, signal);
      case Insert(id, k, created) => InsertSilences(w, id, k, created, r, key, signal);
      case _ =>
    }
  }

  /** When exactly a step of the system silences a new issue; and none ever gives a signal back. */
  lemma SilencedExactlyWhen(cfg: Config, s: State, a: Action, key: IssueKey, signal: Signal)
    requires Enabled(s, a)
    ensures UpExactlyIf(Silenced(s, key, signal), Silenced(Apply(cfg, s, a), key, signal), Silences(s, a, key, signal))
  {
    match a {
      case RunStep(r) => ReplySilencesExactlyWhen(s.w, s.run, r, key, signal);
      case ReclaimStep(r) => ReplySilencesExactlyWhen(s.w, s.reclaim, r, key, signal);
      case Crash => CrashMisses(s, key, signal);
      case _ => assert Missed(Apply(cfg, s, a).w.ledger, signal) == Missed(s.w.ledger, signal);
    }
  }

  /** A missed signal is missed for good: no later step of any run sends it, although retries store the
      issue's events. */
  lemma SilencedForGood(cfg: Config, s: State, a: Action, key: IssueKey, signal: Signal)
    requires Reachable(cfg, s) && Enabled(s, a) && Silenced(s, key, signal) > 0
    ensures var s' := Apply(cfg, s, a);
            Silenced(s', key, signal) > 0 && Sent(s'.w.ledger, signal)[key] == 0
  {
    SilencedExactlyWhen(cfg, s, a, key, signal);
    ReachableStep(cfg, s, a);
    NewIssueAnnouncedAtMostOnce(cfg, Apply(cfg, s, a), key, signal);
  }

  /** Step `k` of the run silences the issue. */
  ghost predicate SilencesAt(cfg: Config, b: seq<State>, k: nat, key: IssueKey, signal: Signal)
    requires k + 1 < |b|
  {
    exists a :: Enabled(b[k], a) && b[k + 1] == Apply(cfg, b[k], a) && Silences(b[k], a, key, signal)
  }

  ghost predicate SilencedBefore(cfg: Config, b: seq<State>, i: nat, key: IssueKey, signal: Signal)
    requires i < |b|
  {
    exists k :: 0 <= k < i && SilencesAt(cfg, b, k, key, signal)
  }

  lemma SilenceStep(cfg: Config, b: seq<State>, k: nat, key: IssueKey, signal: Signal)
    requires k + 1 < |b| && NextAt(cfg, b, k)
    ensures UpExactlyIf(Silenced(b[k], key, signal), Silenced(b[k + 1], key, signal), SilencesAt(cfg, b, k, key, signal))
  {
    forall a | Enabled(b[k], a) && b[k + 1] == Apply(cfg, b[k], a)
      ensures UpExactlyIf(Silenced(b[k], key, signal), Silenced(b[k + 1], key, signal), Silences(b[k], a, key, signal))
    {
      SilencedExactlyWhen(cfg, b[k], a, key, signal);
    }
  }

  lemma SilencedOneStepOn(cfg: Config, b: seq<State>, i: nat, key: IssueKey, signal: Signal)
    requires i + 1 < |b|
    ensures SilencedBefore(cfg, b, i + 1, key, signal) <==>
            SilencedBefore(cfg, b, i, key, signal) || SilencesAt(cfg, b, i, key, signal)
  {}

  lemma {:induction false} SilenceWasBroughtAbout(cfg: Config, b: seq<State>, i: nat, key: IssueKey, signal: Signal)
    requires Behaviour(cfg, b) && i < |b|
    ensures Silenced(b[i], key, signal) > 0 <==> SilencedBefore(cfg, b, i, key, signal)
  {
    if i == 0 {
      assert Silenced(INIT, key, signal) == 0;
    } else {
      SilenceWasBroughtAbout(cfg, b, i - 1, key, signal);
      assert NextAt(cfg, b, i - 1);
      SilenceStep(cfg, b, i - 1, key, signal);
      SilencedOneStepOn(cfg, b, i - 1, key, signal);
    }
  }

  lemma NeverSentExactlyWhen(cfg: Config, b: seq<State>, key: IssueKey, signal: Signal)
    requires Behaviour(cfg, b)
    requires key in b[|b| - 1].w.issues && NothingOwed(b[|b| - 1], key, signal)
    ensures Sent(b[|b| - 1].w.ledger, signal)[key] == 0 <==> SilencedBefore(cfg, b, |b| - 1, key, signal)
  {
    var s := b[|b| - 1];
    assert Reachable(cfg, s);
    SilenceWasBroughtAbout(cfg, b, |b| - 1, key, signal);
    NewIssueAnnouncedAtMostOnce(cfg, s, key, signal);
  }

  /** Over whole runs: once no broadcast is pending, `issue.created` was never sent for an existing issue
      if and only if some step of the run silenced it: a creating upsert, or the insert after it, was
      reported as failed, the publish itself failed, or the worker died before it. */
  lemma NeverAnnouncedExactlyWhen(cfg: Config, b: seq<State>, key: IssueKey)
    requires Behaviour(cfg, b)
    requires key in b[|b| - 1].w.issues && NothingOwed(b[|b| - 1], key, Broadcast)
    ensures b[|b| - 1].w.ledger.announced[key] == 0 <==> SilencedBefore(cfg, b, |b| - 1, key, Broadcast)
  {
    NeverSentExactlyWhen(cfg, b, key, Broadcast);
  }

  /** The same for the alert: the new-issue rules were never evaluated for an existing issue if and only
      if some step of the run cost it the evaluation, a crash after the broadcast included. */
  lemma NeverAlertedExactlyWhen(cfg: Config, b: seq<State>, key: IssueKey)
    requires Behaviour(cfg, b)
    requires key in b[|b| - 1].w.issues && NothingOwed(b[|b| - 1], key, Evaluation)
    ensures b[|b| - 1].w.ledger.alerted[key] == 0 <==> SilencedBefore(cfg, b, |b| - 1, key, Evaluation)
  {
    NeverSentExactlyWhen(cfg, b, key, Evaluation);
  }
}
