/** How events are grouped into issues and what the rows of `issues` and of the dead-letter stream say,
    stated of the events themselves. */
module IngestGrouping {
  import Fingerprint
  import opened IngestProtocol
  import opened IngestSafety

  // ------------------------------------------------------------------ who shares an issue

  /** Same project, same string handed to the hash. */
  predicate SameIssue(a: Event, b: Event) {
    && a.project == b.project
    && Fingerprint.PreHash(a.message, a.stackTrace) == Fingerprint.PreHash(b.message, b.stackTrace)
  }

  /** Two stored events share their issue if and only if they are of one project and hash the same
      string, and an event's issue is one of its own project. */
  lemma EventsShareIssueExactlyWhen(cfg: Config, s: State, i: nat, j: nat)
    requires Reachable(cfg, s) && i < |s.w.events| && j < |s.w.events|
    ensures s.w.events[i].key == s.w.events[j].key <==> SameIssue(s.w.events[i].event, s.w.events[j].event)
    ensures s.w.events[i].key.project == s.w.events[i].event.project
  {
    ReachableInvariant(cfg, s);
  }

  /** For messages without the separator: same project, same message, same normalised top frame. */
  lemma BarFreeEventsShareIssueExactlyWhen(cfg: Config, s: State, i: nat, j: nat)
    requires Reachable(cfg, s) && i < |s.w.events| && j < |s.w.events|
    requires '|' !in s.w.events[i].event.message && '|' !in s.w.events[j].event.message
    ensures var a, b := s.w.events[i].event, s.w.events[j].event;
            s.w.events[i].key == s.w.events[j].key <==>
              && a.project == b.project && a.message == b.message
              && Fingerprint.NormalizeFrame(Fingerprint.TopFrame(a.stackTrace))
                 == Fingerprint.NormalizeFrame(Fingerprint.TopFrame(b.stackTrace))
  {
    var a, b := s.w.events[i].event, s.w.events[j].event;
    EventsShareIssueExactlyWhen(cfg, s, i, j);
    Fingerprint.BarFreeMessagesNeverCollide(a.message, a.stackTrace, b.message, b.stackTrace);
  }

  // ------------------------------------------------------------------ what an issue row says

  /** Those of the events that belong with `e`, in order. */
  function Group(trail: seq<Event>, e: Event): seq<Event> {
    if trail == [] then []
    else Group(trail[..|trail| - 1], e) + if SameIssue(trail[|trail| - 1], e) then [trail[|trail| - 1]] else []
  }

  /** The first event of the group gave the row its title, level and first-seen time, the latest its
      last-seen time. */
  ghost predicate RowTells(issues: map<IssueKey, Issue>, trail: seq<Event>, e: Event) {
    var key, group := IssueKey(e.project, Fingerprint.PreHash(e.message, e.stackTrace)), Group(trail, e);
    if group == [] then key !in issues
    else
      key in issues
      && issues[key] == Issue(group[0].message, group[0].level, group[0].occurredAt,
                              group[|group| - 1].occurredAt, |group|)
  }

  ghost predicate RowsTell(w: World) { forall e :: RowTells(w.issues, w.ledger.trail, e) }

  /** Whatever was upserted has been pushed. */
  ghost predicate TrailPushed(w: World) {
    forall i :: 0 <= i < |w.ledger.trail| ==> Json(w.ledger.trail[i]) in w.stream
  }

  lemma UpsertRowTells(issues: map<IssueKey, Issue>, trail: seq<Event>, added: Event, e: Event)
    requires RowTells(issues, trail, added) && RowTells(issues, trail, e)
    ensures RowTells(UpsertRow(issues, added), trail + [added], e)
  {
    assert (trail + [added])[..|trail|] == trail;
    if SameIssue(added, e) { SameGroup(trail, added, e); }
  }

  lemma {:induction false} SameGroup(trail: seq<Event>, a: Event, b: Event)
    requires SameIssue(a, b)
    ensures Group(trail, a) == Group(trail, b)
  {
    if trail != [] { SameGroup(trail[..|trail| - 1], a, b); }
  }

  lemma UpsertKeepsRows(w: World, id: EntryId, r: Reply)
    requires HasEvent(w, id) && RowsTell(w) && TrailPushed(w)
    ensures var w' := UpsertStep(w, id, r).0; RowsTell(w') && TrailPushed(w')
  {
    if r.Applied() {
      var w', added := UpsertStep(w, id, r).0, w.stream[id].event;
      assert w'.issues == UpsertRow(w.issues, added) && w'.ledger.trail == w.ledger.trail + [added];
      assert Json(added) in w'.stream;
      forall e ensures RowTells(w'.issues, w'.ledger.trail, e) {
        UpsertRowTells(w.issues, w.ledger.trail, added, e);
      }
    }
  }

  predicate SameRows(w: World, w': World) {
    w'.issues == w.issues && w'.ledger.trail == w.ledger.trail && w.stream <= w'.stream
  }

  lemma SameRowsTellTheSame(w: World, w': World)
    requires SameRows(w, w') && RowsTell(w) && TrailPushed(w)
    ensures RowsTell(w') && TrailPushed(w')
  {
    forall e ensures RowTells(w'.issues, w'.ledger.trail, e) { assert RowTells(w.issues, w.ledger.trail, e); }
    forall i | 0 <= i < |w'.ledger.trail| ensures Json(w'.ledger.trail[i]) in w'.stream {
      assert Json(w.ledger.trail[i]) in w.stream;
    }
  }

  lemma OnlyUpsertsChangeRows(w: World, p: Proc, r: Reply)
    requires Runnable(w, p) && !p.Upsert?
    ensures SameRows(w, ProcStep(w, p, r).0)
  {}

  lemma ProcStepKeepsRows(w: World, p: Proc, r: Reply)
    requires Runnable(w, p) && RowsTell(w) && TrailPushed(w)
    ensures var w' := ProcStep(w, p, r).0; RowsTell(w') && TrailPushed(w')
  {
    if p.Upsert? {
      UpsertKeepsRows(w, p.id, r);
    } else {
      OnlyUpsertsChangeRows(w, p, r);
      SameRowsTellTheSame(w, ProcStep(w, p, r).0);
    }
  }

  lemma ForfeitKeepsTrail(l: Ledger, p: Proc)
    ensures Forfeit(l, p).trail == l.trail && Forfeit(l, p).claims == l.claims
  {}

  lemma ClaimKeepsRows(cfg: Config, s: State, r: Reply)
    requires Enabled(s, Claim(r))
    ensures SameRows(s.w, ClaimStep(cfg, s, r).w)
  {}

  lemma CrashKeepsRows(s: State)
    ensures SameRows(s.w, CrashStep(s).w)
  {
    ForfeitKeepsTrail(s.w.ledger, s.run);
    ForfeitKeepsTrail(Forfeit(s.w.ledger, s.run), s.reclaim);
  }

  lemma OtherStepsKeepRows(cfg: Config, s: State, a: Action)
    requires Enabled(s, a) && !a.RunStep? && !a.ReclaimStep?
    ensures SameRows(s.w, Apply(cfg, s, a).w)
  {
    match a {
      case Claim(r) => ClaimKeepsRows(cfg, s, r);
      case Crash => CrashKeepsRows(s);
      case _ =>
    }
  }

  // ------------------------------------------------------------------ what a dead letter says

  /** An entry's delivery count is its first delivery and its claims. */
  predicate CountIsClaims(pel: map<EntryId, Pending>, claims: multiset<EntryId>, delivered: nat, id: EntryId) {
    (id in pel ==> id < delivered && pel[id].count == 1 + claims[id]) && (id >= delivered ==> claims[id] == 0)
  }

  ghost predicate CountsAreClaims(w: World) {
    forall id :: CountIsClaims(w.pel, w.ledger.claims, w.delivered, id)
  }

  lemma ClaimKeepsCounts(cfg: Config, s: State, r: Reply)
    requires Enabled(s, Claim(r)) && CountsAreClaims(s.w)
    ensures CountsAreClaims(ClaimStep(cfg, s, r).w)
  {
    var w' := ClaimStep(cfg, s, r).w;
    ClaimAddsClaim(cfg, s, r);
    forall id ensures CountIsClaims(w'.pel, w'.ledger.claims, w'.delivered, id) {
      assert CountIsClaims(s.w.pel, s.w.ledger.claims, s.w.delivered, id);
    }
  }

  lemma ClaimAddsClaim(cfg: Config, s: State, r: Reply)
    requires Enabled(s, Claim(r))
    ensures var w, w', id := s.w, ClaimStep(cfg, s, r).w, s.scan[0].id;
            && w'.delivered == w.delivered
            && if !(r.Applied() && Claimable(cfg, w, id)) then w'.pel == w.pel && w'.ledger.claims == w.ledger.claims
               else w'.pel == w.pel[id := Pending(w.pel[id].count + 1, w.now)]
                    && w'.ledger.claims == w.ledger.claims + multiset{id}
  {}

  lemma DeliveryKeepsCounts(w: World)
    requires w.delivered <= |w.stream| && CountsAreClaims(w)
    ensures CountsAreClaims(Deliver(w))
  {
    forall id ensures CountIsClaims(Deliver(w).pel, w.ledger.claims, Deliver(w).delivered, id) {
      assert CountIsClaims(w.pel, w.ledger.claims, w.delivered, id);
    }
  }

  /** Fewer entries pending, and nothing else. */
  ghost predicate FewerPending(w: World, w': World) {
    && w'.delivered == w.delivered && w'.ledger.claims == w.ledger.claims
    && (forall id :: id in w'.pel ==> id in w.pel && w'.pel[id] == w.pel[id])
  }

  lemma FewerPendingKeepCounts(w: World, w': World)
    requires FewerPending(w, w') && CountsAreClaims(w)
    ensures CountsAreClaims(w')
  {
    forall id ensures CountIsClaims(w'.pel, w'.ledger.claims, w'.delivered, id) {
      assert CountIsClaims(w.pel, w.ledger.claims, w.delivered, id);
    }
  }

  lemma ProcStepKeepsClaims(w: World, p: Proc, r: Reply)
    requires Runnable(w, p)
    ensures FewerPending(w, ProcStep(w, p, r).0)
  {}

  lemma CrashKeepsClaims(s: State)
    ensures FewerPending(s.w, CrashStep(s).w)
  {
    ForfeitKeepsTrail(s.w.ledger, s.run);
    ForfeitKeepsTrail(Forfeit(s.w.ledger, s.run), s.reclaim);
  }

  lemma StepKeepsCounts(cfg: Config, s: State, a: Action)
    requires Enabled(s, a) && s.w.delivered <= |s.w.stream| && CountsAreClaims(s.w)
    ensures CountsAreClaims(Apply(cfg, s, a).w)
  {
    match a {
      case Claim(r) => ClaimKeepsCounts(cfg, s, r);
      case Read(r) => if r.Applied() { DeliveryKeepsCounts(s.w); }
      case RunStep(r) =>
        ProcStepKeepsClaims(s.w, s.run, r);
        FewerPendingKeepCounts(s.w, Apply(cfg, s, a).w);
      case ReclaimStep(r) =>
        ProcStepKeepsClaims(s.w, s.reclaim, r);
        FewerPendingKeepCounts(s.w, Apply(cfg, s, a).w);
      case Crash =>
        CrashKeepsClaims(s);
        FewerPendingKeepCounts(s.w, CrashStep(s).w);
      case _ => FewerPendingKeepCounts(s.w, Apply(cfg, s, a).w);
    }
  }

  /** The reason given is true: of the payload, or of how often the entry has been claimed. */
  predicate Justifies(cfg: Config, data: Payload, claimed: nat, reason: Reason) {
    match reason
    case DataFieldMissing => data.MissingData?
    case UnmarshalError => data.InvalidJson?
    case RetriesExceeded => claimed > cfg.maxDeliveryCount
  }

  ghost predicate ReasonsTell(cfg: Config, w: World) {
    forall i :: 0 <= i < |w.dlq| ==>
      Justifies(cfg, w.dlq[i].data, w.ledger.claims[w.dlq[i].originalId], w.dlq[i].reason)
  }

  predicate StageTells(cfg: Config, w: World, p: Proc) {
    p.DlqAppend? ==> p.id < |w.stream| && Justifies(cfg, w.stream[p.id], w.ledger.claims[p.id], p.reason)
  }

  ghost predicate LettersTell(cfg: Config, s: State) {
    ReasonsTell(cfg, s.w) && StageTells(cfg, s.w, s.run) && StageTells(cfg, s.w, s.reclaim)
  }

  lemma ProcStepKeepsReasons(cfg: Config, w: World, p: Proc, r: Reply)
    requires Runnable(w, p) && ReasonsTell(cfg, w) && StageTells(cfg, w, p)
    ensures var (w', p') := ProcStep(w, p, r);
            ReasonsTell(cfg, w') && !p'.DlqAppend? && w'.stream == w.stream && w'.ledger.claims == w.ledger.claims
  {}

  /** The stream and the claims only grow. */
  predicate MoreClaims(w: World, w': World) {
    w.stream <= w'.stream && w.dlq == w'.dlq && w.ledger.claims <= w'.ledger.claims
  }

  lemma MoreClaimsTell(cfg: Config, w: World, w': World, p: Proc)
    requires MoreClaims(w, w')
    ensures ReasonsTell(cfg, w) ==> ReasonsTell(cfg, w')
    ensures StageTells(cfg, w, p) ==> StageTells(cfg, w', p)
  {
    assert forall id :: w.ledger.claims[id] <= w'.ledger.claims[id];
  }

  lemma ClaimKeepsLetters(cfg: Config, s: State, r: Reply)
    requires Enabled(s, Claim(r)) && LettersTell(cfg, s) && CountsAreClaims(s.w) && ScanFresh(s)
    ensures LettersTell(cfg, ClaimStep(cfg, s, r))
  {
    var s', p := ClaimStep(cfg, s, r), s.scan[0];
    assert p in s.scan && CountIsClaims(s.w.pel, s.w.ledger.claims, s.w.delivered, p.id);
    ClaimAddsClaim(cfg, s, r);
    ClaimKeepsRecords(cfg, s, r);
    MoreClaimsTell(cfg, s.w, s'.w, s.run);
  }

  lemma OtherStepsKeepLetters(cfg: Config, s: State, a: Action)
    requires Enabled(s, a) && LettersTell(cfg, s) && !a.Claim? && !a.RunStep? && !a.ReclaimStep?
    ensures LettersTell(cfg, Apply(cfg, s, a))
  {
    var s' := Apply(cfg, s, a);
    if a.Crash? {
      CrashKeepsRecords(s);
      CrashKeepsClaims(s);
    }
    MoreClaimsTell(cfg, s.w, s'.w, s.run);
    MoreClaimsTell(cfg, s.w, s'.w, s.reclaim);
  }

  lemma StepKeepsLetters(cfg: Config, s: State, a: Action)
    requires Enabled(s, a) && LettersTell(cfg, s) && CountsAreClaims(s.w) && ScanFresh(s)
    ensures LettersTell(cfg, Apply(cfg, s, a))
  {
    match a {
      case RunStep(r) => ProcStepKeepsReasons(cfg, s.w, s.run, r);
      case ReclaimStep(r) => ProcStepKeepsReasons(cfg, s.w, s.reclaim, r);
      case Claim(r) => ClaimKeepsLetters(cfg, s, r);
      case _ => OtherStepsKeepLetters(cfg, s, a);
    }
  }

  // ------------------------------------------------------------------ every reachable state

  ghost predicate Telling(cfg: Config, s: State) {
    RowsTell(s.w) && TrailPushed(s.w) && CountsAreClaims(s.w) && LettersTell(cfg, s)
  }

  lemma StepKeepsTelling(cfg: Config, s: State, a: Action)
    requires Enabled(s, a) && Telling(cfg, s) && TriesBounded(cfg, s)
    ensures Telling(cfg, Apply(cfg, s, a))
  {
    StepKeepsLetters(cfg, s, a);
    StepKeepsCounts(cfg, s, a);
    match a {
      case RunStep(r) => ProcStepKeepsRows(s.w, s.run, r);
      case ReclaimStep(r) => ProcStepKeepsRows(s.w, s.reclaim, r);
      case _ =>
        OtherStepsKeepRows(cfg, s, a);
        SameRowsTellTheSame(s.w, Apply(cfg, s, a).w);
    }
  }

  lemma NextKeepsTelling(cfg: Config, s: State, s': State)
    requires Telling(cfg, s) && Invariant(cfg, s) && Next(cfg, s, s')
    ensures Telling(cfg, s')
  {
    var a :| Enabled(s, a) && s' == Apply(cfg, s, a);
    StepKeepsTelling(cfg, s, a);
  }

  lemma {:induction false} BehaviourKeepsTelling(cfg: Config, b: seq<State>, i: nat)
    requires Behaviour(cfg, b) && i < |b|
    ensures Telling(cfg, b[i])
  {
    if i == 0 {
      assert Telling(cfg, INIT);
    } else {
      BehaviourKeepsTelling(cfg, b, i - 1);
      BehaviourKeepsInvariant(cfg, b, i - 1);
      assert NextAt(cfg, b, i - 1);
      NextKeepsTelling(cfg, b[i - 1], b[i]);
    }
  }

  lemma ReachableTelling(cfg: Config, s: State)
    requires Reachable(cfg, s)
    ensures Telling(cfg, s)
  {
    var b :| Behaviour(cfg, b) && b[|b| - 1] == s;
    BehaviourKeepsTelling(cfg, b, |b| - 1);
  }

  /** An issue row is its events: it exists if and only if an event that belongs to it was upserted; its
      title, level and first-seen time are the first one's, its last-seen time is the latest one's, and
      its count is how many there were. */
  lemma IssueRowIsItsEvents(cfg: Config, s: State, e: Event)
    requires Reachable(cfg, s)
    ensures RowTells(s.w.issues, s.w.ledger.trail, e)
  {
    ReachableTelling(cfg, s);
  }

  /** And no row comes from anything that was not pushed. */
  lemma UpsertsWerePushed(cfg: Config, s: State, i: nat)
    requires Reachable(cfg, s) && i < |s.w.ledger.trail|
    ensures Json(s.w.ledger.trail[i]) in s.w.stream
  {
    ReachableTelling(cfg, s);
  }

  /** A dead letter's reason is true of its entry: the payload was missing or undecodable, or the entry had
      been claimed more than the maximum number of times. */
  lemma DeadLettersTellWhy(cfg: Config, s: State, i: nat)
    requires Reachable(cfg, s) && i < |s.w.dlq|
    ensures s.w.dlq[i].originalId < |s.w.stream|
    ensures var data := s.w.stream[s.w.dlq[i].originalId];
            match s.w.dlq[i].reason
            case DataFieldMissing => data.MissingData?
            case UnmarshalError => data.InvalidJson?
            case RetriesExceeded => s.w.ledger.claims[s.w.dlq[i].originalId] > cfg.maxDeliveryCount
  {
    ReachableTelling(cfg, s);
    ReachableInvariant(cfg, s);
  }

  /** The claims are the deliveries after the first. */
  lemma DeliveriesAreCounted(cfg: Config, s: State, id: EntryId)
    requires Reachable(cfg, s) && id in s.w.pel
    ensures s.w.pel[id].count == 1 + s.w.ledger.claims[id]
  {
    ReachableTelling(cfg, s);
    assert CountIsClaims(s.w.pel, s.w.ledger.claims, s.w.delivered, id);
  }
}
