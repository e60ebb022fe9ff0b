/** What Redis hands to the two loops: new entries to `Run`, idle ones to the reclaim loop. */
module IngestDelivery {
  import opened IngestProtocol
  import opened IngestSafety
  import opened IngestDrain

  /** A read that takes effect hands out the next entries nobody has read, ten at most, in order: they
      become pending, and nothing else about the pending list changes. `Run` gets them if the reply does. */
  lemma ReadDelivers(cfg: Config, s: State, r: Reply, id: EntryId)
    requires Enabled(s, Read(r)) && s.w.delivered <= |s.w.stream|
    ensures var s', d := Apply(cfg, s, Read(r)), s.w.delivered;
            var due := r.Applied() && d <= id < |s.w.stream| && id < d + 10;
            && (id in s'.batch <==> due && r.Ok?) && (due && r.Ok? ==> id - d < |s'.batch| && s'.batch[id - d] == id)
            && (s'.w.delivered > id <==> d > id || due)
            && (id in s'.w.pel <==> id in s.w.pel || due)
            && (id in s'.w.pel ==> s'.w.pel[id] == if due then Pending(1, s.w.now) else s.w.pel[id])
  {}

  /** When exactly an entry is handed out again: it is the next of the scan, still pending, was handed out
      at least the minimum idle time ago, and the claim goes through. */
  lemma RedeliveredExactlyWhen(cfg: Config, s: State, a: Action, id: EntryId)
    requires Enabled(s, a) && id in s.w.pel && id in Apply(cfg, s, a).w.pel
    requires id < s.w.delivered <= |s.w.stream|
    ensures var before, after := s.w.pel[id], Apply(cfg, s, a).w.pel[id];
            if a.Claim? && a.reply.Applied() && s.scan[0].id == id && s.w.now - before.at >= cfg.reclaimMinIdle
            then after == Pending(before.count + 1, s.w.now)
            else after == before
  {
    match a {
      case RunStep(r) => ProcStepShrinks(s.w, s.run, r);
      case ReclaimStep(r) => ProcStepShrinks(s.w, s.reclaim, r);
      case _ =>
    }
  }

  /** The pending entries from `from` on and below `to` that have been idle long enough. */
  function IdleBetween(cfg: Config, w: World, from: nat, to: nat): set<EntryId> {
    set id: EntryId | from <= id < to && id in w.pel && w.now - w.pel[id].at >= cfg.reclaimMinIdle
  }

  predicate IdlePending(cfg: Config, w: World, id: EntryId) { id in w.pel && IdleLongEnough(cfg, w, id) }

  lemma OneMoreIdle(cfg: Config, w: World, from: nat, to: nat)
    requires from < to
    ensures |IdleBetween(cfg, w, from, to)|
         == |IdleBetween(cfg, w, from + 1, to)| + if IdlePending(cfg, w, from) then 1 else 0
  {
    var more := IdleBetween(cfg, w, from + 1, to);
    assert from !in more;
    assert IdleBetween(cfg, w, from, to) == more + if IdlePending(cfg, w, from) then {from} else {};
  }

  lemma IdsOfCons(p: Scanned, rest: seq<Scanned>)
    ensures Ids([p] + rest) == {p.id} + Ids(rest)
  {
    assert ([p] + rest)[0] == p;
    assert forall q :: q in [p] + rest <==> q == p || q in rest;
  }

  lemma ScanUnfolds(cfg: Config, w: World, from: nat, limit: nat)
    requires from < w.delivered && limit > 0
    ensures Ids(PendingScan(cfg, w, from, limit))
         == if IdlePending(cfg, w, from) then {from} + Ids(PendingScan(cfg, w, from + 1, limit - 1))
            else Ids(PendingScan(cfg, w, from + 1, limit))
  {
    if IdlePending(cfg, w, from) {
      IdsOfCons(Scanned(from, w.pel[from].count), PendingScan(cfg, w, from + 1, limit - 1));
    }
  }

  predicate Returned(cfg: Config, w: World, from: nat, limit: nat, id: EntryId) {
    id in Ids(PendingScan(cfg, w, from, limit))
  }

  lemma NothingEarlier(cfg: Config, w: World, from: nat, limit: nat, id: EntryId)
    requires id < from
    ensures !Returned(cfg, w, from, limit, id)
  {}

  predicate ReturnedRightly(cfg: Config, w: World, from: nat, limit: nat, id: EntryId) {
    Returned(cfg, w, from, limit, id) <==> IdlePending(cfg, w, id) && |IdleBetween(cfg, w, from, id)| < limit
  }

  lemma FirstScanned(cfg: Config, w: World, limit: nat, id: EntryId)
    requires id < w.delivered
    ensures ReturnedRightly(cfg, w, id, limit, id)
  {
    assert IdleBetween(cfg, w, id, id) == {};
    if limit > 0 {
      ScanUnfolds(cfg, w, id, limit);
      NothingEarlier(cfg, w, id + 1, limit - 1, id);
      NothingEarlier(cfg, w, id + 1, limit, id);
    }
  }

  lemma LaterScanned(cfg: Config, w: World, from: nat, limit: nat, id: EntryId)
    requires from < id < w.delivered && limit > 0
    requires ReturnedRightly(cfg, w, from + 1, if IdlePending(cfg, w, from) then limit - 1 else limit, id)
    ensures ReturnedRightly(cfg, w, from, limit, id)
  {
    ScanUnfolds(cfg, w, from, limit);
    OneMoreIdle(cfg, w, from, id);
  }

  lemma {:induction false} ScanReturns(cfg: Config, w: World, from: nat, limit: nat, id: EntryId)
    requires from <= id < w.delivered
    ensures ReturnedRightly(cfg, w, from, limit, id)
    decreases id - from
  {
    if from == id {
      FirstScanned(cfg, w, limit, id);
    } else if limit > 0 {
      ScanReturns(cfg, w, from + 1, if IdlePending(cfg, w, from) then limit - 1 else limit, id);
      LaterScanned(cfg, w, from, limit, id);
    }
  }

  /** What a scan returns, exactly: the pending entries idle long enough, except those with fifty others
      before them, each with its delivery count. */
  lemma ScanReturnsExactly(cfg: Config, s: State, id: EntryId)
    requires Enabled(s, Scan(Ok)) && id < s.w.delivered
    ensures var s' := Apply(cfg, s, Scan(Ok));
            && (id in Ids(s'.scan) <==>
                  && id in s.w.pel && s.w.now - s.w.pel[id].at >= cfg.reclaimMinIdle
                  && |IdleBetween(cfg, s.w, 0, id)| < 50)
            && (forall p :: p in s'.scan && p.id == id ==> p.retryCount == s.w.pel[id].count)
  {
    ScanReturns(cfg, s.w, 0, SCAN_COUNT, id);
  }

  // ------------------------------------------------------------------ after a crash

  /** `Run` holds none of the first `n` entries. */
  predicate HoldsNone(s: State, n: nat) {
    n <= s.w.delivered && forall id :: id in s.batch ==> id >= n
  }

  lemma StepHoldsNone(cfg: Config, s: State, a: Action, n: nat, id: EntryId)
    requires Enabled(s, a) && HoldsNone(s, n) && s.w.delivered <= |s.w.stream| && id < n
    ensures HoldsNone(Apply(cfg, s, a), n)
    ensures Apply(cfg, s, a).w.ledger.runTries[id] == s.w.ledger.runTries[id]
  {
    match a {
      case RunStep(r) => ProcStepKeepsTries(s.w, s.run, r);
      case ReclaimStep(r) => ProcStepKeepsTries(s.w, s.reclaim, r);
      case RunNext =>
        assert s.batch[0] in s.batch;
        assert forall i :: i in s.batch[1..] ==> i in s.batch;
      case Crash => CrashKeepsTries(s);
      case _ =>
    }
  }

  lemma {:induction false} HoldsNoneEverAfter(cfg: Config, b: seq<State>, k: nat, i: nat, n: nat, id: EntryId)
    requires Behaviour(cfg, b) && k <= i < |b| && HoldsNone(b[k], n) && id < n
    ensures HoldsNone(b[i], n) && b[i].w.ledger.runTries[id] == b[k].w.ledger.runTries[id]
    decreases i
  {
    if i > k {
      HoldsNoneEverAfter(cfg, b, k, i - 1, n, id);
      BehaviourKeepsInvariant(cfg, b, i - 1);
      assert NextAt(cfg, b, i - 1);
      var a :| Enabled(b[i - 1], a) && b[i] == Apply(cfg, b[i - 1], a);
      StepHoldsNone(cfg, b[i - 1], a, n, id);
    }
  }

  /** A worker that dies loses what it had read and not begun: `Run` never takes up any entry delivered
      before the crash, so only the reclaim loop can. The server keeps everything. */
  lemma CrashLeavesRestToReclaim(cfg: Config, b: seq<State>, k: nat, i: nat, id: EntryId)
    requires Behaviour(cfg, b) && k < i < |b| && b[k + 1] == Apply(cfg, b[k], Crash) && id < b[k].w.delivered
    ensures b[i].w.ledger.runTries[id] == b[k].w.ledger.runTries[id]
    ensures SameRecords(b[k].w, b[k + 1].w) && b[k + 1].w.issues == b[k].w.issues && b[k + 1].w.pel == b[k].w.pel
  {
    CrashKeepsTries(b[k]);
    CrashKeepsRecords(b[k]);
    HoldsNoneEverAfter(cfg, b, k + 1, i, b[k].w.delivered, id);
  }
}
