/** Concrete runs of the ingest pipeline: what the retry bound and the loss condition allow
    does happen. */
module IngestRuns {
  import opened IngestProtocol
  import opened IngestSafety

  lemma InitReachable(cfg: Config)
    ensures Reachable(cfg, INIT)
  {
    assert Behaviour(cfg, [INIT]);
    assert [INIT][|[INIT]| - 1] == INIT;
  }

  /** One entry pushed and delivered. */
  lemma OneEntryRead(cfg: Config, payload: Payload) returns (s: State)
    ensures Reachable(cfg, s) && s.w.stream == [payload] && s.w.delivered == 1
    ensures s.w == INIT.w.(stream := [payload], delivered := 1, pel := map[0 := Pending(1, 0)])
    ensures s.run.Idle? && s.batch == [0] && s.scan == [] && s.reclaim.Idle?
  {
    InitReachable(cfg);
    ReachableStep(cfg, INIT, Push(payload));
    var s1 := Apply(cfg, INIT, Push(payload));
    assert s1.w.stream == [payload];
    ReachableStep(cfg, s1, Read(Ok));
    s := Apply(cfg, s1, Read(Ok));
    assert Available(s1.w) == 1 && Fresh(0, 1) == [0];
    assert s.w.pel == map[0 := Pending(1, 0)];
  }

  /** ... and taken up by `Run`. */
  lemma OneEntryStarted(cfg: Config, payload: Payload) returns (s: State)
    ensures Reachable(cfg, s) && s.w.stream == [payload] && s.w.delivered == 1
    ensures s.w.pel == map[0 := Pending(1, 0)] && s.w.dlq == [] && s.w.events == [] && s.w.issues == map[]
    ensures s.w.now == 0
    ensures s.run == Begin(s.w, 0) && s.batch == [] && s.scan == [] && s.reclaim.Idle?
    ensures s.w.ledger == INIT.w.ledger.(runTries := multiset{0})
  {
    var s1 := OneEntryRead(cfg, payload);
    ReachableStep(cfg, s1, RunNext);
    s := Apply(cfg, s1, RunNext);
    assert multiset{} + multiset{0} == multiset{0};
  }

  /** A structurally bad entry is lost when its one DLQ append fails: the ack follows regardless.
      So the pipeline does not keep every entry, whatever its configuration. */
  lemma BadEntryCanBeLost(cfg: Config) returns (s: State)
    ensures Reachable(cfg, s) && Lost(s.w, 0)
  {
    var s0 := OneEntryStarted(cfg, MissingData);
    ReachableStep(cfg, s0, RunStep(Failed(false)));
    var s1 := Apply(cfg, s0, RunStep(Failed(false)));
    ReachableStep(cfg, s1, RunStep(Ok));
    s := Apply(cfg, s1, RunStep(Ok));
  }

  /** The state after the first attempt and `k` reclaim attempts of an entry that never groups. */
  ghost predicate StuckAfter(cfg: Config, s: State, e: Event, k: nat) {
    && Reachable(cfg, s) && s.w.stream == [Json(e)] && s.w.delivered == 1
    && s.w.pel.Keys == {0} && s.w.pel[0].count == k + 1
    && s.batch == [] && s.run.Idle? && s.scan == [] && s.reclaim.Idle?
    && s.w.ledger.runTries[0] == 1 && s.w.ledger.reclaimTries[0] == k
  }

  /** A state in which the reclaim loop has just claimed entry 0 for another attempt. */
  lemma ClaimAgain(cfg: Config, s: State, e: Event, k: nat) returns (s': State)
    requires StuckAfter(cfg, s, e, k) && k < cfg.maxDeliveryCount
    ensures Reachable(cfg, s') && s'.w.stream == [Json(e)] && s'.w.delivered == 1
    ensures s'.w.pel.Keys == {0} && s'.w.pel[0].count == k + 2
    ensures s'.batch == [] && s'.run.Idle? && s'.scan == [] && s'.reclaim == Upsert(0)
    ensures s'.w.ledger == s.w.ledger.(reclaimTries := s.w.ledger.reclaimTries + multiset{0},
                                       claims := s.w.ledger.claims + multiset{0})
    ensures s'.w.issues == s.w.issues && s'.w.events == s.w.events
  {
    var wait: nat := if s.w.now - s.w.pel[0].at >= cfg.reclaimMinIdle then 0
                     else cfg.reclaimMinIdle + s.w.pel[0].at - s.w.now;
    ReachableStep(cfg, s, Tick(wait));
    var s1 := Apply(cfg, s, Tick(wait));
    ReachableStep(cfg, s1, Scan(Ok));
    var s2 := Apply(cfg, s1, Scan(Ok));
    assert PendingScan(cfg, s1.w, 1, SCAN_COUNT - 1) == [];
    assert s2.scan == [Scanned(0, k + 1)];
    ReachableStep(cfg, s2, Claim(Ok));
    s' := Apply(cfg, s2, Claim(Ok));
  }

  /** The retry bound is reached: with a grouping that keeps failing, `processMessage` runs
      maxDeliveryCount + 1 times for the entry. */
  lemma {:induction false} RetryBoundIsReached(cfg: Config, e: Event, k: nat) returns (s: State)
    requires k <= cfg.maxDeliveryCount
    ensures StuckAfter(cfg, s, e, k)
  {
    if k == 0 {
      var s0 := OneEntryStarted(cfg, Json(e));
      ReachableStep(cfg, s0, RunStep(Failed(false)));
      s := Apply(cfg, s0, RunStep(Failed(false)));
    } else {
      var s0 := RetryBoundIsReached(cfg, e, k - 1);
      var s1 := ClaimAgain(cfg, s0, e, k - 1);
      ReachableStep(cfg, s1, ReclaimStep(Failed(false)));
      s := Apply(cfg, s1, ReclaimStep(Failed(false)));
    }
  }

  /** A new issue whose first event insert fails is stored by the retry, but its new-issue alert
      and broadcast never happen: the retry finds the row and takes it for an old issue. */
  lemma StoredButNeverAnnounced(cfg: Config, e: Event) returns (s: State)
    requires cfg.maxDeliveryCount >= 1
    ensures Reachable(cfg, s) && Stored(s.w, 0) && Key(e) in s.w.issues && 0 !in s.w.pel
    ensures s.w.ledger.announced[Key(e)] == 0 && s.w.ledger.alerted[Key(e)] == 0
    ensures s.w.ledger.unannounced[Key(e)] == 1 && s.w.ledger.unalerted[Key(e)] == 1
  {
    var s0 := OneEntryStarted(cfg, Json(e));
    ReachableStep(cfg, s0, RunStep(Ok));
    var s1 := Apply(cfg, s0, RunStep(Ok));
    ReachableStep(cfg, s1, RunStep(Failed(false)));
    var s2 := Apply(cfg, s1, RunStep(Failed(false)));
    assert s2.w.ledger.unannounced == s2.w.ledger.unalerted == multiset{Key(e)};
    var s3 := ClaimAgain(cfg, s2, e, 0);
    assert Key(e) in s3.w.issues;
    ReachableStep(cfg, s3, ReclaimStep(Ok));
    var s4 := Apply(cfg, s3, ReclaimStep(Ok));
    assert s4.reclaim == Insert(0, Key(e), false);
    s := RetryStores(cfg, s4, e);
  }

  lemma RetryStores(cfg: Config, s: State, e: Event) returns (s': State)
    requires Reachable(cfg, s) && s.w.stream == [Json(e)] && s.reclaim == Insert(0, Key(e), false)
    requires s.w.pel.Keys == {0}
    ensures Reachable(cfg, s') && Stored(s'.w, 0) && s'.w.issues == s.w.issues && 0 !in s'.w.pel
    ensures s'.w.ledger == s.w.ledger
  {
    ReachableStep(cfg, s, ReclaimStep(Ok));
    var s1 := Apply(cfg, s, ReclaimStep(Ok));
    assert s1.w.events[|s.w.events|].entry == 0;
    ReachableStep(cfg, s1, ReclaimStep(Ok));
    var s2 := Apply(cfg, s1, ReclaimStep(Ok));
    ReachableStep(cfg, s2, ReclaimStep(Ok));
    s' := Apply(cfg, s2, ReclaimStep(Ok));
    assert s'.w.events == s1.w.events;
  }

  /** The state of a new issue whose event is stored and whose broadcast comes next. */
  lemma StoredNewIssue(cfg: Config, e: Event) returns (s: State)
    ensures Reachable(cfg, s) && Stored(s.w, 0) && s.run == Publish(0, Key(e), true) && s.reclaim.Idle?
    ensures Key(e) in s.w.issues && s.w.stream == [Json(e)]
    ensures s.w.ledger.announced == s.w.ledger.unannounced == s.w.ledger.alerted == s.w.ledger.unalerted == multiset{}
  {
    var s0 := OneEntryStarted(cfg, Json(e));
    ReachableStep(cfg, s0, RunStep(Ok));
    var s1 := Apply(cfg, s0, RunStep(Ok));
    assert s1.run == Insert(0, Key(e), true);
    ReachableStep(cfg, s1, RunStep(Ok));
    s := Apply(cfg, s1, RunStep(Ok));
    assert s.w.events[0].entry == 0;
  }

  /** The same happens without a single failed reply, when the process dies between the event insert
      and the broadcast. */
  lemma CrashSilences(cfg: Config, e: Event) returns (s: State)
    ensures Reachable(cfg, s) && Stored(s.w, 0) && Key(e) in s.w.issues
    ensures s.w.ledger.announced[Key(e)] == 0 && s.w.ledger.unannounced[Key(e)] == 1
    ensures s.w.ledger.alerted[Key(e)] == 0 && s.w.ledger.unalerted[Key(e)] == 1
  {
    var s0 := StoredNewIssue(cfg, e);
    ReachableStep(cfg, s0, Crash);
    s := Apply(cfg, s0, Crash);
    assert s.w.events == s0.w.events;
  }

  /** A publish that fails costs the issue its broadcast, and nothing else: the rules are evaluated. */
  lemma RefusedBroadcast(cfg: Config, e: Event) returns (s: State)
    ensures Reachable(cfg, s) && Stored(s.w, 0) && Key(e) in s.w.issues && s.run == Ack(0)
    ensures s.w.ledger.announced[Key(e)] == 0 && s.w.ledger.unannounced[Key(e)] == 1
    ensures s.w.ledger.alerted[Key(e)] == 1 && s.w.ledger.unalerted[Key(e)] == 0
  {
    var s0 := StoredNewIssue(cfg, e);
    ReachableStep(cfg, s0, RunStep(Failed(false)));
    var s1 := Apply(cfg, s0, RunStep(Failed(false)));
    ReachableStep(cfg, s1, RunStep(Ok));
    s := Apply(cfg, s1, RunStep(Ok));
    assert s.w.events == s0.w.events;
  }

  /** A crash right after the broadcast costs the issue its alert. */
  lemma CrashLosesAlert(cfg: Config, e: Event) returns (s: State)
    ensures Reachable(cfg, s) && Stored(s.w, 0) && Key(e) in s.w.issues
    ensures s.w.ledger.announced[Key(e)] == 1 && s.w.ledger.unannounced[Key(e)] == 0
    ensures s.w.ledger.alerted[Key(e)] == 0 && s.w.ledger.unalerted[Key(e)] == 1
  {
    var s0 := StoredNewIssue(cfg, e);
    ReachableStep(cfg, s0, RunStep(Ok));
    var s1 := Apply(cfg, s0, RunStep(Ok));
    ReachableStep(cfg, s1, Crash);
    s := Apply(cfg, s1, Crash);
    assert s.w.events == s0.w.events;
  }
}
