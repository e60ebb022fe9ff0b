/** The status machine of one monitor: internal/usecase/check_monitor.go over the check history
    of internal/repository/postgres/monitor_repo.go. Check times are strictly increasing, so the
    history is a sequence and "the last F checks" are its last F elements. */
module MonitorStatus {

  datatype Status = Unknown | Up | Down

  /** A call to Postgres may fail, before or after it took effect. */
  datatype Reply = Ok | Failed(applied: bool) {
    predicate Applied() { Ok? || applied }
  }

  /** One tick of the checker; a user's change of the threshold; and the two halves of a respawn: the
      row is read (by `Sync` or by the startup listing), and later a checker of that row replaces the
      running one, which has gone on checking in between. */
  datatype Event =
    | Ping(isUp: bool, create: Reply, query: bool, update: Reply)
    | Configure(threshold: nat)
    | Fetch(slot: nat)
    | Spawn(slot: nat)

  /** A row as read; `sent` and `seen` say how many down notices and checks there were by then. */
  datatype Copy = Copy(status: Status, threshold: nat, sent: nat, seen: nat)

  /** `status` is the running checker's, `origin` the row it was spawned from, `spawned` and `since` how
      many notices and checks there were at that time; `stored` and `threshold` are the columns; `copies`
      are rows read and not yet spawned. `notices` holds, for each NotifyMonitorDown, the index of the
      check that triggered it. `muffled` says that this checker's last success was recorded while it held
      the monitor for down, and did not change that. */
  datatype Monitor = Monitor(
    status: Status, origin: Copy, spawned: nat, since: nat, muffled: bool,
    stored: Status, threshold: nat,
    checks: seq<bool>, notices: seq<nat>, copies: map<nat, Copy>)

  /** A created monitor, with its checker. */
  function Fresh(threshold: nat): Monitor {
    Monitor(Unknown, Copy(Unknown, threshold, 0, 0), 0, 0, false, Unknown, threshold, [], [], map[])
  }

  // ------------------------------------------------------------------ the counter

  /** The consecutive-failure counter the source does without. */
  function Failures(checks: seq<bool>): nat {
    if checks == [] || checks[|checks| - 1] then 0 else Failures(checks[..|checks| - 1]) + 1
  }

  predicate AllFailed(checks: seq<bool>, lo: int, hi: int)
    requires 0 <= lo && hi <= |checks|
  {
    forall i :: lo <= i < hi ==> !checks[i]
  }

  lemma {:induction false} FailuresIsTrailingRun(checks: seq<bool>)
    ensures var n := Failures(checks);
            && n <= |checks| && AllFailed(checks, |checks| - n, |checks|)
            && (n < |checks| ==> checks[|checks| - n - 1])
  {
    if checks != [] && !checks[|checks| - 1] {
      var init := checks[..|checks| - 1];
      FailuresIsTrailingRun(init);
      forall i | |checks| - Failures(checks) <= i < |checks| ensures !checks[i] {
        if i < |init| { assert checks[i] == init[i]; }
      }
    }
  }

  /** The query "the last F checks all failed" against the counter. */
  lemma LastFailedIsCounter(checks: seq<bool>, threshold: nat)
    ensures (threshold <= |checks| && AllFailed(checks, |checks| - threshold, |checks|))
        <==> Failures(checks) >= threshold
  {
    FailuresIsTrailingRun(checks);
    var n := Failures(checks);
    if n < threshold <= |checks| { assert checks[|checks| - n - 1]; }
  }

  // ------------------------------------------------------------------ one check

  /** `evaluateStatus` by the counter; `checks` already holds the new check. */
  function NewStatus(status: Status, checks: seq<bool>, threshold: nat): Status
    requires checks != []
  {
    if checks[|checks| - 1] then Up else if Failures(checks) >= threshold then Down else status
  }

  function Recorded(m: Monitor, isUp: bool): Monitor {
    m.(checks := m.checks + [isUp], muffled := if isUp then m.status.Down? else m.muffled)
  }

  function Check(m: Monitor, isUp: bool, create: Reply, query: bool, update: Reply): Monitor {
    var m1 := if create.Applied() then Recorded(m, isUp) else m;
    if create.Failed? || (!isUp && !query) then m1
    else
      var next := NewStatus(m.status, m1.checks, m.origin.threshold);
      if next == m.status then m1
      else if update.Failed? then (if update.applied then m1.(stored := next) else m1)
      else m1.(status := next, stored := next, muffled := false,
               notices := if next.Down? then m1.notices + [|m1.checks| - 1] else m1.notices)
  }

  function Step(m: Monitor, e: Event): Monitor {
    match e
    case Configure(threshold) => m.(threshold := threshold)
    case Fetch(slot) => m.(copies := m.copies[slot := Copy(m.stored, m.threshold, |m.notices|, |m.checks|)])
    case Spawn(slot) =>
      if slot !in m.copies then m
      else m.(status := m.copies[slot].status, origin := m.copies[slot], spawned := |m.notices|,
              since := |m.checks|, muffled := false, copies := m.copies - {slot})
    case Ping(isUp, create, query, update) => Check(m, isUp, create, query, update)
  }

  function Run(m: Monitor, es: seq<Event>): Monitor {
    if es == [] then m else Step(Run(m, es[..|es| - 1]), es[|es| - 1])
  }

  /** No call of the check fails; a successful check makes no query. */
  predicate Works(e: Event) { e.Ping? && e.create.Ok? && (e.isUp || e.query) && e.update.Ok? }

  /** No call fails, the threshold stays as it is, and no check falls between the reading of a row and
      its spawning. */
  predicate SmoothEvent(threshold: nat, m: Monitor, e: Event) {
    match e
    case Ping(_, _, _, _) => Works(e)
    case Configure(t) => t == threshold
    case Fetch(_) => true
    case Spawn(slot) => slot in m.copies ==> m.copies[slot].seen == |m.checks|
  }

  /** An error-free history, with any number of respawns. */
  ghost predicate Smooth(threshold: nat, es: seq<Event>) {
    es == [] || (Smooth(threshold, es[..|es| - 1])
                 && SmoothEvent(threshold, Run(Fresh(threshold), es[..|es| - 1]), es[|es| - 1]))
  }

  function Results(es: seq<Event>): seq<bool> {
    if es == [] then []
    else Results(es[..|es| - 1]) + if es[|es| - 1].Ping? then [es[|es| - 1].isUp] else []
  }

  // ------------------------------------------------------------------ status closed form

  function ClosedForm(checks: seq<bool>, threshold: nat): Status {
    if Failures(checks) >= threshold then Down else if true in checks then Up else Unknown
  }

  /** The checker, the column, and every row read since the last check agree with the closed form. */
  ghost predicate InSync(m: Monitor, threshold: nat) {
    && m.threshold == m.origin.threshold == threshold
    && m.status == m.stored == ClosedForm(m.checks, threshold)
    && (forall slot :: slot in m.copies ==>
          var c := m.copies[slot];
          c.threshold == threshold && c.seen <= |m.checks| && (c.seen == |m.checks| ==> c.status == m.status))
  }

  lemma SmoothStep(m: Monitor, e: Event, threshold: nat)
    requires threshold >= 1 && InSync(m, threshold) && SmoothEvent(threshold, m, e)
    ensures InSync(Step(m, e), threshold)
    ensures Step(m, e).checks == m.checks + if e.Ping? then [e.isUp] else []
    ensures !e.Ping? ==> Step(m, e).notices == m.notices
  {
    if e.Ping? { ClosedFormSnoc(m.checks, e.isUp, threshold); }
  }

  lemma {:induction false} SmoothRun(es: seq<Event>, threshold: nat)
    requires threshold >= 1 && Smooth(threshold, es)
    ensures var m := Run(Fresh(threshold), es); InSync(m, threshold) && m.checks == Results(es)
  {
    if es != [] {
      SmoothRun(es[..|es| - 1], threshold);
      SmoothStep(Run(Fresh(threshold), es[..|es| - 1]), es[|es| - 1], threshold);
    }
  }

  /** Over every error-free history, respawns included, the status is down exactly when the trailing
      failure run has reached the threshold, else up if any check ever succeeded, else unknown. */
  lemma StatusClosedForm(es: seq<Event>, threshold: nat)
    requires threshold >= 1 && Smooth(threshold, es)
    ensures var m := Run(Fresh(threshold), es);
            m.checks == Results(es) && m.status == ClosedForm(Results(es), threshold) && m.stored == m.status
  {
    SmoothRun(es, threshold);
  }

  lemma ClosedFormSnoc(checks: seq<bool>, isUp: bool, threshold: nat)
    requires threshold >= 1
    ensures ClosedForm(checks + [isUp], threshold)
         == NewStatus(ClosedForm(checks, threshold), checks + [isUp], threshold)
  {
    assert (checks + [isUp])[..|checks|] == checks;
    assert true in checks + [isUp] <==> isUp || true in checks;
  }

  // ------------------------------------------------------------------ notifications

  /** A maximal failure run of at least `threshold` checks starts at `a`. */
  predicate LongRunAt(checks: seq<bool>, threshold: nat, a: int) {
    && 0 <= a && a + threshold <= |checks| && a < |checks|
    && (a > 0 ==> checks[a - 1]) && AllFailed(checks, a, a + threshold)
  }

  function LongRuns(checks: seq<bool>, threshold: nat): set<int> {
    set a | 0 <= a < |checks| && LongRunAt(checks, threshold, a)
  }

  /** A check completes a long run exactly when it takes the counter to the threshold. */
  lemma OneMoreCheck(checks: seq<bool>, isUp: bool, threshold: nat)
    requires threshold >= 1
    ensures var all := checks + [isUp];
            LongRuns(all, threshold)
            == LongRuns(checks, threshold) + if Failures(all) == threshold then {|all| - threshold} else {}
  {
    var all := checks + [isUp];
    FailuresIsTrailingRun(all);
    var n := Failures(all);
    forall a ensures a in LongRuns(all, threshold) <==>
                     a in LongRuns(checks, threshold) || (n == threshold && a == |all| - threshold) {
      if a + threshold <= |checks| && a >= 0 {
        LongRunKept(checks, isUp, threshold, a);
      } else if LongRunAt(all, threshold, a) {
        assert a == |all| - threshold;
        LastFailedIsCounter(all, threshold);
        if n > threshold { assert !all[a - 1]; }
      }
    }
  }

  lemma LongRunKept(checks: seq<bool>, isUp: bool, threshold: nat, a: nat)
    requires threshold >= 1 && a + threshold <= |checks|
    ensures LongRunAt(checks + [isUp], threshold, a) <==> LongRunAt(checks, threshold, a)
  {
    var all := checks + [isUp];
    assert forall i :: 0 <= i < |checks| ==> all[i] == checks[i];
  }

  /** Notification count: over every error-free history, respawns included, down notifications are as
      many as the maximal failure runs of at least the threshold. */
  lemma {:induction false} OneNoticePerLongRun(es: seq<Event>, threshold: nat)
    requires threshold >= 1 && Smooth(threshold, es)
    ensures |Run(Fresh(threshold), es).notices| == |LongRuns(Results(es), threshold)|
  {
    if es == [] {
      assert LongRuns(Results(es), threshold) == {};
    } else {
      var init, e := es[..|es| - 1], es[|es| - 1];
      OneNoticePerLongRun(init, threshold);
      SmoothRun(init, threshold);
      SmoothStep(Run(Fresh(threshold), init), e, threshold);
      if e.Ping? {
        OneMoreCount(Results(init), e.isUp, threshold);
        NoticeAtThreshold(Run(Fresh(threshold), init), e);
      }
    }
  }

  lemma OneMoreCount(checks: seq<bool>, isUp: bool, threshold: nat)
    requires threshold >= 1
    ensures var all := checks + [isUp];
            |LongRuns(all, threshold)| == |LongRuns(checks, threshold)| + if Failures(all) == threshold then 1 else 0
  {
    OneMoreCheck(checks, isUp, threshold);
    assert |checks + [isUp]| - threshold !in LongRuns(checks, threshold);
  }

  lemma FailuresSnoc(checks: seq<bool>, isUp: bool)
    ensures Failures(checks + [isUp]) == if isUp then 0 else Failures(checks) + 1
  {
    assert (checks + [isUp])[..|checks|] == checks;
  }

  lemma NoticeAtThreshold(m: Monitor, e: Event)
    requires m.origin.threshold >= 1 && Works(e) && m.status == ClosedForm(m.checks, m.origin.threshold)
    ensures |Step(m, e).notices|
         == |m.notices| + if Failures(m.checks + [e.isUp]) == m.origin.threshold then 1 else 0
  {
    FailuresSnoc(m.checks, e.isUp);
    var next := NewStatus(m.status, m.checks + [e.isUp], m.origin.threshold);
    assert next.Down? && next != m.status <==> Failures(m.checks + [e.isUp]) == m.origin.threshold;
  }

  // ------------------------------------------------------------------ one notice per failure run, and when not

  /** Some check after index `i` and before index `j` succeeded. */
  predicate UpBetween(checks: seq<bool>, i: nat, j: nat) {
    exists k :: i < k < j && k < |checks| && checks[k]
  }

  /** A success has come since the last notice. */
  predicate Recovered(m: Monitor) {
    m.notices != [] && UpBetween(m.checks, m.notices[|m.notices| - 1], |m.checks|)
  }

  /** A notice is behind us, and nothing has succeeded since. */
  predicate InAnnouncedRun(m: Monitor) { m.notices != [] && !Recovered(m) }

  /** The running checker was spawned after the last notice from a row that was read before it and did
      not say down. */
  predicate StaleSpawn(m: Monitor) {
    m.spawned == |m.notices| && m.origin.sent < |m.notices| && !m.origin.status.Down?
  }

  /** What is known of a row that was read: as long as nothing succeeds after a notice, the rows read
      since say down. */
  predicate CopyOk(m: Monitor, c: Copy) {
    && c.threshold >= 1 && c.sent <= |m.notices|
    && (InAnnouncedRun(m) && c.sent == |m.notices| ==> c.status.Down?)
  }

  ghost predicate StatusOk(m: Monitor) {
    && m.threshold >= 1
    && (forall i :: 0 <= i < |m.notices| ==> m.notices[i] < |m.checks|)
    && (InAnnouncedRun(m) ==> m.stored.Down?)
    && CopyOk(m, m.origin)
    && (forall slot :: slot in m.copies ==> CopyOk(m, m.copies[slot]))
    && m.spawned <= |m.notices|
    && (InAnnouncedRun(m) ==> m.status == if m.spawned == |m.notices| then m.origin.status else Down)
  }

  /** Thresholds are validated before they are stored. */
  predicate Valid(e: Event) { e.Configure? ==> e.threshold >= 1 }

  predicate AllValid(es: seq<Event>) { forall i :: 0 <= i < |es| ==> Valid(es[i]) }

  lemma AppendRecovers(m: Monitor, isUp: bool)
    requires forall i :: 0 <= i < |m.notices| ==> m.notices[i] < |m.checks|
    ensures var m' := Recorded(m, isUp);
            m.notices != [] ==> (Recovered(m') <==> Recovered(m) || isUp)
  {
    var m' := Recorded(m, isUp);
    if m.notices != [] {
      var last := m.notices[|m.notices| - 1];
      if Recovered(m) {
        var k :| last < k < |m.checks| && m.checks[k];
        assert m'.checks[k];
      }
      if isUp { assert m'.checks[|m.checks|]; }
      if Recovered(m') && !isUp {
        var k :| last < k < |m'.checks| && m'.checks[k];
        assert m.checks[k];
      }
    }
  }

  lemma CheckKeepsStatusOk(m: Monitor, isUp: bool, create: Reply, query: bool, update: Reply)
    requires StatusOk(m)
    ensures StatusOk(Check(m, isUp, create, query, update))
  {
    AppendRecovers(m, isUp);
  }

  lemma StepKeepsStatusOk(m: Monitor, e: Event)
    requires StatusOk(m) && Valid(e)
    ensures StatusOk(Step(m, e))
  {
    match e {
      case Ping(isUp, create, query, update) => CheckKeepsStatusOk(m, isUp, create, query, update);
      case _ =>
        assert Recovered(Step(m, e)) == Recovered(m);
    }
  }

  lemma {:induction false} RunKeepsStatusOk(threshold: nat, es: seq<Event>)
    requires threshold >= 1 && AllValid(es)
    ensures StatusOk(Run(Fresh(threshold), es))
  {
    if es != [] {
      RunKeepsStatusOk(threshold, es[..|es| - 1]);
      StepKeepsStatusOk(Run(Fresh(threshold), es[..|es| - 1]), es[|es| - 1]);
    }
  }

  /** In an announced failure run the checker takes the monitor for down, except after a stale spawn. */
  lemma CheckerForgetsExactlyWhen(threshold: nat, es: seq<Event>)
    requires threshold >= 1 && AllValid(es) && InAnnouncedRun(Run(Fresh(threshold), es))
    ensures var m := Run(Fresh(threshold), es); !m.status.Down? <==> StaleSpawn(m)
  {
    RunKeepsStatusOk(threshold, es);
  }

  /** The step sends a down notice in a failure run that has had one. */
  predicate Repeats(m: Monitor, e: Event) {
    InAnnouncedRun(m) && |Step(m, e).notices| > |m.notices|
    && !UpBetween(Step(m, e).checks, m.notices[|m.notices| - 1], |m.checks|)
  }

  /** The guard of the repetition, before the step: the checker is a stale spawn, and this check fails,
      is recorded and evaluated, and completes its threshold of failures. */
  predicate StaleAlarm(m: Monitor, e: Event) {
    && InAnnouncedRun(m) && StaleSpawn(m)
    && Works(e) && !e.isUp
    && Failures(m.checks) + 1 >= m.origin.threshold
  }

  /** A down notice is repeated within one failure run exactly by a stale spawn's alarm. */
  lemma RepeatsExactlyWhen(threshold: nat, es: seq<Event>, e: Event)
    requires threshold >= 1 && AllValid(es)
    ensures var m := Run(Fresh(threshold), es); Repeats(m, e) <==> StaleAlarm(m, e)
  {
    RunKeepsStatusOk(threshold, es);
    RepeatsIsStaleAlarm(Run(Fresh(threshold), es), e);
  }

  lemma RepeatsIsStaleAlarm(m: Monitor, e: Event)
    requires StatusOk(m)
    ensures Repeats(m, e) <==> StaleAlarm(m, e)
  {
    if InAnnouncedRun(m) && e.Ping? {
      AppendRecovers(m, e.isUp);
      assert (m.checks + [e.isUp])[..|m.checks|] == m.checks;
      UpBetweenKept(m.checks, e.isUp, m.notices[|m.notices| - 1], |m.checks|);
    }
  }

  lemma UpBetweenKept(checks: seq<bool>, isUp: bool, i: nat, j: nat)
    requires j <= |checks|
    ensures UpBetween(checks + [isUp], i, j) <==> UpBetween(checks, i, j)
  {
    var all := checks + [isUp];
    assert forall k :: 0 <= k < |checks| ==> all[k] == checks[k];
  }

  /** Every two consecutive notices have a success between them. */
  ghost predicate OneNoticePerRun(m: Monitor) {
    forall i :: 0 < i < |m.notices| ==> UpBetween(m.checks, m.notices[i - 1], m.notices[i])
  }

  lemma StepKeepsNoticesApart(m: Monitor, e: Event)
    requires StatusOk(m)
    ensures OneNoticePerRun(Step(m, e)) <==> OneNoticePerRun(m) && !Repeats(m, e)
  {
    var m' := Step(m, e);
    if e.Ping? && e.create.Applied() {
      forall i | 0 < i < |m.notices|
        ensures UpBetween(m'.checks, m.notices[i - 1], m.notices[i]) <==> UpBetween(m.checks, m.notices[i - 1], m.notices[i])
      {
        UpBetweenKept(m.checks, e.isUp, m.notices[i - 1], m.notices[i]);
      }
      LastNotice(m, m', e);
    }
  }

  lemma LastNotice(m: Monitor, m': Monitor, e: Event)
    requires StatusOk(m) && e.Ping? && e.create.Applied() && m' == Step(m, e)
    ensures m.notices <= m'.notices && |m'.notices| <= |m.notices| + 1
    ensures m.notices != [] && |m'.notices| > |m.notices| ==>
              (UpBetween(m'.checks, m'.notices[|m.notices| - 1], m'.notices[|m.notices|]) <==> !Repeats(m, e))
  {
    if m.notices != [] {
      UpBetweenKept(m.checks, e.isUp, m.notices[|m.notices| - 1], |m.checks|);
    }
  }

  ghost predicate AlarmAt(threshold: nat, es: seq<Event>, k: nat)
    requires k < |es|
  {
    StaleAlarm(Run(Fresh(threshold), es[..k]), es[k])
  }

  /** The alarm of a stale spawn is raised somewhere in the run. */
  ghost predicate SomeStaleAlarm(threshold: nat, es: seq<Event>) {
    exists k :: 0 <= k < |es| && AlarmAt(threshold, es, k)
  }

  /** Over every history, with changing thresholds, failing calls and respawns that overlap with checks:
      there is at most one down notice per failure run if and only if no stale spawn raised an alarm. */
  lemma {:induction false} OneNoticePerRunExactlyWhen(threshold: nat, es: seq<Event>)
    requires threshold >= 1 && AllValid(es)
    ensures OneNoticePerRun(Run(Fresh(threshold), es)) <==> !SomeStaleAlarm(threshold, es)
  {
    if es != [] {
      var init, e := es[..|es| - 1], es[|es| - 1];
      var m := Run(Fresh(threshold), init);
      OneNoticePerRunExactlyWhen(threshold, init);
      RunKeepsStatusOk(threshold, init);
      RepeatsIsStaleAlarm(m, e);
      StepKeepsNoticesApart(m, e);
      AlarmInPrefix(threshold, es);
    }
  }

  lemma AlarmInPrefix(threshold: nat, es: seq<Event>)
    requires es != []
    ensures var last := |es| - 1;
            SomeStaleAlarm(threshold, es) <==> SomeStaleAlarm(threshold, es[..last]) || AlarmAt(threshold, es, last)
  {
    var last := |es| - 1;
    forall k | 0 <= k < last ensures AlarmAt(threshold, es[..last], k) == AlarmAt(threshold, es, k) {
      assert es[..last][..k] == es[..k];
    }
  }

  /** Every spawned row was read after the latest notice, as when no check falls between the reading
      and the spawning. */
  ghost predicate NeatRespawns(threshold: nat, es: seq<Event>) {
    forall k :: 0 <= k < |es| ==> NeatRespawn(Run(Fresh(threshold), es[..k]), es[k])
  }

  predicate NeatRespawn(m: Monitor, e: Event) {
    e.Spawn? && e.slot in m.copies ==> m.copies[e.slot].sent == |m.notices|
  }

  lemma {:induction false} NeatRunsAreNotStale(threshold: nat, es: seq<Event>)
    requires NeatRespawns(threshold, es)
    ensures var m := Run(Fresh(threshold), es); m.origin.sent == m.spawned
  {
    if es != [] {
      var last := |es| - 1;
      assert NeatRespawn(Run(Fresh(threshold), es[..last]), es[last]);
      forall k | 0 <= k < last ensures NeatRespawn(Run(Fresh(threshold), es[..last][..k]), es[..last][k]) {
        assert es[..last][..k] == es[..k];
        assert NeatRespawn(Run(Fresh(threshold), es[..k]), es[k]);
      }
      NeatRunsAreNotStale(threshold, es[..last]);
    }
  }

  /** With neat respawns any two down notices have a successful check between them. */
  lemma AtMostOneNoticePerRun(threshold: nat, es: seq<Event>, i: nat, j: nat)
    requires threshold >= 1 && AllValid(es) && NeatRespawns(threshold, es)
    requires i < j < |Run(Fresh(threshold), es).notices|
    ensures var m := Run(Fresh(threshold), es); UpBetween(m.checks, m.notices[i], m.notices[j])
  {
    var m := Run(Fresh(threshold), es);
    OneNoticePerRunExactlyWhen(threshold, es);
    if SomeStaleAlarm(threshold, es) {
      var k :| 0 <= k < |es| && AlarmAt(threshold, es, k);
      NeatPrefix(threshold, es, k);
      NeatRunsAreNotStale(threshold, es[..k]);
      assert false;
    }
    RunKeepsStatusOk(threshold, es);
    NoticesChain(m, i, j);
  }

  lemma NeatPrefix(threshold: nat, es: seq<Event>, n: nat)
    requires NeatRespawns(threshold, es) && n <= |es|
    ensures NeatRespawns(threshold, es[..n])
  {
    forall k | 0 <= k < n ensures NeatRespawn(Run(Fresh(threshold), es[..n][..k]), es[..n][k]) {
      assert es[..n][..k] == es[..k];
      assert NeatRespawn(Run(Fresh(threshold), es[..k]), es[k]);
    }
  }

  lemma {:induction false} NoticesChain(m: Monitor, i: nat, j: nat)
    requires OneNoticePerRun(m) && i < j < |m.notices|
    ensures UpBetween(m.checks, m.notices[i], m.notices[j])
  {
    assert UpBetween(m.checks, m.notices[j - 1], m.notices[j]);
    if i < j - 1 {
      NoticesChain(m, i, j - 1);
      var k :| m.notices[i] < k < m.notices[j - 1] && k < |m.checks| && m.checks[k];
      var k' :| m.notices[j - 1] < k' < m.notices[j] && k' < |m.checks| && m.checks[k'];
      assert m.notices[i] < k' < m.notices[j];
    }
  }

  function Failing(): Event { Ping(false, Ok, true, Ok) }

  /** The row is read while the monitor is up, the running checker then announces the failure, and the
      checker spawned from the old row announces it again. */
  lemma StaleSpawnNotifiesTwice() returns (es: seq<Event>)
    ensures AllValid(es)
    ensures var m := Run(Fresh(3), es); m.notices == [3, 4] && !UpBetween(m.checks, 3, 4)
  {
    var m0 := Fresh(3);
    var m: Monitor;
    es, m := UpThenTwoFailures();
    es, m := Then(m0, es, m, Fetch(0));
    es, m := ThenFails(m0, es, m);
    es, m := Then(m0, es, m, Spawn(0));
    es, m := ThenFails(m0, es, m);
    assert m.checks == [true, false, false, false, false];
  }

  lemma UpThenTwoFailures() returns (es: seq<Event>, m: Monitor)
    ensures AllValid(es) && m == Run(Fresh(3), es)
    ensures m == Fresh(3).(status := Up, stored := Up, checks := [true, false, false]) && Failures(m.checks) == 2
  {
    es, m := Then(Fresh(3), [], Fresh(3), Ping(true, Ok, true, Ok));
    assert m == Fresh(3).(status := Up, stored := Up, checks := [true]);
    es, m := ThenFails(Fresh(3), es, m);
    es, m := ThenFails(Fresh(3), es, m);
  }

  lemma ThenFails(m0: Monitor, es: seq<Event>, m: Monitor) returns (es': seq<Event>, m': Monitor)
    requires m == Run(m0, es) && AllValid(es)
    ensures AllValid(es') && m' == Run(m0, es')
    ensures Failures(m'.checks) == Failures(m.checks) + 1
    ensures var m1 := m.(checks := m.checks + [false]);
            m' == if Failures(m.checks) + 1 < m.origin.threshold || m.status.Down? then m1
                  else m1.(status := Down, stored := Down, muffled := false, notices := m.notices + [|m.checks|])
  {
    assert (m.checks + [false])[..|m.checks|] == m.checks;
    es', m' := Then(m0, es, m, Failing());
  }

  /** Extends a run by one event. */
  lemma Then(m0: Monitor, es: seq<Event>, m: Monitor, e: Event) returns (es': seq<Event>, m': Monitor)
    requires m == Run(m0, es) && AllValid(es) && Valid(e)
    ensures es' == es + [e] && AllValid(es') && m' == Run(m0, es') == Step(m, e)
  {
    es', m' := es + [e], Step(m, e);
    assert es'[..|es|] == es;
  }

  // ------------------------------------------------------------------ failure runs without a notice

  /** A check has succeeded since the running checker was spawned. */
  predicate SuccessSinceSpawn(m: Monitor) {
    exists k :: m.since <= k < |m.checks| && m.checks[k]
  }

  /** The checker holds the monitor for down on account of the past: it was spawned from a row that said
      so and has had no success, or its last success did not get through to its status. */
  predicate Deaf(m: Monitor) {
    if SuccessSinceSpawn(m) then m.muffled else m.origin.status.Down?
  }

  /** Notices are about failed checks, in the order of the checks. */
  predicate NoticesOk(m: Monitor) {
    && (forall i :: 0 <= i < |m.notices| ==> m.notices[i] < |m.checks| && !m.checks[m.notices[i]])
    && (forall i, j :: 0 <= i < j < |m.notices| ==> m.notices[i] < m.notices[j])
  }

  ghost predicate DeafOk(m: Monitor) {
    && m.since <= |m.checks| && NoticesOk(m)
    && (!InAnnouncedRun(m) ==> (m.status.Down? <==> Deaf(m)))
  }

  lemma RecordedSuccess(m: Monitor, isUp: bool)
    requires m.since <= |m.checks|
    ensures SuccessSinceSpawn(Recorded(m, isUp)) <==> SuccessSinceSpawn(m) || isUp
  {
    var m' := Recorded(m, isUp);
    assert m'.checks[|m.checks|] == isUp;
    assert forall k :: 0 <= k < |m.checks| ==> m'.checks[k] == m.checks[k];
  }

  /** This check is recorded as a success, whatever its checker makes of it. */
  predicate RecordsSuccess(e: Event) { e.Ping? && e.isUp && e.create.Applied() }

  /** A working check fails and completes the threshold, and its checker is not deaf. */
  predicate Alarm(m: Monitor, e: Event) {
    Works(e) && !e.isUp && Failures(m.checks) + 1 >= m.origin.threshold && !Deaf(m)
  }

  /** This check sends a notice. */
  predicate Sends(m: Monitor, e: Event) {
    Works(e) && !e.isUp && Failures(m.checks) + 1 >= m.origin.threshold && !m.status.Down?
  }

  /** What a failed check that is recorded leaves. */
  lemma FailureLeaves(m: Monitor, e: Event)
    requires e.Ping? && !e.isUp && e.create.Applied()
    ensures var m', r := Step(m, e), Recorded(m, false);
            if Sends(m, e)
            then m' == r.(status := Down, stored := Down, muffled := false, notices := m.notices + [|m.checks|])
            else m' == r.(stored := m'.stored)
  {
    FailuresSnoc(m.checks, false);
  }

  lemma SuccessKeepsDeafOk(m: Monitor, e: Event)
    requires m.since <= |m.checks| && NoticesOk(m) && RecordsSuccess(e)
    ensures DeafOk(Step(m, e)) && !InAnnouncedRun(Step(m, e))
  {
    AppendRecovers(m, true);
    RecordedSuccess(m, true);
  }

  lemma FailureKeepsDeafOk(m: Monitor, e: Event)
    requires DeafOk(m) && e.Ping? && !e.isUp && e.create.Applied()
    ensures DeafOk(Step(m, e))
    ensures InAnnouncedRun(Step(m, e)) <==> InAnnouncedRun(m) || Alarm(m, e)
  {
    FailureLeaves(m, e);
    AppendRecovers(m, false);
    RecordedSuccess(m, false);
  }

  lemma CheckKeepsDeafOk(m: Monitor, e: Event)
    requires DeafOk(m) && e.Ping?
    ensures DeafOk(Step(m, e))
    ensures InAnnouncedRun(Step(m, e)) <==> !RecordsSuccess(e) && (InAnnouncedRun(m) || Alarm(m, e))
  {
    if RecordsSuccess(e) {
      SuccessKeepsDeafOk(m, e);
    } else if e.create.Applied() {
      FailureKeepsDeafOk(m, e);
    }
  }

  lemma StepKeepsDeafOk(m: Monitor, e: Event)
    requires DeafOk(m)
    ensures DeafOk(Step(m, e))
    ensures InAnnouncedRun(Step(m, e)) <==> !RecordsSuccess(e) && (InAnnouncedRun(m) || Alarm(m, e))
  {
    if e.Ping? { CheckKeepsDeafOk(m, e); }
  }

  /** An alarm has been raised since the last recorded success. */
  ghost predicate AlarmInRun(threshold: nat, es: seq<Event>) {
    es != [] && !RecordsSuccess(es[|es| - 1])
    && (AlarmInRun(threshold, es[..|es| - 1]) || Alarm(Run(Fresh(threshold), es[..|es| - 1]), es[|es| - 1]))
  }

  lemma {:induction false} AnnouncedExactlyWhen(threshold: nat, es: seq<Event>)
    ensures var m := Run(Fresh(threshold), es); DeafOk(m) && (InAnnouncedRun(m) <==> AlarmInRun(threshold, es))
  {
    if es != [] {
      AnnouncedExactlyWhen(threshold, es[..|es| - 1]);
      StepKeepsDeafOk(Run(Fresh(threshold), es[..|es| - 1]), es[|es| - 1]);
    }
  }

  /** A down notice has been sent for the failure run the monitor is in. */
  predicate RunAnnounced(m: Monitor) {
    exists i :: 0 <= i < |m.notices| && |m.checks| - Failures(m.checks) <= m.notices[i] < |m.checks|
  }

  lemma RunAnnouncedIsInAnnouncedRun(m: Monitor)
    requires DeafOk(m)
    ensures RunAnnounced(m) <==> InAnnouncedRun(m)
  {
    FailuresIsTrailingRun(m.checks);
    var start := |m.checks| - Failures(m.checks);
    if m.notices != [] {
      var last := m.notices[|m.notices| - 1];
      if start <= last {
        assert forall k :: last < k < |m.checks| ==> !m.checks[k];
      } else {
        assert m.checks[start - 1] && last < start - 1;
      }
    }
  }

  /** Over every history: the failure run the monitor is in has had its notice if and only if some check
      of it raised an alarm. So a run that has reached its checker's threshold goes without one exactly
      when each check that completed the threshold had a failing call or was made by a deaf checker. */
  lemma MissedExactlyWhen(threshold: nat, es: seq<Event>)
    ensures RunAnnounced(Run(Fresh(threshold), es)) <==> AlarmInRun(threshold, es)
  {
    AnnouncedExactlyWhen(threshold, es);
    RunAnnouncedIsInAnnouncedRun(Run(Fresh(threshold), es));
  }

  /** A lost reply to the status update, and a respawn, keep a monitor's first failure silent, however
      long it lasts. */
  lemma {:induction false} MissedForEver(n: nat) returns (es: seq<Event>)
    ensures AllValid(es)
    ensures var m := Run(Fresh(1), es);
            |m.checks| == Failures(m.checks) == n + 1 && m.notices == [] && m.status.Down? && m.origin.threshold == 1
  {
    var m: Monitor;
    if n == 0 {
      es, m := Then(Fresh(1), [], Fresh(1), Ping(false, Ok, true, Failed(true)));
      FailuresSnoc([], false);
      es, m := Then(Fresh(1), es, m, Fetch(0));
      es, m := Then(Fresh(1), es, m, Spawn(0));
    } else {
      es := MissedForEver(n - 1);
      es, m := ThenFails(Fresh(1), es, Run(Fresh(1), es));
    }
  }

  // ------------------------------------------------------------------ the code

  class MonitorChecker {
    var m: Monitor

    constructor (threshold: nat)
      ensures m == Fresh(threshold)
    {
      m := Fresh(threshold);
    }

    /** ORDER BY checked_at DESC LIMIT n */
    method ListRecent(limit: nat) returns (recent: seq<bool>)
      ensures |recent| == if limit < |m.checks| then limit else |m.checks|
      ensures forall i :: 0 <= i < |recent| ==> recent[i] == m.checks[|m.checks| - 1 - i]
    {
      var n := if limit < |m.checks| then limit else |m.checks|;
      recent := [];
      for i := 0 to n
        invariant |recent| == i
        invariant forall k :: 0 <= k < i ==> recent[k] == m.checks[|m.checks| - 1 - k]
      {
        recent := recent + [m.checks[|m.checks| - 1 - i]];
      }
    }

    /** `evaluateStatus`: down only when the last `threshold` checks all failed, which is what a
        consecutive-failure counter would say. */
    method EvaluateStatus(isUp: bool, query: bool) returns (status: Status, err: bool)
      requires m.origin.threshold >= 1 && m.checks != [] && m.checks[|m.checks| - 1] == isUp
      ensures err <==> !isUp && !query
      ensures !err ==> status == NewStatus(m.status, m.checks, m.origin.threshold)
    {
      var threshold := m.origin.threshold;
      if isUp { return Up, false; }
      if !query { return m.status, true; }
      var recent := ListRecent(threshold);
      LastFailedIsCounter(m.checks, threshold);
      if |recent| < threshold { return m.status, false; }
      for i := 0 to |recent|
        invariant forall k :: 0 <= k < i ==> !recent[k]
      {
        if recent[i] {
          assert m.checks[|m.checks| - 1 - i];
          return m.status, false;
        }
      }
      forall i | |m.checks| - threshold <= i < |m.checks| ensures !m.checks[i] {
        assert m.checks[i] == recent[|m.checks| - 1 - i];
      }
      return Down, false;
    }

    /** `Check`, given what the ping and the repositories return. */
    method Check(isUp: bool, create: Reply, query: bool, update: Reply)
      requires m.origin.threshold >= 1
      modifies this
      ensures m == Step(old(m), Ping(isUp, create, query, update))
    {
      if create.Applied() { m := Recorded(m, isUp); }
      if create.Failed? { return; }
      var newStatus, err := EvaluateStatus(isUp, query);
      if err { return; }
      if newStatus != m.status {
        if update.Applied() { m := m.(stored := newStatus); }
        if update.Failed? { return; }
        m := m.(status := newStatus, muffled := false);
        if newStatus == Down { m := m.(notices := m.notices + [|m.checks| - 1]); }
      }
    }
  }
}
