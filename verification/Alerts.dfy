/** Alert evaluation (internal/usecase/evaluate_alert.go): the cooldown per rule and issue, and
    the threshold tick with its per-tick cache of counts. */
module AlertCooldown {
  import opened Arithmetic

  /** A call to Postgres may fail, before or after it took effect. */
  datatype Reply = Ok | Failed(applied: bool) {
    predicate Applied() { Ok? || applied }
  }

  /** What one evaluation meets: its clock, the replies to its calls, and the database clock when
      the log row is written. */
  datatype Attempt = Attempt(now: int, lookup: bool, send: bool, create: Reply, sentAt: int)

  /** The alert_logs rows of one rule and issue, oldest first. */
  type Log = seq<int>

  /** ORDER BY sent_at DESC LIMIT 1, for rows written on a monotone clock. */
  predicate Cooling(log: Log, cooldown: nat, now: int) {
    log != [] && now < log[|log| - 1] + cooldown
  }

  /** `notifyIfNotCooldown` calls the notifier. */
  predicate Notifies(log: Log, cooldown: nat, a: Attempt) {
    a.lookup && !Cooling(log, cooldown, a.now)
  }

  /** The log after the attempt: a row is written only after a successful send. */
  function LogAfter(log: Log, cooldown: nat, a: Attempt): Log {
    if Notifies(log, cooldown, a) && a.send && a.create.Applied() then log + [a.sentAt] else log
  }

  function LogOf(cooldown: nat, attempts: seq<Attempt>): Log {
    if attempts == [] then []
    else LogAfter(LogOf(cooldown, attempts[..|attempts| - 1]), cooldown, attempts[|attempts| - 1])
  }

  /** Successful sends, and those of them whose log row was not written. */
  function Sends(cooldown: nat, attempts: seq<Attempt>): nat {
    if attempts == [] then 0
    else
      var init, a := attempts[..|attempts| - 1], attempts[|attempts| - 1];
      Sends(cooldown, init) + if Notifies(LogOf(cooldown, init), cooldown, a) && a.send then 1 else 0
  }

  function Unlogged(cooldown: nat, attempts: seq<Attempt>): nat {
    if attempts == [] then 0
    else
      var init, a := attempts[..|attempts| - 1], attempts[|attempts| - 1];
      Unlogged(cooldown, init)
      + if Notifies(LogOf(cooldown, init), cooldown, a) && a.send && !a.create.Applied() then 1 else 0
  }

  /** Sequential evaluation on a monotone clock. */
  predicate Sequential(attempts: seq<Attempt>) {
    && (forall i :: 0 <= i < |attempts| ==> attempts[i].now <= attempts[i].sentAt)
    && (forall i, j :: 0 <= i < j < |attempts| ==> attempts[i].sentAt <= attempts[j].now)
  }

  /** A log row exists only after a successful send; the difference is the failed log writes. */
  lemma {:induction false} SendsMinusLogs(cooldown: nat, attempts: seq<Attempt>)
    ensures Sends(cooldown, attempts) == |LogOf(cooldown, attempts)| + Unlogged(cooldown, attempts)
  {
    if attempts != [] { SendsMinusLogs(cooldown, attempts[..|attempts| - 1]); }
  }

  ghost predicate Spaced(log: Log, cooldown: nat) {
    forall i :: 0 < i < |log| ==> log[i] - log[i - 1] >= cooldown
  }

  /** Cooldown spacing: consecutive logged sends are at least the cooldown apart. */
  lemma {:induction false} LoggedSendsAreSpaced(cooldown: nat, attempts: seq<Attempt>)
    requires Sequential(attempts)
    ensures Spaced(LogOf(cooldown, attempts), cooldown)
    ensures forall t :: t in LogOf(cooldown, attempts) ==> t <= attempts[|attempts| - 1].sentAt
  {
    if attempts != [] {
      var init, a := attempts[..|attempts| - 1], attempts[|attempts| - 1];
      LoggedSendsAreSpaced(cooldown, init);
      if init != [] { assert init[|init| - 1].sentAt <= a.now; }
    }
  }

  function CountIn(log: Log, lo: int, hi: int): nat {
    if log == [] then 0
    else CountIn(log[..|log| - 1], lo, hi) + if lo <= log[|log| - 1] <= hi then 1 else 0
  }

  lemma {:induction false} NothingBefore(log: Log, cooldown: nat, lo: int, hi: int)
    requires Spaced(log, cooldown) && (log != [] ==> log[|log| - 1] < lo)
    ensures CountIn(log, lo, hi) == 0
  {
    if log != [] { NothingBefore(log[..|log| - 1], cooldown, lo, hi); }
  }

  lemma {:induction false} CountUpToLast(log: Log, cooldown: nat, lo: int, hi: int)
    requires cooldown > 0 && Spaced(log, cooldown) && log != [] && lo <= log[|log| - 1]
    ensures CountIn(log, lo, hi) <= (log[|log| - 1] - lo) / cooldown + 1
  {
    var init, last := log[..|log| - 1], log[|log| - 1];
    if init == [] || init[|init| - 1] < lo {
      NothingBefore(init, cooldown, lo, hi);
      FloorMonotone(0, last - lo, cooldown);
    } else {
      var prev := init[|init| - 1];
      CountUpToLast(init, cooldown, lo, hi);
      assert last - prev >= cooldown;
      FloorMonotone(prev - lo, last - lo - cooldown, cooldown);
      FloorShift(last - lo - cooldown, cooldown);
    }
  }

  /** Any closed interval of length T holds at most T / cooldown + 1 logged sends. */
  lemma {:induction false} SendsPerInterval(log: Log, cooldown: nat, lo: int, length: nat)
    requires cooldown > 0 && Spaced(log, cooldown)
    ensures CountIn(log, lo, lo + length) <= length / cooldown + 1
  {
    FloorMonotone(0, length, cooldown);
    if log != [] {
      var init, last := log[..|log| - 1], log[|log| - 1];
      if lo <= last <= lo + length {
        CountUpToLast(log, cooldown, lo, lo + length);
        FloorMonotone(last - lo, length, cooldown);
      } else {
        SendsPerInterval(init, cooldown, lo, length);
      }
    }
  }

  /** The two together: what a rule can log about one issue in a stretch of time. */
  lemma AlertRate(cooldown: nat, attempts: seq<Attempt>, lo: int, length: nat)
    requires cooldown > 0 && Sequential(attempts)
    ensures CountIn(LogOf(cooldown, attempts), lo, lo + length) <= length / cooldown + 1
  {
    LoggedSendsAreSpaced(cooldown, attempts);
    SendsPerInterval(LogOf(cooldown, attempts), cooldown, lo, length);
  }

  // ------------------------------------------------------------------ who notifies, and how often at least

  predicate InOrder(log: Log) {
    forall i, j :: 0 <= i < j < |log| ==> log[i] <= log[j]
  }

  /** No logged send lies less than the cooldown back. */
  predicate Clear(log: Log, cooldown: nat, now: int) {
    forall i :: 0 <= i < |log| ==> now - log[i] >= cooldown
  }

  lemma NotifiesIfClear(log: Log, cooldown: nat, a: Attempt)
    requires InOrder(log)
    ensures Notifies(log, cooldown, a) <==> a.lookup && Clear(log, cooldown, a.now)
  {}

  lemma {:induction false} LogInOrder(cooldown: nat, attempts: seq<Attempt>)
    requires Sequential(attempts)
    ensures InOrder(LogOf(cooldown, attempts))
  {
    if attempts != [] {
      var init, a := attempts[..|attempts| - 1], attempts[|attempts| - 1];
      LogInOrder(cooldown, init);
      LoggedSendsAreSpaced(cooldown, init);
      if init != [] { assert init[|init| - 1].sentAt <= a.now; }
    }
  }

  lemma SequentialPrefix(attempts: seq<Attempt>, a: Attempt)
    requires Sequential(attempts + [a])
    ensures Sequential(attempts)
  {
    assert (attempts + [a])[..|attempts|] == attempts;
    forall i, j | 0 <= i < j < |attempts| ensures attempts[i].sentAt <= attempts[j].now {
      assert (attempts + [a])[i] == attempts[i] && (attempts + [a])[j] == attempts[j];
    }
    forall i | 0 <= i < |attempts| ensures attempts[i].now <= attempts[i].sentAt {
      assert (attempts + [a])[i] == attempts[i];
    }
  }

  /** After any sequence of attempts, the next one calls the notifier if and only if its lookup works and
      every logged send lies at least the cooldown back. */
  lemma NotifiesExactlyWhen(cooldown: nat, attempts: seq<Attempt>, a: Attempt)
    requires Sequential(attempts + [a])
    ensures Notifies(LogOf(cooldown, attempts), cooldown, a) <==>
            a.lookup && forall t :: t in LogOf(cooldown, attempts) ==> a.now - t >= cooldown
  {
    SequentialPrefix(attempts, a);
    LogInOrder(cooldown, attempts);
    var log := LogOf(cooldown, attempts);
    NotifiesIfClear(log, cooldown, a);
    if forall t :: t in log ==> a.now - t >= cooldown {
      assert forall i :: 0 <= i < |log| ==> log[i] in log;
    }
  }

  /** Every call the attempt makes works. */
  predicate Working(a: Attempt) { a.lookup && a.send && a.create.Ok? }

  /** A logged send shortly before the attempt, or its own. */
  predicate Covered(log: Log, cooldown: nat, a: Attempt) {
    exists i :: 0 <= i < |log| && a.now - cooldown < log[i] <= a.sentAt
  }

  lemma LogBehind(cooldown: nat, attempts: seq<Attempt>, a: Attempt)
    requires Sequential(attempts + [a])
    ensures InOrder(LogOf(cooldown, attempts)) && a.now <= a.sentAt
    ensures forall i :: 0 <= i < |LogOf(cooldown, attempts)| ==> LogOf(cooldown, attempts)[i] <= a.now
  {
    SequentialPrefix(attempts, a);
    LogInOrder(cooldown, attempts);
    LoggedSendsAreSpaced(cooldown, attempts);
    var all, n := attempts + [a], |attempts|;
    assert all[n] == a && (n > 0 ==> all[n - 1].sentAt <= all[n].now);
    forall i | 0 <= i < |LogOf(cooldown, attempts)| ensures LogOf(cooldown, attempts)[i] <= a.now {
      assert LogOf(cooldown, attempts)[i] in LogOf(cooldown, attempts);
    }
  }

  lemma CoveredStays(log: Log, log': Log, cooldown: nat, a: Attempt)
    requires Covered(log, cooldown, a) && log <= log'
    ensures Covered(log', cooldown, a)
  {
    var k :| 0 <= k < |log| && a.now - cooldown < log[k] <= a.sentAt;
    assert log'[k] == log[k];
  }

  lemma CoveredAfter(log: Log, cooldown: nat, a: Attempt)
    requires InOrder(log) && cooldown > 0 && Working(a) && a.now <= a.sentAt
    requires forall i :: 0 <= i < |log| ==> log[i] <= a.now
    ensures Covered(LogAfter(log, cooldown, a), cooldown, a)
  {
    var log' := LogAfter(log, cooldown, a);
    assert a.now - cooldown < log'[|log'| - 1] <= a.sentAt;
  }

  /** The log is never silent for long: whenever an attempt works, a send has been logged within the
      cooldown before it, if not by itself. */
  lemma {:induction false} WorkingAttemptsAreCovered(cooldown: nat, attempts: seq<Attempt>, i: nat)
    requires cooldown > 0 && Sequential(attempts) && i < |attempts| && Working(attempts[i])
    ensures Covered(LogOf(cooldown, attempts), cooldown, attempts[i])
  {
    var init, last := attempts[..|attempts| - 1], attempts[|attempts| - 1];
    assert attempts == init + [last];
    SequentialPrefix(init, last);
    if i == |init| {
      LogBehind(cooldown, init, last);
      CoveredAfter(LogOf(cooldown, init), cooldown, last);
    } else {
      WorkingAttemptsAreCovered(cooldown, init, i);
      CoveredStays(LogOf(cooldown, init), LogOf(cooldown, attempts), cooldown, attempts[i]);
    }
  }

  /** Working attempts, each at least a cooldown after the send before it, are all logged. */
  lemma {:induction false} SpacedAttemptsAreLogged(cooldown: nat, attempts: seq<Attempt>)
    requires forall i :: 0 <= i < |attempts| ==> Working(attempts[i])
    requires forall i :: 0 < i < |attempts| ==> attempts[i].now >= attempts[i - 1].sentAt + cooldown
    ensures |LogOf(cooldown, attempts)| == |attempts|
    ensures forall i :: 0 <= i < |attempts| ==> LogOf(cooldown, attempts)[i] == attempts[i].sentAt
  {
    if attempts != [] { SpacedAttemptsAreLogged(cooldown, attempts[..|attempts| - 1]); }
  }
}

module AlertEvaluation {
  import opened AlertCooldown

  type RuleId = string
  type IssueId = string
  type ProjectId = string

  datatype Rule = Rule(id: RuleId, projectId: ProjectId, threshold: int, windowMinutes: int, cooldown: nat)

  datatype EventRow = EventRow(issueId: IssueId, projectId: ProjectId, occurredAt: int)

  datatype Pair = Pair(rule: RuleId, issue: IssueId)

  datatype CacheKey = CacheKey(projectId: ProjectId, windowMinutes: int)

  const MINUTE: int := 60

  function KeyOf(rule: Rule): CacheKey { CacheKey(rule.projectId, rule.windowMinutes) }

  /** `since`, with the clock standing still during the tick. */
  function Since(now: int, windowMinutes: int): int { now - windowMinutes * MINUTE }

  /** COUNT(*) ... WHERE project_id = $1 AND occurred_at > $2, for one issue. */
  function Count(events: seq<EventRow>, issue: IssueId, project: ProjectId, since: int): nat {
    if events == [] then 0
    else
      var e := events[|events| - 1];
      Count(events[..|events| - 1], issue, project, since)
      + if e.projectId == project && e.occurredAt > since && e.issueId == issue then 1 else 0
  }

  /** The result of the GROUP BY query: issues without a matching event have no group. */
  ghost predicate IsCounts(events: seq<EventRow>, project: ProjectId, since: int, counts: map<IssueId, nat>) {
    && (forall i :: i in counts ==> counts[i] == Count(events, i, project, since) && counts[i] > 0)
    && (forall i :: i !in counts ==> Count(events, i, project, since) == 0)
  }

  method CountGroupedByIssueSince(events: seq<EventRow>, project: ProjectId, since: int)
    returns (counts: map<IssueId, nat>)
    ensures IsCounts(events, project, since, counts)
  {
    counts := map[];
    for k := 0 to |events|
      invariant IsCounts(events[..k], project, since, counts)
    {
      var e := events[k];
      assert events[..k + 1][..k] == events[..k];
      if e.projectId == project && e.occurredAt > since {
        counts := counts[e.issueId := (if e.issueId in counts then counts[e.issueId] else 0) + 1];
      }
    }
    assert events[..|events|] == events;
  }

  function Get(logs: map<Pair, Log>, p: Pair): Log { if p in logs then logs[p] else [] }

  /** Everything one tick depends on, fixed while it runs. `io` answers the calls made for a pair;
      `queryOk` says whether the count query made for the rule at an index succeeds; `found` are the
      issues `GetByID` returns. */
  datatype Tick = Tick(now: int, events: seq<EventRow>, found: set<IssueId>,
                       queryOk: nat -> bool, io: Pair -> Attempt)

  /** The rule's own recount finds events of the issue, more than its threshold, and the pair is not
      cooling down. */
  predicate IsDue(t: Tick, rule: Rule, issue: IssueId, logs: map<Pair, Log>) {
    var p := Pair(rule.id, issue);
    var count := Count(t.events, issue, rule.projectId, Since(t.now, rule.windowMinutes));
    && issue in t.found && count > 0 && count > rule.threshold
    && Notifies(Get(logs, p), rule.cooldown, t.io(p).(now := t.now))
  }

  /** The project's events of the issue after a time. */
  function Matching(events: seq<EventRow>, issue: IssueId, project: ProjectId, since: int): set<nat> {
    set i: nat | i < |events| && events[i].projectId == project && events[i].issueId == issue
                 && events[i].occurredAt > since
  }

  lemma {:induction false} CountIsMatching(events: seq<EventRow>, issue: IssueId, project: ProjectId, since: int)
    ensures Count(events, issue, project, since) == |Matching(events, issue, project, since)|
  {
    if events == [] {
      assert Matching(events, issue, project, since) == {};
    } else {
      CountIsMatching(events[..|events| - 1], issue, project, since);
      OneMoreMatching(events, issue, project, since);
    }
  }

  lemma OneMoreMatching(events: seq<EventRow>, issue: IssueId, project: ProjectId, since: int)
    requires events != []
    ensures var e := events[|events| - 1];
            |Matching(events, issue, project, since)| == |Matching(events[..|events| - 1], issue, project, since)|
              + if e.projectId == project && e.occurredAt > since && e.issueId == issue then 1 else 0
  {
    var last := |events| - 1;
    var before := Matching(events[..last], issue, project, since);
    assert Matching(events, issue, project, since) == before +
      if events[last].projectId == project && events[last].issueId == issue && events[last].occurredAt > since
      then {last} else {};
  }

  /** When a rule is due about an issue, in plain numbers: more events than its threshold, and at least one,
      in its last so many minutes; an issue that can be found; a lookup that works, and no send logged less
      than the cooldown ago. */
  lemma DueExactlyWhen(t: Tick, rule: Rule, issue: IssueId, logs: map<Pair, Log>)
    requires InOrder(Get(logs, Pair(rule.id, issue)))
    ensures var p := Pair(rule.id, issue);
            var events := Matching(t.events, issue, rule.projectId, t.now - 60 * rule.windowMinutes);
            IsDue(t, rule, issue, logs) <==>
              && events != {} && |events| > rule.threshold && issue in t.found
              && t.io(p).lookup && Clear(Get(logs, p), rule.cooldown, t.now)
  {
    var p := Pair(rule.id, issue);
    CountIsMatching(t.events, issue, rule.projectId, t.now - 60 * rule.windowMinutes);
    NotifiesIfClear(Get(logs, p), rule.cooldown, t.io(p).(now := t.now));
  }

  /** What the tick makes of the pair's log. */
  function LogAfterTick(t: Tick, rule: Rule, issue: IssueId, logs: map<Pair, Log>): Log {
    var p := Pair(rule.id, issue);
    if IsDue(t, rule, issue, logs) then LogAfter(Get(logs, p), rule.cooldown, t.io(p).(now := t.now)) else Get(logs, p)
  }

  function DueAmong(t: Tick, rule: Rule, issues: set<IssueId>, logs: map<Pair, Log>): set<Pair> {
    set issue | issue in issues && IsDue(t, rule, issue, logs) :: Pair(rule.id, issue)
  }

  function DueIssues(t: Tick, rule: Rule, logs: map<Pair, Log>): set<Pair> {
    DueAmong(t, rule, t.found, logs)
  }

  lemma GroupCount(t: Tick, rule: Rule, counts: map<IssueId, nat>, issue: IssueId)
    requires IsCounts(t.events, rule.projectId, Since(t.now, rule.windowMinutes), counts) && issue in counts
    ensures counts[issue] == Count(t.events, issue, rule.projectId, Since(t.now, rule.windowMinutes)) > 0
  {}

  /** After the issues in `done`: the due ones notified once and logged, no other pair's log touched. */
  ghost predicate RuleProgress(t: Tick, rule: Rule, done: set<IssueId>,
                               logs0: map<Pair, Log>, notified0: multiset<Pair>,
                               logs: map<Pair, Log>, notified: multiset<Pair>)
  {
    && notified == notified0 + multiset(DueAmong(t, rule, done, logs0))
    && (forall p: Pair :: Get(logs, p) == if p.rule == rule.id && p.issue in done
                                          then LogAfterTick(t, rule, p.issue, logs0) else Get(logs0, p))
  }

  lemma RuleStep(t: Tick, rule: Rule, done: set<IssueId>, issue: IssueId,
                 logs0: map<Pair, Log>, notified0: multiset<Pair>,
                 logs1: map<Pair, Log>, notified1: multiset<Pair>,
                 logs: map<Pair, Log>, notified: multiset<Pair>)
    requires RuleProgress(t, rule, done, logs0, notified0, logs1, notified1) && issue !in done
    requires notified == notified1 + if IsDue(t, rule, issue, logs1) then multiset{Pair(rule.id, issue)} else multiset{}
    requires Get(logs, Pair(rule.id, issue)) == LogAfterTick(t, rule, issue, logs1)
    requires forall p: Pair :: p != Pair(rule.id, issue) ==> Get(logs, p) == Get(logs1, p)
    ensures RuleProgress(t, rule, done + {issue}, logs0, notified0, logs, notified)
  {}

  lemma RuleStart(t: Tick, rule: Rule, logs: map<Pair, Log>, notified: multiset<Pair>)
    ensures RuleProgress(t, rule, {}, logs, notified, logs, notified)
  {
    assert DueAmong(t, rule, {}, logs) == {};
  }

  /** After all issues: the rule's due pairs notified once each and logged, no other rule's log touched. */
  ghost predicate RuleEvaluated(t: Tick, rule: Rule, logs0: map<Pair, Log>, notified0: multiset<Pair>,
                                logs: map<Pair, Log>, notified: multiset<Pair>)
  {
    && notified == notified0 + multiset(DueIssues(t, rule, logs0))
    && (forall p: Pair :: Get(logs, p) == if p.rule == rule.id
                                          then LogAfterTick(t, rule, p.issue, logs0) else Get(logs0, p))
  }

  lemma RuleDone(t: Tick, rule: Rule, counts: map<IssueId, nat>,
                 logs0: map<Pair, Log>, notified0: multiset<Pair>,
                 logs: map<Pair, Log>, notified: multiset<Pair>)
    requires IsCounts(t.events, rule.projectId, Since(t.now, rule.windowMinutes), counts)
    requires RuleProgress(t, rule, counts.Keys, logs0, notified0, logs, notified)
    ensures RuleEvaluated(t, rule, logs0, notified0, logs, notified)
  {}

  /** Some rule up to this one with the same project and window had its query succeed. */
  predicate Counted(t: Tick, rules: seq<Rule>, i: nat)
    requires i < |rules|
  {
    exists j :: 0 <= j <= i && KeyOf(rules[j]) == KeyOf(rules[i]) && t.queryOk(j)
  }

  /** The pairs notified for the first `n` rules. */
  function DuePairs(t: Tick, rules: seq<Rule>, n: nat, logs: map<Pair, Log>): set<Pair>
    requires n <= |rules|
  {
    if n == 0 then {}
    else DuePairs(t, rules, n - 1, logs)
         + if Counted(t, rules, n - 1) then DueIssues(t, rules[n - 1], logs) else {}
  }

  predicate DistinctRules(rules: seq<Rule>) {
    forall i, j :: 0 <= i < j < |rules| ==> rules[i].id != rules[j].id
  }

  lemma {:induction false} DuePairsName(t: Tick, rules: seq<Rule>, n: nat, logs: map<Pair, Log>, p: Pair)
    requires n <= |rules|
    ensures p in DuePairs(t, rules, n, logs) <==>
            exists i :: 0 <= i < n && rules[i].id == p.rule && Counted(t, rules, i) && IsDue(t, rules[i], p.issue, logs)
  {
    if n > 0 { DuePairsName(t, rules, n - 1, logs, p); }
  }

  /** No count query of the tick fails. */
  predicate AllAnswer(t: Tick, rules: seq<Rule>) {
    forall j :: 0 <= j < |rules| ==> t.queryOk(j)
  }

  /** Tick refinement: with no query failures the tick notifies exactly the pairs a recount for every
      single rule would, whatever the cache and the order of map iteration. */
  lemma TickIsRecount(t: Tick, rules: seq<Rule>, logs: map<Pair, Log>, p: Pair)
    requires AllAnswer(t, rules)
    ensures p in DuePairs(t, rules, |rules|, logs) <==>
            exists i :: 0 <= i < |rules| && rules[i].id == p.rule && IsDue(t, rules[i], p.issue, logs)
  {
    DuePairsName(t, rules, |rules|, logs, p);
    forall i | 0 <= i < |rules| ensures Counted(t, rules, i) {
      assert KeyOf(rules[i]) == KeyOf(rules[i]) && t.queryOk(i);
    }
  }

  function KeysOf(rules: seq<Rule>): set<CacheKey> { set r | r in rules :: KeyOf(r) }

  lemma DisjointMultisets(a: set<Pair>, b: set<Pair>)
    requires a !! b
    ensures multiset(a + b) == multiset(a) + multiset(b)
  {}

  /** The cache after the first `n` rules: exact counts, for the keys whose query has succeeded. */
  ghost predicate CacheOk(t: Tick, rules: seq<Rule>, n: nat, cache: map<CacheKey, map<IssueId, nat>>)
    requires n <= |rules|
  {
    && (forall k :: k in cache ==> IsCounts(t.events, k.projectId, Since(t.now, k.windowMinutes), cache[k]))
    && (forall k :: k in cache ==> exists j :: 0 <= j < n && KeyOf(rules[j]) == k && t.queryOk(j))
    && (forall j :: 0 <= j < n && t.queryOk(j) ==> KeyOf(rules[j]) in cache)
  }

  lemma CacheStays(t: Tick, rules: seq<Rule>, i: nat, cache: map<CacheKey, map<IssueId, nat>>)
    requires i < |rules| && CacheOk(t, rules, i, cache) && (KeyOf(rules[i]) in cache || !t.queryOk(i))
    ensures CacheOk(t, rules, i + 1, cache)
  {}

  lemma CacheGrows(t: Tick, rules: seq<Rule>, i: nat, cache: map<CacheKey, map<IssueId, nat>>, counts: map<IssueId, nat>)
    requires i < |rules| && CacheOk(t, rules, i, cache) && KeyOf(rules[i]) !in cache && t.queryOk(i)
    requires IsCounts(t.events, rules[i].projectId, Since(t.now, rules[i].windowMinutes), counts)
    ensures CacheOk(t, rules, i + 1, cache[KeyOf(rules[i]) := counts])
    ensures |cache[KeyOf(rules[i]) := counts]| == |cache| + 1
  {}

  lemma CachedIsCounted(t: Tick, rules: seq<Rule>, i: nat, cache: map<CacheKey, map<IssueId, nat>>)
    requires i < |rules| && CacheOk(t, rules, i + 1, cache)
    ensures KeyOf(rules[i]) in cache <==> Counted(t, rules, i)
  {}

  lemma OneMoreRule(t: Tick, rules: seq<Rule>, i: nat, logs: map<Pair, Log>)
    requires DistinctRules(rules) && i < |rules| && Counted(t, rules, i)
    ensures multiset(DuePairs(t, rules, i + 1, logs))
         == multiset(DuePairs(t, rules, i, logs)) + multiset(DueIssues(t, rules[i], logs))
  {
    forall p | p in DuePairs(t, rules, i, logs) ensures p !in DueIssues(t, rules[i], logs) {
      DuePairsName(t, rules, i, logs, p);
    }
    DisjointMultisets(DuePairs(t, rules, i, logs), DueIssues(t, rules[i], logs));
  }

  lemma FullCache(t: Tick, rules: seq<Rule>, cache: map<CacheKey, map<IssueId, nat>>)
    requires CacheOk(t, rules, |rules|, cache) && AllAnswer(t, rules)
    ensures cache.Keys == KeysOf(rules)
  {}

  class EvaluateAlert {
    var logs: map<Pair, Log>
    var notified: multiset<Pair>   // calls to the notifier
    var queries: nat               // calls to CountGroupedByIssueSince

    constructor ()
      ensures logs == map[] && notified == multiset{} && queries == 0
    {
      logs, notified, queries := map[], multiset{}, 0;
    }

    /** Check the cooldown, send, and only then write the log. */
    method NotifyIfNotCooldown(p: Pair, cooldown: nat, a: Attempt)
      modifies this`logs, this`notified
      ensures Get(logs, p) == LogAfter(Get(old(logs), p), cooldown, a)
      ensures forall q: Pair :: q != p ==> Get(logs, q) == Get(old(logs), q)
      ensures notified == old(notified) + if Notifies(Get(old(logs), p), cooldown, a) then multiset{p} else multiset{}
      ensures InOrder(Get(old(logs), p)) ==>
                var sends := a.lookup && Clear(Get(old(logs), p), cooldown, a.now);
                && notified == old(notified) + (if sends then multiset{p} else multiset{})
                && Get(logs, p) == Get(old(logs), p) + if sends && a.send && a.create.Applied() then [a.sentAt] else []
    {
      if InOrder(Get(logs, p)) { NotifiesIfClear(Get(logs, p), cooldown, a); }
      if !a.lookup { return; }
      var log := Get(logs, p);
      if log != [] {
        var cooldownUntil := log[|log| - 1] + cooldown;
        if a.now < cooldownUntil { return; }
      }
      notified := notified + multiset{p};
      if !a.send { return; }
      if a.create.Applied() { logs := logs[p := log + [a.sentAt]]; }
    }

    /** Every active new-issue rule of the project is tried once; one failure does not stop the rest. */
    method EvaluateNewIssue(rules: seq<Rule>, issue: IssueId, io: Pair -> Attempt)
      requires DistinctRules(rules)
      modifies this`logs, this`notified
      ensures NewIssueProgress(rules, |rules|, issue, io, old(logs), old(notified), logs, notified)
    {
      for i := 0 to |rules|
        invariant NewIssueProgress(rules, i, issue, io, old(logs), old(notified), logs, notified)
      {
        ghost var logs1, notified1 := logs, notified;
        NotifyIfNotCooldown(Pair(rules[i].id, issue), rules[i].cooldown, io(Pair(rules[i].id, issue)));
        NewIssueStep(rules, i, issue, io, old(logs), old(notified), logs1, notified1, logs, notified);
      }
    }

    /** The inner loop of `EvaluateThresholds`, over a map in no particular order. */
    method EvaluateRule(t: Tick, rule: Rule, counts: map<IssueId, nat>)
      requires IsCounts(t.events, rule.projectId, Since(t.now, rule.windowMinutes), counts)
      modifies this`logs, this`notified
      ensures RuleEvaluated(t, rule, old(logs), old(notified), logs, notified)
    {
      var todo := counts.Keys;
      ghost var done: set<IssueId> := {};
      RuleStart(t, rule, logs, notified);
      while todo != {}
        invariant done + todo == counts.Keys && done !! todo
        invariant RuleProgress(t, rule, done, old(logs), old(notified), logs, notified)
        decreases |todo|
      {
        var issue :| issue in todo;
        EvaluateGroup(t, rule, counts, done, issue, old(logs), old(notified));
        todo := todo - {issue};
        done := done + {issue};
      }
      assert done == counts.Keys;
      RuleDone(t, rule, counts, old(logs), old(notified), logs, notified);
    }

    /** The body of that loop. */
    method EvaluateGroup(t: Tick, rule: Rule, counts: map<IssueId, nat>, ghost done: set<IssueId>, issue: IssueId,
                         ghost logs0: map<Pair, Log>, ghost notified0: multiset<Pair>)
      requires IsCounts(t.events, rule.projectId, Since(t.now, rule.windowMinutes), counts)
      requires issue in counts && issue !in done && RuleProgress(t, rule, done, logs0, notified0, logs, notified)
      modifies this`logs, this`notified
      ensures RuleProgress(t, rule, done + {issue}, logs0, notified0, logs, notified)
    {
      GroupCount(t, rule, counts, issue);
      EvaluateIssue(t, rule, issue, counts[issue]);
      RuleStep(t, rule, done, issue, logs0, notified0, old(logs), old(notified), logs, notified);
    }

    method EvaluateIssue(t: Tick, rule: Rule, issue: IssueId, count: nat)
      requires count == Count(t.events, issue, rule.projectId, Since(t.now, rule.windowMinutes)) > 0
      modifies this`logs, this`notified
      ensures notified == old(notified) + if IsDue(t, rule, issue, old(logs)) then multiset{Pair(rule.id, issue)} else multiset{}
      ensures Get(logs, Pair(rule.id, issue)) == LogAfterTick(t, rule, issue, old(logs))
      ensures forall p: Pair :: p != Pair(rule.id, issue) ==> Get(logs, p) == Get(old(logs), p)
    {
      if count <= rule.threshold { return; }
      if issue !in t.found { return; }
      var p := Pair(rule.id, issue);
      NotifyIfNotCooldown(p, rule.cooldown, t.io(p).(now := t.now));
    }

    /** The counts for a rule: from the cache, or by a query whose failure is not remembered. */
    method FillCache(t: Tick, rules: seq<Rule>, i: nat, cache: map<CacheKey, map<IssueId, nat>>)
      returns (cache': map<CacheKey, map<IssueId, nat>>)
      requires i < |rules| && CacheOk(t, rules, i, cache)
      modifies this`queries
      ensures CacheOk(t, rules, i + 1, cache')
      ensures t.queryOk(i) ==> queries - old(queries) == |cache'| - |cache|
    {
      cache' := cache;
      var rule := rules[i];
      if KeyOf(rule) in cache {
        CacheStays(t, rules, i, cache);
        return;
      }
      queries := queries + 1;
      if t.queryOk(i) {
        var counts := CountGroupedByIssueSince(t.events, rule.projectId, Since(t.now, rule.windowMinutes));
        cache' := cache[KeyOf(rule) := counts];
        CacheGrows(t, rules, i, cache, counts);
      } else {
        CacheStays(t, rules, i, cache);
      }
    }

    /** The body of the loop over the rules. */
    method EvaluateNext(t: Tick, rules: seq<Rule>, i: nat, cache: map<CacheKey, map<IssueId, nat>>,
                        ghost logs0: map<Pair, Log>, ghost notified0: multiset<Pair>)
      returns (cache': map<CacheKey, map<IssueId, nat>>)
      requires DistinctRules(rules) && i < |rules| && CacheOk(t, rules, i, cache)
      requires TickProgress(t, rules, i, logs0, notified0, logs, notified)
      modifies this
      ensures CacheOk(t, rules, i + 1, cache')
      ensures TickProgress(t, rules, i + 1, logs0, notified0, logs, notified)
      ensures AllAnswer(t, rules) ==> queries - old(queries) == |cache'| - |cache|
    {
      cache' := FillCache(t, rules, i, cache);
      CachedIsCounted(t, rules, i, cache');
      var key := KeyOf(rules[i]);
      if key in cache' {
        CachedCounts(t, rules, i, cache');
        EvaluateRule(t, rules[i], cache'[key]);
      }
      TickStep(t, rules, i, logs0, notified0, old(logs), old(notified), logs, notified);
    }

    /** `EvaluateThresholds`: the pairs notified, each exactly once, and how many queries that took. */
    method EvaluateThresholds(t: Tick, rules: seq<Rule>)
      requires DistinctRules(rules)
      modifies this
      ensures notified == old(notified) + multiset(DuePairs(t, rules, |rules|, old(logs)))
      ensures forall i :: 0 <= i < |rules| ==> RuleLogged(t, rules, i, old(logs), logs)
      ensures AllAnswer(t, rules) ==> queries == old(queries) + |KeysOf(rules)|
    {
      var countCache: map<CacheKey, map<IssueId, nat>> := map[];
      for i := 0 to |rules|
        invariant TickProgress(t, rules, i, old(logs), old(notified), logs, notified)
        invariant CacheOk(t, rules, i, countCache)
        invariant AllAnswer(t, rules) ==> queries == old(queries) + |countCache|
      {
        countCache := EvaluateNext(t, rules, i, countCache, old(logs), old(notified));
      }
      if AllAnswer(t, rules) { FullCache(t, rules, countCache); }
    }
  }

  lemma CachedCounts(t: Tick, rules: seq<Rule>, i: nat, cache: map<CacheKey, map<IssueId, nat>>)
    requires i < |rules| && CacheOk(t, rules, i + 1, cache) && KeyOf(rules[i]) in cache
    ensures IsCounts(t.events, rules[i].projectId, Since(t.now, rules[i].windowMinutes), cache[KeyOf(rules[i])])
  {}

  /** The logs of one rule after its turn: its due pairs logged, the others as before. */
  ghost predicate RuleLogged(t: Tick, rules: seq<Rule>, j: nat, logs0: map<Pair, Log>, logs: map<Pair, Log>)
    requires j < |rules|
  {
    forall issue :: Get(logs, Pair(rules[j].id, issue))
      == if Counted(t, rules, j) then LogAfterTick(t, rules[j], issue, logs0) else Get(logs0, Pair(rules[j].id, issue))
  }

  /** After the first `n` rules: their due pairs notified once each and logged, the later rules' logs
      untouched. */
  ghost predicate TickProgress(t: Tick, rules: seq<Rule>, n: nat,
                               logs0: map<Pair, Log>, notified0: multiset<Pair>,
                               logs: map<Pair, Log>, notified: multiset<Pair>)
    requires n <= |rules|
  {
    && notified == notified0 + multiset(DuePairs(t, rules, n, logs0))
    && (forall j :: 0 <= j < n ==> RuleLogged(t, rules, j, logs0, logs))
    && (forall j :: n <= j < |rules| ==> SameLogs(rules[j], logs, logs0))
  }

  ghost predicate SameLogs(rule: Rule, logs: map<Pair, Log>, logs': map<Pair, Log>) {
    forall p: Pair :: p.rule == rule.id ==> Get(logs, p) == Get(logs', p)
  }

  /** The turn of rule `i`, seen from the logs of rule `j`. */
  lemma TickLogsStep(t: Tick, rules: seq<Rule>, i: nat, j: nat,
                     logs0: map<Pair, Log>, logs1: map<Pair, Log>, logs: map<Pair, Log>)
    requires DistinctRules(rules) && i < |rules| && j < |rules|
    requires SameLogs(rules[i], logs1, logs0)
    requires if j < i then RuleLogged(t, rules, j, logs0, logs1) else SameLogs(rules[j], logs1, logs0)
    requires forall p: Pair :: Get(logs, p) == if Counted(t, rules, i) && p.rule == rules[i].id
                                               then LogAfterTick(t, rules[i], p.issue, logs1) else Get(logs1, p)
    ensures if j <= i then RuleLogged(t, rules, j, logs0, logs) else SameLogs(rules[j], logs, logs0)
  {
    SameLogsSameDue(t, rules[i], logs1, logs0);
  }

  lemma TickStep(t: Tick, rules: seq<Rule>, i: nat,
                 logs0: map<Pair, Log>, notified0: multiset<Pair>,
                 logs1: map<Pair, Log>, notified1: multiset<Pair>,
                 logs: map<Pair, Log>, notified: multiset<Pair>)
    requires DistinctRules(rules) && i < |rules|
    requires TickProgress(t, rules, i, logs0, notified0, logs1, notified1)
    requires Counted(t, rules, i) ==> RuleEvaluated(t, rules[i], logs1, notified1, logs, notified)
    requires !Counted(t, rules, i) ==> notified == notified1 && logs == logs1
    ensures TickProgress(t, rules, i + 1, logs0, notified0, logs, notified)
  {
    assert SameLogs(rules[i], logs1, logs0);
    SameLogsSameDue(t, rules[i], logs1, logs0);
    if Counted(t, rules, i) { OneMoreRule(t, rules, i, logs0); }
    forall j | 0 <= j < |rules| ensures if j <= i then RuleLogged(t, rules, j, logs0, logs) else SameLogs(rules[j], logs, logs0) {
      TickLogsStep(t, rules, i, j, logs0, logs1, logs);
    }
  }

  lemma SameLogsSameDue(t: Tick, rule: Rule, logs: map<Pair, Log>, logs': map<Pair, Log>)
    requires SameLogs(rule, logs, logs')
    ensures DueIssues(t, rule, logs) == DueIssues(t, rule, logs')
    ensures forall issue :: LogAfterTick(t, rule, issue, logs) == LogAfterTick(t, rule, issue, logs')
  {}

  /** The new-issue pairs of the first `n` rules that are not cooling down. */
  function FiringRules(rules: seq<Rule>, n: nat, issue: IssueId, io: Pair -> Attempt, logs: map<Pair, Log>): set<Pair>
    requires n <= |rules|
  {
    if n == 0 then {}
    else
      var p := Pair(rules[n - 1].id, issue);
      FiringRules(rules, n - 1, issue, io, logs)
      + if Notifies(Get(logs, p), rules[n - 1].cooldown, io(p)) then {p} else {}
  }

  /** After the first `n` rules: each has its attempt in its log; the other logs are untouched. */
  ghost predicate NewIssueLogs(rules: seq<Rule>, n: nat, issue: IssueId, io: Pair -> Attempt,
                               logs0: map<Pair, Log>, logs: map<Pair, Log>)
    requires n <= |rules|
  {
    && (forall j :: 0 <= j < n ==>
          var p := Pair(rules[j].id, issue);
          Get(logs, p) == LogAfter(Get(logs0, p), rules[j].cooldown, io(p)))
    && (forall p: Pair :: (p.issue != issue || forall j :: 0 <= j < n ==> rules[j].id != p.rule) ==>
          Get(logs, p) == Get(logs0, p))
  }

  /** ... and those not cooling down have notified once. */
  ghost predicate NewIssueProgress(rules: seq<Rule>, n: nat, issue: IssueId, io: Pair -> Attempt,
                                   logs0: map<Pair, Log>, notified0: multiset<Pair>,
                                   logs: map<Pair, Log>, notified: multiset<Pair>)
    requires n <= |rules|
  {
    && notified == notified0 + multiset(FiringRules(rules, n, issue, io, logs0))
    && NewIssueLogs(rules, n, issue, io, logs0, logs)
  }

  /** From log to log: the attempt of one rule, nothing else. */
  ghost predicate OneAttempt(rule: Rule, issue: IssueId, io: Pair -> Attempt, logs: map<Pair, Log>, logs': map<Pair, Log>) {
    var p := Pair(rule.id, issue);
    && Get(logs', p) == LogAfter(Get(logs, p), rule.cooldown, io(p))
    && (forall q: Pair :: q != p ==> Get(logs', q) == Get(logs, q))
  }

  lemma NewIssueLogsStep(rules: seq<Rule>, i: nat, issue: IssueId, io: Pair -> Attempt,
                         logs0: map<Pair, Log>, logs1: map<Pair, Log>, logs: map<Pair, Log>)
    requires DistinctRules(rules) && i < |rules|
    requires NewIssueLogs(rules, i, issue, io, logs0, logs1) && OneAttempt(rules[i], issue, io, logs1, logs)
    ensures NewIssueLogs(rules, i + 1, issue, io, logs0, logs)
    ensures Get(logs1, Pair(rules[i].id, issue)) == Get(logs0, Pair(rules[i].id, issue))
  {}

  lemma NewIssueStep(rules: seq<Rule>, i: nat, issue: IssueId, io: Pair -> Attempt,
                     logs0: map<Pair, Log>, notified0: multiset<Pair>,
                     logs1: map<Pair, Log>, notified1: multiset<Pair>,
                     logs: map<Pair, Log>, notified: multiset<Pair>)
    requires DistinctRules(rules) && i < |rules|
    requires NewIssueProgress(rules, i, issue, io, logs0, notified0, logs1, notified1)
    requires OneAttempt(rules[i], issue, io, logs1, logs)
    requires var p := Pair(rules[i].id, issue);
             notified == notified1 + if Notifies(Get(logs1, p), rules[i].cooldown, io(p)) then multiset{p} else multiset{}
    ensures NewIssueProgress(rules, i + 1, issue, io, logs0, notified0, logs, notified)
  {
    var p := Pair(rules[i].id, issue);
    NewIssueLogsStep(rules, i, issue, io, logs0, logs1, logs);
    NotFiredYet(rules, i, issue, io, logs0);
    DisjointMultisets(FiringRules(rules, i, issue, io, logs0), {p});
  }

  lemma {:induction false} NotFiredYet(
    rules: seq<Rule>, i: nat, issue: IssueId, io: Pair -> Attempt, logs: map<Pair, Log>)
    requires DistinctRules(rules) && i <= |rules|
    ensures forall j :: i <= j < |rules| ==> Pair(rules[j].id, issue) !in FiringRules(rules, i, issue, io, logs)
  {
    if i > 0 { NotFiredYet(rules, i - 1, issue, io, logs); }
  }

  /** Which rules notify about a new issue: each whose lookup works and which has logged no send about the
      issue within its cooldown. */
  lemma {:induction false} FiringRulesName(
    rules: seq<Rule>, n: nat, issue: IssueId, io: Pair -> Attempt, logs: map<Pair, Log>, p: Pair)
    requires n <= |rules| && forall i :: 0 <= i < n ==> InOrder(Get(logs, Pair(rules[i].id, issue)))
    ensures p in FiringRules(rules, n, issue, io, logs) <==>
            && p.issue == issue
            && (exists i :: 0 <= i < n && rules[i].id == p.rule
                            && io(p).lookup && Clear(Get(logs, p), rules[i].cooldown, io(p).now))
  {
    if n > 0 {
      var q := Pair(rules[n - 1].id, issue);
      FiringRulesName(rules, n - 1, issue, io, logs, p);
      NotifiesIfClear(Get(logs, q), rules[n - 1].cooldown, io(q));
    }
  }
}
