/** How fast the pending list empties once Redis works again: every reclaim scan makes each
    entry it returns leave or come one delivery closer to the dead-letter stream, even if
    grouping keeps failing. */
module IngestDrain {
  import opened IngestProtocol
  import opened IngestSafety

  type PendingList = map<EntryId, Pending>

  // ------------------------------------------------------------------ calm runs

  /** No new deliveries, no crash, and the reclaim loop's own claims and acks work. Pushes, time,
      every step of `Run`, and every failure of grouping, broadcast or DLQ append are allowed. */
  predicate Calm(s: State, a: Action) {
    && !a.Read? && !a.Crash? && !a.Scan?
    && (a.Claim? ==> a.reply.Ok?)
    && (a.ReclaimStep? && (s.reclaim.DlqAck? || s.reclaim.Ack?) ==> a.reply.Applied())
  }

  ghost predicate CalmNext(cfg: Config, s: State, s': State) {
    exists a :: Enabled(s, a) && Calm(s, a) && s' == Apply(cfg, s, a)
  }

  ghost predicate AllIdleLongEnough(cfg: Config, w: World) {
    forall id :: id in w.pel ==> IdleLongEnough(cfg, w, id)
  }

  ghost predicate CalmSegment(cfg: Config, seg: seq<State>) {
    && |seg| >= 2
    && Enabled(seg[0], Scan(Ok)) && seg[1] == Apply(cfg, seg[0], Scan(Ok))
    && forall i :: 1 <= i < |seg| - 1 ==> CalmNext(cfg, seg[i], seg[i + 1])
  }

  /** From one scan to the moment before the next, in any interleaving with the rest of the system. */
  ghost predicate CalmRound(cfg: Config, s: State, s': State) {
    && AllIdleLongEnough(cfg, s.w) && s'.scan == [] && s'.reclaim.Idle?
    && exists seg :: CalmSegment(cfg, seg) && seg[0] == s && seg[|seg| - 1] == s'
  }

  // ------------------------------------------------------------------ one round

  function Scanned0(cfg: Config, s: State): seq<Scanned> { PendingScan(cfg, s.w, 0, SCAN_COUNT) }

  /** The reclaim loop is taking the entry off the pending list. */
  predicate Leaving(p: Proc, id: EntryId) { (p.DlqAppend? || p.DlqAck?) && p.id == id }

  /** What a round that began in `s0` has done so far: the first entries scanned have been claimed,
      the others are untouched. */
  ghost predicate RoundInvariant(cfg: Config, s0: State, s: State) {
    var all, p0, pel := Scanned0(cfg, s0), s0.w.pel, s.w.pel;
    && |s.scan| <= |all| && s.scan == all[|all| - |s.scan|..]
    && s0.w.now <= s.w.now
    && (forall id :: id in pel ==> id in p0 && pel[id].count >= p0[id].count)
    && (forall j :: 0 <= j < |all| - |s.scan| && all[j].id in pel ==> Claimed(cfg, s0, s, all[j].id))
    && (forall j :: |all| - |s.scan| <= j < |all| && all[j].id in pel ==>
          all[j].id in p0 && pel[all[j].id] == p0[all[j].id])
  }

  ghost predicate Claimed(cfg: Config, s0: State, s: State, id: EntryId)
    requires id in s.w.pel
  {
    && id in s0.w.pel && s.w.pel[id].count >= s0.w.pel[id].count + 1
    && (s0.w.pel[id].count <= cfg.maxDeliveryCount || Leaving(s.reclaim, id))
  }

  lemma ScanStartsRound(cfg: Config, s: State)
    requires Enabled(s, Scan(Ok))
    ensures RoundInvariant(cfg, s, Apply(cfg, s, Scan(Ok)))
  {}

  lemma CalmClaimKeepsRound(cfg: Config, s0: State, s: State)
    requires RoundInvariant(cfg, s0, s) && AllIdleLongEnough(cfg, s0.w) && Enabled(s, Claim(Ok))
    ensures RoundInvariant(cfg, s0, ClaimStep(cfg, s, Ok))
  {
    var all, s' := Scanned0(cfg, s0), ClaimStep(cfg, s, Ok);
    var done := |all| - |s.scan|;
    var p := s.scan[0];
    assert p == all[done] && p in all;
    assert s'.scan == all[done + 1..];
    ClaimEffect(cfg, s);
    assert p.id in s.w.pel ==> s.w.pel[p.id] == s0.w.pel[p.id];
    forall j | 0 <= j < done + 1 && all[j].id in s'.w.pel ensures Claimed(cfg, s0, s', all[j].id) {
      if j < done { assert Claimed(cfg, s0, s, all[j].id); assert all[j].id < all[done].id; }
    }
    forall j | done + 1 <= j < |all| && all[j].id in s'.w.pel
      ensures all[j].id in s0.w.pel && s'.w.pel[all[j].id] == s0.w.pel[all[j].id]
    {
      assert all[done].id < all[j].id;
    }
  }

  lemma ClaimEffect(cfg: Config, s: State)
    requires Enabled(s, Claim(Ok))
    ensures var s', p := ClaimStep(cfg, s, Ok), s.scan[0];
            && s'.w.pel.Keys == s.w.pel.Keys && s'.w.now == s.w.now
            && (forall id :: id in s.w.pel && id != p.id ==> s'.w.pel[id] == s.w.pel[id])
            && (Claimable(cfg, s.w, p.id) ==>
                  && s'.w.pel[p.id].count == s.w.pel[p.id].count + 1
                  && (p.retryCount > cfg.maxDeliveryCount ==> Leaving(s'.reclaim, p.id)))
            && (!Claimable(cfg, s.w, p.id) ==> s'.w.pel == s.w.pel)
  {}

  lemma ProcStepShrinks(w: World, p: Proc, r: Reply)
    requires Runnable(w, p)
    ensures var (w', p') := ProcStep(w, p, r);
            && w'.now == w.now && (w'.pel == w.pel || w'.pel == w.pel - {p.id})
            && ((p.DlqAck? || p.Ack?) && r.Applied() ==> w'.pel == w.pel - {p.id})
            && (p.DlqAppend? ==> p' == DlqAck(p.id))
  {}

  lemma CalmProcStepKeepsRound(cfg: Config, s0: State, s: State, a: Action)
    requires RoundInvariant(cfg, s0, s) && Enabled(s, a) && Calm(s, a)
    requires a.RunStep? || a.ReclaimStep?
    ensures RoundInvariant(cfg, s0, Apply(cfg, s, a))
  {
    var all, s' := Scanned0(cfg, s0), Apply(cfg, s, a);
    ProcStepShrinks(s.w, if a.RunStep? then s.run else s.reclaim, a.reply);
    assert forall id :: id in s'.w.pel ==> id in s.w.pel && s'.w.pel[id] == s.w.pel[id];
    forall j | 0 <= j < |all| - |s'.scan| && all[j].id in s'.w.pel ensures Claimed(cfg, s0, s', all[j].id) {
      assert Claimed(cfg, s0, s, all[j].id);
    }
  }

  lemma CalmKeepsRound(cfg: Config, s0: State, s: State, a: Action)
    requires RoundInvariant(cfg, s0, s) && AllIdleLongEnough(cfg, s0.w) && Enabled(s, a) && Calm(s, a)
    ensures RoundInvariant(cfg, s0, Apply(cfg, s, a))
  {
    var all, s' := Scanned0(cfg, s0), Apply(cfg, s, a);
    if a.Claim? {
      CalmClaimKeepsRound(cfg, s0, s);
    } else if a.RunStep? || a.ReclaimStep? {
      CalmProcStepKeepsRound(cfg, s0, s, a);
    } else {
      assert s'.w.pel == s.w.pel && s'.scan == s.scan && s'.reclaim == s.reclaim;
      forall j | 0 <= j < |all| - |s'.scan| && all[j].id in s'.w.pel ensures Claimed(cfg, s0, s', all[j].id) {
        assert Claimed(cfg, s0, s, all[j].id);
      }
    }
  }

  lemma {:induction false} SegmentKeepsRound(cfg: Config, seg: seq<State>, i: nat)
    requires CalmSegment(cfg, seg) && AllIdleLongEnough(cfg, seg[0].w) && 1 <= i < |seg|
    ensures RoundInvariant(cfg, seg[0], seg[i])
  {
    if i == 1 {
      ScanStartsRound(cfg, seg[0]);
    } else {
      SegmentKeepsRound(cfg, seg, i - 1);
      assert CalmNext(cfg, seg[i - 1], seg[i - 1 + 1]);
      var a :| Enabled(seg[i - 1], a) && Calm(seg[i - 1], a) && seg[i] == Apply(cfg, seg[i - 1], a);
      CalmKeepsRound(cfg, seg[0], seg[i - 1], a);
    }
  }

  function Ids(scan: seq<Scanned>): set<EntryId> { set p | p in scan :: p.id }

  /** What a whole round does to the pending list: entries never come back and never lose a
      delivery, and every scanned entry has left or gained one. */
  ghost predicate Round(max: int, p: PendingList, p': PendingList, scanned: set<EntryId>) {
    && scanned <= p.Keys
    && (forall id :: id in p' ==> id in p && p'[id].count >= p[id].count)
    && (forall id :: id in p' && id in scanned ==> p[id].count <= max && p'[id].count >= p[id].count + 1)
  }

  lemma FinishedRound(cfg: Config, s: State, s': State)
    requires RoundInvariant(cfg, s, s') && s'.scan == [] && s'.reclaim.Idle?
    ensures Round(cfg.maxDeliveryCount, s.w.pel, s'.w.pel, Ids(Scanned0(cfg, s)))
  {}

  lemma CalmRoundIsRound(cfg: Config, s: State, s': State)
    requires CalmRound(cfg, s, s')
    ensures Round(cfg.maxDeliveryCount, s.w.pel, s'.w.pel, Ids(Scanned0(cfg, s)))
  {
    var seg :| CalmSegment(cfg, seg) && seg[0] == s && seg[|seg| - 1] == s';
    SegmentKeepsRound(cfg, seg, |seg| - 1);
    FinishedRound(cfg, s, s');
  }

  // ------------------------------------------------------------------ the scan is complete

  lemma {:induction false} IdsAreDistinct(scan: seq<Scanned>)
    requires forall i, j :: 0 <= i < j < |scan| ==> scan[i].id != scan[j].id
    ensures |Ids(scan)| == |scan|
  {
    if scan != [] {
      var last := |scan| - 1;
      IdsAreDistinct(scan[..last]);
      assert scan[last].id !in Ids(scan[..last]);
      assert Ids(scan) == Ids(scan[..last]) + {scan[last].id} by {
        assert scan == scan[..last] + [scan[last]];
      }
    }
  }

  /** A scan that is not cut off by its limit returns every idle pending entry. */
  lemma {:induction false} ScanFindsAll(cfg: Config, w: World, from: nat, limit: nat, id: EntryId)
    requires id in w.pel && IdleLongEnough(cfg, w, id) && from <= id < w.delivered
    requires |PendingScan(cfg, w, from, limit)| < limit
    ensures id in Ids(PendingScan(cfg, w, from, limit))
    decreases w.delivered - from
  {
    var scan := PendingScan(cfg, w, from, limit);
    if from in w.pel && IdleLongEnough(cfg, w, from) {
      var rest := PendingScan(cfg, w, from + 1, limit - 1);
      assert scan == [Scanned(from, w.pel[from].count)] + rest;
      if id == from {
        assert scan[0] in scan;
      } else {
        ScanFindsAll(cfg, w, from + 1, limit - 1, id);
        assert forall p :: p in rest ==> p in scan;
      }
    } else {
      ScanFindsAll(cfg, w, from + 1, limit, id);
    }
  }

  lemma SubsetSize<T>(a: set<T>, b: set<T>)
    requires a <= b
    ensures |a| <= |b|
    ensures |a| == |b| ==> a == b
  {
    assert b == a + (b - a);
  }

  lemma ScanSize(cfg: Config, s: State)
    requires AllIdleLongEnough(cfg, s.w) && forall id :: id in s.w.pel ==> id < s.w.delivered
    ensures var scanned := Ids(Scanned0(cfg, s));
            && scanned <= s.w.pel.Keys
            && (|s.w.pel| <= SCAN_COUNT ==> scanned == s.w.pel.Keys)
            && (|s.w.pel| >= SCAN_COUNT ==> |scanned| == SCAN_COUNT)
  {
    var all := Scanned0(cfg, s);
    var scanned := Ids(all);
    assert scanned <= s.w.pel.Keys;
    IdsAreDistinct(all);
    SubsetSize(scanned, s.w.pel.Keys);
    if |all| < SCAN_COUNT {
      forall id | id in s.w.pel ensures id in scanned { ScanFindsAll(cfg, s.w, 0, SCAN_COUNT, id); }
      assert scanned == s.w.pel.Keys;
    }
  }

  // ------------------------------------------------------------------ the measure

  /** Reclaim visits an entry can still take before it is gone. */
  function Visits(max: nat, count: nat): nat {
    if count > max then 1 else max + 2 - count
  }

  /** The visits left to the entries below `n`. */
  function Potential(max: nat, p: PendingList, n: nat): nat {
    if n == 0 then 0
    else Potential(max, p, n - 1) + if n - 1 in p then Visits(max, p[n - 1].count) else 0
  }

  function CountBelow(s: set<EntryId>, n: nat): nat {
    if n == 0 then 0 else CountBelow(s, n - 1) + if n - 1 in s then 1 else 0
  }

  lemma {:induction false} CountBelowIsSize(s: set<EntryId>, n: nat)
    requires forall id :: id in s ==> id < n
    ensures CountBelow(s, n) == |s|
  {
    if n == 0 {
      assert s == {};
    } else {
      var rest := s - {n - 1};
      CountBelowIsSize(rest, n - 1);
      CountBelowIgnores(s, n - 1, n - 1);
      if n - 1 !in s { assert rest == s; }
    }
  }

  lemma {:induction false} CountBelowIgnores(s: set<EntryId>, id: EntryId, n: nat)
    requires n <= id
    ensures CountBelow(s - {id}, n) == CountBelow(s, n)
  {
    if n > 0 { CountBelowIgnores(s, id, n - 1); }
  }

  /** Every scanned entry costs the potential at least one. */
  lemma {:induction false} RoundLowersPotential(
    max: nat, p: PendingList, p': PendingList, scanned: set<EntryId>, n: nat)
    requires Round(max, p, p', scanned)
    ensures Potential(max, p', n) + CountBelow(scanned, n) <= Potential(max, p, n)
  {
    if n > 0 { RoundLowersPotential(max, p, p', scanned, n - 1); }
  }

  lemma {:induction false} PotentialBound(max: nat, p: PendingList, n: nat)
    requires forall id :: id in p ==> p[id].count >= 1
    ensures Potential(max, p, n) <= CountBelow(p.Keys, n) * (max + 1)
  {
    if n > 0 {
      PotentialBound(max, p, n - 1);
      var c := CountBelow(p.Keys, n - 1);
      assert (c + 1) * (max + 1) == c * (max + 1) + (max + 1);
    }
  }

  // ------------------------------------------------------------------ the bound

  ghost predicate AtLeast(p: PendingList, count: int) {
    forall id :: id in p ==> p[id].count >= count
  }

  /** What a chain of rounds starting in a reachable state knows about each state in it. */
  ghost predicate Chain(cfg: Config, ss: seq<State>) {
    && ss != []
    && (forall i :: 0 <= i < |ss| ==> forall id :: id in ss[i].w.pel ==> id < ss[i].w.delivered)
    && (forall i :: 0 <= i < |ss| - 1 ==> CalmRound(cfg, ss[i], ss[i + 1]))
  }

  lemma ChainTail(cfg: Config, ss: seq<State>)
    requires Chain(cfg, ss) && |ss| > 1
    ensures Chain(cfg, ss[1..])
  {}

  lemma FirstRound(cfg: Config, ss: seq<State>)
    requires Chain(cfg, ss) && |ss| > 1
    ensures var p, scanned := ss[0].w.pel, Ids(Scanned0(cfg, ss[0]));
            && Round(cfg.maxDeliveryCount, p, ss[1].w.pel, scanned)
            && |ss[1].w.pel| <= |p|
            && (|p| <= SCAN_COUNT ==> scanned == p.Keys)
            && (|p| >= SCAN_COUNT ==> |scanned| == SCAN_COUNT)
  {
    assert CalmRound(cfg, ss[0], ss[0 + 1]);
    CalmRoundIsRound(cfg, ss[0], ss[1]);
    ScanSize(cfg, ss[0]);
    SubsetSize(ss[1].w.pel.Keys, ss[0].w.pel.Keys);
  }

  /** A list that fits in one scan loses its lowest count in every round. */
  lemma {:induction false} SmallListDrains(cfg: Config, ss: seq<State>, low: nat)
    requires Chain(cfg, ss) && cfg.maxDeliveryCount >= 0
    requires |ss[0].w.pel| <= SCAN_COUNT && AtLeast(ss[0].w.pel, low)
    requires |ss| - 1 >= Visits(cfg.maxDeliveryCount, low)
    ensures ss[|ss| - 1].w.pel == map[]
    decreases |ss|
  {
    FirstRound(cfg, ss);
    ChainTail(cfg, ss);
    if low > cfg.maxDeliveryCount {
      assert ss[1].w.pel.Keys == {};
      EmptyStaysEmpty(cfg, ss[1..]);
    } else {
      assert AtLeast(ss[1].w.pel, low + 1);
      SmallListDrains(cfg, ss[1..], low + 1);
    }
  }

  lemma {:induction false} EmptyStaysEmpty(cfg: Config, ss: seq<State>)
    requires Chain(cfg, ss) && ss[0].w.pel.Keys == {}
    ensures ss[|ss| - 1].w.pel == map[]
  {
    if |ss| > 1 {
      FirstRound(cfg, ss);
      ChainTail(cfg, ss);
      EmptyStaysEmpty(cfg, ss[1..]);
    }
  }

  lemma {:induction false} ListDrains(cfg: Config, ss: seq<State>, n: nat)
    requires Chain(cfg, ss) && cfg.maxDeliveryCount >= 0 && AtLeast(ss[0].w.pel, 1)
    requires forall id :: id in ss[0].w.pel ==> id < n
    requires |ss| - 1 >= Potential(cfg.maxDeliveryCount, ss[0].w.pel, n) / SCAN_COUNT + (cfg.maxDeliveryCount + 1)
    ensures ss[|ss| - 1].w.pel == map[]
    decreases |ss|
  {
    if |ss[0].w.pel| <= SCAN_COUNT {
      SmallListDrains(cfg, ss, 1);
    } else {
      FirstRound(cfg, ss);
      ChainTail(cfg, ss);
      var scanned := Ids(Scanned0(cfg, ss[0]));
      RoundLowersPotential(cfg.maxDeliveryCount, ss[0].w.pel, ss[1].w.pel, scanned, n);
      CountBelowIsSize(scanned, n);
      ListDrains(cfg, ss[1..], n);
    }
  }

  lemma {:induction false} RoundsStayWellFormed(cfg: Config, ss: seq<State>, i: nat)
    requires ss != [] && NothingLost(ss[0]) && i < |ss|
    requires forall k :: 0 <= k < |ss| - 1 ==> CalmRound(cfg, ss[k], ss[k + 1])
    ensures NothingLost(ss[i])
  {
    if i > 0 {
      RoundsStayWellFormed(cfg, ss, i - 1);
      assert CalmRound(cfg, ss[i - 1], ss[i - 1 + 1]);
      var seg :| CalmSegment(cfg, seg) && seg[0] == ss[i - 1] && seg[|seg| - 1] == ss[i];
      SegmentStaysWellFormed(cfg, seg, |seg| - 1);
    }
  }

  lemma {:induction false} SegmentStaysWellFormed(cfg: Config, seg: seq<State>, i: nat)
    requires CalmSegment(cfg, seg) && NothingLost(seg[0]) && i < |seg|
    ensures NothingLost(seg[i])
  {
    if i == 1 {
      StepKeepsNothingLost(cfg, seg[0], Scan(Ok));
    } else if i > 1 {
      SegmentStaysWellFormed(cfg, seg, i - 1);
      assert CalmNext(cfg, seg[i - 1], seg[i - 1 + 1]);
      var a :| Enabled(seg[i - 1], a) && Calm(seg[i - 1], a) && seg[i] == Apply(cfg, seg[i - 1], a);
      StepKeepsNothingLost(cfg, seg[i - 1], a);
    }
  }

  lemma DivideMonotone(a: nat, b: nat)
    requires a <= b
    ensures a / SCAN_COUNT <= b / SCAN_COUNT
  {}

  lemma ReachableChain(cfg: Config, ss: seq<State>)
    requires ss != [] && Reachable(cfg, ss[0])
    requires forall i :: 0 <= i < |ss| - 1 ==> CalmRound(cfg, ss[i], ss[i + 1])
    ensures Chain(cfg, ss) && AtLeast(ss[0].w.pel, 1)
  {
    ReachableInvariant(cfg, ss[0]);
    var s := ss[0];
    forall id | id in s.w.pel ensures s.w.pel[id].count >= 1 {
      assert Fits(s.w.pel, s.w.ledger.reclaimTries, s.w.delivered, cfg.maxDeliveryCount, id);
    }
    forall i | 0 <= i < |ss| ensures forall id :: id in ss[i].w.pel ==> id < ss[i].w.delivered {
      RoundsStayWellFormed(cfg, ss, i);
    }
  }

  /** The drain bound: from any reachable state with n pending entries, after
      n * (max + 1) / 50 + (max + 1) calm scans nothing is pending, even if grouping always fails. */
  lemma PendingListDrains(cfg: Config, ss: seq<State>)
    requires ss != [] && Reachable(cfg, ss[0]) && cfg.maxDeliveryCount >= 0
    requires forall i :: 0 <= i < |ss| - 1 ==> CalmRound(cfg, ss[i], ss[i + 1])
    requires |ss| - 1 >= |ss[0].w.pel| * (cfg.maxDeliveryCount + 1) / SCAN_COUNT + (cfg.maxDeliveryCount + 1)
    ensures ss[|ss| - 1].w.pel == map[]
  {
    ReachableChain(cfg, ss);
    var p, n := ss[0].w.pel, ss[0].w.delivered;
    assert forall id :: id in p ==> id < n;
    PotentialBound(cfg.maxDeliveryCount, p, n);
    CountBelowIsSize(p.Keys, n);
    DivideMonotone(Potential(cfg.maxDeliveryCount, p, n), |p| * (cfg.maxDeliveryCount + 1));
    ListDrains(cfg, ss, n);
  }
}
