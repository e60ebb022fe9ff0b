/** What the sliding-window limiter answers, from both sides and in plain numbers: nanoseconds, whole
    seconds, and how many requests there were. */
module LimiterAnswers {
  import opened Arithmetic
  import opened SlidingWindow

  /** The requests counted for the identity in window `k` of `w` seconds. */
  ghost function Requests(rs: seq<Request>, identity: string, w: nat, k: int): set<nat>
    requires w > 0
  {
    set i: nat | i < |rs| && rs[i].pipeline.Applied() && rs[i].identity == identity
                 && rs[i].now / 1_000_000_000 / w == k
  }

  lemma {:induction false} HitsAreRequests(cfg: Config, rs: seq<Request>, identity: string, k: int)
    requires ValidConfig(cfg)
    ensures Hits(cfg, rs, identity, k) == |Requests(rs, identity, cfg.window / 1_000_000_000, k)|
  {
    var w := cfg.window / 1_000_000_000;
    if rs == [] {
      assert Requests(rs, identity, w, k) == {};
    } else {
      var last := |rs| - 1;
      HitsAreRequests(cfg, rs[..last], identity, k);
      var before := Requests(rs[..last], identity, w, k);
      assert Requests(rs, identity, w, k) == before + if CountsFor(cfg, rs[last], identity, k) then {last} else {};
    }
  }

  /** The request's own second, and the requests before it in this window and in the one before. */
  ghost predicate Fits(cfg: Config, rs: seq<Request>, r: Request)
    requires ValidConfig(cfg)
  {
    var w, u := cfg.window / 1_000_000_000, r.now / 1_000_000_000;
    var previous, current := Requests(rs, r.identity, w, u / w - 1), Requests(rs, r.identity, w, u / w);
    |previous| * (w - u % w) + (|current| + 1) * w <= cfg.limit * w
  }

  /** Redis answers all the calls the request needs: the pipeline, and EXPIRE for the first of a window. */
  ghost predicate Answered(cfg: Config, rs: seq<Request>, r: Request)
    requires ValidConfig(cfg)
  {
    var w, u := cfg.window / 1_000_000_000, r.now / 1_000_000_000;
    r.pipeline.Ok? && (Requests(rs, r.identity, w, u / w) == {} ==> r.expire.Ok?)
  }

  /** The answer, exactly: an error if and only if Redis fails a call it is needed for; otherwise yes if
      and only if the requests of the previous window, weighted by the part of it that the last W
      seconds still cover, and those of this window, denied ones and this one included, are at most the
      limit. */
  lemma AnswerExactlyWhen(cfg: Config, rs: seq<Request>, r: Request)
    requires ValidConfig(cfg) && Monotone(rs + [r])
    ensures VerdictOn(cfg, StoreAfter(cfg, rs), r)
         == if !Answered(cfg, rs, r) then Error else Answer(Fits(cfg, rs, r))
  {
    ExpiryIsInvisible(cfg, rs, r);
    HitsAreRequests(cfg, rs, r.identity, WindowID(cfg, r.now));
    HitsAreRequests(cfg, rs, r.identity, WindowID(cfg, r.now) - 1);
  }

  // ------------------------------------------------------------------ after a full window

  /** Requests of the identity that follow one another in window `k`, all calls working. */
  predicate Burst(cfg: Config, qs: seq<Request>, identity: string, k: int)
    requires ValidConfig(cfg)
  {
    forall i :: 0 <= i < |qs| ==>
      qs[i].identity == identity && qs[i].pipeline.Ok? && qs[i].expire.Ok? && WindowID(cfg, qs[i].now) == k
  }

  /** A window with exactly `limit` counted requests lies behind, and this one has none yet. */
  predicate AfterFullWindow(cfg: Config, rs: seq<Request>, identity: string, k: int)
    requires ValidConfig(cfg)
  {
    cfg.limit >= 0 && Hits(cfg, rs, identity, k - 1) == cfg.limit && Hits(cfg, rs, identity, k) == 0
  }

  lemma {:induction false} BurstHits(cfg: Config, rs: seq<Request>, qs: seq<Request>, identity: string, k: int)
    requires ValidConfig(cfg) && Burst(cfg, qs, identity, k)
    ensures Hits(cfg, rs + qs, identity, k) == Hits(cfg, rs, identity, k) + |qs|
    ensures Hits(cfg, rs + qs, identity, k - 1) == Hits(cfg, rs, identity, k - 1)
  {
    if qs == [] {
      assert rs + qs == rs;
    } else {
      var init, q := qs[..|qs| - 1], qs[|qs| - 1];
      BurstHits(cfg, rs, init, identity, k);
      assert rs + qs == (rs + init) + [q];
      HitsSnoc(cfg, rs + init, q, identity, k);
      HitsSnoc(cfg, rs + init, q, identity, k - 1);
    }
  }

  lemma FullWeight(limit: nat, w: nat, e: nat, c: nat)
    requires e < w
    ensures limit * (w - e) + c * w <= limit * w <==> c * w <= limit * e
  {
    assert limit * (w - e) == limit * w - limit * e;
  }

  lemma MonotonePrefix(rs: seq<Request>, n: nat)
    requires Monotone(rs) && n <= |rs|
    ensures Monotone(rs[..n])
  {}

  /** The answer in terms of how often the identity was counted. */
  lemma AnswerByHits(cfg: Config, rs: seq<Request>, r: Request)
    requires ValidConfig(cfg) && Monotone(rs + [r]) && r.pipeline.Ok? && r.expire.Ok?
    ensures var w, k, e := WindowSecs(cfg), WindowID(cfg, r.now), Elapsed(cfg, r.now);
            Allowed(cfg, rs, r) <==>
              Hits(cfg, rs, r.identity, k - 1) * (w - e) + (Hits(cfg, rs, r.identity, k) + 1) * w <= cfg.limit * w
  {
    AnswerExactlyWhen(cfg, rs, r);
    HitsAreRequests(cfg, rs, r.identity, WindowID(cfg, r.now));
    HitsAreRequests(cfg, rs, r.identity, WindowID(cfg, r.now) - 1);
  }

  /** After a full window the i-th request of the next is allowed if and only if it comes no earlier than
      the fraction i / limit of the window. */
  lemma ThrottledExactlyWhen(cfg: Config, rs: seq<Request>, qs: seq<Request>, identity: string, k: int, i: nat)
    requires ValidConfig(cfg) && Monotone(rs + qs) && Burst(cfg, qs, identity, k) && i < |qs|
    requires AfterFullWindow(cfg, rs, identity, k)
    ensures Allowed(cfg, rs + qs[..i], qs[i]) <==> (i + 1) * WindowSecs(cfg) <= cfg.limit * Elapsed(cfg, qs[i].now)
  {
    var before, q := rs + qs[..i], qs[i];
    assert (rs + qs)[..|rs| + i + 1] == before + [q];
    MonotonePrefix(rs + qs, |rs| + i + 1);
    BurstHits(cfg, rs, qs[..i], identity, k);
    AnswerByHits(cfg, before, q);
    FullWeight(cfg.limit, WindowSecs(cfg), Elapsed(cfg, q.now), i + 1);
  }

  /** The first second at which the i-th request is due. */
  function DueSecond(i: nat, w: nat, limit: nat): nat
    requires limit > 0
  {
    (i * w + limit - 1) / limit
  }

  lemma DueSecondBounds(i: nat, w: nat, limit: nat, e: nat)
    requires limit > 0 && i * w <= limit * e
    ensures i * w <= limit * DueSecond(i, w, limit) && DueSecond(i, w, limit) <= e
  {
    var s := DueSecond(i, w, limit);
    DivBounds(i * w + limit - 1, limit);
    assert (s + 1) * limit == limit * s + limit;
    assert s * limit <= i * w + limit - 1 < limit * e + limit == (e + 1) * limit;
    DivideOut(s, e + 1, limit);
  }

  lemma DueSecondsGrow(i: nat, j: nat, w: nat, limit: nat)
    requires limit > 0 && i <= j
    ensures DueSecond(i, w, limit) <= DueSecond(j, w, limit)
  {
    assert i * w <= j * w;
    FloorMonotone(i * w + limit - 1, j * w + limit - 1, limit);
  }

  /** The i-th request (from 0) of an identity that spaces its requests, in window `k`. */
  function Spaced(cfg: Config, identity: string, k: nat, i: nat): Request
    requires ValidConfig(cfg) && cfg.limit > 0
  {
    Request(identity, (k * WindowSecs(cfg) + DueSecond(i + 1, WindowSecs(cfg), cfg.limit)) * SECOND, Ok, Ok)
  }

  lemma SecondOfWindow(cfg: Config, k: nat, s: nat)
    requires ValidConfig(cfg) && s < WindowSecs(cfg)
    ensures var now := (k * WindowSecs(cfg) + s) * SECOND; WindowID(cfg, now) == k && Elapsed(cfg, now) == s
  {
    var w := WindowSecs(cfg);
    var u := k * w + s;
    assert u * SECOND / SECOND == u;
    DivBounds(u, w);
    assert (k + 1) * w == k * w + w;
    DivideOut(k, u / w + 1, w);
    DivideOut(u / w, k + 1, w);
  }

  /** As many as floor(limit * e / W) spaced requests pass by second `e`, each at its due second. */
  lemma SpacedRequestsPass(cfg: Config, rs: seq<Request>, identity: string, k: nat, e: nat) returns (qs: seq<Request>)
    requires ValidConfig(cfg) && cfg.limit > 0 && e < WindowSecs(cfg) && AfterFullWindow(cfg, rs, identity, k)
    requires Monotone(rs) && (rs != [] ==> rs[|rs| - 1].now <= k * WindowSecs(cfg) * SECOND)
    ensures Burst(cfg, qs, identity, k) && Monotone(rs + qs) && |qs| == cfg.limit * e / WindowSecs(cfg)
    ensures forall i :: 0 <= i < |qs| ==> Elapsed(cfg, qs[i].now) <= e && Allowed(cfg, rs + qs[..i], qs[i])
  {
    var w, n := WindowSecs(cfg), cfg.limit * e / WindowSecs(cfg);
    qs := seq(n, i requires 0 <= i < n => Spaced(cfg, identity, k, i));
    DivBounds(cfg.limit * e, w);
    forall i | 0 <= i < n
      ensures WindowID(cfg, qs[i].now) == k && Elapsed(cfg, qs[i].now) <= e
      ensures (i + 1) * w <= cfg.limit * Elapsed(cfg, qs[i].now)
      ensures k * w * SECOND <= qs[i].now
    {
      assert (i + 1) * w <= n * w;
      DueSecondBounds(i + 1, w, cfg.limit, e);
      SecondOfWindow(cfg, k, DueSecond(i + 1, w, cfg.limit));
    }
    forall i, j | 0 <= i < j < n ensures qs[i].now <= qs[j].now {
      DueSecondsGrow(i + 1, j + 1, w, cfg.limit);
    }
    forall i, j | 0 <= i < j < |rs + qs| ensures (rs + qs)[i].now <= (rs + qs)[j].now {
      if i < |rs| && j >= |rs| {
        assert rs[i].now <= rs[|rs| - 1].now;
        assert (rs + qs)[j] == qs[j - |rs|];
      }
    }
    forall i | 0 <= i < n ensures Allowed(cfg, rs + qs[..i], qs[i]) {
      ThrottledExactlyWhen(cfg, rs, qs, identity, k, i);
    }
  }

  /** What the identity was granted in window `k` by second `e` is no more than has fallen due. */
  predicate Throttled(cfg: Config, granted: nat, e: nat)
    requires ValidConfig(cfg)
  {
    granted * WindowSecs(cfg) <= cfg.limit * e
  }

  lemma OneMoreFits(granted: nat, c: nat, w: nat, limit: nat, e': nat, e: nat)
    requires granted <= c && e' <= e && (c + 1) * w <= limit * e'
    ensures (granted + 1) * w <= limit * e
  {
    assert (granted + 1) * w <= (c + 1) * w;
    assert limit * e' <= limit * e;
  }

  lemma NothingGrantedIsThrottled(cfg: Config, rs: seq<Request>, identity: string, k: int, e: nat)
    requires ValidConfig(cfg) && AfterFullWindow(cfg, rs, identity, k)
    ensures Throttled(cfg, Granted(cfg, rs, identity, k, e), e)
  {
    GrantedAreHits(cfg, rs, identity, k, e);
  }

  lemma GrantedThrottled(cfg: Config, before: seq<Request>, q: Request, c: nat, k: int, e: nat)
    requires ValidConfig(cfg) && cfg.limit >= 0 && Hits(cfg, before, q.identity, k) == c
    requires Throttled(cfg, Granted(cfg, before, q.identity, k, e), e)
    requires Allowed(cfg, before, q) ==> (c + 1) * WindowSecs(cfg) <= cfg.limit * Elapsed(cfg, q.now)
    ensures Throttled(cfg, Granted(cfg, before + [q], q.identity, k, e), e)
  {
    if Allowed(cfg, before, q) {
      GrantedSnoc(cfg, before, q, k, e);
      GrantedAreHits(cfg, before, q.identity, k, e);
      if Elapsed(cfg, q.now) <= e {
        OneMoreFits(Granted(cfg, before, q.identity, k, e), c, WindowSecs(cfg), cfg.limit, Elapsed(cfg, q.now), e);
      }
    } else {
      GrantedSkips(cfg, before, q, q.identity, k, e);
    }
  }

  lemma BurstPrefix(cfg: Config, rs: seq<Request>, qs: seq<Request>, identity: string, k: int)
    requires ValidConfig(cfg) && qs != [] && Monotone(rs + qs) && Burst(cfg, qs, identity, k)
    ensures Monotone(rs + qs[..|qs| - 1]) && Burst(cfg, qs[..|qs| - 1], identity, k)
    ensures rs + qs == (rs + qs[..|qs| - 1]) + [qs[|qs| - 1]]
  {
    assert rs + qs[..|qs| - 1] == (rs + qs)[..|rs + qs| - 1];
    MonotonePrefix(rs + qs, |rs + qs| - 1);
  }

  lemma ThrottleStep(cfg: Config, rs: seq<Request>, qs: seq<Request>, identity: string, k: int, e: nat)
    requires ValidConfig(cfg) && qs != [] && Monotone(rs + qs) && Burst(cfg, qs, identity, k)
    requires AfterFullWindow(cfg, rs, identity, k)
    requires Throttled(cfg, Granted(cfg, rs + qs[..|qs| - 1], identity, k, e), e)
    ensures Throttled(cfg, Granted(cfg, rs + qs, identity, k, e), e)
  {
    BurstPrefix(cfg, rs, qs, identity, k);
    BurstHits(cfg, rs, qs[..|qs| - 1], identity, k);
    ThrottledExactlyWhen(cfg, rs, qs, identity, k, |qs| - 1);
    GrantedThrottled(cfg, rs + qs[..|qs| - 1], qs[|qs| - 1], |qs| - 1, k, e);
  }

  /** And no more do, however the requests come. */
  lemma {:induction false} ThrottleBound(
    cfg: Config, rs: seq<Request>, qs: seq<Request>, identity: string, k: int, e: nat)
    requires ValidConfig(cfg) && Monotone(rs + qs) && Burst(cfg, qs, identity, k)
    requires AfterFullWindow(cfg, rs, identity, k)
    ensures Throttled(cfg, Granted(cfg, rs + qs, identity, k, e), e)
  {
    if qs == [] {
      assert rs + qs == rs;
      NothingGrantedIsThrottled(cfg, rs, identity, k, e);
    } else {
      BurstPrefix(cfg, rs, qs, identity, k);
      ThrottleBound(cfg, rs, qs[..|qs| - 1], identity, k, e);
      ThrottleStep(cfg, rs, qs, identity, k, e);
    }
  }
}
