/** The sliding-window rate limiter of internal/repository/redis/ratelimiter.go.

    Times are nanoseconds. The weighted sum the source computes in float64 is exact here:
    previous * (1 - e/W) + current <= limit, multiplied through by W. */
module CounterKey {

  function Digit(d: nat): char
    requires d < 10
  {
    "0123456789"[d]
  }

  function Decimal(n: nat): string {
    if n < 10 then [Digit(n)] else Decimal(n / 10) + [Digit(n % 10)]
  }

  /** The verb %d. */
  function FormatInt(i: int): string {
    if i < 0 then "-" + Decimal(-i) else Decimal(i)
  }

  /** fmt.Sprintf("%s:%s:%d", prefix, identity, windowID) */
  function Key(prefix: string, identity: string, window: int): string {
    prefix + ":" + identity + ":" + FormatInt(window)
  }

  predicate IsDecimal(s: string) {
    s != [] && forall i :: 0 <= i < |s| ==> '0' <= s[i] <= '9'
  }

  lemma {:induction false} DecimalShape(n: nat)
    ensures IsDecimal(Decimal(n))
  {
    if n >= 10 { DecimalShape(n / 10); }
  }

  lemma DigitInjective(a: nat, b: nat)
    requires a < 10 && b < 10 && Digit(a) == Digit(b)
    ensures a == b
  {}

  lemma DecimalSplits(n: nat)
    ensures var s := Decimal(n);
            && s != [] && s[|s| - 1] == Digit(n % 10) && (n < 10 <==> |s| == 1)
            && (n >= 10 ==> s[..|s| - 1] == Decimal(n / 10))
  {
    DecimalShape(n / 10);
  }

  lemma {:induction false} DecimalInjective(m: nat, n: nat)
    requires Decimal(m) == Decimal(n)
    ensures m == n
  {
    DecimalSplits(m);
    DecimalSplits(n);
    DigitInjective(m % 10, n % 10);
    if m >= 10 { DecimalInjective(m / 10, n / 10); }
  }

  lemma NegativeInjective(m: nat, n: nat)
    requires "-" + Decimal(m) == "-" + Decimal(n)
    ensures m == n
  {
    assert ("-" + Decimal(m))[1..] == Decimal(m) && ("-" + Decimal(n))[1..] == Decimal(n);
    DecimalInjective(m, n);
  }

  lemma FormatIntInjective(i: int, j: int)
    requires FormatInt(i) == FormatInt(j)
    ensures i == j
  {
    if i < 0 && j < 0 {
      NegativeInjective(-i, -j);
    } else if i >= 0 && j >= 0 {
      DecimalInjective(i, j);
    } else if i < 0 {
      SignTellsApart(-i, j);
    } else {
      SignTellsApart(-j, i);
    }
  }

  lemma SignTellsApart(m: nat, n: nat)
    ensures "-" + Decimal(m) != Decimal(n)
  {
    DecimalShape(n);
    assert ("-" + Decimal(m))[0] == '-';
  }

  lemma FormatIntHasNoColon(i: int)
    ensures ':' !in FormatInt(i)
  {
    DecimalShape(if i < 0 then -i else i);
  }

  lemma LastColonSplits(a: string, d: string, a': string, d': string)
    requires ':' !in d && ':' !in d' && a + ":" + d == a' + ":" + d'
    ensures a == a' && d == d'
  {
    if |a| < |a'| {
      ColonInside(a, d, a', d');
    } else if |a'| < |a| {
      ColonInside(a', d', a, d);
    } else {
      var s := a + ":" + d;
      assert a == s[..|a|] && a' == s[..|a|] && d == s[|a| + 1..] && d' == s[|a| + 1..];
    }
  }

  lemma ColonInside(a: string, d: string, a': string, d': string)
    requires a + ":" + d == a' + ":" + d' && |a| < |a'|
    ensures ':' in d
  {
    var s := a' + ":" + d';
    assert s[|a'|] == ':';
    assert (a + ":" + d)[|a'|] == d[|a'| - |a| - 1];
  }

  /** Counters never collide, even when the identity contains ':'. */
  lemma KeyInjective(prefix: string, id: string, w: int, id': string, w': int)
    ensures Key(prefix, id, w) == Key(prefix, id', w') <==> id == id' && w == w'
  {
    if Key(prefix, id, w) == Key(prefix, id', w') {
      FormatIntHasNoColon(w);
      FormatIntHasNoColon(w');
      LastColonSplits(prefix + ":" + id, FormatInt(w), prefix + ":" + id', FormatInt(w'));
      var s := prefix + ":" + id;
      assert id == s[|prefix| + 1..] && id' == s[|prefix| + 1..];
      FormatIntInjective(w, w');
    }
  }

  /** Limiters with different prefixes share one Redis: exactly when two of their counters are one. */
  lemma KeysMeetExactlyWhen(p: string, id: string, w: int, p': string, id': string, w': int)
    ensures Key(p, id, w) == Key(p', id', w') <==> p + ":" + id == p' + ":" + id' && w == w'
  {
    assert Key(p, id, w) == p + ":" + id + ":" + FormatInt(w);
    assert Key(p', id', w') == p' + ":" + id' + ":" + FormatInt(w');
    if Key(p, id, w) == Key(p', id', w') {
      FormatIntHasNoColon(w);
      FormatIntHasNoColon(w');
      LastColonSplits(p + ":" + id, FormatInt(w), p' + ":" + id', FormatInt(w'));
      FormatIntInjective(w, w');
    }
  }

  /** Some identities of the two limiters share a counter. */
  ghost predicate Share(p: string, p': string) {
    exists id, id', w, w' :: Key(p, id, w) == Key(p', id', w')
  }

  /** One prefix, with its colon, begins the other. */
  predicate Nested(p: string, p': string) { p + ":" <= p' + ":" || p' + ":" <= p + ":" }

  /** Two limiters share a counter if and only if one prefix extends the other at a colon. */
  lemma ShareExactlyWhen(p: string, p': string)
    ensures Share(p, p') <==> Nested(p, p')
  {
    if Share(p, p') {
      var id, id', w, w' :| Key(p, id, w) == Key(p', id', w');
      KeysMeetExactlyWhen(p, id, w, p', id', w');
      MeetingPrefixes(p, id, p', id');
    }
    if p + ":" <= p' + ":" { NestedShare(p, p'); }
    if p' + ":" <= p + ":" { NestedShare(p', p); }
  }

  lemma MeetingPrefixes(p: string, id: string, p': string, id': string)
    requires p + ":" + id == p' + ":" + id'
    ensures Nested(p, p')
  {
    var s := p + ":" + id;
    assert p + ":" == s[..|p| + 1] && p' + ":" == s[..|p'| + 1];
  }

  lemma NestedShare(p: string, p': string)
    requires p + ":" <= p' + ":"
    ensures Share(p, p') && Share(p', p)
  {
    var id := (p' + ":")[|p| + 1..];
    assert p + ":" + id == p' + ":" == p' + ":" + "";
    KeysMeetExactlyWhen(p, id, 0, p', "", 0);
    assert Key(p, id, 0) == Key(p', "", 0);
  }

  /** The four limiters the API wires up. */
  const PREFIXES: seq<string> :=
    ["ratelimit:ingest", "ratelimit:login:ip", "ratelimit:login:email", "ratelimit:dashboard"]

  /** No two of them share a counter, whatever the identities. */
  lemma ConfiguredLimitersAreApart(i: nat, j: nat)
    requires i < 4 && j < 4 && i != j
    ensures !Share(PREFIXES[i], PREFIXES[j])
  {
    ShareExactlyWhen(PREFIXES[i], PREFIXES[j]);
    DifferInside(i, j);
  }

  lemma DifferInside(i: nat, j: nat)
    requires i < 4 && j < 4 && i != j
    ensures !Nested(PREFIXES[i], PREFIXES[j])
  {
    var a, b := PREFIXES[i] + ":", PREFIXES[j] + ":";
    var k := if i in {1, 2} && j in {1, 2} then 16 else 10;
    assert a[k] != b[k];
  }
}

module SlidingWindow {
  import opened Arithmetic
  import opened CounterKey

  const SECOND: nat := 1_000_000_000

  datatype Config = Config(prefix: string, limit: int, window: nat)

  /** `NewRateLimiter` panics on a shorter window. */
  predicate ValidConfig(cfg: Config) { cfg.window >= SECOND }

  /** int64(window.Seconds()) */
  function WindowSecs(cfg: Config): (w: nat)
    requires ValidConfig(cfg)
    ensures w >= 1
  {
    cfg.window / SECOND
  }

  function Unix(now: nat): nat { now / SECOND }

  function WindowID(cfg: Config, now: nat): nat
    requires ValidConfig(cfg)
  {
    Unix(now) / WindowSecs(cfg)
  }

  function Elapsed(cfg: Config, now: nat): (e: nat)
    requires ValidConfig(cfg)
    ensures e < WindowSecs(cfg)
  {
    Unix(now) % WindowSecs(cfg)
  }

  /** A Redis call either succeeds or fails, in the second case with or without effect. */
  datatype Reply = Ok | Failed(applied: bool) {
    predicate Applied() { Ok? || applied }
  }

  datatype Expiry = Never | At(time: nat)

  datatype Counter = Counter(count: nat, expiry: Expiry)

  type Store = map<string, Counter>

  predicate Live(store: Store, key: string, now: nat) {
    key in store && (store[key].expiry.At? ==> now < store[key].expiry.time)
  }

  /** What GET sees: an expired key is a missing key. */
  function Read(store: Store, key: string, now: nat): nat {
    if Live(store, key, now) then store[key].count else 0
  }

  /** INCR keeps a live key's expiry and starts a missing key at 1 without one. */
  function Incr(store: Store, key: string, now: nat): Store {
    if Live(store, key, now) then store[key := store[key].(count := store[key].count + 1)]
    else store[key := Counter(1, Never)]
  }

  /** One call of `Allow`, with the replies Redis gave it. */
  datatype Request = Request(identity: string, now: nat, pipeline: Reply, expire: Reply)

  datatype Verdict = Error | Answer(allowed: bool)

  /** weightedCount <= limit */
  predicate Within(cfg: Config, previous: nat, current: nat, elapsed: nat)
    requires ValidConfig(cfg) && elapsed < WindowSecs(cfg)
  {
    previous * (WindowSecs(cfg) - elapsed) + current * WindowSecs(cfg) <= cfg.limit * WindowSecs(cfg)
  }

  function CurrentKey(cfg: Config, r: Request): string
    requires ValidConfig(cfg)
  {
    Key(cfg.prefix, r.identity, WindowID(cfg, r.now))
  }

  function PreviousKey(cfg: Config, r: Request): string
    requires ValidConfig(cfg)
  {
    Key(cfg.prefix, r.identity, WindowID(cfg, r.now) - 1)
  }

  /** EXPIRE takes whole seconds: the client rounds window * 2 down. */
  function Ttl(cfg: Config): nat {
    2 * cfg.window / SECOND * SECOND
  }

  /** What `Allow` leaves in Redis. */
  function StoreAfterOne(cfg: Config, store: Store, r: Request): Store
    requires ValidConfig(cfg)
  {
    if !r.pipeline.Applied() then store
    else
      var key := CurrentKey(cfg, r);
      var counted := Incr(store, key, r.now);
      if r.pipeline.Ok? && counted[key].count == 1 && r.expire.Applied()
      then counted[key := Counter(1, At(r.now + Ttl(cfg)))]
      else counted
  }

  /** What `Allow` answers. */
  function VerdictOn(cfg: Config, store: Store, r: Request): Verdict
    requires ValidConfig(cfg)
  {
    var current := Read(store, CurrentKey(cfg, r), r.now) + 1;
    if !r.pipeline.Ok? || (current == 1 && !r.expire.Ok?) then Error
    else Answer(Within(cfg, Read(store, PreviousKey(cfg, r), r.now), current, Elapsed(cfg, r.now)))
  }

  function StoreAfter(cfg: Config, rs: seq<Request>): Store
    requires ValidConfig(cfg)
  {
    if rs == [] then map[] else StoreAfterOne(cfg, StoreAfter(cfg, rs[..|rs| - 1]), rs[|rs| - 1])
  }

  /** A monotone clock. */
  predicate Monotone(rs: seq<Request>) {
    forall i, j :: 0 <= i < j < |rs| ==> rs[i].now <= rs[j].now
  }

  // ------------------------------------------------------------------ TTL soundness

  /** The request counts for this identity and window. */
  predicate CountsFor(cfg: Config, r: Request, identity: string, window: int)
    requires ValidConfig(cfg)
  {
    r.pipeline.Applied() && r.identity == identity && WindowID(cfg, r.now) == window
  }

  /** The ideal counter, which never forgets: how often the identity was counted in a window. */
  function Hits(cfg: Config, rs: seq<Request>, identity: string, window: int): nat
    requires ValidConfig(cfg)
  {
    if rs == [] then 0
    else
      var r := rs[|rs| - 1];
      Hits(cfg, rs[..|rs| - 1], identity, window)
      + if CountsFor(cfg, r, identity, window) then 1 else 0
  }

  /** The first nanosecond of a window. */
  function Start(cfg: Config, window: int): int
    requires ValidConfig(cfg)
  {
    window * WindowSecs(cfg) * SECOND
  }

  lemma InsideWindow(cfg: Config, now: nat)
    requires ValidConfig(cfg)
    ensures Start(cfg, WindowID(cfg, now)) <= now < Start(cfg, WindowID(cfg, now) + 1)
  {}

  lemma StartShift(cfg: Config, window: int, n: nat)
    requires ValidConfig(cfg)
    ensures Start(cfg, window + n) == Start(cfg, window) + n * (WindowSecs(cfg) * SECOND)
  {}

  lemma StartMonotone(cfg: Config, a: int, b: int)
    requires ValidConfig(cfg)
    ensures a <= b ==> Start(cfg, a) <= Start(cfg, b)
    ensures Start(cfg, a) < Start(cfg, b) ==> a < b
  {}

  /** The window's fraction counts for the TTL only from half a second on. */
  predicate LongFraction(cfg: Config) { 2 * (cfg.window % SECOND) >= SECOND }

  lemma TtlIsTwoWindows(cfg: Config)
    requires ValidConfig(cfg)
    ensures Ttl(cfg) == 2 * (WindowSecs(cfg) * SECOND) + if LongFraction(cfg) then SECOND else 0
  {
    var q, f := cfg.window / SECOND, cfg.window % SECOND;
    var carry := if LongFraction(cfg) then 1 else 0;
    assert 2 * cfg.window == (2 * q + carry) * SECOND + (2 * f - carry * SECOND);
    assert 2 * cfg.window / SECOND == 2 * q + carry;
  }

  /** The store against the ideal counters: same counts, and an expiry after the next window's end. */
  ghost predicate Faithful(cfg: Config, rs: seq<Request>, store: Store, identity: string, window: int)
    requires ValidConfig(cfg)
  {
    var key := Key(cfg.prefix, identity, window);
    && Hits(cfg, rs, identity, window) == (if key in store then store[key].count else 0)
    && (key in store && store[key].expiry.At? ==>
          Start(cfg, window + 2) <= store[key].expiry.time < Start(cfg, window + 1) + Ttl(cfg))
  }

  lemma {:induction false} StoreFaithful(cfg: Config, rs: seq<Request>, identity: string, window: int)
    requires ValidConfig(cfg) && Monotone(rs)
    ensures Faithful(cfg, rs, StoreAfter(cfg, rs), identity, window)
  {
    if rs != [] {
      var before, r := rs[..|rs| - 1], rs[|rs| - 1];
      StoreFaithful(cfg, before, identity, window);
      OneMoreFaithful(cfg, before, StoreAfter(cfg, before), r, identity, window);
      assert rs == before + [r];
    }
  }

  lemma HitsSnoc(cfg: Config, rs: seq<Request>, r: Request, identity: string, window: int)
    requires ValidConfig(cfg)
    ensures Hits(cfg, rs + [r], identity, window) == Hits(cfg, rs, identity, window)
      + if CountsFor(cfg, r, identity, window) then 1 else 0
  {}

  lemma OtherCounterStays(cfg: Config, store: Store, r: Request, identity: string, window: int)
    requires ValidConfig(cfg) && !CountsFor(cfg, r, identity, window)
    ensures var key, store' := Key(cfg.prefix, identity, window), StoreAfterOne(cfg, store, r);
            (key in store' <==> key in store) && (key in store ==> store'[key] == store[key])
  {
    KeyInjective(cfg.prefix, identity, window, r.identity, WindowID(cfg, r.now));
  }

  /** A live or missing counter goes up by one; only a missing one can get an expiry. */
  lemma CountGoesUp(cfg: Config, store: Store, r: Request)
    requires ValidConfig(cfg) && r.pipeline.Applied()
    requires CurrentKey(cfg, r) in store ==> Live(store, CurrentKey(cfg, r), r.now)
    ensures var key, store' := CurrentKey(cfg, r), StoreAfterOne(cfg, store, r);
            && key in store' && store'[key].count == (if key in store then store[key].count else 0) + 1
            && (store'[key].expiry == (if key in store then store[key].expiry else Never)
                || store'[key].expiry == At(r.now + Ttl(cfg)))
  {}

  lemma OneMoreFaithful(cfg: Config, rs: seq<Request>, store: Store, r: Request, identity: string, window: int)
    requires ValidConfig(cfg) && Faithful(cfg, rs, store, identity, window)
    ensures Faithful(cfg, rs + [r], StoreAfterOne(cfg, store, r), identity, window)
  {
    HitsSnoc(cfg, rs, r, identity, window);
    if CountsFor(cfg, r, identity, window) {
      CountersOutliveTheirWindow(cfg, store, r.now, identity, window);
      CountGoesUp(cfg, store, r);
      FreshExpiry(cfg, r.now);
    } else {
      OtherCounterStays(cfg, store, r, identity, window);
    }
  }

  /** A counter stays readable through its own window and the next. */
  lemma CountersOutliveTheirWindow(cfg: Config, store: Store, now: nat, identity: string, window: int)
    requires ValidConfig(cfg) && window <= WindowID(cfg, now) <= window + 1
    requires var key := Key(cfg.prefix, identity, window);
             key in store && store[key].expiry.At? ==> Start(cfg, window + 2) <= store[key].expiry.time
    ensures Key(cfg.prefix, identity, window) in store ==> Live(store, Key(cfg.prefix, identity, window), now)
  {
    InsideWindow(cfg, now);
    StartMonotone(cfg, WindowID(cfg, now) + 1, window + 2);
  }

  lemma FreshExpiry(cfg: Config, now: nat)
    requires ValidConfig(cfg)
    ensures Start(cfg, WindowID(cfg, now) + 2) <= now + Ttl(cfg) < Start(cfg, WindowID(cfg, now) + 1) + Ttl(cfg)
  {
    InsideWindow(cfg, now);
    TtlIsTwoWindows(cfg);
    StartShift(cfg, WindowID(cfg, now), 2);
  }

  /** The verdict an ideal limiter with unforgetting counters would give. */
  function IdealVerdict(cfg: Config, rs: seq<Request>, r: Request): Verdict
    requires ValidConfig(cfg)
  {
    var w := WindowID(cfg, r.now);
    var current := Hits(cfg, rs, r.identity, w) + 1;
    if !r.pipeline.Ok? || (current == 1 && !r.expire.Ok?) then Error
    else Answer(Within(cfg, Hits(cfg, rs, r.identity, w - 1), current, Elapsed(cfg, r.now)))
  }

  /** TTL soundness: expiring counters give the same verdicts as counters that never forget. */
  lemma ExpiryIsInvisible(cfg: Config, rs: seq<Request>, r: Request)
    requires ValidConfig(cfg) && Monotone(rs + [r])
    ensures VerdictOn(cfg, StoreAfter(cfg, rs), r) == IdealVerdict(cfg, rs, r)
  {
    assert Monotone(rs) by {
      forall i, j | 0 <= i < j < |rs| ensures rs[i].now <= rs[j].now {
        assert (rs + [r])[i] == rs[i] && (rs + [r])[j] == rs[j];
      }
    }
    var store := StoreAfter(cfg, rs);
    var w: int := WindowID(cfg, r.now);
    StoreFaithful(cfg, rs, r.identity, w);
    StoreFaithful(cfg, rs, r.identity, w - 1);
    CountersOutliveTheirWindow(cfg, store, r.now, r.identity, w);
    CountersOutliveTheirWindow(cfg, store, r.now, r.identity, w - 1);
  }

  // ------------------------------------------------------------------ how many counters are alive

  datatype Option<T> = None | Some(value: T)

  /** The first request counted for the identity in a window. */
  function FirstCounted(cfg: Config, rs: seq<Request>, identity: string, window: int): Option<Request>
    requires ValidConfig(cfg)
  {
    if rs == [] then None
    else
      var first, r := FirstCounted(cfg, rs[..|rs| - 1], identity, window), rs[|rs| - 1];
      if first.Some? then first
      else if CountsFor(cfg, r, identity, window) then Some(r)
      else None
  }

  /** Only the first request of a window sets the expiry; this one did not get that far, because it
      never saw its count or its EXPIRE was not applied. */
  predicate Leaks(cfg: Config, rs: seq<Request>, identity: string, window: int)
    requires ValidConfig(cfg)
  {
    var first := FirstCounted(cfg, rs, identity, window);
    first.Some? && !(first.value.pipeline.Ok? && first.value.expire.Applied())
  }

  /** A counter exists exactly when it has been counted up, and has no expiry exactly when it leaks. */
  ghost predicate ExpiryByFirst(cfg: Config, rs: seq<Request>, store: Store, identity: string, window: int)
    requires ValidConfig(cfg)
  {
    var key := Key(cfg.prefix, identity, window);
    && (key in store <==> FirstCounted(cfg, rs, identity, window).Some?)
    && (key in store ==> (store[key].expiry.Never? <==> Leaks(cfg, rs, identity, window)))
  }

  lemma OneMoreExpiry(cfg: Config, rs: seq<Request>, store: Store, r: Request, identity: string, window: int)
    requires ValidConfig(cfg) && Faithful(cfg, rs, store, identity, window)
    requires ExpiryByFirst(cfg, rs, store, identity, window)
    requires Key(cfg.prefix, identity, window) in store ==> store[Key(cfg.prefix, identity, window)].count >= 1
    ensures ExpiryByFirst(cfg, rs + [r], StoreAfterOne(cfg, store, r), identity, window)
  {
    assert (rs + [r])[..|rs|] == rs;
    KeyInjective(cfg.prefix, identity, window, r.identity, WindowID(cfg, r.now));
    if r.identity == identity && WindowID(cfg, r.now) == window {
      CountersOutliveTheirWindow(cfg, store, r.now, identity, window);
    }
  }

  lemma {:induction false} CountersAreCountedUp(cfg: Config, rs: seq<Request>, key: string)
    requires ValidConfig(cfg) && key in StoreAfter(cfg, rs)
    ensures StoreAfter(cfg, rs)[key].count >= 1
  {
    if key in StoreAfter(cfg, rs[..|rs| - 1]) { CountersAreCountedUp(cfg, rs[..|rs| - 1], key); }
  }

  lemma {:induction false} ExpiryIsByFirst(cfg: Config, rs: seq<Request>, identity: string, window: int)
    requires ValidConfig(cfg) && Monotone(rs)
    ensures ExpiryByFirst(cfg, rs, StoreAfter(cfg, rs), identity, window)
  {
    if rs != [] {
      var before, r := rs[..|rs| - 1], rs[|rs| - 1];
      assert rs == before + [r];
      var key := Key(cfg.prefix, identity, window);
      ExpiryIsByFirst(cfg, before, identity, window);
      StoreFaithful(cfg, before, identity, window);
      if key in StoreAfter(cfg, before) { CountersAreCountedUp(cfg, before, key); }
      OneMoreExpiry(cfg, before, StoreAfter(cfg, before), r, identity, window);
    }
  }

  /** The identity's counter of a window is alive in Redis. */
  predicate Alive(cfg: Config, rs: seq<Request>, identity: string, window: int, now: nat)
    requires ValidConfig(cfg)
  {
    Live(StoreAfter(cfg, rs), Key(cfg.prefix, identity, window), now)
  }

  predicate UpTo(rs: seq<Request>, now: nat) { Monotone(rs) && (rs != [] ==> rs[|rs| - 1].now <= now) }

  /** A counter is alive beyond its own window and the two that follow exactly when it leaks, provided
      the window has no fraction of half a second or more: so at most three counters of an identity
      are alive besides the leaked ones, and those stay for ever. */
  lemma AliveBeyondThreeExactlyWhen(cfg: Config, rs: seq<Request>, identity: string, window: int, now: nat)
    requires ValidConfig(cfg) && UpTo(rs, now) && !LongFraction(cfg)
    ensures Alive(cfg, rs, identity, window, now) ==> window <= WindowID(cfg, now)
    ensures window < WindowID(cfg, now) - 2 ==>
              (Alive(cfg, rs, identity, window, now) <==> Leaks(cfg, rs, identity, window))
  {
    ExpiryIsByFirst(cfg, rs, identity, window);
    StoreFaithful(cfg, rs, identity, window);
    if Alive(cfg, rs, identity, window, now) { StoredWindowsArePast(cfg, rs, identity, window, now); }
    if Alive(cfg, rs, identity, window, now) && !Leaks(cfg, rs, identity, window) {
      StartShift(cfg, window + 1, 2);
      TtlIsTwoWindows(cfg);
      InsideWindow(cfg, now);
      StartMonotone(cfg, WindowID(cfg, now), window + 3);
    }
  }

  lemma {:induction false} StoredWindowsArePast(
    cfg: Config, rs: seq<Request>, identity: string, window: int, now: nat)
    requires ValidConfig(cfg) && UpTo(rs, now)
    requires Key(cfg.prefix, identity, window) in StoreAfter(cfg, rs)
    ensures window <= WindowID(cfg, now)
  {
    var before, r := rs[..|rs| - 1], rs[|rs| - 1];
    KeyInjective(cfg.prefix, identity, window, r.identity, WindowID(cfg, r.now));
    if Key(cfg.prefix, identity, window) in StoreAfter(cfg, before) {
      StoredWindowsArePast(cfg, before, identity, window, now);
    } else {
      InsideWindow(cfg, r.now);
      InsideWindow(cfg, now);
      StartMonotone(cfg, WindowID(cfg, r.now), WindowID(cfg, now) + 1);
    }
  }

  /** One request whose EXPIRE fails, or whose count is lost on the way back, leaves a counter for ever. */
  lemma LeakedCounterStays(cfg: Config, identity: string, r: Request, now: nat)
    requires ValidConfig(cfg) && r.identity == identity && r.pipeline.Applied()
    requires r.pipeline.Failed? || !r.expire.Applied()
    ensures Alive(cfg, [r], identity, WindowID(cfg, r.now), now)
  {
    assert [r][..0] == [];
    assert StoreAfter(cfg, [r]) == StoreAfterOne(cfg, map[], r);
  }

  /** Every call to Redis works. */
  predicate AllWork(rs: seq<Request>) {
    forall i :: 0 <= i < |rs| ==> rs[i].pipeline.Ok? && rs[i].expire.Ok?
  }

  lemma {:induction false} WorkingCallsDoNotLeak(cfg: Config, rs: seq<Request>, identity: string, window: int)
    requires ValidConfig(cfg) && AllWork(rs)
    ensures !Leaks(cfg, rs, identity, window)
  {
    if rs != [] { WorkingCallsDoNotLeak(cfg, rs[..|rs| - 1], identity, window); }
  }

  /** With working calls only, the current window's counter and the three before it are all alive. */
  ghost predicate FourAlive(cfg: Config, identity: string)
    requires ValidConfig(cfg)
  {
    exists rs, now: nat :: AllWork(rs) && UpTo(rs, now) && LastFour(cfg, rs, identity, now)
  }

  ghost predicate LastFour(cfg: Config, rs: seq<Request>, identity: string, now: nat)
    requires ValidConfig(cfg)
  {
    forall window: int :: WindowID(cfg, now) - 3 <= window <= WindowID(cfg, now) ==> Alive(cfg, rs, identity, window, now)
  }

  /** Four counters of an identity can be alive, without any failure, exactly when the window has a
      fraction of half a second or more. */
  lemma FourAliveExactlyWhen(cfg: Config, identity: string)
    requires ValidConfig(cfg)
    ensures FourAlive(cfg, identity) <==> LongFraction(cfg)
  {
    if LongFraction(cfg) {
      var rs, now := FourWindows(cfg, identity);
    } else if FourAlive(cfg, identity) {
      var rs, now: nat :| AllWork(rs) && UpTo(rs, now) && LastFour(cfg, rs, identity, now);
      var window := WindowID(cfg, now) - 3;
      WorkingCallsDoNotLeak(cfg, rs, identity, window);
      AliveBeyondThreeExactlyWhen(cfg, rs, identity, window, now);
    }
  }

  lemma FourWindows(cfg: Config, identity: string) returns (rs: seq<Request>, now: nat)
    requires ValidConfig(cfg) && LongFraction(cfg)
    ensures AllWork(rs) && UpTo(rs, now) && LastFour(cfg, rs, identity, now)
  {
    var unit := WindowSecs(cfg) * SECOND;
    now := 3 * unit;
    TtlIsTwoWindows(cfg);
    WindowOf(cfg, unit - 1, 0);
    WindowOf(cfg, unit, 1);
    WindowOf(cfg, 2 * unit, 2);
    WindowOf(cfg, now, 3);
    rs := [Request(identity, unit - 1, Ok, Ok), Request(identity, unit, Ok, Ok),
           Request(identity, 2 * unit, Ok, Ok), Request(identity, now, Ok, Ok)];
    forall window | 0 <= window <= 3 ensures Alive(cfg, rs, identity, window, now) {
      OnePerWindow(cfg, rs, identity, window);
    }
  }

  ghost predicate Spread(cfg: Config, rs: seq<Request>, identity: string)
    requires ValidConfig(cfg)
  {
    forall i :: 0 <= i < |rs| ==>
      rs[i].identity == identity && rs[i].pipeline.Ok? && rs[i].expire.Ok? && WindowID(cfg, rs[i].now) == i
  }

  lemma {:induction false} OnePerWindow(cfg: Config, rs: seq<Request>, identity: string, i: nat)
    requires ValidConfig(cfg) && Monotone(rs) && Spread(cfg, rs, identity) && i < |rs|
    ensures var store, key := StoreAfter(cfg, rs), Key(cfg.prefix, identity, i);
            key in store && store[key].expiry == At(rs[i].now + Ttl(cfg))
  {
    var before, r := rs[..|rs| - 1], rs[|rs| - 1];
    assert rs == before + [r];
    if i == |rs| - 1 {
      FirstHit(cfg, before, r, i);
    } else {
      SpreadPrefix(cfg, rs, identity);
      OnePerWindow(cfg, before, identity, i);
      OtherHit(cfg, before, r, identity, i);
    }
  }

  lemma SpreadPrefix(cfg: Config, rs: seq<Request>, identity: string)
    requires ValidConfig(cfg) && rs != [] && Monotone(rs) && Spread(cfg, rs, identity)
    ensures Monotone(rs[..|rs| - 1]) && Spread(cfg, rs[..|rs| - 1], identity)
  {}

  lemma WindowOf(cfg: Config, now: nat, k: nat)
    requires ValidConfig(cfg)
    requires k * (WindowSecs(cfg) * SECOND) <= now < (k + 1) * (WindowSecs(cfg) * SECOND)
    ensures WindowID(cfg, now) == k
  {
    InsideWindow(cfg, now);
    StartMonotone(cfg, WindowID(cfg, now), k + 1);
    StartMonotone(cfg, k, WindowID(cfg, now) + 1);
    assert Start(cfg, k) == k * (WindowSecs(cfg) * SECOND);
    assert Start(cfg, k + 1) == (k + 1) * (WindowSecs(cfg) * SECOND);
  }

  /** The first request of a window sets its counter's expiry. */
  lemma FirstHit(cfg: Config, rs: seq<Request>, r: Request, window: nat)
    requires ValidConfig(cfg) && Monotone(rs) && r.pipeline.Ok? && r.expire.Ok?
    requires WindowID(cfg, r.now) == window
    requires forall i :: 0 <= i < |rs| ==> WindowID(cfg, rs[i].now) != window
    ensures var store := StoreAfter(cfg, rs + [r]);
            var key := Key(cfg.prefix, r.identity, window);
            key in store && store[key] == Counter(1, At(r.now + Ttl(cfg)))
  {
    StoreFaithful(cfg, rs, r.identity, window);
    NoHits(cfg, rs, r.identity, window);
    assert (rs + [r])[..|rs|] == rs;
    FirstIncr(cfg, StoreAfter(cfg, rs), r);
  }

  lemma FirstIncr(cfg: Config, store: Store, r: Request)
    requires ValidConfig(cfg) && r.pipeline.Ok? && r.expire.Ok?
    requires CurrentKey(cfg, r) in store ==> store[CurrentKey(cfg, r)].count == 0
    ensures var store' := StoreAfterOne(cfg, store, r);
            CurrentKey(cfg, r) in store' && store'[CurrentKey(cfg, r)] == Counter(1, At(r.now + Ttl(cfg)))
  {}

  lemma {:induction false} NoHits(cfg: Config, rs: seq<Request>, identity: string, window: nat)
    requires ValidConfig(cfg)
    requires forall i :: 0 <= i < |rs| ==> WindowID(cfg, rs[i].now) != window
    ensures Hits(cfg, rs, identity, window) == 0
  {
    if rs != [] { NoHits(cfg, rs[..|rs| - 1], identity, window); }
  }

  lemma OtherHit(cfg: Config, rs: seq<Request>, r: Request, identity: string, window: nat)
    requires ValidConfig(cfg) && WindowID(cfg, r.now) != window
    requires Key(cfg.prefix, identity, window) in StoreAfter(cfg, rs)
    ensures var key := Key(cfg.prefix, identity, window);
            key in StoreAfter(cfg, rs + [r]) && StoreAfter(cfg, rs + [r])[key] == StoreAfter(cfg, rs)[key]
  {
    KeyInjective(cfg.prefix, identity, window, r.identity, WindowID(cfg, r.now));
    assert (rs + [r])[..|rs|] == rs;
  }

  // ------------------------------------------------------------------ the bound

  /** The request is allowed, given the requests before it. */
  predicate Allowed(cfg: Config, rs: seq<Request>, r: Request)
    requires ValidConfig(cfg)
  {
    VerdictOn(cfg, StoreAfter(cfg, rs), r) == Answer(true)
  }

  /** Requests of the identity allowed in a window, up to elapsed second `e`. */
  function Granted(cfg: Config, rs: seq<Request>, identity: string, window: int, e: int): nat
    requires ValidConfig(cfg)
  {
    if rs == [] then 0
    else
      var before, r := rs[..|rs| - 1], rs[|rs| - 1];
      Granted(cfg, before, identity, window, e)
      + if r.identity == identity && WindowID(cfg, r.now) == window && Elapsed(cfg, r.now) <= e
           && Allowed(cfg, before, r) then 1 else 0
  }

  lemma {:induction false} GrantedAreHits(cfg: Config, rs: seq<Request>, identity: string, window: int, e: int)
    requires ValidConfig(cfg)
    ensures Granted(cfg, rs, identity, window, e) <= Hits(cfg, rs, identity, window)
  {
    if rs != [] { GrantedAreHits(cfg, rs[..|rs| - 1], identity, window, e); }
  }

  lemma {:induction false} NothingGrantedYet(cfg: Config, rs: seq<Request>, identity: string, window: int, e: int)
    requires ValidConfig(cfg) && forall i :: 0 <= i < |rs| ==> WindowID(cfg, rs[i].now) < window
    ensures Granted(cfg, rs, identity, window, e) == 0
  {
    if rs != [] { NothingGrantedYet(cfg, rs[..|rs| - 1], identity, window, e); }
  }

  lemma EarlierWindows(cfg: Config, rs: seq<Request>, i: nat)
    requires ValidConfig(cfg) && Monotone(rs) && i < |rs|
    ensures WindowID(cfg, rs[i].now) <= WindowID(cfg, rs[|rs| - 1].now)
  {
    var last := rs[|rs| - 1];
    InsideWindow(cfg, rs[i].now);
    InsideWindow(cfg, last.now);
    StartMonotone(cfg, WindowID(cfg, rs[i].now), WindowID(cfg, last.now) + 1);
  }

  /** If the weighted count is within the limit at second e', so is any smaller one at a later second. */
  lemma Weighing(p: nat, c: nat, a: nat, b: nat, w: nat, e: nat, e': nat, limit: int)
    requires a <= p && b <= c && e' <= e < w
    requires p * (w - e') + c * w <= limit * w
    ensures (a + b) * w <= limit * w + a * e
  {}

  lemma WithinAlone(p: nat, c: nat, a: nat, w: nat, e: nat, e': nat, limit: int)
    requires a <= c && e' < w && p * (w - e') + c * w <= limit * w
    ensures a * w <= limit * w + a * e
  {}

  /** Boundary bound: what a window allowed, and what the next one allowed up to its second e,
      together exceed the limit by at most the fraction e / W of the former. */
  lemma BoundaryBound(cfg: Config, rs: seq<Request>, identity: string, window: nat, e: nat)
    requires ValidConfig(cfg) && cfg.limit >= 0 && Monotone(rs) && e < WindowSecs(cfg)
    ensures var before := Granted(cfg, rs, identity, window, WindowSecs(cfg));
            var after := Granted(cfg, rs, identity, window + 1, e);
            (before + after) * WindowSecs(cfg) <= cfg.limit * WindowSecs(cfg) + before * e
  {
    BoundaryByInduction(cfg, rs, identity, window, e);
  }

  predicate Balanced(cfg: Config, before: nat, after: nat, e: nat)
    requires ValidConfig(cfg)
  {
    (before + after) * WindowSecs(cfg) <= cfg.limit * WindowSecs(cfg) + before * e
  }

  predicate BoundaryHolds(cfg: Config, rs: seq<Request>, identity: string, window: nat, e: nat)
    requires ValidConfig(cfg)
  {
    Balanced(cfg, Granted(cfg, rs, identity, window, WindowSecs(cfg)), Granted(cfg, rs, identity, window + 1, e), e)
  }

  lemma {:induction false} BoundaryByInduction(cfg: Config, rs: seq<Request>, identity: string, window: nat, e: nat)
    requires ValidConfig(cfg) && cfg.limit >= 0 && Monotone(rs) && e < WindowSecs(cfg)
    ensures BoundaryHolds(cfg, rs, identity, window, e)
  {
    if rs != [] {
      var init, r := rs[..|rs| - 1], rs[|rs| - 1];
      assert rs == init + [r];
      BoundaryByInduction(cfg, init, identity, window, e);
      if r.identity == identity && Allowed(cfg, init, r) {
        BoundaryStep(cfg, init, r, window, e);
      } else {
        GrantedSkips(cfg, init, r, identity, window, WindowSecs(cfg));
        GrantedSkips(cfg, init, r, identity, window + 1, e);
      }
    }
  }

  lemma GrantedSnoc(cfg: Config, rs: seq<Request>, r: Request, window: int, e: int)
    requires ValidConfig(cfg) && Allowed(cfg, rs, r)
    ensures Granted(cfg, rs + [r], r.identity, window, e)
         == Granted(cfg, rs, r.identity, window, e)
            + if WindowID(cfg, r.now) == window && Elapsed(cfg, r.now) <= e then 1 else 0
  {}

  lemma GrantedSkips(cfg: Config, rs: seq<Request>, r: Request, identity: string, window: int, e: int)
    requires ValidConfig(cfg) && !(r.identity == identity && Allowed(cfg, rs, r))
    ensures Granted(cfg, rs + [r], identity, window, e) == Granted(cfg, rs, identity, window, e)
  {}

  lemma BoundaryStep(cfg: Config, init: seq<Request>, r: Request, window: nat, e: nat)
    requires ValidConfig(cfg) && Monotone(init + [r]) && e < WindowSecs(cfg) && Allowed(cfg, init, r)
    requires BoundaryHolds(cfg, init, r.identity, window, e)
    ensures BoundaryHolds(cfg, init + [r], r.identity, window, e)
  {
    ExpiryIsInvisible(cfg, init, r);
    GrantedSnoc(cfg, init, r, window, WindowSecs(cfg));
    GrantedSnoc(cfg, init, r, window + 1, e);
    if WindowID(cfg, r.now) == window + 1 && Elapsed(cfg, r.now) <= e {
      BoundaryAtNext(cfg, init, r, window, e);
    } else if WindowID(cfg, r.now) == window {
      BoundaryAtFirst(cfg, init, r, window, e);
    }
  }

  lemma BoundaryAtNext(cfg: Config, init: seq<Request>, r: Request, window: nat, e: nat)
    requires ValidConfig(cfg) && e < WindowSecs(cfg)
    requires WindowID(cfg, r.now) == window + 1 && Elapsed(cfg, r.now) <= e
    requires IdealVerdict(cfg, init, r) == Answer(true)
    ensures Balanced(cfg, Granted(cfg, init, r.identity, window, WindowSecs(cfg)),
                     Granted(cfg, init, r.identity, window + 1, e) + 1, e)
  {
    GrantedAreHits(cfg, init, r.identity, window, WindowSecs(cfg));
    GrantedAreHits(cfg, init, r.identity, window + 1, e);
    Weighing(Hits(cfg, init, r.identity, window), Hits(cfg, init, r.identity, window + 1) + 1,
             Granted(cfg, init, r.identity, window, WindowSecs(cfg)),
             Granted(cfg, init, r.identity, window + 1, e) + 1,
             WindowSecs(cfg), e, Elapsed(cfg, r.now), cfg.limit);
  }

  lemma BoundaryAtFirst(cfg: Config, init: seq<Request>, r: Request, window: nat, e: nat)
    requires ValidConfig(cfg) && Monotone(init + [r]) && WindowID(cfg, r.now) == window
    requires IdealVerdict(cfg, init, r) == Answer(true)
    ensures Granted(cfg, init, r.identity, window + 1, e) == 0
    ensures Balanced(cfg, Granted(cfg, init, r.identity, window, WindowSecs(cfg)) + 1, 0, e)
  {
    forall i | 0 <= i < |init| ensures WindowID(cfg, init[i].now) < window + 1 {
      EarlierWindows(cfg, init + [r], i);
      assert (init + [r])[i] == init[i];
    }
    NothingGrantedYet(cfg, init, r.identity, window + 1, e);
    GrantedAreHits(cfg, init, r.identity, window, WindowSecs(cfg));
    WithinAlone(Hits(cfg, init, r.identity, window - 1), Hits(cfg, init, r.identity, window) + 1,
                Granted(cfg, init, r.identity, window, WindowSecs(cfg)) + 1,
                WindowSecs(cfg), e, Elapsed(cfg, r.now), cfg.limit);
  }

  /** Right after the boundary nothing above the limit has passed. */
  lemma NoBurstAtTheBoundary(cfg: Config, rs: seq<Request>, identity: string, window: nat)
    requires ValidConfig(cfg) && cfg.limit >= 0 && Monotone(rs)
    ensures Granted(cfg, rs, identity, window, WindowSecs(cfg)) + Granted(cfg, rs, identity, window + 1, 0)
            <= cfg.limit
  {
    BoundaryBound(cfg, rs, identity, window, 0);
    var sum := Granted(cfg, rs, identity, window, WindowSecs(cfg)) + Granted(cfg, rs, identity, window + 1, 0);
    DivideOut(sum, cfg.limit, WindowSecs(cfg));
  }

  /** Requests of the identity allowed in the seconds [from, from + W). */
  function GrantedFrom(cfg: Config, rs: seq<Request>, identity: string, from: nat): nat
    requires ValidConfig(cfg)
  {
    if rs == [] then 0
    else
      var before, r := rs[..|rs| - 1], rs[|rs| - 1];
      GrantedFrom(cfg, before, identity, from)
      + if r.identity == identity && from <= Unix(r.now) < from + WindowSecs(cfg)
           && Allowed(cfg, before, r) then 1 else 0
  }

  lemma SpansTwoWindows(u: nat, from: nat, w: nat)
    requires w > 0 && from <= u < from + w
    ensures u / w == from / w || (u / w == from / w + 1 && u % w <= from % w - 1)
  {
    FloorMonotone(from, u, w);
    FloorMonotone(u, from + w, w);
    FloorShift(from, w);
    DivBounds(u, w);
    DivBounds(from, w);
  }

  lemma {:induction false} SplitInterval(cfg: Config, rs: seq<Request>, identity: string, from: nat)
    requires ValidConfig(cfg)
    ensures var k, f := from / WindowSecs(cfg), from % WindowSecs(cfg);
            GrantedFrom(cfg, rs, identity, from)
            <= Granted(cfg, rs, identity, k, WindowSecs(cfg)) + Granted(cfg, rs, identity, k + 1, f - 1)
  {
    if rs != [] {
      var before, r := rs[..|rs| - 1], rs[|rs| - 1];
      SplitInterval(cfg, before, identity, from);
      if from <= Unix(r.now) < from + WindowSecs(cfg) {
        SpansTwoWindows(Unix(r.now), from, WindowSecs(cfg));
      }
    }
  }

  lemma {:induction false} NothingBeforeZero(cfg: Config, rs: seq<Request>, identity: string, window: int)
    requires ValidConfig(cfg)
    ensures Granted(cfg, rs, identity, window, -1) == 0
  {
    if rs != [] { NothingBeforeZero(cfg, rs[..|rs| - 1], identity, window); }
  }

  lemma BelowTwice(a: nat, b: nat, w: nat, e: nat, limit: nat)
    requires (a + b) * w <= limit * w + a * e && a <= limit && e < w && limit >= 1
    ensures a + b < 2 * limit
  {}

  /** In any W consecutive seconds, wherever they start, fewer than twice the limit pass. */
  lemma FewerThanTwiceTheLimit(cfg: Config, rs: seq<Request>, identity: string, from: nat)
    requires ValidConfig(cfg) && cfg.limit >= 1 && Monotone(rs)
    ensures GrantedFrom(cfg, rs, identity, from) < 2 * cfg.limit
  {
    var w := WindowSecs(cfg);
    var k, f := from / w, from % w;
    SplitInterval(cfg, rs, identity, from);
    NoBurstAtTheBoundary(cfg, rs, identity, k);
    if f == 0 {
      NothingBeforeZero(cfg, rs, identity, k + 1);
    } else {
      BoundaryBound(cfg, rs, identity, k, f - 1);
      BelowTwice(Granted(cfg, rs, identity, k, w), Granted(cfg, rs, identity, k + 1, f - 1), w, f - 1, cfg.limit);
    }
  }

  /** No request is refused while the identity has made at most `limit` requests in this window and
      the previous one, itself included. */
  lemma UnderTheLimitIsAllowed(cfg: Config, rs: seq<Request>, r: Request)
    requires ValidConfig(cfg) && Monotone(rs + [r]) && r.pipeline.Ok? && r.expire.Ok?
    requires Hits(cfg, rs, r.identity, WindowID(cfg, r.now) - 1)
             + Hits(cfg, rs, r.identity, WindowID(cfg, r.now)) + 1 <= cfg.limit
    ensures Allowed(cfg, rs, r)
  {
    ExpiryIsInvisible(cfg, rs, r);
    var p := Hits(cfg, rs, r.identity, WindowID(cfg, r.now) - 1);
    var c := Hits(cfg, rs, r.identity, WindowID(cfg, r.now)) + 1;
    LightWeight(p, c, WindowSecs(cfg), Elapsed(cfg, r.now), cfg.limit);
  }

  lemma LightWeight(p: nat, c: nat, w: nat, e: nat, limit: int)
    requires e < w && p + c <= limit
    ensures p * (w - e) + c * w <= limit * w
  {}
}

module RateLimiter {
  import opened CounterKey
  import opened SlidingWindow
  import LimiterAnswers

  class RateLimiter {
    const cfg: Config
    var store: Store
    ghost var requests: seq<Request>

    ghost predicate Valid()
      reads this
    {
      ValidConfig(cfg) && Monotone(requests) && store == StoreAfter(cfg, requests)
    }

    /** Panics in the source when the window is below one second. */
    constructor (prefix: string, limit: int, window: nat)
      requires window >= SECOND
      ensures Valid() && requests == [] && cfg == Config(prefix, limit, window)
    {
      cfg := Config(prefix, limit, window);
      store := map[];
      requests := [];
    }

    /** The answer to the request, given what Redis replies; the request is counted even when it is
        denied. It depends on the requests so far, not on what expired. */
    method Allow(identity: string, now: nat, pipeline: Reply, expire: Reply) returns (v: Verdict)
      requires Valid() && (requests != [] ==> requests[|requests| - 1].now <= now)
      modifies this
      ensures Valid() && requests == old(requests) + [Request(identity, now, pipeline, expire)]
      ensures var r := Request(identity, now, pipeline, expire);
              v == if !LimiterAnswers.Answered(cfg, old(requests), r) then Error
                   else Answer(LimiterAnswers.Fits(cfg, old(requests), r))
    {
      ghost var r := Request(identity, now, pipeline, expire);
      v := Decide(identity, now, pipeline, expire);
      requests := requests + [r];
      assert requests[..|requests| - 1] == old(requests);
      assert Monotone(requests);
      LimiterAnswers.AnswerExactlyWhen(cfg, old(requests), r);
    }

    /** The body of `Allow`, given what Redis replies to its calls. */
    method Decide(identity: string, now: nat, pipeline: Reply, expire: Reply) returns (v: Verdict)
      requires ValidConfig(cfg)
      modifies this`store
      ensures store == StoreAfterOne(cfg, old(store), Request(identity, now, pipeline, expire))
      ensures v == VerdictOn(cfg, old(store), Request(identity, now, pipeline, expire))
    {
      var current := Key(cfg.prefix, identity, WindowID(cfg, now));
      var previous := Key(cfg.prefix, identity, WindowID(cfg, now) - 1);
      ghost var r := Request(identity, now, pipeline, expire);
      AfterPipeline(cfg, store, r);

      // INCR current; GET previous
      if pipeline.Applied() { store := Incr(store, current, now); }
      var previousCount := Read(store, previous, now);
      if pipeline.Failed? { return Error; }

      var currentCount := store[current].count;
      if currentCount == 1 {
        if expire.Applied() { store := store[current := Counter(1, At(now + Ttl(cfg)))]; }
        if expire.Failed? { return Error; }
      }
      v := Answer(Within(cfg, previousCount, currentCount, Elapsed(cfg, now)));
    }
  }

  /** The counters as the pipeline leaves them. */
  function Counted(cfg: Config, store: Store, r: Request): Store
    requires ValidConfig(cfg)
  {
    if r.pipeline.Applied() then Incr(store, CurrentKey(cfg, r), r.now) else store
  }

  lemma AfterPipeline(cfg: Config, store: Store, r: Request)
    requires ValidConfig(cfg)
    ensures var counted, key := Counted(cfg, store, r), CurrentKey(cfg, r);
            && Read(counted, PreviousKey(cfg, r), r.now) == Read(store, PreviousKey(cfg, r), r.now)
            && (r.pipeline.Applied() ==> key in counted && counted[key].count == Read(store, key, r.now) + 1)
            && StoreAfterOne(cfg, store, r)
               == if r.pipeline.Ok? && counted[key].count == 1 && r.expire.Applied()
                  then counted[key := Counter(1, At(r.now + Ttl(cfg)))] else counted
  {
    KeyInjective(cfg.prefix, r.identity, WindowID(cfg, r.now), r.identity, WindowID(cfg, r.now) - 1);
  }
}
