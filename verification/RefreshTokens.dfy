/** Refresh-token rotation (internal/usecase/auth.go over
    internal/repository/postgres/refresh_token_repo.go). Each operation is one step. A token is
    named by its hash: SHA-256 is taken as injective and fresh tokens as unused. */
module TokenProtocol {

  type Hash = string
  type UserId = string

  const REFRESH_TOKEN_TTL: nat := 30 * 24 * 3600

  /** `family` counts logins: a refreshed token stays in the family of the one it replaces. */
  datatype Token = Token(user: UserId, expiresAt: int, revoked: bool, family: nat)

  datatype Store = Store(tokens: map<Hash, Token>, logins: nat)

  const EMPTY: Store := Store(map[], 0)

  /** A call to Postgres may fail, before or after it took effect. */
  datatype Reply = Ok | Failed(applied: bool) {
    predicate Applied() { Ok? || applied }
  }

  /** One rate limiter's answer, and what the user table says. */
  datatype Limit = Allowed | Exceeded | LimiterFailed

  datatype Account = Known(user: UserId) | Unknown | LookupFailed

  /** What `Login` meets in turn before it issues tokens. */
  datatype Credentials = Credentials(ip: Limit, email: Limit, account: Account, passwordMatches: bool)

  /** Key generation either fails or gives a token nobody has seen; then the row is inserted. */
  datatype Issue = Issue(generated: bool, minted: Hash, create: Reply)

  datatype Op =
    | Login(who: Credentials, now: int, issue: Issue)
    | Refresh(hash: Hash, now: int, find: bool, revoke: Reply, revokeAll: Reply, issue: Issue)
    | Logout(given: bool, hash: Hash, find: bool, revoke: Reply)

  datatype Result =
    | RateLimited | InvalidCredential | NotFound | TokenRevoked | Expired | Error
    | Issued(hash: Hash) | LoggedOut

  predicate Enabled(s: Store, op: Op) {
    op.Logout? || op.issue.minted !in s.tokens
  }

  /** UPDATE ... SET revoked_at = now() WHERE id = $1 AND revoked_at IS NULL */
  function Revoke(tokens: map<Hash, Token>, hash: Hash): map<Hash, Token> {
    if hash in tokens then tokens[hash := tokens[hash].(revoked := true)] else tokens
  }

  function RevokeAll(tokens: map<Hash, Token>, user: UserId): map<Hash, Token> {
    map h | h in tokens :: if tokens[h].user == user then tokens[h].(revoked := true) else tokens[h]
  }

  function IssueToken(tokens: map<Hash, Token>, user: UserId, family: nat, now: int, i: Issue)
    : (map<Hash, Token>, Result)
  {
    if !i.generated then (tokens, Error)
    else
      var tokens' := if i.create.Applied()
                     then tokens[i.minted := Token(user, now + REFRESH_TOKEN_TTL, false, family)] else tokens;
      (tokens', if i.create.Ok? then Issued(i.minted) else Error)
  }

  function Apply(s: Store, op: Op): (Store, Result) {
    match op
    case Login(who, now, issue) =>
      if !who.ip.Allowed? then (s, if who.ip.Exceeded? then RateLimited else Error)
      else if !who.email.Allowed? then (s, if who.email.Exceeded? then RateLimited else Error)
      else if who.account.LookupFailed? then (s, Error)
      else if who.account.Unknown? || !who.passwordMatches then (s, InvalidCredential)
      else
        var (tokens, r) := IssueToken(s.tokens, who.account.user, s.logins, now, issue);
        (Store(tokens, s.logins + 1), r)
    case Refresh(hash, now, find, revoke, revokeAll, issue) =>
      if !find then (s, Error)
      else if hash !in s.tokens then (s, NotFound)
      else
        var stored := s.tokens[hash];
        if stored.revoked then
          // Reuse: every session of the user goes, and a failure to do so is not reported.
          (if revokeAll.Applied() then s.(tokens := RevokeAll(s.tokens, stored.user)) else s, TokenRevoked)
        else if now > stored.expiresAt then (s, Expired)
        else
          var revoked := if revoke.Applied() then Revoke(s.tokens, hash) else s.tokens;
          if !revoke.Ok? then (s.(tokens := revoked), Error)
          else
            var (tokens, r) := IssueToken(revoked, stored.user, stored.family, now, issue);
            (s.(tokens := tokens), r)
    case Logout(given, hash, find, revoke) =>
      if !given then (s, LoggedOut)
      else if !find then (s, Error)
      else if hash !in s.tokens then (s, LoggedOut)
      else (if revoke.Applied() then s.(tokens := Revoke(s.tokens, hash)) else s,
            if revoke.Ok? then LoggedOut else Error)
  }

  ghost predicate Run(s: Store, ops: seq<Op>, s': Store)
    decreases |ops|
  {
    if ops == [] then s == s' else Enabled(s, ops[0]) && Run(Apply(s, ops[0]).0, ops[1..], s')
  }

  // ------------------------------------------------------------------ families

  ghost predicate OnePerFamily(s: Store) {
    && (forall h :: h in s.tokens ==> s.tokens[h].family < s.logins)
    && (forall h, h' :: h in s.tokens && h' in s.tokens && h != h' && s.tokens[h].family == s.tokens[h'].family ==>
          s.tokens[h].revoked || s.tokens[h'].revoked)
    && (forall h, h' :: h in s.tokens && h' in s.tokens && s.tokens[h].family == s.tokens[h'].family ==>
          s.tokens[h].user == s.tokens[h'].user)
  }

  /** No unrevoked token is left in the family. */
  ghost predicate Spent(tokens: map<Hash, Token>, family: nat) {
    forall h :: h in tokens && tokens[h].family == family ==> tokens[h].revoked
  }

  lemma IssueKeepsFamilies(s: Store, user: UserId, family: nat, now: int, i: Issue)
    requires OnePerFamily(s) && family < s.logins && i.minted !in s.tokens && Spent(s.tokens, family)
    requires forall h :: h in s.tokens && s.tokens[h].family == family ==> s.tokens[h].user == user
    ensures OnePerFamily(s.(tokens := IssueToken(s.tokens, user, family, now, i).0))
  {}

  lemma RevokeKeepsFamilies(s: Store, hash: Hash)
    requires OnePerFamily(s)
    ensures OnePerFamily(s.(tokens := Revoke(s.tokens, hash)))
    ensures hash in s.tokens && !s.tokens[hash].revoked ==> Spent(Revoke(s.tokens, hash), s.tokens[hash].family)
  {}

  lemma RevokeAllKeepsFamilies(s: Store, user: UserId)
    requires OnePerFamily(s)
    ensures OnePerFamily(s.(tokens := RevokeAll(s.tokens, user)))
  {}

  lemma StepKeepsFamilies(s: Store, op: Op)
    requires OnePerFamily(s) && Enabled(s, op)
    ensures OnePerFamily(Apply(s, op).0)
  {
    match op
    case Login(who, now, issue) =>
      if who.account.Known? {
        IssueKeepsFamilies(s.(logins := s.logins + 1), who.account.user, s.logins, now, issue);
      }
    case Refresh(hash, now, find, revoke, revokeAll, issue) =>
      if find && hash in s.tokens {
        var stored := s.tokens[hash];
        RevokeAllKeepsFamilies(s, stored.user);
        RevokeKeepsFamilies(s, hash);
        if !stored.revoked && revoke.Ok? {
          IssueKeepsFamilies(s.(tokens := Revoke(s.tokens, hash)), stored.user, stored.family, now, issue);
        }
      }
    case Logout(given, hash, find, revoke) =>
      RevokeKeepsFamilies(s, hash);
  }

  lemma {:induction false} RunKeepsFamilies(s: Store, ops: seq<Op>, s': Store)
    requires OnePerFamily(s) && Run(s, ops, s')
    ensures OnePerFamily(s')
    decreases |ops|
  {
    if ops != [] {
      StepKeepsFamilies(s, ops[0]);
      RunKeepsFamilies(Apply(s, ops[0]).0, ops[1..], s');
    }
  }

  /** Token families: in every reachable state a login has at most one unrevoked token, and all its
      tokens belong to one user. */
  lemma AtMostOneActivePerLogin(ops: seq<Op>, s: Store, h: Hash, h': Hash)
    requires Run(EMPTY, ops, s) && h in s.tokens && h' in s.tokens && s.tokens[h].family == s.tokens[h'].family
    ensures !s.tokens[h].revoked && !s.tokens[h'].revoked ==> h == h'
    ensures s.tokens[h].user == s.tokens[h'].user
  {
    RunKeepsFamilies(EMPTY, ops, s);
  }

  // ------------------------------------------------------------------ revocation

  /** Tokens are never deleted, never change owner, and never become active again. */
  ghost predicate Aged(s: Store, s': Store) {
    forall h :: h in s.tokens ==>
      && h in s'.tokens && s'.tokens[h].user == s.tokens[h].user && s'.tokens[h].expiresAt == s.tokens[h].expiresAt
      && (s.tokens[h].revoked ==> s'.tokens[h].revoked)
  }

  lemma StepAges(s: Store, op: Op)
    requires Enabled(s, op)
    ensures Aged(s, Apply(s, op).0)
  {}

  lemma {:induction false} RevokedStaysRevoked(s: Store, ops: seq<Op>, s': Store)
    requires Run(s, ops, s')
    ensures Aged(s, s')
    decreases |ops|
  {
    if ops != [] {
      StepAges(s, ops[0]);
      RevokedStaysRevoked(Apply(s, ops[0]).0, ops[1..], s');
    }
  }

  predicate Redeemable(s: Store, hash: Hash, now: int) {
    hash in s.tokens && !s.tokens[hash].revoked && now <= s.tokens[hash].expiresAt
  }

  /** A refresh succeeds only with a redeemable token, and then uses it up. */
  lemma RefreshRedeems(s: Store, op: Op)
    requires op.Refresh? && Enabled(s, op)
    ensures Apply(s, op).1.Issued? <==>
            && op.find && Redeemable(s, op.hash, op.now)
            && op.revoke.Ok? && op.issue.generated && op.issue.create.Ok?
    ensures Apply(s, op).1.Issued? ==>
            var s' := Apply(s, op).0;
            && s'.tokens[op.hash].revoked && !s'.tokens[op.issue.minted].revoked
            && s'.tokens[op.issue.minted].user == s.tokens[op.hash].user
            && s'.tokens[op.issue.minted].family == s.tokens[op.hash].family
  {}

  /** A login succeeds only past both limiters, with a known account and its password, and opens a family
      of its own. An unknown account and a wrong password are answered alike, and nothing but a
      completed login changes the tokens. */
  lemma LoginOpensFamily(s: Store, op: Op)
    requires op.Login? && Enabled(s, op) && OnePerFamily(s)
    ensures var (s', r) := Apply(s, op);
            && (r.Issued? <==> op.who.ip.Allowed? && op.who.email.Allowed? && op.who.account.Known?
                               && op.who.passwordMatches && op.issue.generated && op.issue.create.Ok?)
            && (r.RateLimited? <==> op.who.ip.Exceeded? || (op.who.ip.Allowed? && op.who.email.Exceeded?))
            && (r.InvalidCredential? <==> op.who.ip.Allowed? && op.who.email.Allowed? && !op.who.account.LookupFailed?
                                          && !(op.who.account.Known? && op.who.passwordMatches))
            && (r.Issued? ==>
                  && s'.tokens[r.hash].user == op.who.account.user
                  && forall h :: h in s'.tokens && s'.tokens[h].family == s'.tokens[r.hash].family ==> h == r.hash)
            && (!r.Issued? && !r.Error? ==> s' == s)
  {}

  /** A token that has been exchanged once is never exchanged again, whatever happens in between. */
  lemma RedeemedOnlyOnce(s: Store, first: Op, ops: seq<Op>, s': Store, again: Op)
    requires first.Refresh? && again.Refresh? && again.hash == first.hash
    requires Enabled(s, first) && Apply(s, first).1.Issued?
    requires Run(Apply(s, first).0, ops, s') && Enabled(s', again)
    ensures !Apply(s', again).1.Issued?
    ensures again.find ==> Apply(s', again).1 == TokenRevoked
  {
    RevokedStaysRevoked(Apply(s, first).0, ops, s');
  }

  /** Reuse response: presenting a revoked token, with the revoke-all applied, ends every session the
      user had: none of those tokens is redeemable at any time in any continuation. Other users'
      tokens are untouched. */
  lemma ReuseEndsAllSessions(s: Store, reuse: Op, ops: seq<Op>, s': Store, h: Hash, now: int)
    requires reuse.Refresh? && reuse.find && Enabled(s, reuse) && reuse.revokeAll.Applied()
    requires reuse.hash in s.tokens && s.tokens[reuse.hash].revoked
    requires h in s.tokens && Run(Apply(s, reuse).0, ops, s')
    ensures s.tokens[h].user == s.tokens[reuse.hash].user ==> !Redeemable(s', h, now)
    ensures s.tokens[h].user != s.tokens[reuse.hash].user ==> Apply(s, reuse).0.tokens[h] == s.tokens[h]
  {
    RevokedStaysRevoked(Apply(s, reuse).0, ops, s');
  }

  /** Theft: when two parties hold the same token, the second to present it ends both sessions,
      including the one the first obtained with it. */
  lemma TheftEndsTheStolenSession(s: Store, first: Op, ops: seq<Op>, s': Store, again: Op, later: seq<Op>, end: Store,
                                  now: int)
    requires first.Refresh? && again.Refresh? && again.hash == first.hash
    requires Enabled(s, first) && Apply(s, first).1.Issued?
    requires Run(Apply(s, first).0, ops, s') && Enabled(s', again) && again.find && again.revokeAll.Applied()
    requires Run(Apply(s', again).0, later, end)
    ensures !Redeemable(end, first.issue.minted, now)
  {
    RefreshRedeems(s, first);
    RevokedStaysRevoked(Apply(s, first).0, ops, s');
    ReuseEndsAllSessions(s', again, later, end, first.issue.minted, now);
  }

  // ------------------------------------------------------------------ logout and the other answers

  /** A logout that went through ends the session: the token is not redeemable at any time in any
      continuation. Nobody else's token is touched. */
  lemma LogoutEndsTheSession(s: Store, op: Op, ops: seq<Op>, s': Store, h: Hash, now: int)
    requires op.Logout? && op.given && op.find && op.revoke.Applied() && op.hash in s.tokens
    requires Run(Apply(s, op).0, ops, s')
    ensures !Redeemable(s', op.hash, now)
    ensures h in s.tokens && h != op.hash ==> h in Apply(s, op).0.tokens && Apply(s, op).0.tokens[h] == s.tokens[h]
  {
    RevokedStaysRevoked(Apply(s, op).0, ops, s');
  }

  /** Logging out twice, or with a token nobody knows, is answered like the first time; the only error is a
      call that fails. */
  lemma LogoutIsIdempotent(s: Store, op: Op)
    requires op.Logout?
    ensures var again := Apply(Apply(s, op).0, op);
            && (Apply(s, op).1.LoggedOut? || Apply(s, op).1.Error?)
            && (Apply(s, op).1.Error? <==> op.given && (!op.find || (op.hash in s.tokens && op.revoke.Failed?)))
            && again.1 == Apply(s, op).1 && again.0 == Apply(s, op).0
  {}

  /** Why a refresh is refused, exactly, and that a refusal other than for reuse leaves every other token as
      it was. */
  lemma RefreshRefusals(s: Store, op: Op, h: Hash)
    requires op.Refresh? && Enabled(s, op)
    ensures var (s', r) := Apply(s, op);
            && (r.NotFound? <==> op.find && op.hash !in s.tokens)
            && (r.TokenRevoked? <==> op.find && op.hash in s.tokens && s.tokens[op.hash].revoked)
            && (r.Expired? <==> op.find && op.hash in s.tokens && !s.tokens[op.hash].revoked
                                && op.now > s.tokens[op.hash].expiresAt)
            && (!r.Issued? && !r.TokenRevoked? && h in s.tokens && h != op.hash ==>
                  h in s'.tokens && s'.tokens[h] == s.tokens[h])
            && (r.NotFound? || r.Expired? ==> s' == s)
            && (op.find && Redeemable(s, op.hash, op.now) ==> (s'.tokens[op.hash].revoked <==> op.revoke.Applied()))
  {}

  /** A token just issued can be exchanged during the next thirty days, and not after. */
  lemma IssuedForThirtyDays(s: Store, op: Op, at: int)
    requires (op.Login? || op.Refresh?) && Enabled(s, op) && Apply(s, op).1.Issued?
    ensures Redeemable(Apply(s, op).0, Apply(s, op).1.hash, at) <==> at <= op.now + 2_592_000
  {}
}

module AuthUsecase {
  import opened TokenProtocol

  class AuthUsecase {
    var tokens: map<Hash, Token>
    var logins: nat

    ghost function State(): Store
      reads this
    {
      Store(tokens, logins)
    }

    ghost predicate Valid()
      reads this
    {
      OnePerFamily(State())
    }

    constructor ()
      ensures Valid() && State() == EMPTY
    {
      tokens, logins := map[], 0;
    }

    /** Shared by `Login` and `Refresh`: a token is handed out only once it is stored, it is then
        redeemable for precisely 30 days, and no other token is touched. */
    method IssueTokens(user: UserId, family: nat, now: int, issue: Issue) returns (r: Result)
      requires issue.minted !in tokens
      modifies this`tokens
      ensures r.Error? || r == Issued(issue.minted)
      ensures r.Issued? <==> issue.generated && issue.create.Ok?
      ensures r.Issued? ==> forall t :: Redeemable(State(), issue.minted, t) <==> t <= now + 2_592_000
      ensures issue.minted in tokens <==> issue.generated && issue.create.Applied()
      ensures issue.minted in tokens ==>
                tokens[issue.minted].user == user && tokens[issue.minted].family == family
                && !tokens[issue.minted].revoked && tokens[issue.minted].expiresAt == now + REFRESH_TOKEN_TTL
      ensures tokens - {issue.minted} == old(tokens)
    {
      if !issue.generated { return Error; }
      if issue.create.Applied() {
        tokens := tokens[issue.minted := Token(user, now + REFRESH_TOKEN_TTL, false, family)];
      }
      if issue.create.Failed? { return Error; }
      r := Issued(issue.minted);
    }

    /** What that determines is the token store of the protocol. */
    lemma IssuedAsSpecified(before: map<Hash, Token>, after: map<Hash, Token>, user: UserId, family: nat, now: int,
                            issue: Issue)
      requires issue.minted !in before && after - {issue.minted} == before
      requires issue.minted in after <==> issue.generated && issue.create.Applied()
      requires issue.minted in after ==> after[issue.minted] == Token(user, now + REFRESH_TOKEN_TTL, false, family)
      ensures after == IssueToken(before, user, family, now, issue).0
    {
      assert forall h :: h != issue.minted ==> (h in after <==> h in before) && (h in before ==> after[h] == before[h]) by {
        forall h | h != issue.minted
          ensures (h in after <==> h in before) && (h in before ==> after[h] == before[h])
        {
          assert h in after - {issue.minted} <==> h in before;
        }
      }
    }

    method Login(who: Credentials, now: int, issue: Issue) returns (r: Result)
      requires Valid() && issue.minted !in tokens
      modifies this
      ensures Valid() && (State(), r) == Apply(old(State()), Op.Login(who, now, issue))
    {
      StepKeepsFamilies(State(), Op.Login(who, now, issue));
      if who.ip.LimiterFailed? { return Error; }
      if who.ip.Exceeded? { return RateLimited; }
      if who.email.LimiterFailed? { return Error; }
      if who.email.Exceeded? { return RateLimited; }
      if who.account.LookupFailed? { return Error; }
      if who.account.Unknown? { return InvalidCredential; }
      if !who.passwordMatches { return InvalidCredential; }
      ghost var before := tokens;
      var family := logins;
      logins := logins + 1;
      r := IssueTokens(who.account.user, family, now, issue);
      IssuedAsSpecified(before, tokens, who.account.user, family, now, issue);
    }

    method Refresh(hash: Hash, now: int, find: bool, revoke: Reply, revokeAll: Reply, issue: Issue) returns (r: Result)
      requires Valid() && issue.minted !in tokens
      modifies this
      ensures Valid() && (State(), r) == Apply(old(State()), Op.Refresh(hash, now, find, revoke, revokeAll, issue))
    {
      StepKeepsFamilies(State(), Op.Refresh(hash, now, find, revoke, revokeAll, issue));
      if !find { return Error; }
      if hash !in tokens { return NotFound; }
      var stored := tokens[hash];
      if stored.revoked {
        if revokeAll.Applied() { tokens := TokenProtocol.RevokeAll(tokens, stored.user); }
        return TokenRevoked;
      }
      if now > stored.expiresAt { return Expired; }
      if revoke.Applied() { tokens := TokenProtocol.Revoke(tokens, hash); }
      if revoke.Failed? { return Error; }
      ghost var before := tokens;
      r := IssueTokens(stored.user, stored.family, now, issue);
      IssuedAsSpecified(before, tokens, stored.user, stored.family, now, issue);
    }

    /** Idempotent: no token, or an unknown one, counts as logged out. */
    method Logout(given: bool, hash: Hash, find: bool, revoke: Reply) returns (r: Result)
      requires Valid()
      modifies this
      ensures Valid() && (State(), r) == Apply(old(State()), Op.Logout(given, hash, find, revoke))
    {
      StepKeepsFamilies(State(), Op.Logout(given, hash, find, revoke));
      if !given { return LoggedOut; }
      if !find { return Error; }
      if hash !in tokens { return LoggedOut; }
      if revoke.Applied() { tokens := TokenProtocol.Revoke(tokens, hash); }
      r := if revoke.Ok? then LoggedOut else Error;
    }
  }
}
