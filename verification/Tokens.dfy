/**
 The stored token provider: a cache of one access token, renewed by a refresh token. Times are in
 nanoseconds; every answer of the token endpoint, and whether saving works, comes from outside.
 */
module Tokens {
  import opened Prelude

  const SECOND := 1_000_000_000

  datatype StoredTokens = StoredTokens(access: string, refresh: string, tokenType: string, expiresAt: int)

  /** A decoded answer of the token endpoint. */
  datatype TokenResponse = TokenResponse(
    ok: Option<bool>, error: string, access: string, refresh: string, tokenType: string, expiresIn: int)

  /** int64 arithmetic. */
  function Wrap64(n: int): int {
    (n + 0x8000_0000_0000_0000) % 0x1_0000_0000_0000_0000 - 0x8000_0000_0000_0000
  }

  /** time.Time.Unix after adding a Duration of so many seconds, computed in int64 nanoseconds. */
  function UnixAfter(now: int, seconds: int): int {
    (now + Wrap64(seconds * SECOND)) / SECOND
  }

  datatype ParseError = EndpointError(error: string) | EmptyAccessToken

  function ParseTokenResponse(r: TokenResponse, now: int): Result<StoredTokens, ParseError> {
    if r.ok == Some(false) then Failure(EndpointError(r.error))
    else if r.access == "" then Failure(EmptyAccessToken)
    else
      var expiresAt :=
        if r.expiresIn > 0 then UnixAfter(now, r.expiresIn)
        else if r.refresh != "" then UnixAfter(now, 3600)
        else 0;
      Success(StoredTokens(r.access, r.refresh, r.tokenType, expiresAt))
  }

  /** The longest lifetime whose nanoseconds fit a Duration. */
  const MAX_LIFETIME := 9_223_372_036

  /** A declared lifetime is honoured exactly when it fits a Duration; a longer one wraps around. */
  lemma LifetimeIsHonoured(r: TokenResponse, now: int)
    requires ParseTokenResponse(r, now).Success?
    requires 0 < r.expiresIn < 0x8000_0000_0000_0000
    ensures ParseTokenResponse(r, now).value.expiresAt == now / SECOND + r.expiresIn
        <==> r.expiresIn <= MAX_LIFETIME
  {
    var nanos := r.expiresIn * SECOND;
    var k := (nanos + 0x8000_0000_0000_0000) / 0x1_0000_0000_0000_0000;
    assert Wrap64(nanos) == nanos - k * 0x1_0000_0000_0000_0000;
    assert k == 0 <==> r.expiresIn <= MAX_LIFETIME;
    assert (now + nanos) / SECOND == now / SECOND + r.expiresIn;
  }

  // ---------- the provider ----------

  datatype Caller = Me | Other

  /**
   What has been done with the provider, in order. A refresh presents a refresh token and is issued an
   access token and, or not, another refresh token; Posted is a request that carried a token.
   */
  datatype Act =
    | Refreshed(presented: string, token: string, refresh: string)
    | RefreshFailed(presented: string)
    | Issued(who: Caller, token: string)
    | Refused(who: Caller)
    | Invalidated(who: Caller)
    | Posted(carried: Option<string>, rejected: bool)

  datatype Provider = Provider(tokens: StoredTokens, disk: StoredTokens, log: seq<Act>)

  datatype Endpoint = Unavailable | Answers(response: TokenResponse)

  /** What the outside contributes to one call of Token. */
  datatype Moment = Moment(now: int, endpoint: Endpoint, saves: bool)

  /** This token was issued here. */
  predicate Renews(a: Act, token: string) {
    a.Refreshed? && a.token == token
  }

  function Log(p: Provider, a: Act): Provider {
    p.(log := p.log + [a])
  }

  /** The cached token has more than 30 seconds left. */
  predicate Fresh(t: StoredTokens, now: int) {
    t.access != "" && now + 30 * SECOND < t.expiresAt * SECOND
  }

  function Refresh(m: Moment): Option<StoredTokens> {
    match m.endpoint
    case Unavailable => None
    case Answers(response) =>
      match ParseTokenResponse(response, m.now)
      case Failure(_) => None
      case Success(tokens) => Some(tokens)
  }

  function Issue(p: Provider, who: Caller, token: string): (Provider, Option<string>) {
    (Log(p, Issued(who, token)), Some(token))
  }

  /** storedTokenProvider.Token; None is its error. */
  function Token(p: Provider, who: Caller, m: Moment): (Provider, Option<string>) {
    var t := p.tokens;
    if t.refresh == "" then
      if t.access == "" then (Log(p, Refused(who)), None) else Issue(p, who, t.access)
    else if Fresh(t, m.now) then Issue(p, who, t.access)
    else
      match Refresh(m)
      case None => (Log(Log(p, RefreshFailed(t.refresh)), Refused(who)), None)
      case Some(renewed) =>
        var kept := if renewed.refresh == "" then renewed.(refresh := t.refresh) else renewed;
        var p' := Log(p.(tokens := kept, disk := if m.saves then kept else p.disk),
          Refreshed(t.refresh, renewed.access, renewed.refresh));
        Issue(p', who, kept.access)
  }

  /** storedTokenProvider.Invalidate. */
  function Invalidate(p: Provider, who: Caller): Provider {
    Log(p.(tokens := p.tokens.(access := "", expiresAt := 0)), Invalidated(who))
  }

  datatype Call = GetToken(m: Moment) | DropToken

  function Perform(p: Provider, who: Caller, c: Call): Provider {
    match c
    case GetToken(m) => Token(p, who, m).0
    case DropToken => Invalidate(p, who)
  }

  function PerformAll(p: Provider, who: Caller, calls: seq<Call>): Provider
    decreases |calls|
  {
    if calls == [] then p else PerformAll(Perform(p, who, calls[0]), who, calls[1..])
  }

  // ---------- what one call does ----------

  /** The endpoint grants this. */
  predicate Grants(e: Endpoint) {
    e.Answers? && e.response.ok != Some(false) && e.response.access != ""
  }

  /** The cache may still be used: nothing can renew it, or more than 30 seconds are left. */
  predicate Usable(t: StoredTokens, now: int) {
    t.refresh == "" || (t.access != "" && now + 30 * SECOND < t.expiresAt * SECOND)
  }

  /**
   The whole of Token, by the fields of the answer. A renewal stores the new access token, its type
   and its lifetime, and the new refresh token if there is one, otherwise the old; what is saved is
   what is held, and a save that fails leaves the file as it was. Nothing else changes anything.
   */
  lemma TokenStoresWhatIsIssued(p: Provider, who: Caller, m: Moment)
    ensures var (q, token) := Token(p, who, m);
      if Usable(p.tokens, m.now) then
        && q.tokens == p.tokens && q.disk == p.disk
        && token == if p.tokens.access == "" then None else Some(p.tokens.access)
      else if Grants(m.endpoint) then
        var r := m.endpoint.response;
        && token == Some(r.access)
        && q.tokens.access == r.access && q.tokens.tokenType == r.tokenType
        && q.tokens.refresh == (if r.refresh != "" then r.refresh else p.tokens.refresh)
        && (0 < r.expiresIn <= MAX_LIFETIME ==> q.tokens.expiresAt == m.now / SECOND + r.expiresIn)
        && (r.expiresIn <= 0 ==> q.tokens.expiresAt == if r.refresh != "" then m.now / SECOND + 3600 else 0)
        && q.disk == (if m.saves then q.tokens else p.disk)
      else
        token == None && q.tokens == p.tokens && q.disk == p.disk
  {
    if !Usable(p.tokens, m.now) && Grants(m.endpoint) {
      var r := m.endpoint.response;
      if r.expiresIn > 0 {
        if r.expiresIn <= MAX_LIFETIME {
          LifetimeIsHonoured(r, m.now);
        }
      } else {
        assert Wrap64(3600 * SECOND) == 3600 * SECOND;
        assert (m.now + 3600 * SECOND) / SECOND == m.now / SECOND + 3600;
      }
    }
  }

  /** After an invalidation nothing is served from the cache, and what can renew it is still there. */
  lemma DroppedTokenIsNeverServed(p: Provider, who: Caller, later: Caller, m: Moment)
    ensures var q := Invalidate(p, who);
      && q.tokens == StoredTokens("", p.tokens.refresh, p.tokens.tokenType, 0) && q.disk == p.disk
      && var (_, token) := Token(q, later, m);
      && (token.Some? <==> p.tokens.refresh != "" && Grants(m.endpoint))
      && (token.Some? ==> token.value == m.endpoint.response.access)
  {
    TokenStoresWhatIsIssued(Invalidate(p, who), later, m);
  }

  // ---------- what every sequence of calls keeps ----------

  /** The last refresh token that was issued, or the one there was before. */
  function LastRefresh(loaded: string, acts: seq<Act>): string {
    if acts == [] then loaded
    else
      var last := acts[|acts| - 1];
      if last.Refreshed? && last.refresh != "" then last.refresh else LastRefresh(loaded, acts[..|acts| - 1])
  }

  lemma {:induction false} LastRefreshAppend(loaded: string, a: seq<Act>, b: seq<Act>)
    ensures LastRefresh(loaded, a + b) == LastRefresh(LastRefresh(loaded, a), b)
    decreases |b|
  {
    if b == [] {
      assert a + b == a;
    } else {
      assert (a + b)[..|a + b| - 1] == a + b[..|b| - 1];
      LastRefreshAppend(loaded, a, b[..|b| - 1]);
    }
  }

  /** Each renewal that was tried presented the last refresh token issued before it. */
  ghost predicate PresentsTheLast(loaded: string, acts: seq<Act>) {
    forall i | 0 <= i < |acts| ::
      && (acts[i].Refreshed? ==> acts[i].presented == LastRefresh(loaded, acts[..i]))
      && (acts[i].RefreshFailed? ==> acts[i].presented == LastRefresh(loaded, acts[..i]))
  }

  lemma PresentsTheLastAppend(loaded: string, a: seq<Act>, b: seq<Act>)
    requires PresentsTheLast(loaded, a) && PresentsTheLast(LastRefresh(loaded, a), b)
    ensures PresentsTheLast(loaded, a + b)
  {
    forall i | 0 <= i < |a + b|
      ensures (a + b)[i].Refreshed? ==> (a + b)[i].presented == LastRefresh(loaded, (a + b)[..i])
      ensures (a + b)[i].RefreshFailed? ==> (a + b)[i].presented == LastRefresh(loaded, (a + b)[..i])
    {
      if i < |a| {
        assert (a + b)[i] == a[i] && (a + b)[..i] == a[..i];
      } else {
        assert (a + b)[i] == b[i - |a|] && (a + b)[..i] == a + b[..i - |a|];
        LastRefreshAppend(loaded, a, b[..i - |a|]);
      }
    }
  }

  /** A renewal, or what is none, and then perhaps something that is none. */
  lemma RotationOfOne(loaded: string, a: Act, rest: seq<Act>)
    requires a.Refreshed? || a.RefreshFailed? ==> a.presented == loaded
    requires |rest| <= 1 && forall i | 0 <= i < |rest| :: !rest[i].Refreshed? && !rest[i].RefreshFailed?
    ensures LastRefresh(loaded, [a] + rest) == if a.Refreshed? && a.refresh != "" then a.refresh else loaded
    ensures PresentsTheLast(loaded, [a] + rest)
  {
    assert LastRefresh(loaded, [a]) == if a.Refreshed? && a.refresh != "" then a.refresh else loaded;
    assert ([a] + rest)[..0] == [];
    if rest == [] {
      assert [a] + rest == [a];
    } else {
      assert ([a] + rest)[..1] == [a];
    }
  }

  /** What a call adds to the log: a renewal or an attempt at one, if it makes any, and its outcome. */
  lemma StepLogs(p: Provider, who: Caller, c: Call) returns (first: Act, rest: seq<Act>)
    ensures Perform(p, who, c).log == p.log + ([first] + rest) && |rest| <= 1
    ensures forall i | 0 <= i < |rest| :: !rest[i].Refreshed? && !rest[i].RefreshFailed?
    ensures first.Refreshed? || first.RefreshFailed? ==> first.presented == p.tokens.refresh
    ensures Perform(p, who, c).tokens.refresh
         == if first.Refreshed? && first.refresh != "" then first.refresh else p.tokens.refresh
  {
    var log := Perform(p, who, c).log;
    first, rest := log[|p.log|], log[|p.log| + 1..];
    assert |rest| == 1 ==> rest[0] == log[|p.log| + 1];
    assert p.log + ([first] + rest) == log;
  }

  lemma StepFollowsRotation(p: Provider, who: Caller, c: Call) returns (acts: seq<Act>)
    ensures var q := Perform(p, who, c);
      && q.log == p.log + acts
      && q.tokens.refresh == LastRefresh(p.tokens.refresh, acts) && PresentsTheLast(p.tokens.refresh, acts)
  {
    var first, rest := StepLogs(p, who, c);
    acts := [first] + rest;
    RotationOfOne(p.tokens.refresh, first, rest);
  }

  /** What one stretch of the log says carries over to the next. */
  lemma RotationAppend(loaded: string, a: seq<Act>, held: string, b: seq<Act>)
    requires held == LastRefresh(loaded, a) && PresentsTheLast(loaded, a) && PresentsTheLast(held, b)
    ensures LastRefresh(loaded, a + b) == LastRefresh(held, b) && PresentsTheLast(loaded, a + b)
  {
    LastRefreshAppend(loaded, a, b);
    PresentsTheLastAppend(loaded, a, b);
  }

  lemma LogsAppend(log: seq<Act>, a: seq<Act>, b: seq<Act>)
    ensures (log + a) + b == log + (a + b)
  {
  }

  /**
   Rotation is followed: over every sequence of calls the refresh token held is the last one that the
   endpoint issued, or the loaded one; and each renewal presents the one held at that time.
   */
  lemma {:induction false} RotationIsFollowed(p: Provider, who: Caller, calls: seq<Call>) returns (acts: seq<Act>)
    ensures var q := PerformAll(p, who, calls);
      && q.log == p.log + acts
      && q.tokens.refresh == LastRefresh(p.tokens.refresh, acts) && PresentsTheLast(p.tokens.refresh, acts)
    decreases |calls|
  {
    if calls == [] {
      acts := [];
    } else {
      var q := Perform(p, who, calls[0]);
      var first := StepFollowsRotation(p, who, calls[0]);
      var more := RotationIsFollowed(q, who, calls[1..]);
      acts := first + more;
      RotationAppend(p.tokens.refresh, first, q.tokens.refresh, more);
      LogsAppend(p.log, first, more);
    }
  }

  /** Once there is a refresh token, there always is, in memory and on disk. */
  lemma {:induction false} RefreshTokenIsNeverLost(p: Provider, who: Caller, calls: seq<Call>)
    ensures p.tokens.refresh != "" ==> PerformAll(p, who, calls).tokens.refresh != ""
    ensures p.tokens.refresh != "" && p.disk.refresh != "" ==> PerformAll(p, who, calls).disk.refresh != ""
    decreases |calls|
  {
    if calls == [] {
    } else {
      RefreshTokenIsNeverLost(Perform(p, who, calls[0]), who, calls[1..]);
    }
  }

  lemma StepIssuesTokens(p: Provider, who: Caller, c: Call)
    ensures var q := Perform(p, who, c);
      && p.log <= q.log
      && forall i | |p.log| <= i < |q.log| && q.log[i].Issued? :: q.log[i].token != ""
  {
  }

  /** Nothing is ever issued that is not a token: whatever is loaded, and whatever the endpoint says. */
  lemma {:induction false} IssuedTokensAreNotEmpty(p: Provider, who: Caller, calls: seq<Call>)
    ensures var q := PerformAll(p, who, calls);
      && p.log <= q.log
      && forall i | |p.log| <= i < |q.log| && q.log[i].Issued? :: q.log[i].token != ""
    decreases |calls|
  {
    if calls == [] {
    } else {
      var q := Perform(p, who, calls[0]);
      StepIssuesTokens(p, who, calls[0]);
      IssuedTokensAreNotEmpty(q, who, calls[1..]);
      var end := PerformAll(p, who, calls);
      assert end == PerformAll(q, who, calls[1..]);
      forall i | |p.log| <= i < |end.log| && end.log[i].Issued?
        ensures end.log[i].token != ""
      {
        assert i < |q.log| ==> end.log[i] == q.log[i];
      }
    }
  }

  predicate Spent(t: StoredTokens) {
    t.access == "" && t.refresh == ""
  }

  /** With neither token there is no way back: every later call is refused and changes nothing. */
  lemma {:induction false} SpentIsForever(p: Provider, who: Caller, calls: seq<Call>)
    requires Spent(p.tokens)
    ensures var q := PerformAll(p, who, calls);
      && Spent(q.tokens) && q.disk == p.disk && p.log <= q.log
      && forall i | |p.log| <= i < |q.log| :: q.log[i] == Refused(who) || q.log[i] == Invalidated(who)
    decreases |calls|
  {
    if calls == [] {
    } else {
      var q := Perform(p, who, calls[0]);
      SpentIsForever(q, who, calls[1..]);
      var end := PerformAll(p, who, calls);
      forall i | |p.log| <= i < |end.log|
        ensures end.log[i] == Refused(who) || end.log[i] == Invalidated(who)
      {
        assert i < |q.log| ==> end.log[i] == q.log[i];
      }
    }
  }

  /** Calls end with neither token exactly when there never was a refresh token and one call dropped the other. */
  lemma {:induction false} SpentExactlyWhenDropped(p: Provider, who: Caller, calls: seq<Call>)
    ensures Spent(PerformAll(p, who, calls).tokens) <==>
      p.tokens.refresh == "" && (p.tokens.access == "" || DropToken in calls)
    decreases |calls|
  {
    if calls == [] {
    } else {
      assert DropToken in calls <==> calls[0] == DropToken || DropToken in calls[1..];
      SpentExactlyWhenDropped(Perform(p, who, calls[0]), who, calls[1..]);
    }
  }

  /** A token was obtained without asking the endpoint. */
  predicate Cached(p: Provider, who: Caller, m: Moment) {
    Token(p, who, m) == Issue(p, who, p.tokens.access)
  }

  /** The cache serves exactly while it holds a token that has more than 30 seconds left or cannot be renewed. */
  lemma CachedExactlyWhileUsable(p: Provider, who: Caller, m: Moment)
    ensures Cached(p, who, m) <==>
      p.tokens.access != "" && (p.tokens.refresh == "" || m.now + 30 * SECOND < p.tokens.expiresAt * SECOND)
  {
    if p.tokens.refresh != "" && !Fresh(p.tokens, m.now) {
      assert |Token(p, who, m).0.log| == |p.log| + 2;
    }
  }

  /**
   A token refreshed at one moment with a lifetime of e seconds is served from the cache until 31
   seconds before its end, and never in its last 30 seconds.
   */
  lemma RefreshedTokenServesItsLifetime(p: Provider, who: Caller, m: Moment, later: Moment)
    requires p.tokens.refresh != "" && !Fresh(p.tokens, m.now) && Refresh(m).Some?
    requires 0 < m.endpoint.response.expiresIn <= MAX_LIFETIME
    ensures
      var q := Token(p, who, m).0;
      var end := m.now + m.endpoint.response.expiresIn * SECOND;
      && q.tokens.access == m.endpoint.response.access != ""
      && (later.now <= end - 31 * SECOND ==> Cached(q, who, later))
      && (later.now >= end - 30 * SECOND ==> !Cached(q, who, later))
  {
    LifetimeIsHonoured(m.endpoint.response, m.now);
    var q := Token(p, who, m).0;
    assert q.tokens.expiresAt == m.now / SECOND + m.endpoint.response.expiresIn;
    if later.now >= m.now + m.endpoint.response.expiresIn * SECOND - 30 * SECOND {
      assert !Fresh(q.tokens, later.now);
      assert |Token(q, who, later).0.log| > |q.log| + 1;
    }
  }

  // ---------- a token after an invalidation is a refreshed one ----------

  /** The cached token, if any, was refreshed at or after position `since` of the log. */
  ghost predicate RefreshedSince(p: Provider, since: nat) {
    p.tokens.access == "" || exists j :: since <= j < |p.log| && Renews(p.log[j], p.tokens.access)
  }

  lemma TokenKeepsRefreshedSince(p: Provider, who: Caller, m: Moment, since: nat)
    requires RefreshedSince(p, since) && since <= |p.log|
    ensures var (q, token) := Token(p, who, m);
      && p.log <= q.log && RefreshedSince(q, since)
      && (token.Some? ==> token.value == q.tokens.access != "")
  {
    var q := Token(p, who, m).0;
    if q.tokens == p.tokens && p.tokens.access != "" {
      var j :| since <= j < |p.log| && Renews(p.log[j], p.tokens.access);
      assert q.log[j] == p.log[j];
    } else if q.tokens != p.tokens {
      assert Renews(q.log[|p.log|], q.tokens.access);
    }
  }

  lemma {:induction false} CallsKeepRefreshedSince(p: Provider, who: Caller, calls: seq<Call>, since: nat)
    requires RefreshedSince(p, since) && since <= |p.log|
    ensures var q := PerformAll(p, who, calls);
      p.log <= q.log && RefreshedSince(q, since)
    decreases |calls|
  {
    if calls == [] {
    } else {
      if calls[0].GetToken? {
        TokenKeepsRefreshedSince(p, who, calls[0].m, since);
      }
      CallsKeepRefreshedSince(Perform(p, who, calls[0]), who, calls[1..], since);
    }
  }

  // ---------- the provider as an object ----------

  class StoredTokenProvider {
    var tokens: StoredTokens
    var disk: StoredTokens
    var log: seq<Act>

    ghost function View(): Provider
      reads this
    {
      Provider(tokens, disk, log)
    }

    /** NewStoredTokenProvider, from the tokens that LoadTokens read. */
    constructor (loaded: StoredTokens)
      ensures View() == Provider(loaded, loaded, [])
    {
      tokens, disk, log := loaded, loaded, [];
    }

    method GetToken(who: Caller, m: Moment) returns (token: Option<string>)
      modifies this
      ensures (View(), token) == Token(old(View()), who, m)
    {
      if tokens.refresh == "" {
        if tokens.access == "" {
          log := log + [Refused(who)];
          return None;
        }
        log := log + [Issued(who, tokens.access)];
        return Some(tokens.access);
      }
      if tokens.access != "" && m.now + 30 * SECOND < tokens.expiresAt * SECOND {
        log := log + [Issued(who, tokens.access)];
        return Some(tokens.access);
      }
      var refreshed := Refresh(m);
      if refreshed.None? {
        log := log + [RefreshFailed(tokens.refresh)];
        log := log + [Refused(who)];
        return None;
      }
      var renewed := refreshed.value;
      var act := Refreshed(tokens.refresh, renewed.access, renewed.refresh);
      if renewed.refresh == "" {
        renewed := renewed.(refresh := tokens.refresh);
      }
      tokens := renewed;
      log := log + [act];
      if m.saves {
        disk := renewed;
      }
      log := log + [Issued(who, tokens.access)];
      return Some(tokens.access);
    }

    method Drop(who: Caller)
      modifies this
      ensures View() == Invalidate(old(View()), who)
    {
      tokens := tokens.(access := "", expiresAt := 0);
      log := log + [Invalidated(who)];
    }

    /** Whatever other users of the provider do in the meantime. */
    method LetOthers(calls: seq<Call>)
      modifies this
      ensures View() == PerformAll(old(View()), Other, calls)
    {
      assert calls[0..] == calls;
      for i := 0 to |calls|
        invariant PerformAll(View(), Other, calls[i..]) == PerformAll(old(View()), Other, calls)
      {
        assert calls[i..][1..] == calls[i + 1..];
        match calls[i] {
          case GetToken(m) =>
            var _ := GetToken(Other, m);
          case DropToken =>
            Drop(Other);
        }
      }
    }
  }
}
