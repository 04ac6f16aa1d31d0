/**
 The two clients of the token provider that try again once after a rejection: the transport's
 Send, on HTTP 401, and the Web API's apiCall, on an authentication error inside a 200. Between
 any two steps of a call, other users of the same provider may do anything.
 */
module Retry {
  import opened Prelude
  import opened Tokens

  // ---------- one attempt ----------

  /** What the outside contributes to one attempt; before and after are the other users' calls. */
  datatype Attempt<A> = Attempt(before: seq<Call>, token: Moment, answer: A, after: seq<Call>)

  /**
   Obtain a token, if the client is authenticated, and post. None: nothing was posted.
   */
  function Post(p: Provider, authenticated: bool, calls: seq<Call>, token: Moment, rejected: bool)
    : (Provider, bool)
  {
    var q := PerformAll(p, Other, calls);
    if !authenticated then (Log(q, Posted(None, rejected)), true)
    else
      var (t, issued) := Token(q, Me, token);
      match issued
      case None => (t, false)
      case Some(_) => (Log(t, Posted(issued, rejected)), true)
  }

  /** The rejected token is dropped; only then do other users come in between. */
  function Drop(p: Provider, after: seq<Call>): Provider {
    Invalidate(PerformAll(p, Other, after), Me)
  }

  // ---------- Send ----------

  datatype Http = NetworkFailed | Status(code: int)

  datatype SendResult = NotSent | SendFailed | Unauthorized | Handled(code: int)

  predicate Is401(answer: Http) {
    answer == Status(401)
  }

  /** doPost. */
  function SendOnce(p: Provider, authenticated: bool, closed: bool, a: Attempt<Http>): (Provider, SendResult) {
    if closed then (p, NotSent) else
    var (q, posted) := Post(p, authenticated, a.before, a.token, Is401(a.answer));
    if !posted then (q, NotSent)
    else if a.answer.NetworkFailed? then (q, SendFailed)
    else (q, Handled(a.answer.code))
  }

  /**
   sseClientTransport.Send, up to the handling of the response. closed says whether the transport
   has been closed by the time of each attempt.
   */
  function Send(p: Provider, authenticated: bool, closed: (bool, bool), first: Attempt<Http>, second: Attempt<Http>)
    : (Provider, SendResult)
  {
    var (q, r) := SendOnce(p, authenticated, closed.0, first);
    if r == Handled(401) && authenticated then
      var (t, r') := SendOnce(Drop(q, first.after), authenticated, closed.1, second);
      (t, if r' == Handled(401) then Unauthorized else r')
    else (q, r)
  }

  // ---------- apiCall ----------

  datatype ApiAnswer = ApiFailed | BadStatus | BadBody | SlackRefusal(reason: string) | Accepted

  datatype ApiResult = NoToken | Failed(answer: ApiAnswer) | Done

  predicate IsAuthError(reason: string) {
    reason == "invalid_auth" || reason == "token_revoked" || reason == "token_expired" || reason == "not_authed"
  }

  predicate RejectsToken(answer: ApiAnswer) {
    answer.SlackRefusal? && IsAuthError(answer.reason)
  }

  function ApiOnce(p: Provider, authenticated: bool, a: Attempt<ApiAnswer>): (Provider, ApiResult) {
    var (q, posted) := Post(p, authenticated, a.before, a.token, RejectsToken(a.answer));
    if !posted then (q, NoToken)
    else if a.answer.Accepted? then (q, Done)
    else (q, Failed(a.answer))
  }

  /** What apiCall does in all, by the attempts it makes. */
  function ApiCall(p: Provider, authenticated: bool, first: Attempt<ApiAnswer>, second: Attempt<ApiAnswer>)
    : (Provider, ApiResult)
  {
    var (q, r) := ApiOnce(p, authenticated, first);
    if r.Failed? && RejectsToken(r.answer) && authenticated then
      ApiOnce(Drop(q, first.after), authenticated, second)
    else (q, r)
  }

  // ---------- what both guarantee ----------

  predicate PostedAt(log: seq<Act>, i: nat) {
    i < |log| && log[i].Posted?
  }

  /** The request at k carries a token that the endpoint issued after position m. */
  ghost predicate RenewedBetween(log: seq<Act>, m: nat, k: nat)
    requires PostedAt(log, k)
  {
    exists j :: m < j < k && j < |log| && log[k].carried.Some? && Renews(log[j], log[k].carried.value)
  }

  /** We dropped the token between the requests at i and k, and the second carries one refreshed since. */
  ghost predicate DroppedAndRenewed(log: seq<Act>, i: nat, k: nat)
    requires PostedAt(log, k)
  {
    exists m: nat :: i < m < k && m < |log| && log[m] == Invalidated(Me) && RenewedBetween(log, m, k)
  }

  /**
   From position `from` on: at most two requests; the second only after the first was rejected,
   after one invalidation, and with a token refreshed since that invalidation.
   */
  ghost predicate RetriesSafely(log: seq<Act>, from: nat) {
    && (forall i: nat, k: nat | from <= i < k && PostedAt(log, i) && PostedAt(log, k) ::
          && log[i].rejected && log[i].carried.Some?
          && DroppedAndRenewed(log, i, k))
    && (forall i: nat, k: nat, l: nat | from <= i < k < l && PostedAt(log, i) && PostedAt(log, k) :: !PostedAt(log, l))
    && (forall i: nat, k: nat | from <= i < k < |log| && log[i] == Invalidated(Me) :: log[k] != Invalidated(Me))
  }

  /** The calls of others, and Token itself, neither post nor invalidate on our behalf. */
  predicate Quiet(log: seq<Act>, from: nat) {
    from <= |log| && forall i | from <= i < |log| :: !log[i].Posted? && log[i] != Invalidated(Me)
  }

  lemma TokenIsQuiet(p: Provider, who: Caller, m: Moment)
    ensures var q := Token(p, who, m).0; p.log <= q.log && Quiet(q.log, |p.log|)
  {
  }

  lemma CallIsQuiet(p: Provider, c: Call)
    ensures var q := Perform(p, Other, c); p.log <= q.log && Quiet(q.log, |p.log|)
  {
  }

  lemma {:induction false} OthersAreQuiet(p: Provider, calls: seq<Call>)
    ensures var q := PerformAll(p, Other, calls); p.log <= q.log && Quiet(q.log, |p.log|)
    decreases |calls|
  {
    if calls == [] {
    } else {
      var q := Perform(p, Other, calls[0]);
      CallIsQuiet(p, calls[0]);
      OthersAreQuiet(q, calls[1..]);
      var end := PerformAll(p, Other, calls);
      assert end == PerformAll(q, Other, calls[1..]);
      forall i | |p.log| <= i < |end.log|
        ensures !end.log[i].Posted? && end.log[i] != Invalidated(Me)
      {
        assert i < |q.log| ==> end.log[i] == q.log[i];
      }
    }
  }

  /** One attempt is quiet up to its request, which is the last thing it does. */
  lemma PostIsLast(p: Provider, authenticated: bool, calls: seq<Call>, token: Moment, rejected: bool)
    ensures var (q, posted) := Post(p, authenticated, calls, token, rejected);
      && p.log <= q.log
      && (!posted ==> Quiet(q.log, |p.log|))
      && (posted ==>
            && |p.log| < |q.log|
            && Quiet(q.log[..|q.log| - 1], |p.log|)
            && var last := q.log[|q.log| - 1];
               last.Posted? && last.rejected == rejected && (last.carried.Some? <==> authenticated))
  {
    OthersAreQuiet(p, calls);
    var q := PerformAll(p, Other, calls);
    TokenIsQuiet(q, Me, token);
    var (end, posted) := Post(p, authenticated, calls, token, rejected);
    var mid := if authenticated then Token(q, Me, token).0 else q;
    assert posted ==> end.log[..|end.log| - 1] == mid.log;
    assert forall i | |p.log| <= i < |q.log| :: mid.log[i] == q.log[i];
  }

  /** After an invalidation the token of the next request has been refreshed since. */
  lemma PostAfterDropIsRenewed(p: Provider, since: nat, calls: seq<Call>, token: Moment, rejected: bool)
    requires since <= |p.log| && RefreshedSince(p, since)
    ensures var (q, posted) := Post(p, true, calls, token, rejected);
      posted ==>
        var k := |q.log| - 1;
        && since <= k && q.log[k].Posted? && q.log[k].carried.Some?
        && exists j :: since <= j < k && Renews(q.log[j], q.log[k].carried.value)
  {
    CallsKeepRefreshedSince(p, Other, calls, since);
    var q := PerformAll(p, Other, calls);
    TokenKeepsRefreshedSince(q, Me, token, since);
    var (t, issued) := Token(q, Me, token);
    if issued.Some? {
      var j :| since <= j < |t.log| && Renews(t.log[j], t.tokens.access);
      var end := Log(t, Posted(issued, rejected));
      assert end.log[j] == t.log[j];
    }
  }

  /** Two requests with one invalidation and a refresh between them, and nothing else of ours. */
  lemma SafeByPositions(log: seq<Act>, from: nat, i0: nat, m0: nat, k0: nat)
    requires from <= i0 < m0 < |log| && PostedAt(log, i0) && log[i0].rejected && log[i0].carried.Some?
    requires log[m0] == Invalidated(Me)
    requires forall i: nat | from <= i < |log| && log[i].Posted? :: i == i0 || i == k0
    requires forall i: nat | from <= i < |log| && log[i] == Invalidated(Me) :: i == m0
    requires PostedAt(log, k0) ==> m0 < k0 && RenewedBetween(log, m0, k0)
    ensures RetriesSafely(log, from)
  {
    if PostedAt(log, k0) {
      assert DroppedAndRenewed(log, i0, k0);
    }
  }

  /** One attempt, rejected; an invalidation; another attempt: this is safe, whatever others do. */
  lemma TwoAttemptsAreSafe(
    p: Provider, first: seq<Call>, t1: Moment, after: seq<Call>, second: seq<Call>, t2: Moment, rejected: bool)
    requires Post(p, true, first, t1, true).1
    ensures var q := Post(p, true, first, t1, true).0;
      var end := Post(Drop(q, after), true, second, t2, rejected).0;
      p.log <= end.log && RetriesSafely(end.log, |p.log|)
  {
    PostIsLast(p, true, first, t1, true);
    var q := Post(p, true, first, t1, true).0;
    OthersAreQuiet(q, after);
    var o := PerformAll(q, Other, after);
    var d := Drop(q, after);
    PostIsLast(d, true, second, t2, rejected);
    PostAfterDropIsRenewed(d, |d.log|, second, t2, rejected);
    var (end, posted) := Post(d, true, second, t2, rejected);
    var i0, m0, k0 := |q.log| - 1, |o.log|, |end.log| - 1;
    assert end.log[m0] == d.log[m0] == Invalidated(Me);
    assert end.log[i0] == q.log[i0];
    forall i: nat | |p.log| <= i < |end.log|
      ensures end.log[i].Posted? ==> i == i0 || (posted && i == k0)
      ensures end.log[i] == Invalidated(Me) ==> i == m0
    {
      if i < |q.log| {
        assert end.log[i] == q.log[i];
        assert i < i0 ==> q.log[..i0][i] == q.log[i];
      } else if i < |o.log| {
        assert end.log[i] == o.log[i];
      } else if i > m0 {
        assert posted && i < k0 ==> end.log[..k0][i] == end.log[i];
      }
    }
    SafeByPositions(end.log, |p.log|, i0, m0, if posted then k0 else |end.log|);
  }

  /** The same without the second attempt. */
  lemma DroppedAttemptIsSafe(p: Provider, first: seq<Call>, t1: Moment, after: seq<Call>)
    requires Post(p, true, first, t1, true).1
    ensures var d := Drop(Post(p, true, first, t1, true).0, after);
      p.log <= d.log && RetriesSafely(d.log, |p.log|)
  {
    PostIsLast(p, true, first, t1, true);
    var q := Post(p, true, first, t1, true).0;
    OthersAreQuiet(q, after);
    var o := PerformAll(q, Other, after);
    var d := Drop(q, after);
    forall i: nat | |p.log| <= i < |d.log|
      ensures d.log[i].Posted? ==> i == |q.log| - 1
      ensures d.log[i] == Invalidated(Me) ==> i == |o.log|
    {
      if i < |q.log| {
        assert d.log[i] == q.log[i];
        assert i < |q.log| - 1 ==> q.log[..|q.log| - 1][i] == q.log[i];
      } else if i < |o.log| {
        assert d.log[i] == o.log[i];
      }
    }
  }

  lemma OneAttemptIsSafe(p: Provider, authenticated: bool, calls: seq<Call>, t: Moment, rejected: bool)
    ensures var q := Post(p, authenticated, calls, t, rejected).0;
      p.log <= q.log && RetriesSafely(q.log, |p.log|)
  {
    PostIsLast(p, authenticated, calls, t, rejected);
    var q := Post(p, authenticated, calls, t, rejected).0;
    forall i: nat | |p.log| <= i < |q.log| - 1
      ensures !q.log[i].Posted? && q.log[i] != Invalidated(Me)
    {
      assert q.log[i] == q.log[..|q.log| - 1][i];
    }
  }

  /** Send makes at most two requests, and the second only with a token renewed after the 401. */
  lemma SendRetriesSafely(
    p: Provider, authenticated: bool, closed: (bool, bool), first: Attempt<Http>, second: Attempt<Http>)
    ensures var q := Send(p, authenticated, closed, first, second).0;
      p.log <= q.log && RetriesSafely(q.log, |p.log|)
  {
    OneAttemptIsSafe(p, authenticated, first.before, first.token, Is401(first.answer));
    var (q, r) := SendOnce(p, authenticated, closed.0, first);
    if r == Handled(401) && authenticated {
      if closed.1 {
        DroppedAttemptIsSafe(p, first.before, first.token, first.after);
      } else {
        TwoAttemptsAreSafe(p, first.before, first.token, first.after,
          second.before, second.token, Is401(second.answer));
      }
    }
  }

  lemma ApiCallRetriesSafely(p: Provider, authenticated: bool, first: Attempt<ApiAnswer>, second: Attempt<ApiAnswer>)
    ensures var q := ApiCall(p, authenticated, first, second).0;
      p.log <= q.log && RetriesSafely(q.log, |p.log|)
  {
    OneAttemptIsSafe(p, authenticated, first.before, first.token, RejectsToken(first.answer));
    var r := ApiOnce(p, authenticated, first).1;
    if r.Failed? && RejectsToken(r.answer) && authenticated {
      TwoAttemptsAreSafe(p, first.before, first.token, first.after,
        second.before, second.token, RejectsToken(second.answer));
    }
  }

  // ---------- which attempts are made, and what comes of them ----------

  /** The requests that were posted. */
  function Posts(log: seq<Act>): seq<Act> {
    if log == [] then []
    else
      var last := |log| - 1;
      Posts(log[..last]) + if log[last].Posted? then [log[last]] else []
  }

  lemma {:induction false} QuietPosts(log: seq<Act>, from: nat)
    requires Quiet(log, from)
    ensures Posts(log) == Posts(log[..from])
    decreases |log|
  {
    if |log| == from {
      assert log[..from] == log;
    } else {
      var front := log[..|log| - 1];
      QuietPosts(front, from);
      assert front[..from] == log[..from];
    }
  }

  /** The token that an attempt is issued. */
  function IssuedTo<A>(p: Provider, a: Attempt<A>): Option<string> {
    Token(PerformAll(p, Other, a.before), Me, a.token).1
  }

  /** The request that an attempt makes, if it makes one. */
  function RequestOf<A>(p: Provider, authenticated: bool, a: Attempt<A>, rejected: bool): Act {
    Posted(if authenticated then IssuedTo(p, a) else None, rejected)
  }

  /** One attempt posts exactly if it needs no token or is issued one, and then with that token. */
  lemma AttemptPosts<A>(p: Provider, authenticated: bool, a: Attempt<A>, rejected: bool)
    ensures var (q, posted) := Post(p, authenticated, a.before, a.token, rejected);
      && (posted <==> (authenticated ==> IssuedTo(p, a).Some?))
      && Posts(q.log) == if posted then Posts(p.log) + [RequestOf(p, authenticated, a, rejected)] else Posts(p.log)
  {
    var q := PerformAll(p, Other, a.before);
    OthersAreQuiet(p, a.before);
    QuietPosts(q.log, |p.log|);
    assert q.log[..|p.log|] == p.log;
    if authenticated {
      var t := Token(q, Me, a.token).0;
      TokenIsQuiet(q, Me, a.token);
      QuietPosts(t.log, |q.log|);
      assert t.log[..|q.log|] == q.log;
      assert (t.log + [Posted(IssuedTo(p, a), rejected)])[..|t.log|] == t.log;
    } else {
      assert (q.log + [Posted(None, rejected)])[..|q.log|] == q.log;
    }
  }

  lemma DropPosts(p: Provider, after: seq<Call>)
    ensures Posts(Drop(p, after).log) == Posts(p.log)
  {
    var q := PerformAll(p, Other, after);
    OthersAreQuiet(p, after);
    QuietPosts(q.log, |p.log|);
    assert q.log[..|p.log|] == p.log;
    assert (q.log + [Invalidated(Me)])[..|q.log|] == q.log;
  }

  /** What a single request comes to. */
  function Outcome(answer: Http): SendResult {
    if answer.NetworkFailed? then SendFailed else Handled(answer.code)
  }

  /** An attempt makes its request exactly if the transport is open and a token is there where one is needed. */
  predicate MakesRequest<A>(p: Provider, authenticated: bool, closed: bool, a: Attempt<A>) {
    !closed && (authenticated ==> IssuedTo(p, a).Some?)
  }

  lemma SendOnceMakesItsRequest(p: Provider, authenticated: bool, closed: bool, a: Attempt<Http>)
    ensures var (q, r) := SendOnce(p, authenticated, closed, a);
      if MakesRequest(p, authenticated, closed, a) then
        && r == Outcome(a.answer)
        && Posts(q.log) == Posts(p.log) + [RequestOf(p, authenticated, a, a.answer == Status(401))]
      else r == NotSent && Posts(q.log) == Posts(p.log)
  {
    AttemptPosts(p, authenticated, a, Is401(a.answer));
  }

  /**
   Send, by the answers: a second request is made exactly if the first was answered by 401, the
   transport is still open and a token is issued; and the last answer is the result, a second 401
   being the end.
   */
  lemma SendMakesItsAttempts(
    p: Provider, authenticated: bool, closed: (bool, bool), first: Attempt<Http>, second: Attempt<Http>)
    ensures
      var (q, r) := Send(p, authenticated, closed, first, second);
      var one := RequestOf(p, authenticated, first, first.answer == Status(401));
      if !MakesRequest(p, authenticated, closed.0, first) then r == NotSent && Posts(q.log) == Posts(p.log)
      else if !authenticated || first.answer != Status(401) then
        r == Outcome(first.answer) && Posts(q.log) == Posts(p.log) + [one]
      else
        var d := Drop(SendOnce(p, authenticated, closed.0, first).0, first.after);
        var two := RequestOf(d, authenticated, second, second.answer == Status(401));
        if !MakesRequest(d, authenticated, closed.1, second) then
          r == NotSent && Posts(q.log) == Posts(p.log) + [one]
        else
          && r == (if second.answer == Status(401) then Unauthorized else Outcome(second.answer))
          && Posts(q.log) == Posts(p.log) + [one] + [two]
  {
    SendOnceMakesItsRequest(p, authenticated, closed.0, first);
    var (q, r) := SendOnce(p, authenticated, closed.0, first);
    if r == Handled(401) && authenticated {
      DropPosts(q, first.after);
      SendOnceMakesItsRequest(Drop(q, first.after), authenticated, closed.1, second);
    }
  }

  /** What a single call of the Web API comes to. */
  function ApiOutcome(answer: ApiAnswer): ApiResult {
    if answer.Accepted? then Done else Failed(answer)
  }

  /** The answer refuses the token: an authentication error inside a 200. */
  predicate IsAuthRefusal(answer: ApiAnswer) {
    answer.SlackRefusal? && answer.reason in {"invalid_auth", "token_revoked", "token_expired", "not_authed"}
  }

  lemma AuthErrorsRejectTheToken(answer: ApiAnswer)
    ensures RejectsToken(answer) <==> IsAuthRefusal(answer)
  {
  }

  lemma ApiOnceMakesItsRequest(p: Provider, authenticated: bool, a: Attempt<ApiAnswer>)
    ensures var (q, r) := ApiOnce(p, authenticated, a);
      if MakesRequest(p, authenticated, false, a) then
        && r == ApiOutcome(a.answer)
        && Posts(q.log) == Posts(p.log) + [RequestOf(p, authenticated, a, RejectsToken(a.answer))]
      else r == NoToken && Posts(q.log) == Posts(p.log)
  {
    AttemptPosts(p, authenticated, a, RejectsToken(a.answer));
  }

  /** The same for apiCall, whose second answer is the result whatever it is. */
  lemma ApiCallMakesItsAttempts(
    p: Provider, authenticated: bool, first: Attempt<ApiAnswer>, second: Attempt<ApiAnswer>)
    ensures
      var (q, r) := ApiCall(p, authenticated, first, second);
      var one := RequestOf(p, authenticated, first, RejectsToken(first.answer));
      if !MakesRequest(p, authenticated, false, first) then r == NoToken && Posts(q.log) == Posts(p.log)
      else if !authenticated || !RejectsToken(first.answer) then
        r == ApiOutcome(first.answer) && Posts(q.log) == Posts(p.log) + [one]
      else
        var d := Drop(ApiOnce(p, authenticated, first).0, first.after);
        var two := RequestOf(d, authenticated, second, RejectsToken(second.answer));
        if !MakesRequest(d, authenticated, false, second) then r == NoToken && Posts(q.log) == Posts(p.log) + [one]
        else r == ApiOutcome(second.answer) && Posts(q.log) == Posts(p.log) + [one] + [two]
  {
    ApiOnceMakesItsRequest(p, authenticated, first);
    var (q, r) := ApiOnce(p, authenticated, first);
    if r.Failed? && RejectsToken(r.answer) && authenticated {
      DropPosts(q, first.after);
      ApiOnceMakesItsRequest(Drop(q, first.after), authenticated, second);
    }
  }

  // ---------- step by step ----------

  method PostWith(auth: StoredTokenProvider, authenticated: bool, calls: seq<Call>, token: Moment, rejected: bool)
    returns (posted: bool)
    modifies auth
    ensures (auth.View(), posted) == Post(old(auth.View()), authenticated, calls, token, rejected)
  {
    auth.LetOthers(calls);
    var issued: Option<string> := None;
    if authenticated {
      issued := auth.GetToken(Me, token);
      if issued.None? {
        return false;
      }
    }
    auth.log := auth.log + [Posted(issued, rejected)];
    return true;
  }

  method DoPost(auth: StoredTokenProvider, authenticated: bool, closed: bool, a: Attempt<Http>)
    returns (r: SendResult)
    modifies auth
    ensures (auth.View(), r) == SendOnce(old(auth.View()), authenticated, closed, a)
  {
    if closed {
      return NotSent;
    }
    var posted := PostWith(auth, authenticated, a.before, a.token, Is401(a.answer));
    if !posted {
      return NotSent;
    }
    if a.answer.NetworkFailed? {
      return SendFailed;
    }
    return Handled(a.answer.code);
  }

  method SendMessage(
    auth: StoredTokenProvider, authenticated: bool, closed: (bool, bool), first: Attempt<Http>, second: Attempt<Http>)
    returns (r: SendResult)
    modifies auth
    ensures (auth.View(), r) == Send(old(auth.View()), authenticated, closed, first, second)
  {
    r := DoPost(auth, authenticated, closed.0, first);
    if r == Handled(401) && authenticated {
      auth.LetOthers(first.after);
      auth.Drop(Me);
      r := DoPost(auth, authenticated, closed.1, second);
      if r == Handled(401) {
        return Unauthorized;
      }
    }
  }

  method CallOnce(auth: StoredTokenProvider, authenticated: bool, a: Attempt<ApiAnswer>) returns (r: ApiResult)
    modifies auth
    ensures (auth.View(), r) == ApiOnce(old(auth.View()), authenticated, a)
  {
    var posted := PostWith(auth, authenticated, a.before, a.token, RejectsToken(a.answer));
    if !posted {
      return NoToken;
    }
    if a.answer.Accepted? {
      return Done;
    }
    return Failed(a.answer);
  }

  /** apiCall's loop; the attempts come from outside, one for each turn. */
  method CallApi(auth: StoredTokenProvider, authenticated: bool, attempts: nat -> Attempt<ApiAnswer>)
    returns (r: ApiResult)
    modifies auth
    ensures (auth.View(), r) == ApiCall(old(auth.View()), authenticated, attempts(0), attempts(1))
  {
    var retried := false;
    var turn: nat := 0;
    while true
      invariant turn == if retried then 1 else 0
      invariant !retried ==> auth.View() == old(auth.View())
      invariant retried ==>
        ApiOnce(auth.View(), authenticated, attempts(1))
        == ApiCall(old(auth.View()), authenticated, attempts(0), attempts(1))
      decreases if retried then 0 else 1
    {
      var a := attempts(turn);
      r := CallOnce(auth, authenticated, a);
      if r.Failed? && !retried && RejectsToken(r.answer) && authenticated {
        auth.LetOthers(a.after);
        auth.Drop(Me);
        retried, turn := true, turn + 1;
        continue;
      }
      return;
    }
  }
}
