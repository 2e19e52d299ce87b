/** Waiting for the first token: what a call to `auth_initialized` may rely on. */
module AuthSpec {
  import opened Common
  import opened TokenRefresh

  /** The cached token, the calls of `auth_initialized` still waiting, and those that returned. */
  datatype AuthState = AuthState(token: Option<Token>, waiting: set<nat>, returned: set<nat>)

  const UNINITIALIZED := AuthState(None, {}, {})

  datatype AuthEvent =
    | Subscribe(call: nat)     // a call of `auth_initialized` starts to wait
    | Refreshed(token: Token)  // a refresh completes and wakes those waiting

  function AuthStep(a: AuthState, e: AuthEvent): AuthState {
    match e
    case Subscribe(call) => a.(waiting := a.waiting + {call})
    case Refreshed(token) => AuthState(Some(token), {}, a.returned + a.waiting)
  }

  function AuthRun(a: AuthState, es: seq<AuthEvent>): AuthState {
    if |es| == 0 then a else AuthStep(AuthRun(a, es[..|es| - 1]), es[|es| - 1])
  }

  function AccessToken(a: AuthState): Result<string, Error> {
    if a.token.Some? then Ok(a.token.value.secret) else Err(Auth("Not authed yet"))
  }

  ghost predicate SubscribedBefore(es: seq<AuthEvent>, call: nat, j: int) {
    exists i :: 0 <= i < j && i < |es| && es[i] == Subscribe(call)
  }

  ghost predicate RefreshedAfterSubscribing(es: seq<AuthEvent>, call: nat) {
    exists j :: 0 <= j < |es| && es[j].Refreshed? && SubscribedBefore(es, call, j)
  }

  lemma {:induction false} WaitingSubscribed(a: AuthState, es: seq<AuthEvent>, call: nat)
    requires a == UNINITIALIZED
    ensures call in AuthRun(a, es).waiting + AuthRun(a, es).returned <==> SubscribedBefore(es, call, |es|)
  {
    if |es| > 0 {
      var n := |es| - 1;
      WaitingSubscribed(a, es[..n], call);
      if SubscribedBefore(es[..n], call, n) {
        var i :| 0 <= i < n && es[..n][i] == Subscribe(call);
        assert es[i] == Subscribe(call);
      }
      if SubscribedBefore(es, call, |es|) && es[n] != Subscribe(call) {
        var i :| 0 <= i < |es| && es[i] == Subscribe(call);
        assert es[..n][i] == Subscribe(call);
      }
    }
  }

  lemma {:induction false} ReturnedExactly(a: AuthState, es: seq<AuthEvent>, call: nat)
    requires a == UNINITIALIZED
    ensures call in AuthRun(a, es).returned <==> RefreshedAfterSubscribing(es, call)
  {
    if |es| > 0 {
      var n := |es| - 1;
      var front := es[..n];
      ReturnedExactly(a, front, call);
      WaitingSubscribed(a, front, call);
      PrefixSubscribes(es, call, n);
      if RefreshedAfterSubscribing(front, call) {
        var j :| 0 <= j < |front| && front[j].Refreshed? && SubscribedBefore(front, call, j);
        PrefixSubscribes(es, call, j);
        PrefixSubscribes(front, call, j);
        assert front[..j] == es[..j];
        assert es[j].Refreshed? && SubscribedBefore(es, call, j);
      }
      if RefreshedAfterSubscribing(es, call) {
        var j :| 0 <= j < |es| && es[j].Refreshed? && SubscribedBefore(es, call, j);
        if j < n {
          PrefixSubscribes(es, call, j);
          PrefixSubscribes(front, call, j);
          assert front[..j] == es[..j];
          assert front[j].Refreshed? && SubscribedBefore(front, call, j);
        }
      }
    }
  }

  lemma PrefixSubscribes(es: seq<AuthEvent>, call: nat, j: nat)
    requires j <= |es|
    ensures SubscribedBefore(es, call, j) <==> SubscribedBefore(es[..j], call, j)
  {
    if SubscribedBefore(es, call, j) {
      var i :| 0 <= i < j && es[i] == Subscribe(call);
      assert es[..j][i] == Subscribe(call);
    }
  }

  lemma {:induction false} TokenStays(a: AuthState, es: seq<AuthEvent>)
    ensures a.token.Some? ==> AuthRun(a, es).token.Some?
    ensures a.token.None? && AuthRun(a, es).token.None? ==> AuthRun(a, es).returned == a.returned
  {
    if |es| > 0 {
      TokenStays(a, es[..|es| - 1]);
    }
  }

  /**
   A call of `auth_initialized` returns exactly when a refresh has completed after it began to
   wait; and once any call has returned, `access_token` succeeds now and in every continuation.
   */
  lemma InitialisationSafety(es: seq<AuthEvent>, call: nat, more: seq<AuthEvent>)
    ensures call in AuthRun(UNINITIALIZED, es).returned <==> RefreshedAfterSubscribing(es, call)
    ensures call in AuthRun(UNINITIALIZED, es).returned ==>
              AccessToken(AuthRun(UNINITIALIZED, es)).Ok? && AccessToken(AuthRun(AuthRun(UNINITIALIZED, es), more)).Ok?
  {
    ReturnedExactly(UNINITIALIZED, es, call);
    TokenStays(UNINITIALIZED, es);
    TokenStays(AuthRun(UNINITIALIZED, es), more);
  }

  lemma {:induction false} RunsJoin(a: AuthState, es: seq<AuthEvent>, more: seq<AuthEvent>)
    ensures AuthRun(a, es + more) == AuthRun(AuthRun(a, es), more)
  {
    if |more| == 0 {
      assert es + more == es;
    } else {
      RunsJoin(a, es, more[..|more| - 1]);
      assert (es + more)[..|es + more| - 1] == es + more[..|more| - 1];
    }
  }

  // The calls and refreshes of the background loop's rounds.

  function Subscribes(calls: seq<nat>): seq<AuthEvent> {
    seq(|calls|, i requires 0 <= i < |calls| => Subscribe(calls[i]))
  }

  /** Some calls begin to wait, and then a check ends. */
  function RoundEvents(l: Loop, o: Outcome, calls: seq<nat>): seq<AuthEvent> {
    Subscribes(calls) + if Requests(l) && o.response.Granted? then [Refreshed(TokenAfter(l, o).value)] else []
  }

  function LoopEvents(l: Loop, os: seq<Outcome>, calls: seq<seq<nat>>): seq<AuthEvent>
    requires |calls| == |os|
  {
    if |os| == 0 then [] else
      var n := |os| - 1;
      LoopEvents(l, os[..n], calls[..n]) + RoundEvents(AfterChecks(l, os[..n]), os[n], calls[n])
  }

  lemma {:induction false} SubscribeAll(a: AuthState, calls: seq<nat>)
    ensures AuthRun(a, Subscribes(calls)) == a.(waiting := a.waiting + set call | call in calls)
  {
    if |calls| > 0 {
      var n := |calls| - 1;
      SubscribeAll(a, calls[..n]);
      assert Subscribes(calls)[..n] == Subscribes(calls[..n]);
      assert calls == calls[..n] + [calls[n]];
    }
  }

  lemma RoundEffect(a: AuthState, l: Loop, o: Outcome, calls: seq<nat>)
    ensures var subscribed := a.(waiting := a.waiting + set call | call in calls);
            AuthRun(a, RoundEvents(l, o, calls)) ==
            if Requests(l) && o.response.Granted? then
              AuthStep(subscribed, Refreshed(TokenAfter(l, o).value))
            else
              subscribed
  {
    SubscribeAll(a, calls);
    if Requests(l) && o.response.Granted? {
      assert RoundEvents(l, o, calls)[..|calls|] == Subscribes(calls);
    } else {
      assert RoundEvents(l, o, calls) == Subscribes(calls);
    }
  }

  predicate CalledBy(calls: seq<seq<nat>>, n: nat, call: nat)
    requires n <= |calls|
  {
    exists k :: 0 <= k < n && call in calls[k]
  }

  /** A call made in some round meets a granted request in that round or a later one. */
  predicate Woken(l: Loop, os: seq<Outcome>, calls: seq<seq<nat>>, call: nat)
    requires |calls| == |os|
  {
    exists n :: 0 <= n < |os| && GrantedAt(l, os, n) && CalledBy(calls, n + 1, call)
  }

  lemma CalledByPrefix(calls: seq<seq<nat>>, n: nat, m: nat, call: nat)
    requires m <= n <= |calls|
    ensures CalledBy(calls, m, call) <==> CalledBy(calls[..n], m, call)
  {
    if CalledBy(calls, m, call) {
      var k :| 0 <= k < m && call in calls[k];
      assert calls[..n][k] == calls[k];
    }
  }

  lemma WokenPrefix(l: Loop, os: seq<Outcome>, calls: seq<seq<nat>>, call: nat)
    requires 0 < |os| == |calls|
    ensures var n := |os| - 1;
            Woken(l, os, calls, call) <==>
            Woken(l, os[..n], calls[..n], call) || (GrantedAt(l, os, n) && CalledBy(calls, n + 1, call))
  {
    var last := |os| - 1;
    forall n: nat | n < last
      ensures GrantedAt(l, os, n) <==> GrantedAt(l, os[..last], n)
      ensures CalledBy(calls, n + 1, call) <==> CalledBy(calls[..last], n + 1, call)
    {
      assert os[..last][..n] == os[..n];
      CalledByPrefix(calls, last, n + 1, call);
    }
    if Woken(l, os[..last], calls[..last], call) {
      var n :| 0 <= n < last && GrantedAt(l, os[..last], n) && CalledBy(calls[..last], n + 1, call);
      assert GrantedAt(l, os, n) && CalledBy(calls, n + 1, call);
    }
    if Woken(l, os, calls, call) {
      var n :| 0 <= n < |os| && GrantedAt(l, os, n) && CalledBy(calls, n + 1, call);
      assert n < last ==> GrantedAt(l, os[..last], n) && CalledBy(calls[..last], n + 1, call);
    }
  }

  /**
   Across the rounds of the loop, whenever calls are made, those that have returned are exactly
   those that met a granted request, and all the others wait.
   */
  lemma {:induction false} WokenExactly(l: Loop, os: seq<Outcome>, calls: seq<seq<nat>>, call: nat)
    requires |calls| == |os|
    ensures var a := AuthRun(UNINITIALIZED, LoopEvents(l, os, calls));
            && (call in a.returned <==> Woken(l, os, calls, call))
            && (call in a.waiting || call in a.returned <==> CalledBy(calls, |calls|, call))
  {
    if |os| > 0 {
      var n := |os| - 1;
      WokenExactly(l, os[..n], calls[..n], call);
      WokenPrefix(l, os, calls, call);
      CalledByPrefix(calls, n, n, call);
      var before := AuthRun(UNINITIALIZED, LoopEvents(l, os[..n], calls[..n]));
      var check := AfterChecks(l, os[..n]);
      RunsJoin(UNINITIALIZED, LoopEvents(l, os[..n], calls[..n]), RoundEvents(check, os[n], calls[n]));
      RoundEffect(before, check, os[n], calls[n]);
    }
  }
}

/** The token provider, its interval and its background loop, updated in place. */
module OAuth {
  import opened Common
  import opened TokenRefresh
  import opened AuthSpec

  /** A request is given up after the request timeout. */
  function Limited(requestTimeout: nat, o: Outcome): Outcome {
    if o.latency > requestTimeout then Outcome(requestTimeout, Refused) else o
  }

  function AllLimited(requestTimeout: nat, os: seq<Outcome>): seq<Outcome> {
    seq(|os|, i requires 0 <= i < |os| => Limited(requestTimeout, os[i]))
  }

  class TokenProvider {
    const requestTimeout: nat
    var cachedToken: Option<Token>
    var waiting: set<nat>
    var returned: set<nat>

    function State(): AuthState
      reads this
    {
      AuthState(cachedToken, waiting, returned)
    }

    constructor (requestTimeout: nat)
      ensures State() == UNINITIALIZED && this.requestTimeout == requestTimeout
    {
      this.requestTimeout := requestTimeout;
      cachedToken, waiting, returned := None, {}, {};
    }

    /** A call of `auth_initialized` subscribes; it returns at the next completed refresh. */
    method AuthInitialized(call: nat)
      modifies this
      ensures State() == AuthStep(old(State()), Subscribe(call))
    {
      waiting := waiting + {call};
    }

    /** The secret of the cached token, as the server gave it. */
    method GetAccessToken() returns (r: Result<string, Error>)
      ensures r == AccessToken(State())
      ensures r == if cachedToken.Some? then Ok(cachedToken.value.secret) else Err(Auth("Not authed yet"))
    {
      match cachedToken
      case Some(token) => r := Ok(token.secret);
      case None => r := Err(Auth("Not authed yet"));
    }

    /** Without a token, or fifteen seconds before its end. */
    method CachedTokenIsExpired(now: int) returns (expired: bool)
      ensures expired == Expired(cachedToken, now)
      ensures expired <==> cachedToken == None || cachedToken.value.expiresAt <= now + 15 * SECOND
    {
      match cachedToken
      case Some(token) => expired := token.expiresAt <= now + CLOCK_SKEW_BUFFER;
      case None => expired := true;
    }

    /**
     One check at time `now`; `o` is what a request would meet with. Returns the time it ends: at once
     when the token is not yet expired, else with the answer, or when the request timeout gives it up.
     Only a granted answer in time changes anything.
     */
    method RefreshToken(now: int, o: Outcome) returns (end: int)
      modifies this
      ensures var expired := old(cachedToken) == None || old(cachedToken).value.expiresAt <= now + 15 * SECOND;
              && now <= end <= now + requestTimeout
              && end == (if !expired then now else if o.latency > requestTimeout then now + requestTimeout
                         else now + o.latency)
              && (!expired || o.latency > requestTimeout || o.response.Refused? ==> State() == old(State()))
              && (expired && o.latency <= requestTimeout && o.response.Granted? ==>
                    && cachedToken == Some(Token(o.response.secret,
                                                 end + if o.response.expiresIn.Some? then o.response.expiresIn.value
                                                       else 0))
                    && returned == old(returned) + old(waiting) && waiting == {})
      ensures var l := Loop(now, 0, now, old(cachedToken));
              var limited := Limited(requestTimeout, o);
              && end == CheckEnd(l, limited)
              && State() ==
                 if Requests(l) && limited.response.Granted? then
                   AuthStep(old(State()), Refreshed(TokenAfter(l, limited).value))
                 else
                   old(State())
    {
      end := now;
      var expired := CachedTokenIsExpired(now);
      if !expired {
        return;
      }
      if o.latency > requestTimeout {
        end := now + requestTimeout;
        return;
      }
      end := now + o.latency;
      match o.response
      case Refused =>
      case Granted(secret, expiresIn) =>
        var lifetime := if expiresIn.Some? then expiresIn.value else 0;
        cachedToken := Some(Token(secret, end + lifetime));
        returned, waiting := returned + waiting, {};
    }
  }

  /** An interval whose overdue ticks pass at once, each putting the next one period later. */
  class Interval {
    const period: nat
    var due: int

    constructor (now: int, period: nat)
      ensures due == now && this.period == period
    {
      this.period := period;
      due := now;
    }

    method Tick(now: int) returns (at: int)
      modifies this
      ensures at == Max(now, old(due)) && due == old(due) + period
    {
      at := if now <= due then due else now;
      due := due + period;
    }
  }

  /** With a request timeout, checks are never further apart than that, or else ten seconds. */
  lemma ChecksKeepComing(requestTimeout: nat, origin: int, os: seq<Outcome>, o: Outcome)
    ensures var l := AfterChecks(Created(origin), AllLimited(requestTimeout, os));
            l.now <= NextCheck(l, Limited(requestTimeout, o)).now <= l.now + Max(10 * SECOND, requestTimeout)
  {
    CheckSpacing(origin, AllLimited(requestTimeout, os), Limited(requestTimeout, o));
  }

  /** Check `n` is granted a token, in time, and no later one is. */
  predicate ServedFrom(requestTimeout: nat, origin: int, os: seq<Outcome>, n: nat) {
    && n < |os|
    && os[n].latency <= requestTimeout
    && LastGranted(Created(origin), AllLimited(requestTimeout, os), n)
  }

  lemma {:induction false} SomeLastGranted(l: Loop, os: seq<Outcome>, n: nat) returns (last: nat)
    requires n < |os| && GrantedAt(l, os, n)
    ensures last < |os| && LastGranted(l, os, last)
    decreases |os| - n
  {
    last := n;
    if m :| n < m < |os| && GrantedAt(l, os, m) {
      last := SomeLastGranted(l, os, m);
    }
  }

  /** The loop has a token exactly when it was granted one in time; the secret is that of the last answer it got. */
  lemma CachedIsServed(requestTimeout: nat, origin: int, os: seq<Outcome>)
    ensures var token := AfterChecks(Created(origin), AllLimited(requestTimeout, os)).token;
            && (token.Some? <==> exists n: nat :: ServedFrom(requestTimeout, origin, os, n))
            && (forall n: nat :: ServedFrom(requestTimeout, origin, os, n) ==>
                              token.Some? && os[n].response.Granted? && token.value.secret == os[n].response.secret)
  {
    var l, limited := Created(origin), AllLimited(requestTimeout, os);
    CachedIfGranted(l, limited);
    if AfterChecks(l, limited).token.Some? {
      var n :| 0 <= n < |limited| && GrantedAt(l, limited, n);
      var last := SomeLastGranted(l, limited, n);
      assert ServedFrom(requestTimeout, origin, os, last);
    }
    forall n: nat | ServedFrom(requestTimeout, origin, os, n)
      ensures AfterChecks(l, limited).token.Some? && os[n].response.Granted?
      ensures AfterChecks(l, limited).token.value.secret == os[n].response.secret
    {
      CachedIsLastGranted(l, limited, n);
    }
  }

  lemma LimitedPrefix(requestTimeout: nat, os: seq<Outcome>, n: nat)
    requires n < |os|
    ensures AllLimited(requestTimeout, os[..n + 1]) ==
            AllLimited(requestTimeout, os[..n]) + [Limited(requestTimeout, os[n])]
  {
  }

  /** Other tasks begin to wait for the first token. */
  method Subscribe(provider: TokenProvider, calls: seq<nat>)
    modifies provider
    ensures provider.State() == AuthRun(old(provider.State()), Subscribes(calls))
  {
    ghost var before := provider.State();
    for i := 0 to |calls|
      invariant provider.State() == AuthRun(before, Subscribes(calls[..i]))
    {
      assert Subscribes(calls[..i + 1]) == Subscribes(calls[..i]) + [AuthEvent.Subscribe(calls[i])];
      RunsJoin(before, Subscribes(calls[..i]), [AuthEvent.Subscribe(calls[i])]);
      provider.AuthInitialized(calls[i]);
    }
    assert calls[..|calls|] == calls;
  }

  /** One round: calls are made, the cache is checked, and the interval awaited. */
  method Round(provider: TokenProvider, interval: Interval, ghost l: Loop, now: int, o: Outcome, calls: seq<nat>)
    returns (at: int)
    requires l.now == now && l.token == provider.cachedToken
    requires interval.period == CHECK_INTERVAL && interval.due == l.origin + CHECK_INTERVAL * l.checks
    modifies provider, interval
    ensures var limited := Limited(provider.requestTimeout, o);
            && at == NextCheck(l, limited).now
            && provider.State() == AuthRun(old(provider.State()), RoundEvents(l, limited, calls))
            && provider.cachedToken == TokenAfter(l, limited)
    ensures interval.due == l.origin + CHECK_INTERVAL * (l.checks + 1)
  {
    RoundEffect(provider.State(), l, Limited(provider.requestTimeout, o), calls);
    SubscribeAll(provider.State(), calls);
    Subscribe(provider, calls);
    var end := provider.RefreshToken(now, o);
    at := interval.Tick(end);
  }

  /**
   The background loop: check the cache, await the interval, and again, for as many rounds as `os`
   gives answers. `calls` are the calls of `auth_initialized` that begin to wait before each check ends.
   */
  method KeepRefreshing(provider: TokenProvider, origin: int, os: seq<Outcome>, calls: seq<seq<nat>>)
    returns (ghost l: Loop)
    requires provider.State() == UNINITIALIZED && |calls| == |os|
    modifies provider
    ensures var limited := AllLimited(provider.requestTimeout, os);
            && l == AfterChecks(Created(origin), limited)
            && provider.cachedToken == l.token
            && provider.State() == AuthRun(UNINITIALIZED, LoopEvents(Created(origin), limited, calls))
    ensures provider.cachedToken.Some? <==> exists n: nat :: ServedFrom(provider.requestTimeout, origin, os, n)
    ensures forall n: nat :: ServedFrom(provider.requestTimeout, origin, os, n) ==>
              && os[n].response.Granted? && provider.cachedToken.Some?
              && provider.cachedToken.value.secret == os[n].response.secret
  {
    CachedIsServed(provider.requestTimeout, origin, os);
    var interval := new Interval(origin, CHECK_INTERVAL);
    var now := origin;
    l := Created(origin);
    ghost var limit := provider.requestTimeout;
    assert AllLimited(limit, os[..0]) == [];
    for n := 0 to |os|
      invariant l == AfterChecks(Created(origin), AllLimited(limit, os[..n]))
      invariant l.now == now && l.token == provider.cachedToken
      invariant provider.State() ==
                AuthRun(UNINITIALIZED, LoopEvents(Created(origin), AllLimited(limit, os[..n]), calls[..n]))
      invariant interval.due == l.origin + CHECK_INTERVAL * l.checks && interval.period == CHECK_INTERVAL
      invariant fresh(interval)
    {
      LimitedPrefix(limit, os, n);
      OneRoundMore(Created(origin), AllLimited(limit, os[..n]), calls[..n], Limited(limit, os[n]), calls[n]);
      assert calls[..n + 1] == calls[..n] + [calls[n]];
      now := Round(provider, interval, l, now, os[n], calls[n]);
      l := NextCheck(l, Limited(limit, os[n]));
    }
    assert os[..|os|] == os && calls[..|calls|] == calls;
  }

  lemma OneRoundMore(l: Loop, done: seq<Outcome>, calls: seq<seq<nat>>, o: Outcome, more: seq<nat>)
    requires |calls| == |done|
    ensures AfterChecks(l, done + [o]) == NextCheck(AfterChecks(l, done), o)
    ensures AuthRun(UNINITIALIZED, LoopEvents(l, done + [o], calls + [more])) ==
            AuthRun(AuthRun(UNINITIALIZED, LoopEvents(l, done, calls)), RoundEvents(AfterChecks(l, done), o, more))
  {
    assert (done + [o])[..|done|] == done && (calls + [more])[..|done|] == calls;
    RunsJoin(UNINITIALIZED, LoopEvents(l, done, calls), RoundEvents(AfterChecks(l, done), o, more));
  }

  datatype Status = PermissionDenied(message: string)

  /** The interceptor in front of every gateway call; without a provider it lets requests pass. */
  class AuthInterceptor {
    const provider: TokenProvider?

    constructor (provider: TokenProvider?)
      ensures this.provider == provider
    {
      this.provider := provider;
    }

    /** `problem` is what is wrong with the header text as a metadata value, if anything. */
    method Call(metadata: map<string, string>, problem: Option<string>) returns (r: Result<map<string, string>, Status>)
      ensures provider == null ==> r == Ok(metadata)
      ensures provider != null ==>
                match provider.cachedToken
                case Some(token) =>
                  if problem.Some? then r == Err(PermissionDenied(problem.value))
                  else r.Ok? && r.value.Keys == metadata.Keys + {"authorization"}
                       && r.value["authorization"] == "Bearer " + token.secret
                       && forall key :: key in metadata && key != "authorization" ==> r.value[key] == metadata[key]
                case None => r == Err(PermissionDenied("No valid token available"))
    {
      if provider == null {
        return Ok(metadata);
      }
      var token := provider.GetAccessToken();
      match token
      case Err(_) => r := Err(PermissionDenied("No valid token available"));
      case Ok(secret) =>
        if problem.Some? {
          return Err(PermissionDenied(problem.value));
        }
        r := Ok(metadata["authorization" := "Bearer " + secret]);
    }
  }

  /**
   A gateway call after any number of checks carries the secret the server gave at the last check it
   granted in time; before the first such check it is denied.
   */
  method CallAfterChecks(
    provider: TokenProvider, origin: int, os: seq<Outcome>, calls: seq<seq<nat>>, metadata: map<string, string>)
    returns (r: Result<map<string, string>, Status>)
    requires provider.State() == UNINITIALIZED && |calls| == |os|
    modifies provider
    ensures r.Ok? <==> exists n: nat :: ServedFrom(provider.requestTimeout, origin, os, n)
    ensures r.Err? ==> r.error == PermissionDenied("No valid token available")
    ensures forall n: nat :: ServedFrom(provider.requestTimeout, origin, os, n) ==>
              && os[n].response.Granted? && r.Ok? && "authorization" in r.value
              && r.value["authorization"] == "Bearer " + os[n].response.secret
  {
    var _ := KeepRefreshing(provider, origin, os, calls);
    var interceptor := new AuthInterceptor(provider);
    r := interceptor.Call(metadata, None);
  }
}
