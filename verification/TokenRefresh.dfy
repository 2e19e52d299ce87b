/**
 The timing of the background refresh loop of src/oauth.rs. Times are whole nanoseconds,
 the resolution of the program's durations.
 */
module TokenRefresh {
  import opened Common

  const CHECK_INTERVAL := 10 * SECOND
  const CLOCK_SKEW_BUFFER := 15 * SECOND

  datatype Token = Token(secret: string, expiresAt: int)

  /** The authorization server's answer; a failed or timed out request is `Refused`. */
  datatype Response =
    | Granted(secret: string, expiresIn: Option<nat>)
    | Refused

  /** What a request would meet with, if one is made. */
  datatype Outcome = Outcome(latency: nat, response: Response)

  /**
   The loop about to make check number `checks`, counted from zero, at time `now`. Its
   interval was created at `origin`.
   */
  datatype Loop = Loop(origin: int, checks: nat, now: int, token: Option<Token>)

  function Created(origin: int): Loop {
    Loop(origin, 0, origin, None)
  }

  predicate Expired(token: Option<Token>, now: int) {
    token.None? || token.value.expiresAt <= now + CLOCK_SKEW_BUFFER
  }

  /** A check makes a request exactly when the cached token is missing or nearly over. */
  predicate Requests(l: Loop) {
    Expired(l.token, l.now)
  }

  function CheckEnd(l: Loop, o: Outcome): int {
    if Requests(l) then l.now + o.latency else l.now
  }

  function Lifetime(r: Response): nat
    requires r.Granted?
  {
    if r.expiresIn.Some? then r.expiresIn.value else 0
  }

  function TokenAfter(l: Loop, o: Outcome): Option<Token> {
    if Requests(l) && o.response.Granted? then
      Some(Token(o.response.secret, CheckEnd(l, o) + Lifetime(o.response)))
    else
      l.token
  }

  /**
   After a check the loop awaits the next tick of its interval. Tick `n` is due ten seconds
   times `n` after the interval's creation, and passes at once when it is overdue.
   */
  function NextCheck(l: Loop, o: Outcome): Loop {
    Loop(l.origin, l.checks + 1, Max(CheckEnd(l, o), l.origin + CHECK_INTERVAL * l.checks), TokenAfter(l, o))
  }

  /** The loop after a sequence of checks. */
  function AfterChecks(l: Loop, os: seq<Outcome>): Loop {
    if |os| == 0 then l else NextCheck(AfterChecks(l, os[..|os| - 1]), os[|os| - 1])
  }

  // The schedule.

  predicate OnSchedule(l: Loop) {
    l.now >= l.origin && l.now >= l.origin + 10 * SECOND * (l.checks - 1)
  }

  lemma {:induction false} StaysOnSchedule(l: Loop, os: seq<Outcome>)
    requires OnSchedule(l)
    ensures OnSchedule(AfterChecks(l, os))
    ensures AfterChecks(l, os).origin == l.origin && AfterChecks(l, os).checks == l.checks + |os|
  {
    if |os| > 0 {
      StaysOnSchedule(l, os[..|os| - 1]);
    }
  }

  /**
   Check `n` never precedes the interval's creation by less than ten seconds times `n - 1`,
   and the next one follows within ten seconds or the length of the request, the longer of
   the two, even while overdue ticks are being caught up.
   */
  lemma CheckSpacing(origin: int, os: seq<Outcome>, o: Outcome)
    ensures var l := AfterChecks(Created(origin), os);
            && l.checks == |os|
            && l.now >= origin + 10 * SECOND * (|os| - 1)
            && l.now <= NextCheck(l, o).now <= l.now + Max(10 * SECOND, CheckEnd(l, o) - l.now)
  {
    StaysOnSchedule(Created(origin), os);
  }

  /** When no request takes any time, the first two checks come at the start and the others ten seconds apart. */
  lemma {:induction false} QuickChecksAreRegular(origin: int, os: seq<Outcome>)
    requires forall i :: 0 <= i < |os| ==> os[i].latency == 0
    ensures AfterChecks(Created(origin), os).now == origin + 10 * SECOND * Max(0, |os| - 1)
    ensures AfterChecks(Created(origin), os).origin == origin && AfterChecks(Created(origin), os).checks == |os|
  {
    if |os| > 0 {
      QuickChecksAreRegular(origin, os[..|os| - 1]);
    }
  }

  // Freshness.

  /** A token `access_token` may return at time `t`, between the start of a check and of the next. */
  predicate Serves(l: Loop, o: Outcome, t: int, token: Token) {
    || (l.now <= t <= CheckEnd(l, o) && l.token == Some(token))
    || (CheckEnd(l, o) <= t <= NextCheck(l, o).now && TokenAfter(l, o) == Some(token))
  }

  ghost predicate FreshCheck(l: Loop, o: Outcome) {
    forall t, token :: Serves(l, o, t, token) ==> token.expiresAt > t
  }

  /** Requests succeed within `latency`, with tokens that live at least `lifetime`. */
  predicate Kept(latency: nat, lifetime: nat, o: Outcome) {
    o.latency <= latency && o.response.Granted? && Lifetime(o.response) >= lifetime
  }

  predicate AllKept(latency: nat, lifetime: nat, os: seq<Outcome>) {
    forall i :: 0 <= i < |os| ==> Kept(latency, lifetime, os[i])
  }

  /** The cached token outlives a request made now. */
  predicate Outlives(l: Loop, latency: nat) {
    l.token.Some? && l.token.value.expiresAt > l.now + latency
  }

  lemma FreshStep(l: Loop, o: Outcome, latency: nat, lifetime: nat)
    requires latency <= 5 * SECOND && lifetime > 10 * SECOND + latency
    requires OnSchedule(l) && Outlives(l, latency) && Kept(latency, lifetime, o)
    ensures FreshCheck(l, o) && Outlives(NextCheck(l, o), latency)
  {
  }

  /** A first success, however slow its request, leaves a token that outlives the next request. */
  lemma FirstSuccess(l: Loop, o: Outcome, latency: nat, lifetime: nat)
    requires latency <= 5 * SECOND && lifetime > 10 * SECOND + latency
    requires OnSchedule(l) && l.token.None? && o.response.Granted? && Lifetime(o.response) >= lifetime
    ensures FreshCheck(l, o) && Outlives(NextCheck(l, o), latency)
  {
  }

  lemma {:induction false} StaysFresh(l: Loop, os: seq<Outcome>, latency: nat, lifetime: nat)
    requires latency <= 5 * SECOND && lifetime > 10 * SECOND + latency
    requires OnSchedule(l) && Outlives(l, latency) && AllKept(latency, lifetime, os)
    ensures OnSchedule(AfterChecks(l, os)) && Outlives(AfterChecks(l, os), latency)
  {
    StaysOnSchedule(l, os);
    if |os| > 0 {
      var front := os[..|os| - 1];
      StaysOnSchedule(l, front);
      StaysFresh(l, front, latency, lifetime);
      FreshStep(AfterChecks(l, front), os[|os| - 1], latency, lifetime);
    }
  }

  /**
   After any number of failed checks, and a first success of whatever latency: if from then
   on every request succeeds within five seconds and every token lives more than fifteen,
   every token served at any instant is still valid then.
   */
  lemma ServedTokenIsFresh(
    origin: int, failures: seq<Outcome>, l: Loop, first: Outcome, later: seq<Outcome>, m: Loop, next: Outcome)
    requires l == AfterChecks(Created(origin), failures) && l.token.None?
    requires first.response.Granted? && Lifetime(first.response) > 15 * SECOND
    requires AllKept(5 * SECOND, 15 * SECOND + 1, later) && m == AfterChecks(NextCheck(l, first), later)
    requires Kept(5 * SECOND, 15 * SECOND + 1, next)
    ensures FreshCheck(l, first)
    ensures FreshCheck(m, next)
    ensures m.token.Some? && m.token.value.expiresAt > m.now + 5 * SECOND
  {
    StaysOnSchedule(Created(origin), failures);
    FirstSuccess(l, first, 5 * SECOND, 15 * SECOND + 1);
    StaysFresh(NextCheck(l, first), later, 5 * SECOND, 15 * SECOND + 1);
    FreshStep(m, next, 5 * SECOND, 15 * SECOND + 1);
  }

  /** When all requests succeed within `latency`, with lifetimes of at least `lifetime`, no stale token is served. */
  ghost predicate AlwaysFresh(latency: nat, lifetime: nat) {
    forall origin, os, o | AllKept(latency, lifetime, os) && Kept(latency, lifetime, o) ::
      FreshCheck(AfterChecks(Created(origin), os), o)
  }

  /** Exactly how fast requests must be, and how long tokens must live, for no stale token ever to be served. */
  lemma FreshnessIsExact(latency: nat, lifetime: nat)
    ensures AlwaysFresh(latency, lifetime) <==>
            latency <= 5 * SECOND && lifetime > 10 * SECOND + latency
  {
    if latency <= 5 * SECOND && lifetime > 10 * SECOND + latency {
      forall origin, os, o | AllKept(latency, lifetime, os) && Kept(latency, lifetime, o)
        ensures FreshCheck(AfterChecks(Created(origin), os), o)
      {
        FreshFromTheStart(origin, os, o, latency, lifetime);
      }
    } else if latency > 5 * SECOND {
      SlowGoesStale(latency, lifetime);
    } else {
      ShortLivedGoesStale(latency, lifetime);
    }
  }

  lemma FreshFromTheStart(origin: int, os: seq<Outcome>, o: Outcome, latency: nat, lifetime: nat)
    requires latency <= 5 * SECOND && lifetime > 10 * SECOND + latency
    requires AllKept(latency, lifetime, os) && Kept(latency, lifetime, o)
    ensures FreshCheck(AfterChecks(Created(origin), os), o)
  {
    var l := Created(origin);
    if |os| == 0 {
      FirstSuccess(l, o, latency, lifetime);
    } else {
      FirstSuccess(l, os[0], latency, lifetime);
      ChecksCompose(l, os[0], os[1..]);
      assert [os[0]] + os[1..] == os;
      StaysFresh(NextCheck(l, os[0]), os[1..], latency, lifetime);
      FreshStep(AfterChecks(l, os), o, latency, lifetime);
    }
  }

  lemma {:induction false} ChecksCompose(l: Loop, o: Outcome, os: seq<Outcome>)
    ensures AfterChecks(l, [o] + os) == AfterChecks(NextCheck(l, o), os)
  {
    var all := [o] + os;
    if |os| == 0 {
      assert all == [o] && AfterChecks(l, all[..0]) == l;
    } else {
      ChecksCompose(l, o, os[..|os| - 1]);
      assert all[..|all| - 1] == [o] + os[..|os| - 1];
    }
  }

  /** The loop starting at time zero after one check, then two, that took `first` and `second`. */
  lemma TwoChecks(first: Outcome, second: Outcome)
    ensures AfterChecks(Created(0), [first, second]) == NextCheck(NextCheck(Created(0), first), second)
  {
    ChecksCompose(Created(0), first, [second]);
    ChecksCompose(NextCheck(Created(0), first), second, []);
    assert [first] + [second] == [first, second] && [second] + [] == [second];
  }

  /** Tokens that live too briefly run out during the request that replaces them. */
  lemma ShortLivedGoesStale(latency: nat, lifetime: nat)
    requires latency <= 5 * SECOND && lifetime <= 10 * SECOND + latency
    ensures !AlwaysFresh(latency, lifetime)
  {
    var instant := Outcome(0, Granted("", Some(lifetime)));
    var slow := Outcome(latency, Granted("", Some(lifetime)));
    TwoChecks(instant, instant);
    var l := AfterChecks(Created(0), [instant, instant]);
    assert AllKept(latency, lifetime, [instant, instant]) && Kept(latency, lifetime, slow);
    var stale := l.token.value;
    assert l.now == 10 * SECOND && stale.expiresAt == lifetime;
    if lifetime <= 10 * SECOND {
      assert Serves(l, slow, l.now, stale);
    } else {
      StaleWhileRequesting(l, slow, stale);
    }
    assert !FreshCheck(l, slow);
  }

  lemma StaleWhileRequesting(l: Loop, o: Outcome, stale: Token)
    requires l.token == Some(stale) && Requests(l) && l.now <= stale.expiresAt <= l.now + o.latency
    ensures !FreshCheck(l, o)
  {
    assert Serves(l, o, stale.expiresAt, stale);
  }

  /** A request slower than the buffer allows can outlast a token that the check before it still accepted. */
  lemma SlowGoesStale(latency: nat, lifetime: nat)
    requires latency > 5 * SECOND
    ensures !AlwaysFresh(latency, lifetime)
  {
    // check `n + 1` accepts a token that expires just more than the buffer after it
    var n := lifetime / (10 * SECOND) + 1;
    var life := 10 * SECOND * n + 15 * SECOND + 1;
    var o := Outcome(0, Granted("", Some(life)));
    var slow := Outcome(latency, Granted("", Some(life)));
    AcceptedUntil(o, life, n + 2);
    var os := seq(n + 2, _ => o);
    var l := AfterChecks(Created(0), os);
    assert AllKept(latency, lifetime, os) && Kept(latency, lifetime, slow);
    StaleWhileRequesting(l, slow, l.token.value);
  }

  /** With instant requests from time zero, the first token is kept while it outlives the buffer. */
  lemma {:induction false} AcceptedUntil(o: Outcome, life: nat, k: nat)
    requires o == Outcome(0, Granted("", Some(life)))
    requires k >= 1 && life > 10 * SECOND * (k - 2) + 15 * SECOND && life > 15 * SECOND
    ensures var l := AfterChecks(Created(0), seq(k, _ => o));
            l.origin == 0 && l.token == Some(Token("", life)) && l.checks == k && l.now == 10 * SECOND * (k - 1)
  {
    var os := seq(k, _ => o);
    assert os[..k - 1] == seq(k - 1, _ => o);
    if k == 1 {
      assert AfterChecks(Created(0), os[..0]) == Created(0);
    } else {
      AcceptedUntil(o, life, k - 1);
    }
  }

  /** A token granted without a lifetime is over at once, and replaced at the next check. */
  lemma NoLifetimeNoReuse(origin: int, os: seq<Outcome>, latency: nat, secret: string, next: Outcome)
    ensures var l := AfterChecks(Created(origin), os);
            var o := Outcome(latency, Granted(secret, None));
            Requests(l) ==>
              && TokenAfter(l, o) == Some(Token(secret, l.now + latency))
              && Requests(NextCheck(l, o)) && CheckEnd(NextCheck(l, o), next) == NextCheck(l, o).now + next.latency
  {
  }

  // Which token is cached.

  /** Check `n` makes a request that is granted. */
  predicate GrantedAt(l: Loop, os: seq<Outcome>, n: nat)
    requires n < |os|
  {
    Requests(AfterChecks(l, os[..n])) && os[n].response.Granted?
  }

  predicate LastGranted(l: Loop, os: seq<Outcome>, n: nat)
    requires n < |os|
  {
    GrantedAt(l, os, n) && forall m :: n < m < |os| ==> !GrantedAt(l, os, m)
  }

  lemma GrantedPrefix(l: Loop, os: seq<Outcome>, n: nat)
    requires n < |os| - 1
    ensures GrantedAt(l, os, n) <==> GrantedAt(l, os[..|os| - 1], n)
  {
    assert os[..|os| - 1][..n] == os[..n];
  }

  /** A token is cached exactly when some check was granted one. */
  lemma {:induction false} CachedIfGranted(l: Loop, os: seq<Outcome>)
    requires l.token == None
    ensures AfterChecks(l, os).token.Some? <==> exists n :: 0 <= n < |os| && GrantedAt(l, os, n)
  {
    if |os| > 0 {
      var last := |os| - 1;
      CachedIfGranted(l, os[..last]);
      forall n: nat | n < last ensures GrantedAt(l, os, n) <==> GrantedAt(l, os[..last], n) {
        GrantedPrefix(l, os, n);
      }
      assert AfterChecks(l, os).token.Some? <==> AfterChecks(l, os[..last]).token.Some? || GrantedAt(l, os, last);
      if AfterChecks(l, os[..last]).token.Some? {
        var n :| 0 <= n < last && GrantedAt(l, os[..last], n);
        assert GrantedAt(l, os, n);
      }
      if exists n :: 0 <= n < |os| && GrantedAt(l, os, n) {
        var n :| 0 <= n < |os| && GrantedAt(l, os, n);
        assert n < last ==> GrantedAt(l, os[..last], n);
      }
    }
  }

  /** And then it is the one of the last granted check: the server's secret, for the server's lifetime, if any. */
  lemma {:induction false} CachedIsLastGranted(l: Loop, os: seq<Outcome>, n: nat)
    requires n < |os| && LastGranted(l, os, n)
    ensures var response := os[n].response;
            AfterChecks(l, os).token ==
            Some(Token(response.secret,
                       AfterChecks(l, os[..n]).now + os[n].latency
                       + if response.expiresIn.Some? then response.expiresIn.value else 0))
  {
    var last := |os| - 1;
    if n < last {
      assert !GrantedAt(l, os, last);
      GrantedPrefix(l, os, n);
      forall m: nat | n < m < last ensures !GrantedAt(l, os[..last], m) {
        GrantedPrefix(l, os, m);
      }
      CachedIsLastGranted(l, os[..last], n);
      assert os[..last][..n] == os[..n];
    }
  }

  // Economy.

  /** When the granted requests among a sequence of checks were made. */
  function Grants(l: Loop, os: seq<Outcome>): seq<int> {
    if |os| == 0 then [] else
      var before := AfterChecks(l, os[..|os| - 1]);
      Grants(l, os[..|os| - 1]) + if Requests(before) && os[|os| - 1].response.Granted? then [before.now] else []
  }

  predicate LongLived(lifetime: nat, os: seq<Outcome>) {
    forall i :: 0 <= i < |os| && os[i].response.Granted? ==> Lifetime(os[i].response) >= lifetime
  }

  lemma {:induction false} GrantsAreSpaced(origin: int, os: seq<Outcome>, lifetime: nat)
    requires lifetime > 15 * SECOND && LongLived(lifetime, os)
    ensures var gs := Grants(Created(origin), os);
            var l := AfterChecks(Created(origin), os);
            && (|gs| > 0 ==> l.token.Some? && l.token.value.expiresAt >= gs[|gs| - 1] + lifetime)
            && (l.token.Some? ==> |gs| > 0)
            && forall i :: 0 <= i < |gs| - 1 ==> gs[i + 1] - gs[i] >= lifetime - 15 * SECOND
  {
    if |os| > 0 {
      var front := os[..|os| - 1];
      GrantsAreSpaced(origin, front, lifetime);
      var l := AfterChecks(Created(origin), front);
      if Requests(l) && os[|os| - 1].response.Granted? {
        assert Lifetime(os[|os| - 1].response) >= lifetime;
      }
    }
  }

  lemma {:induction false} SpacingAdds(gs: seq<int>, i: nat, j: nat, gap: nat)
    requires i <= j < |gs| && forall k :: 0 <= k < |gs| - 1 ==> gs[k + 1] - gs[k] >= gap
    ensures gs[j] - gs[i] >= (j - i) * gap
    decreases j - i
  {
    if i < j {
      SpacingAdds(gs, i, j - 1, gap);
      assert (j - i) * gap == (j - 1 - i) * gap + gap;
    }
  }

  lemma PastQuotient(n: int, gap: int, span: int)
    requires gap > 0 && n >= span / gap + 1
    ensures n * gap > span
  {
    assert n * gap >= (span / gap + 1) * gap;
    assert span < (span / gap + 1) * gap;
  }

  /**
   If every token lives at least `lifetime`, more than the buffer, then in a window of length
   `span` at most one more than `span / (lifetime - 15 s)` of the granted requests start.
   */
  lemma RefreshEconomy(origin: int, os: seq<Outcome>, lifetime: nat, i: nat, j: nat, span: nat)
    requires lifetime > 15 * SECOND && LongLived(lifetime, os)
    requires i <= j < |Grants(Created(origin), os)|
    requires Grants(Created(origin), os)[j] - Grants(Created(origin), os)[i] <= span
    ensures j - i + 1 <= 1 + span / (lifetime - 15 * SECOND)
  {
    var gs := Grants(Created(origin), os);
    GrantsAreSpaced(origin, os, lifetime);
    SpacingAdds(gs, i, j, lifetime - 15 * SECOND);
    if j - i > span / (lifetime - 15 * SECOND) {
      PastQuotient(j - i, lifetime - 15 * SECOND, span);
      assert false;
    }
  }
}
