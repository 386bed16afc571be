/** The access-token cache: a two-field record `{accessToken, expiresAt}` that serves
    the cached token while it is fresh and otherwise performs one client-credentials
    exchange. The clock (`now`, in milliseconds) and the exchange outcome are inputs. */
module TokenManager {
  import opened Outcomes
  import Upstream

  /** The body fields of a successful exchange: `access_token` and `expires_in`
      (seconds). */
  datatype Grant = Grant(accessToken: string, expiresIn: int)

  /** The outcome of the client-credentials POST. */
  type Exchange = Upstream.Reply<Grant>

  /** `None` models `null`. */
  datatype TokenState = TokenState(accessToken: Option<string>, expiresAt: Option<int>)

  /** The state of a new instance, and after `clearToken`. */
  const Empty := TokenState(None, None)

  /** Seconds subtracted from the declared lifetime when the expiry is stored. */
  const SafetyMarginSeconds := 300

  const RefreshPrefix := "Token refresh failed: "

  /** A call's resulting cache state and its return value or thrown message. */
  datatype Step<+T> = Step(state: TokenState, result: Result<T>)

  /** The guard of `getValidAccessToken`: `accessToken` truthy, `expiresAt` truthy and
      `now < expiresAt`. */
  predicate Servable(s: TokenState, now: nat)
  {
    && s.accessToken.Some? && s.accessToken.value != ""
    && s.expiresAt.Some? && s.expiresAt.value != 0
    && now < s.expiresAt.value
  }

  /** `refreshAccessToken`: the state changes only after a 2xx reply whose body was read. */
  function RefreshAccessToken(s: TokenState, now: nat, exchange: Exchange): (r: Step<string>)
    ensures r.result.Ok? <==> exchange.Answered?
    ensures exchange.Answered? ==>
              var g := exchange.data;
              && r.result.value == g.accessToken
              && r.state == TokenState(Some(g.accessToken),
                                       Some(now + (g.expiresIn - SafetyMarginSeconds) * 1000))
    ensures !exchange.Answered? ==> r.state == s
    ensures !exchange.Answered? ==>
              r.result.message == RefreshPrefix + Upstream.Reason("get access token", exchange)
  {
    match exchange
    case Answered(g) =>
      Step(TokenState(Some(g.accessToken), Some(now + (g.expiresIn - SafetyMarginSeconds) * 1000)),
           Ok(g.accessToken))
    case _ => Step(s, Err(RefreshPrefix + Upstream.Reason("get access token", exchange)))
  }

  /** `getValidAccessToken`: the cached token when it is servable, otherwise a refresh. */
  function GetValidAccessToken(s: TokenState, now: nat, exchange: Exchange): (r: Step<string>)
    ensures Servable(s, now) ==> r == Step(s, Ok(s.accessToken.value))
    ensures !Servable(s, now) ==> r == RefreshAccessToken(s, now, exchange)
    ensures r.result.Ok? ==> r.state.accessToken == Some(r.result.value)
  {
    if Servable(s, now) then Step(s, Ok(s.accessToken.value))
    else RefreshAccessToken(s, now, exchange)
  }

  /** `clearToken`: both fields become `null`, so no instant can be served from it. */
  function ClearToken(s: TokenState): (r: TokenState)
    ensures r.accessToken.None? && r.expiresAt.None?
    ensures forall now: nat :: !Servable(r, now)
  {
    Empty
  }

  /** The result does not depend on the exchange outcome: no exchange was needed. */
  ghost predicate ExchangeIrrelevant(s: TokenState, now: nat)
  {
    forall e1: Exchange, e2: Exchange :: GetValidAccessToken(s, now, e1) == GetValidAccessToken(s, now, e2)
  }

  /** The cached token is returned without an exchange exactly when the cache is
      servable; otherwise the exchange outcome decides the result. */
  lemma CachedExactlyWhenServable(s: TokenState, now: nat)
    ensures ExchangeIrrelevant(s, now) <==> Servable(s, now)
  {
    if !Servable(s, now) {
      var e1: Exchange := Upstream.Broken("a");
      var e2: Exchange := Upstream.Broken("b");
      assert GetValidAccessToken(s, now, e1).result.message == RefreshPrefix + "a";
      assert GetValidAccessToken(s, now, e2).result.message == RefreshPrefix + "b";
      assert (RefreshPrefix + "a")[|RefreshPrefix|] != (RefreshPrefix + "b")[|RefreshPrefix|];
    }
  }

  /** A token granted with a lifetime above the margin is served until
      `now + (expiresIn - 300) * 1000`, and never from that instant on. */
  lemma GrantServedUntilMargin(s: TokenState, now: nat, g: Grant, later: nat)
    requires g.accessToken != "" && g.expiresIn > SafetyMarginSeconds
    ensures var stored := RefreshAccessToken(s, now, Upstream.Answered(g)).state;
            Servable(stored, later) <==> later < now + (g.expiresIn - SafetyMarginSeconds) * 1000
  {
  }

  /** A token granted with a lifetime of at most the margin is stored already stale,
      whatever was cached before the refresh: every later call refreshes again. */
  lemma ShortGrantRefreshesAgain(s: TokenState, now: nat, g: Grant, later: nat, next: Exchange)
    requires g.expiresIn <= SafetyMarginSeconds && later >= now
    ensures var stored := RefreshAccessToken(s, now, Upstream.Answered(g)).state;
            && !Servable(stored, later)
            && GetValidAccessToken(stored, later, next) == RefreshAccessToken(stored, later, next)
  {
    var stored := RefreshAccessToken(s, now, Upstream.Answered(g)).state;
    assert stored.expiresAt.value <= now;
  }

  // ---------------------------------------------------------------------------
  // Sequences of calls

  /** One interaction with the shared instance. */
  datatype Event = Request(now: nat, exchange: Exchange) | Clear

  /** Threads the state through `events`, collecting what each request returned. */
  function Run(s: TokenState, events: seq<Event>): (r: (TokenState, seq<Result<string>>))
    ensures |r.1| <= |events|
    decreases |events|
  {
    if |events| == 0 then (s, [])
    else
      match events[0]
      case Clear => Run(ClearToken(s), events[1..])
      case Request(now, exchange) =>
        var step := GetValidAccessToken(s, now, exchange);
        var rest := Run(step.state, events[1..]);
        (rest.0, [step.result] + rest.1)
  }

  /** The tokens granted by the exchanges in `events`. */
  function GrantedTokens(events: seq<Event>): set<string>
  {
    if |events| == 0 then {}
    else
      var here := if events[0].Request? && events[0].exchange.Answered?
                  then {events[0].exchange.data.accessToken} else {};
      here + GrantedTokens(events[1..])
  }

  /** Every token a run returns, and the token it leaves cached, was either already
      cached or granted by an exchange of the run. */
  lemma {:induction false} RunTokensComeFromGrants(s: TokenState, events: seq<Event>, known: set<string>)
    requires s.accessToken.Some? ==> s.accessToken.value in known
    ensures var r := Run(s, events);
            && (r.0.accessToken.Some? ==> r.0.accessToken.value in known + GrantedTokens(events))
            && forall k :: 0 <= k < |r.1| && r.1[k].Ok? ==> r.1[k].value in known + GrantedTokens(events)
    decreases |events|
  {
    if |events| > 0 {
      var tail := events[1..];
      match events[0]
      case Clear =>
        RunTokensComeFromGrants(ClearToken(s), tail, known);
      case Request(now, exchange) =>
        var step := GetValidAccessToken(s, now, exchange);
        var known' := known + GrantedTokens([events[0]]);
        assert GrantedTokens(events) == GrantedTokens([events[0]]) + GrantedTokens(tail);
        assert step.state.accessToken.Some? ==> step.state.accessToken.value in known';
        RunTokensComeFromGrants(step.state, tail, known');
        var r := Run(s, events);
        var rest := Run(step.state, tail);
        assert r.1 == [step.result] + rest.1;
        forall k | 0 <= k < |r.1| && r.1[k].Ok?
          ensures r.1[k].value in known + GrantedTokens(events)
        {
          if k > 0 {
            assert r.1[k] == rest.1[k - 1];
          }
        }
    }
  }

  /** Starting from a new instance, no call ever returns a token that no exchange granted. */
  lemma NoTokenIsInvented(events: seq<Event>)
    ensures var r := Run(Empty, events);
            forall k :: 0 <= k < |r.1| && r.1[k].Ok? ==> r.1[k].value in GrantedTokens(events)
  {
    RunTokensComeFromGrants(Empty, events, {});
    assert {} + GrantedTokens(events) == GrantedTokens(events);
  }
}
