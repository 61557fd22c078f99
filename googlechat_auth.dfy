/**
 * The request guards of googlechat/auth.go: the store of OAuth `state`
 * values (the anti-CSRF value of section 10.12 of RFC 6749), the bearer
 * token check of the webhook (the header form of section 2.1 of RFC 6750),
 * and the middleware that decides which requests are checked.
 * Time is an integer count of nanoseconds.
 */
module GoogleChatAuth {
  import opened GoStrings
  import opened Middleware
  import opened GoTime

  /** How long a stored state stays valid (googlechat/auth.go:40). */
  const StateLifetime: int := 10 * Minute

  // -----------------------------------------------------------------------
  // The state store (googlechat/auth.go:20-50)

  /** storeState on the map: the state expires ten minutes from now, whatever was stored before. */
  function Stored(states: map<string, int>, state: string, now: int): (r: map<string, int>)
    ensures state in r && r[state] == now + StateLifetime
    ensures r.Keys == states.Keys + {state}
    ensures forall s :: s in states && s != state ==> r[s] == states[s]
  {
    states[state := now + StateLifetime]
  }

  /** validateState on the map: whether the state was present and unexpired, and the map without it. */
  datatype Validation = Validation(valid: bool, states: map<string, int>)

  function Validated(states: map<string, int>, state: string, now: int): (r: Validation)
    ensures r.valid <==> state in states && now < states[state]
    ensures state !in r.states
    ensures r.states.Keys == states.Keys - {state}
    ensures forall s :: s in r.states ==> r.states[s] == states[s]
    ensures state !in states ==> r.states == states
  {
    if state in states then Validation(now < states[state], states - {state})
    else Validation(false, states)
  }

  /** A state is good once: store, then validate before expiry gives true, and validating again gives false. */
  lemma StateIsOneShot(states: map<string, int>, state: string, stored: int, first: int, second: int)
    requires first < stored + StateLifetime
    ensures Validated(Stored(states, state, stored), state, first).valid
    ensures !Validated(Validated(Stored(states, state, stored), state, first).states, state, second).valid
  {
  }

  /** A state whose expiry has passed is refused, and removed (googlechat/auth_test.go:286-289). */
  lemma ExpiredStateRefused(states: map<string, int>, state: string, stored: int, now: int)
    requires now >= stored + StateLifetime
    ensures !Validated(Stored(states, state, stored), state, now).valid
    ensures state !in Validated(Stored(states, state, stored), state, now).states
  {
  }

  /** Storing and validating other states leaves a stored state's outcome alone. */
  lemma OtherStatesIndependent(states: map<string, int>, state: string, other: string, now: int, later: int)
    requires other != state && state in states
    ensures Validated(Stored(states, other, now), state, later) == Validation(later < states[state], Stored(states, other, now) - {state})
    ensures Validated(Validated(states, other, now).states, state, later).valid == Validated(states, state, later).valid
  {
  }

  class StateStore {
    var states: map<string, int>

    constructor ()
      ensures states == map[]
    {
      states := map[];
    }

    /** googlechat/auth.go:39-41 */
    method StoreState(state: string, now: int)
      modifies this
      ensures states == Stored(old(states), state, now)
    {
      states := states[state := now + StateLifetime];
    }

    /** googlechat/auth.go:44-50 */
    method ValidateState(state: string, now: int) returns (valid: bool)
      modifies this
      ensures Validation(valid, states) == Validated(old(states), state, now)
    {
      if state in states {
        var expiry := states[state];
        states := states - {state};
        return now < expiry;
      }
      return false;
    }
  }

  /**
   * The sequence of googlechat/auth_test.go:273-289 on a fresh store: a
   * stored state validates once, an unknown one never, and one whose expiry
   * was set eleven minutes in the past is refused.
   */
  method StateStoreScenario(first: string, second: string, now: int) returns (outcomes: seq<bool>)
    requires first != second && first != "invalid-state" && second != "invalid-state"
    ensures outcomes == [true, false, false, false]
  {
    var store := new StateStore();
    store.StoreState(first, now);
    var a := store.ValidateState(first, now);
    var b := store.ValidateState(first, now);
    var c := store.ValidateState("invalid-state", now);
    store.StoreState(second, now);
    store.states := store.states[second := now - 11 * Minute];
    var d := store.ValidateState(second, now);
    outcomes := [a, b, c, d];
  }

  // -----------------------------------------------------------------------
  // The webhook token (googlechat/auth.go:180-198)

  const BearerPrefix: string := "Bearer "

  /** verifyGoogleChatRequest: the Authorization header against the configured webhook token. */
  function VerifyGoogleChatRequest(authorization: string, webhookToken: string): (ok: bool)
    ensures webhookToken == "" ==> !ok
    ensures ok ==> HasPrefix(authorization, BearerPrefix) && |authorization| == |BearerPrefix| + |webhookToken|
  {
    if webhookToken == "" then false
    else authorization == BearerPrefix + webhookToken
  }

  /**
   * A request passes exactly when a token is configured and the header is
   * the Bearer scheme followed by that token, with nothing else around it.
   */
  lemma VerifyIsBearerMatch(authorization: string, webhookToken: string)
    ensures VerifyGoogleChatRequest(authorization, webhookToken) <==>
      webhookToken != "" && HasPrefix(authorization, BearerPrefix) && TrimPrefix(authorization, BearerPrefix) == webhookToken
  {
    if HasPrefix(authorization, BearerPrefix) {
      assert authorization == BearerPrefix + authorization[|BearerPrefix|..];
    }
    if authorization == BearerPrefix + webhookToken {
      assert authorization[..|BearerPrefix|] == BearerPrefix;
    }
  }

  // -----------------------------------------------------------------------
  // The middleware (googlechat/auth.go:201-223)

  const OAuthPath: string := "/auth/googlechat"
  const OAuthCallbackPath: string := "/auth/googlechat/callback"
  const HealthPath: string := "/health"
  const WebhookPath: string := "/googlechat/webhook"

  function AuthMiddleware(httpMethod: string, path: string, authorization: string, webhookToken: string): (v: Verdict)
    ensures path == OAuthPath || path == OAuthCallbackPath || path == HealthPath ==> v == Next
    ensures v != Next ==> v == Abort(StatusUnauthorized)
    ensures v.Abort? <==> httpMethod == "POST" && path == WebhookPath && !VerifyGoogleChatRequest(authorization, webhookToken)
  {
    if path == OAuthPath || path == OAuthCallbackPath || path == HealthPath then Next
    else if httpMethod == "POST" && path == WebhookPath && !VerifyGoogleChatRequest(authorization, webhookToken) then
      Abort(StatusUnauthorized)
    else Next
  }
}
