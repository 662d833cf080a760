/**
 * `TokenManager.get_valid_token` as a pure state-transition function.
 *
 * The manager owns a cached bearer token and its expiry time. Times are whole
 * seconds. The call reads the clock twice: `now` for the validity check and
 * `later` for the new expiry after the identity backend answered. The
 * backend's answer to `acquire_token_for_client` is an input.
 */
module TokenManager {
  import opened Wrappers

  /** The five-minute safety margin, in seconds. */
  const BufferSeconds: int := 300

  /** `self.token` and `self.token_expires_at`; both start as None. */
  datatype TokenState = TokenState(token: Option<string>, expiresAt: Option<int>)

  const Initial: TokenState := TokenState(None, None)

  /**
   * What `acquire_token_for_client` returned: a dictionary with an
   * `access_token` (and, normally, `expires_in` seconds), or one without it.
   */
  datatype Acquisition =
    | Granted(accessToken: string, expiresIn: Option<int>)
    | Rejected(error: Option<string>, description: Option<string>)

  /** The two ways the call raises: no access token, or an access token without `expires_in`. */
  datatype TokenError = AcquisitionFailed | ExpiresInMissing

  datatype Outcome = Returned(token: string) | Raised(error: TokenError)

  /** The manager's state after one call, what the call produced, and whether it consulted the backend. */
  datatype Step = Step(state: TokenState, outcome: Outcome, acquired: bool)

  /** Python truthiness of `self.token`: None and the empty string are false. */
  predicate Truthy(token: Option<string>) {
    token.Some? && token.value != ""
  }

  /** The cached token may be handed out at `now`: present, non-empty, and more than five minutes from expiry. */
  predicate Usable(s: TokenState, now: int) {
    Truthy(s.token) && s.expiresAt.Some? && now < s.expiresAt.value - BufferSeconds
  }

  function GetValidToken(s: TokenState, now: int, acquisition: Acquisition, later: int): (r: Step)
    // the backend is asked exactly when the cached token is not usable
    ensures r.acquired <==> !Usable(s, now)
    // reuse: nothing changes and the cached token comes back
    ensures !r.acquired ==> r.state == s && r.outcome == Returned(s.token.value)
    // whatever is returned is what the manager now holds
    ensures r.outcome.Returned? ==> r.state.token == Some(r.outcome.token)
    // a rejected acquisition raises and leaves the state untouched
    ensures r.acquired && acquisition.Rejected? ==> r.outcome == Raised(AcquisitionFailed) && r.state == s
    // a grant always replaces the token, even when the call then raises
    ensures r.acquired && acquisition.Granted? ==> r.state.token == Some(acquisition.accessToken)
    // a complete grant returns its token and sets the expiry from the second clock reading
    ensures r.acquired && acquisition.Granted? && acquisition.expiresIn.Some? ==>
      r.outcome == Returned(acquisition.accessToken) && r.state.expiresAt == Some(later + acquisition.expiresIn.value)
    // a grant without expires_in raises after the token was stored, keeping the old expiry
    ensures r.acquired && acquisition.Granted? && acquisition.expiresIn.None? ==>
      r.outcome == Raised(ExpiresInMissing) && r.state.expiresAt == s.expiresAt
  {
    if Usable(s, now) then
      Step(s, Returned(s.token.value), false)
    else
      match acquisition
      case Rejected(_, _) =>
        Step(s, Raised(AcquisitionFailed), true)
      case Granted(token, expiresIn) =>
        var stored := s.(token := Some(token));
        match expiresIn
        case None => Step(stored, Raised(ExpiresInMissing), true)
        case Some(seconds) => Step(stored.(expiresAt := Some(later + seconds)), Returned(token), true)
  }

  /** The first call on a fresh manager always asks the backend. */
  lemma FirstCallAcquires(now: int, acquisition: Acquisition, later: int)
    ensures GetValidToken(Initial, now, acquisition, later).acquired
  {
  }

  /**
   * Token reuse: after a refresh that yields a non-empty token valid for
   * `expiresIn` seconds, any later call strictly before the five-minute
   * buffer returns the identical token without asking the backend, whatever
   * the backend would have said; a call at or past the buffer asks again.
   */
  lemma ReuseWithinBuffer(s: TokenState, now: int, acquisition: Acquisition, later: int,
                          now2: int, acquisition2: Acquisition, later2: int)
    requires acquisition.Granted? && acquisition.accessToken != "" && acquisition.expiresIn.Some?
    requires GetValidToken(s, now, acquisition, later).acquired
    ensures var first := GetValidToken(s, now, acquisition, later);
            var second := GetValidToken(first.state, now2, acquisition2, later2);
            (now2 < later + acquisition.expiresIn.value - BufferSeconds <==> !second.acquired) &&
            (!second.acquired ==> second.outcome == first.outcome && second.state == first.state)
  {
  }

  /** An empty access token is stored and returned, but never reused: the next call asks again. */
  lemma EmptyTokenNeverReused(s: TokenState, now: int, expiresIn: Option<int>, later: int,
                              now2: int, acquisition2: Acquisition, later2: int)
    requires !Usable(s, now)
    ensures var first := GetValidToken(s, now, Granted("", expiresIn), later);
            GetValidToken(first.state, now2, acquisition2, later2).acquired
  {
  }

  /** One call of a sequence: the two clock readings and the backend's answer, should it be asked. */
  datatype Call = Call(now: int, acquisition: Acquisition, later: int)

  /** The result of a sequence of calls that stops at the first one that raises. */
  datatype Session = Session(state: TokenState, returned: seq<string>, acquisitions: nat, failure: Option<TokenError>)

  /** Runs the calls in order against one manager, as the upload walk does. */
  function RunCalls(s: TokenState, calls: seq<Call>): (r: Session)
    ensures |r.returned| <= |calls|
    ensures r.acquisitions <= |calls|
    ensures r.failure.None? <==> |r.returned| == |calls|
    decreases |calls|
  {
    if calls == [] then Session(s, [], 0, None)
    else
      var step := GetValidToken(s, calls[0].now, calls[0].acquisition, calls[0].later);
      var count := if step.acquired then 1 else 0;
      match step.outcome
      case Raised(e) => Session(step.state, [], count, Some(e))
      case Returned(t) =>
        var rest := RunCalls(step.state, calls[1..]);
        rest.(returned := [t] + rest.returned, acquisitions := count + rest.acquisitions)
  }

  /**
   * Single refresh: when the manager holds a usable token and every call of a
   * burst happens before that token's buffer begins, the burst consults the
   * backend zero times and every call returns the cached token.
   */
  lemma {:induction false} BurstWithinBufferReuses(s: TokenState, calls: seq<Call>)
    requires forall i :: 0 <= i < |calls| ==> Usable(s, calls[i].now)
    ensures var r := RunCalls(s, calls);
            r.acquisitions == 0 && r.failure.None? && r.state == s &&
            forall i :: 0 <= i < |r.returned| ==> r.returned[i] == s.token.value
  {
    if calls != [] {
      assert Usable(s, calls[0].now);
      BurstWithinBufferReuses(s, calls[1..]);
    }
  }

  /**
   * A burst that begins with a successful refresh and whose later calls all
   * fall before the new token's buffer acquires exactly once and returns the
   * same token every time.
   */
  lemma {:induction false} BurstAcquiresOnce(s: TokenState, calls: seq<Call>)
    requires |calls| > 0 && !Usable(s, calls[0].now)
    requires calls[0].acquisition.Granted? && calls[0].acquisition.accessToken != ""
    requires calls[0].acquisition.expiresIn.Some?
    requires forall i :: 1 <= i < |calls| ==>
      calls[i].now < calls[0].later + calls[0].acquisition.expiresIn.value - BufferSeconds
    ensures var r := RunCalls(s, calls);
            r.acquisitions == 1 && r.failure.None? &&
            forall i :: 0 <= i < |r.returned| ==> r.returned[i] == calls[0].acquisition.accessToken
  {
    var first := GetValidToken(s, calls[0].now, calls[0].acquisition, calls[0].later);
    forall i | 0 <= i < |calls[1..]|
      ensures Usable(first.state, calls[1..][i].now)
    {
      assert calls[1..][i] == calls[i + 1];
    }
    BurstWithinBufferReuses(first.state, calls[1..]);
  }
}
