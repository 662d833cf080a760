/**
 * `upload_folder` executed: the planned actions run in order against one token
 * manager, with the world's answers (clock readings, the identity backend's
 * answer, HTTP status codes, and whether a call raised) supplied as replies,
 * one per action.
 *
 * Nothing inside `upload_folder` catches an exception, so three things end
 * the whole run: a token request that raises; a folder POST, file open or
 * upload PUT that raises; and a failed upload whose error body is not JSON,
 * since the failure branch calls `response.json()`. A request that merely
 * answers with a failing status is recorded as failed and the walk goes on.
 */
module Sync {
  import opened Wrappers
  import opened Paths
  import opened GraphUrls
  import opened TokenManager
  import opened Requests
  import opened UploadPlan

  /**
   * The world's answer to one planned action. A token request uses the clock
   * readings and the backend's answer. A folder creation or upload uses
   * `requestRaised` (`requests.post`, `open` or `requests.put` raised) and,
   * when that did not happen, the status code; a failed upload also uses
   * `errorBodyUnreadable` (`response.json()` raised on its body). The other
   * fields are ignored.
   */
  datatype Reply = Reply(now: int, acquisition: Acquisition, later: int,
                         requestRaised: bool, status: int, errorBodyUnreadable: bool)

  /** What one action did: a token was handed out, or a request was sent and judged a success or not. */
  datatype Event = Issued(token: string) | Sent(request: Request, ok: bool)

  /** Why a run ended early: the token manager raised, a request raised, or a failed upload's body was not JSON. */
  datatype RunError = TokenFailed(error: TokenError) | RequestRaised | ErrorBodyUnreadable

  /** The events in order, the token manager's final state, and the error that ended the run early, if any. */
  datatype Run = Run(log: seq<Event>, tokens: TokenState, failure: Option<RunError>)

  /** The `access_token` variable after `log`: the last token handed out, or `initial` before any. */
  function Bearer(log: seq<Event>, initial: string): (bearer: string)
    decreases |log|
  {
    if log == [] then initial
    else Bearer(log[1..], if log[0].Issued? then log[0].token else initial)
  }

  /**
   * Event `e` is what action `a` does when the request carries `bearer` and
   * the world answers `reply`: the request went out without raising, and
   * folder creation succeeds on status 201 only, an upload on 200 or 201.
   */
  predicate Answers(cfg: Config, a: Action, e: Event, reply: Reply, bearer: string) {
    match a
    case GetToken => e.Issued?
    case CreateFolder(folder) =>
      !reply.requestRaised && e == Sent(FolderRequest(cfg, folder, bearer), FolderCreated(reply.status))
    case Upload(path) =>
      !reply.requestRaised && e == Sent(ContentRequest(cfg, path, bearer), UploadSucceeded(reply.status))
  }

  function Prepend(e: Event, r: Run): (r': Run) {
    r.(log := [e] + r.log)
  }

  lemma BearerPrepend(e: Event, log: seq<Event>, initial: string)
    ensures Bearer([e] + log, initial) == Bearer(log, if e.Issued? then e.token else initial)
  {
    assert ([e] + log)[1..] == log;
  }

  /** Every prefix of `[e] + log` longer than one event carries on from the bearer `e` leaves behind. */
  lemma BearerShift(e: Event, log: seq<Event>, initial: string)
    ensures forall i :: 1 <= i <= |log| + 1 ==>
      Bearer(([e] + log)[..i], initial) == Bearer(log[..i - 1], if e.Issued? then e.token else initial)
  {
    forall i | 1 <= i <= |log| + 1
      ensures Bearer(([e] + log)[..i], initial) == Bearer(log[..i - 1], if e.Issued? then e.token else initial)
    {
      assert ([e] + log)[..i] == [e] + log[..i - 1];
      BearerPrepend(e, log[..i - 1], initial);
    }
  }

  /** The token variable after event `e`, when it was `bearer` before. */
  function After(e: Event, bearer: string): (next: string) {
    if e.Issued? then e.token else bearer
  }

  /** Action `a` is an upload that failed with an error body `response.json()` cannot read. */
  predicate EndsRun(a: Action, reply: Reply) {
    a.Upload? && !UploadSucceeded(reply.status) && reply.errorBodyUnreadable
  }

  /**
   * Where run `r` of `plan` stops: at the end of the plan when nothing raised;
   * otherwise at a token request that raised, at a folder creation or upload
   * whose request raised, or just after a failed upload whose error body is
   * unreadable. Such an upload always ends the run.
   */
  predicate Stops(plan: seq<Action>, replies: seq<Reply>, r: Run)
    requires |replies| == |plan|
  {
    && |r.log| <= |plan|
    && (r.failure.None? ==> |r.log| == |plan|)
    && (|r.log| < |plan| ==> r.failure.Some?)
    && (r.failure.Some? && r.failure.value.TokenFailed? ==> |r.log| < |plan| && plan[|r.log|] == GetToken)
    && (r.failure == Some(RequestRaised) ==>
          |r.log| < |plan| && !plan[|r.log|].GetToken? && replies[|r.log|].requestRaised)
    && (r.failure == Some(ErrorBodyUnreadable) ==>
          0 < |r.log| && plan[|r.log| - 1].Upload? && replies[|r.log| - 1].errorBodyUnreadable &&
          !UploadSucceeded(replies[|r.log| - 1].status))
    && (forall i :: 0 <= i < |r.log| && EndsRun(plan[i], replies[i]) ==>
          i == |r.log| - 1 && r.failure == Some(ErrorBodyUnreadable))
  }

  /** Each event of `log` answers the plan action at its position, the request carrying the token variable of that moment. */
  predicate AnswersAll(cfg: Config, plan: seq<Action>, replies: seq<Reply>, bearer: string, log: seq<Event>)
    requires |replies| == |plan| && |log| <= |plan|
  {
    forall i :: 0 <= i < |log| ==> Answers(cfg, plan[i], log[i], replies[i], Bearer(log[..i], bearer))
  }

  /** An event answering the first action, put in front of a log answering the rest from the bearer it leaves, answers the whole plan. */
  lemma PrependAnswers(cfg: Config, plan: seq<Action>, replies: seq<Reply>, bearer: string, e: Event, log: seq<Event>)
    requires |replies| == |plan| && |log| < |plan|
    requires Answers(cfg, plan[0], e, replies[0], bearer)
    requires AnswersAll(cfg, plan[1..], replies[1..], After(e, bearer), log)
    ensures AnswersAll(cfg, plan, replies, bearer, [e] + log)
  {
    BearerShift(e, log, bearer);
    forall i | 0 < i < |[e] + log|
      ensures Answers(cfg, plan[i], ([e] + log)[i], replies[i], Bearer(([e] + log)[..i], bearer))
    {
      assert ([e] + log)[i] == log[i - 1];
      assert plan[1..][i - 1] == plan[i] && replies[1..][i - 1] == replies[i];
    }
  }

  /** A run that stops properly in the rest of the plan, with one event put in front, stops properly in the whole plan. */
  lemma PrependStops(plan: seq<Action>, replies: seq<Reply>, e: Event, rest: Run)
    requires |replies| == |plan| && 0 < |plan|
    requires !EndsRun(plan[0], replies[0])
    requires Stops(plan[1..], replies[1..], rest)
    ensures Stops(plan, replies, Prepend(e, rest))
  {
    var n := |rest.log|;
    if n < |plan| - 1 {
      assert plan[1..][n] == plan[n + 1] && replies[1..][n] == replies[n + 1];
    }
    if 0 < n {
      assert plan[1..][n - 1] == plan[n] && replies[1..][n - 1] == replies[n];
    }
    forall i | 0 < i < n + 1 && EndsRun(plan[i], replies[i])
      ensures i == n && rest.failure == Some(ErrorBodyUnreadable)
    {
      assert plan[1..][i - 1] == plan[i] && replies[1..][i - 1] == replies[i];
    }
  }

  /**
   * Runs `plan` from token state `tokens`, `bearer` being the token variable
   * before the first action. The log answers the plan action for action. It
   * stops short of the plan only where something raised: a token request
   * (no event), a request that raised (no event), or a failed upload whose
   * error body was unreadable (its event is the last one, and it always ends
   * the run there).
   */
  function Execute(cfg: Config, plan: seq<Action>, tokens: TokenState, replies: seq<Reply>, bearer: string): (r: Run)
    requires |replies| == |plan|
    ensures Stops(plan, replies, r)
    ensures AnswersAll(cfg, plan, replies, bearer, r.log)
    decreases |plan|
  {
    if plan == [] then Run([], tokens, None)
    else
      var reply := replies[0];
      match plan[0]
      case GetToken =>
        var step := GetValidToken(tokens, reply.now, reply.acquisition, reply.later);
        (match step.outcome
         case Raised(error) => Run([], step.state, Some(TokenFailed(error)))
         case Returned(t) =>
           var rest := Execute(cfg, plan[1..], step.state, replies[1..], t);
           PrependStops(plan, replies, Issued(t), rest);
           PrependAnswers(cfg, plan, replies, bearer, Issued(t), rest.log);
           Prepend(Issued(t), rest))
      case CreateFolder(folder) =>
        if reply.requestRaised then Run([], tokens, Some(RequestRaised))
        else
          var e := Sent(FolderRequest(cfg, folder, bearer), FolderCreated(reply.status));
          var rest := Execute(cfg, plan[1..], tokens, replies[1..], bearer);
          PrependStops(plan, replies, e, rest);
          PrependAnswers(cfg, plan, replies, bearer, e, rest.log);
          Prepend(e, rest)
      case Upload(path) =>
        if reply.requestRaised then Run([], tokens, Some(RequestRaised))
        else
          var e := Sent(ContentRequest(cfg, path, bearer), UploadSucceeded(reply.status));
          if !e.ok && reply.errorBodyUnreadable then Run([e], tokens, Some(ErrorBodyUnreadable))
          else
            var rest := Execute(cfg, plan[1..], tokens, replies[1..], bearer);
            PrependStops(plan, replies, e, rest);
            PrependAnswers(cfg, plan, replies, bearer, e, rest.log);
            Prepend(e, rest)
  }

  /**
   * `upload_folder(local_folder_path, token_manager)`: the walk is re-rooted
   * under the basename of the local folder, planned, and executed. The run
   * opens with a token request, and it covers every planned action unless
   * something raised.
   */
  function UploadFolder(cfg: Config, localFolder: string, walk: seq<WalkEntry>, tokens: TokenState, replies: seq<Reply>): (r: Run)
    requires |replies| == PlanSize(walk)
    ensures |r.log| <= PlanSize(walk)
    ensures r.failure.None? ==> |r.log| == PlanSize(walk)
    ensures |r.log| < PlanSize(walk) ==> r.failure.Some?
    ensures r.log != [] ==> r.log[0].Issued?
  {
    var plan := Plan(Basename(localFolder), walk);
    var run := Execute(cfg, plan, tokens, replies, "");
    assert run.log != [] ==> Answers(cfg, plan[0], run.log[0], replies[0], Bearer(run.log[..0], ""));
    run
  }

  // ---- Failing statuses never abort the walk ----

  /** The event with the success verdict erased: which request went out, or which token was handed out. */
  function Erase(e: Event): (erased: Event) {
    match e
    case Issued(_) => e
    case Sent(request, _) => Sent(request, false)
  }

  /** Two reply sequences that agree on everything except status codes. */
  predicate SameExceptStatus(r1: seq<Reply>, r2: seq<Reply>) {
    |r1| == |r2| &&
    forall i :: 0 <= i < |r1| ==> r1[i].(status := 0) == r2[i].(status := 0)
  }

  /** No failed upload's error body makes `response.json()` raise. */
  predicate ErrorBodiesReadable(replies: seq<Reply>) {
    forall i :: 0 <= i < |replies| ==> !replies[i].errorBodyUnreadable
  }

  /**
   * As long as failed uploads have readable error bodies, status codes never
   * steer the run: whatever the server answers to folder creations and
   * uploads, the same requests go out in the same order, the same tokens are
   * handed out, and the run ends the same way.
   */
  lemma {:induction false} StatusesDoNotSteer(cfg: Config, plan: seq<Action>, tokens: TokenState,
                                              r1: seq<Reply>, r2: seq<Reply>, bearer: string)
    requires |r1| == |plan| && SameExceptStatus(r1, r2)
    requires ErrorBodiesReadable(r1)
    ensures var a := Execute(cfg, plan, tokens, r1, bearer);
            var b := Execute(cfg, plan, tokens, r2, bearer);
            a.failure == b.failure && a.tokens == b.tokens && |a.log| == |b.log| &&
            forall i :: 0 <= i < |a.log| ==> Erase(a.log[i]) == Erase(b.log[i])
    decreases |plan|
  {
    if plan != [] {
      assert r1[0].(status := 0) == r2[0].(status := 0);
      assert r1[0].now == r2[0].now && r1[0].acquisition == r2[0].acquisition && r1[0].later == r2[0].later;
      assert r1[0].requestRaised == r2[0].requestRaised && !r1[0].errorBodyUnreadable && !r2[0].errorBodyUnreadable;
      assert ErrorBodiesReadable(r1[1..]) by {
        assert forall i :: 0 <= i < |r1[1..]| ==> r1[1..][i] == r1[i + 1];
      }
      assert SameExceptStatus(r1[1..], r2[1..]) by {
        forall i | 0 <= i < |r1[1..]|
          ensures r1[1..][i].(status := 0) == r2[1..][i].(status := 0)
        {
          assert r1[1..][i] == r1[i + 1] && r2[1..][i] == r2[i + 1];
        }
      }
      if plan[0].GetToken? {
        var step := GetValidToken(tokens, r1[0].now, r1[0].acquisition, r1[0].later);
        if step.outcome.Returned? {
          StatusesDoNotSteer(cfg, plan[1..], step.state, r1[1..], r2[1..], step.outcome.token);
        }
      } else if !r1[0].requestRaised {
        StatusesDoNotSteer(cfg, plan[1..], tokens, r1[1..], r2[1..], bearer);
      }
    }
  }

  /**
   * Without readable error bodies the status does steer the run: a failed
   * upload whose body is not JSON ends it, a successful one does not.
   */
  lemma UnreadableBodySteers(cfg: Config, path: string, tokens: TokenState, reply: Reply)
    requires reply.errorBodyUnreadable && !reply.requestRaised
    ensures Execute(cfg, [Upload(path)], tokens, [reply.(status := 500)], "").failure == Some(ErrorBodyUnreadable)
    ensures Execute(cfg, [Upload(path)], tokens, [reply.(status := 200)], "").failure == None
  {
    assert [Upload(path)][1..] == [];
  }

  // ---- One token manager serves the whole run ----

  /** The calls a plan makes on the token manager: one per token request, with that request's clock readings and backend answer. */
  function TokenCalls(plan: seq<Action>, replies: seq<Reply>): (calls: seq<Call>)
    requires |replies| == |plan|
    ensures |calls| == TokenRequests(plan)
    decreases |plan|
  {
    if plan == [] then []
    else
      (if plan[0] == GetToken then [Call(replies[0].now, replies[0].acquisition, replies[0].later)] else []) +
      TokenCalls(plan[1..], replies[1..])
  }

  /** The tokens the log's token requests handed out, in order. */
  function IssuedTokens(log: seq<Event>): (tokens: seq<string>)
    decreases |log|
  {
    if log == [] then []
    else (if log[0].Issued? then [log[0].token] else []) + IssuedTokens(log[1..])
  }

  /** How many plan actions a run reached: those it logged, plus the token request that raised, if one did. */
  function Reached(run: Run): (n: nat) {
    |run.log| + (if run.failure.Some? && run.failure.value.TokenFailed? then 1 else 0)
  }

  /** The token calls of the first `k` actions: the first action's, then those of the next `k - 1`. */
  lemma TokenCallsCons(plan: seq<Action>, replies: seq<Reply>, k: nat)
    requires |replies| == |plan| && 0 < k <= |plan|
    ensures TokenCalls(plan[..k], replies[..k]) ==
            (if plan[0] == GetToken then [Call(replies[0].now, replies[0].acquisition, replies[0].later)] else []) +
            TokenCalls(plan[1..][..k - 1], replies[1..][..k - 1])
  {
    assert plan[..k][1..] == plan[1..][..k - 1];
    assert replies[..k][1..] == replies[1..][..k - 1];
  }

  /**
   * Run `run` drives token manager `tokens` exactly as direct calls would:
   * the calls are those of the token requests the run reached, the tokens it
   * hands out are the ones the calls return, the manager ends in the same
   * state, and a token failure is the one the calls raise.
   */
  predicate DrivesManager(plan: seq<Action>, tokens: TokenState, replies: seq<Reply>, run: Run)
    requires |replies| == |plan|
  {
    && Reached(run) <= |plan|
    && var s := RunCalls(tokens, TokenCalls(plan[..Reached(run)], replies[..Reached(run)]));
       && IssuedTokens(run.log) == s.returned
       && run.tokens == s.state
       && (run.failure.Some? && run.failure.value.TokenFailed? ==> s.failure == Some(run.failure.value.error))
       && (!(run.failure.Some? && run.failure.value.TokenFailed?) ==> s.failure.None?)
  }

  /** An event answering the first action, put in front of a run that drives the manager through the rest, drives it through the whole plan. */
  lemma PrependDrives(plan: seq<Action>, tokens: TokenState, replies: seq<Reply>, e: Event, next: TokenState, rest: Run)
    requires |replies| == |plan| && plan != []
    requires plan[0] == GetToken ==>
      var step := GetValidToken(tokens, replies[0].now, replies[0].acquisition, replies[0].later);
      e.Issued? && step.outcome == Returned(e.token) && step.state == next
    requires plan[0] != GetToken ==> !e.Issued? && next == tokens
    requires DrivesManager(plan[1..], next, replies[1..], rest)
    ensures DrivesManager(plan, tokens, replies, Prepend(e, rest))
  {
    var run := Prepend(e, rest);
    var k := Reached(rest);
    assert Reached(run) == k + 1;
    assert run.log[1..] == rest.log;
    assert IssuedTokens(run.log) == (if e.Issued? then [e.token] else []) + IssuedTokens(rest.log);
    TokenCallsCons(plan, replies, k + 1);
    var cs := TokenCalls(plan[1..][..k], replies[1..][..k]);
    if plan[0] == GetToken {
      var c := Call(replies[0].now, replies[0].acquisition, replies[0].later);
      var step := GetValidToken(tokens, c.now, c.acquisition, c.later);
      var sr := RunCalls(next, cs);
      assert ([c] + cs)[0] == c && ([c] + cs)[1..] == cs;
      assert RunCalls(tokens, [c] + cs) ==
             sr.(returned := [e.token] + sr.returned, acquisitions := (if step.acquired then 1 else 0) + sr.acquisitions);
    } else {
      assert TokenCalls(plan[..k + 1], replies[..k + 1]) == cs by {
        assert [] + cs == cs;
      }
      assert IssuedTokens(run.log) == IssuedTokens(rest.log) by {
        assert [] + IssuedTokens(rest.log) == IssuedTokens(rest.log);
      }
    }
  }

  /** A run that stops at its first action without a token failure made no token call and kept the manager as it was. */
  lemma StopDrives(plan: seq<Action>, tokens: TokenState, replies: seq<Reply>, run: Run)
    requires |replies| == |plan| && plan != [] && plan[0] != GetToken
    requires run.tokens == tokens && |run.log| <= 1 && run.failure.Some? && !run.failure.value.TokenFailed?
    requires forall i :: 0 <= i < |run.log| ==> !run.log[i].Issued?
    ensures DrivesManager(plan, tokens, replies, run)
  {
    var k := Reached(run);
    if k == 1 {
      assert IssuedTokens(run.log) == IssuedTokens(run.log[1..]);
      TokenCallsCons(plan, replies, 1);
    }
    assert TokenCalls(plan[..k], replies[..k]) == [];
  }

  /** A run whose first token request raises drives the manager through that one call. */
  lemma RaiseDrives(plan: seq<Action>, tokens: TokenState, replies: seq<Reply>, run: Run)
    requires |replies| == |plan| && plan != [] && plan[0] == GetToken
    requires var step := GetValidToken(tokens, replies[0].now, replies[0].acquisition, replies[0].later);
             step.outcome.Raised? && run == Run([], step.state, Some(TokenFailed(step.outcome.error)))
    ensures DrivesManager(plan, tokens, replies, run)
  {
    TokenCallsCons(plan, replies, 1);
    assert plan[1..][..0] == [];
  }

  /** The run drives one token manager exactly as a sequence of direct calls would. */
  lemma {:induction false} ExecuteRunsTokenManager(cfg: Config, plan: seq<Action>, tokens: TokenState,
                                                   replies: seq<Reply>, bearer: string)
    requires |replies| == |plan|
    ensures DrivesManager(plan, tokens, replies, Execute(cfg, plan, tokens, replies, bearer))
    decreases |plan|
  {
    var run := Execute(cfg, plan, tokens, replies, bearer);
    if plan == [] {
      assert plan[..0] == [] && replies[..0] == [];
    } else {
      var reply := replies[0];
      var step := GetValidToken(tokens, reply.now, reply.acquisition, reply.later);
      if plan[0] == GetToken && step.outcome.Raised? {
        RaiseDrives(plan, tokens, replies, run);
      } else if plan[0] != GetToken && (reply.requestRaised || (plan[0].Upload? && !UploadSucceeded(reply.status) && reply.errorBodyUnreadable)) {
        StopDrives(plan, tokens, replies, run);
      } else {
        var next := if plan[0] == GetToken then step.state else tokens;
        var t := if plan[0] == GetToken then step.outcome.token else bearer;
        var rest := Execute(cfg, plan[1..], next, replies[1..], t);
        ExecuteRunsTokenManager(cfg, plan[1..], next, replies[1..], t);
        assert run == Prepend(run.log[0], rest);
        PrependDrives(plan, tokens, replies, run.log[0], next, rest);
      }
    }
  }

  // ---- Which token each request carries ----

  lemma {:induction false} BearerAfterIssued(log: seq<Event>, t: string, initial: string)
    ensures Bearer(log + [Issued(t)], initial) == t
    decreases |log|
  {
    if log == [] {
      BearerPrepend(Issued(t), [], initial);
    } else {
      assert log + [Issued(t)] == [log[0]] + (log[1..] + [Issued(t)]);
      BearerPrepend(log[0], log[1..] + [Issued(t)], initial);
      BearerAfterIssued(log[1..], t, if log[0].Issued? then log[0].token else initial);
    }
  }

  /** The bearer after a log is the initial one or a token the log handed out. */
  lemma {:induction false} BearerIsIssued(log: seq<Event>, initial: string)
    ensures Bearer(log, initial) == initial ||
            exists j :: 0 <= j < |log| && log[j] == Issued(Bearer(log, initial))
    decreases |log|
  {
    if log != [] {
      var next := if log[0].Issued? then log[0].token else initial;
      BearerIsIssued(log[1..], next);
      assert log == [log[0]] + log[1..];
      BearerPrepend(log[0], log[1..], initial);
      if Bearer(log[1..], next) != next {
        var j :| 0 <= j < |log[1..]| && log[1..][j] == Issued(Bearer(log[1..], next));
        assert log[j + 1] == log[1..][j];
      }
    }
  }

  /** The bearer token a sent request carried. */
  function RequestBearer(e: Event): (bearer: string)
    requires e.Sent?
  {
    e.request.bearer
  }

  /** A request sent after the first token was handed out carries a token from the log before it. */
  lemma RequestCarriesEarlierToken(log: seq<Event>, i: int)
    requires 0 < i <= |log| && log[0].Issued?
    ensures exists j :: 0 <= j < i && log[j] == Issued(Bearer(log[..i], ""))
  {
    var t0 := log[0].token;
    assert log[..i] == [log[0]] + log[1..i];
    BearerPrepend(log[0], log[1..i], "");
    BearerIsIssued(log[1..i], t0);
    if Bearer(log[1..i], t0) != t0 {
      var j :| 0 <= j < |log[1..i]| && log[1..i][j] == Issued(Bearer(log[1..i], t0));
      assert log[j + 1] == log[1..i][j];
    }
  }

  /** A plan that starts with a token request sends no request without a token handed out before it. */
  lemma ExecuteRequestsCarryIssuedTokens(cfg: Config, plan: seq<Action>, tokens: TokenState,
                                         replies: seq<Reply>, bearer: string)
    requires |replies| == |plan|
    requires plan != [] ==> plan[0] == GetToken
    ensures var log := Execute(cfg, plan, tokens, replies, bearer).log;
            forall i :: 0 <= i < |log| && log[i].Sent? ==>
              exists j :: 0 <= j < i && log[j] == Issued(RequestBearer(log[i]))
  {
    var log := Execute(cfg, plan, tokens, replies, bearer).log;
    forall i | 0 <= i < |log| && log[i].Sent?
      ensures exists j :: 0 <= j < i && log[j] == Issued(RequestBearer(log[i]))
    {
      assert Answers(cfg, plan[0], log[0], replies[0], Bearer(log[..0], bearer));
      assert Answers(cfg, plan[i], log[i], replies[i], Bearer(log[..i], bearer));
      RequestCarriesEarlierToken(log, i);
    }
  }

  /** In a plan whose uploads each follow a token request, every upload carries the token handed out just before it. */
  lemma ExecuteUploadsCarryFreshToken(cfg: Config, plan: seq<Action>, tokens: TokenState,
                                      replies: seq<Reply>, bearer: string)
    requires |replies| == |plan|
    requires TokenBeforeUpload(plan)
    ensures var log := Execute(cfg, plan, tokens, replies, bearer).log;
            forall i :: 0 <= i < |log| && log[i].Sent? && log[i].request.ContentPut? ==>
              i > 0 && log[i - 1] == Issued(RequestBearer(log[i]))
  {
    var log := Execute(cfg, plan, tokens, replies, bearer).log;
    forall i | 0 <= i < |log| && log[i].Sent? && log[i].request.ContentPut?
      ensures i > 0 && log[i - 1] == Issued(RequestBearer(log[i]))
    {
      assert Answers(cfg, plan[i], log[i], replies[i], Bearer(log[..i], bearer));
      assert plan[i].Upload?;
      assert Answers(cfg, plan[i - 1], log[i - 1], replies[i - 1], Bearer(log[..i - 1], bearer));
      assert log[..i] == log[..i - 1] + [Issued(log[i - 1].token)];
      BearerAfterIssued(log[..i - 1], log[i - 1].token, bearer);
    }
  }

  /**
   * In a run of the walk every request carries a token the manager handed
   * out earlier in the same run, and every upload carries the token handed
   * out immediately before it.
   */
  lemma RequestsCarryIssuedTokens(cfg: Config, localFolder: string, walk: seq<WalkEntry>,
                                  tokens: TokenState, replies: seq<Reply>)
    requires |replies| == PlanSize(walk)
    ensures var log := UploadFolder(cfg, localFolder, walk, tokens, replies).log;
            forall i :: 0 <= i < |log| && log[i].Sent? ==>
              exists j :: 0 <= j < i && log[j] == Issued(RequestBearer(log[i]))
    ensures var log := UploadFolder(cfg, localFolder, walk, tokens, replies).log;
            forall i :: 0 <= i < |log| && log[i].Sent? && log[i].request.ContentPut? ==>
              i > 0 && log[i - 1] == Issued(RequestBearer(log[i]))
  {
    var plan := Plan(Basename(localFolder), walk);
    assert UploadFolder(cfg, localFolder, walk, tokens, replies) == Execute(cfg, plan, tokens, replies, "");
    UploadFollowsToken(Basename(localFolder), walk);
    ExecuteRequestsCarryIssuedTokens(cfg, plan, tokens, replies, "");
    ExecuteUploadsCarryFreshToken(cfg, plan, tokens, replies, "");
  }

  // ---- Which requests a run sends ----

  /** The URLs the log's uploads were PUT to, in order. */
  function PutUrls(log: seq<Event>): (urls: seq<string>)
    decreases |log|
  {
    if log == [] then []
    else (if log[0].Sent? && log[0].request.ContentPut? then [log[0].request.url] else []) + PutUrls(log[1..])
  }

  /** The folder names the log's folder creations asked for, in order. */
  function PostedFolders(log: seq<Event>): (names: seq<string>)
    decreases |log|
  {
    if log == [] then []
    else (if log[0].Sent? && log[0].request.FolderPost? then [log[0].request.name] else []) + PostedFolders(log[1..])
  }

  /** The content URLs of a sequence of item paths. */
  function ContentUrls(cfg: Config, paths: seq<string>): (urls: seq<string>)
    ensures |urls| == |paths|
    decreases |paths|
  {
    if paths == [] then []
    else [ContentUrl(cfg.userId, cfg.destination, paths[0])] + ContentUrls(cfg, paths[1..])
  }

  /** The `k`-th content URL is the content URL of the `k`-th path. */
  lemma {:induction false} ContentUrlsAt(cfg: Config, paths: seq<string>)
    ensures forall k :: 0 <= k < |paths| ==>
      ContentUrls(cfg, paths)[k] == ContentUrl(cfg.userId, cfg.destination, paths[k])
    decreases |paths|
  {
    if paths != [] {
      ContentUrlsAt(cfg, paths[1..]);
      assert forall k :: 1 <= k < |paths| ==> paths[1..][k - 1] == paths[k];
    }
  }

  lemma {:induction false} ContentUrlsAppend(cfg: Config, a: seq<string>, b: seq<string>)
    ensures ContentUrls(cfg, a + b) == ContentUrls(cfg, a) + ContentUrls(cfg, b)
    decreases |a|
  {
    if a == [] {
      assert a + b == b;
    } else {
      assert (a + b)[1..] == a[1..] + b;
      ContentUrlsAppend(cfg, a[1..], b);
    }
  }

  /** The kind and target of event `e` are those action `a` calls for. */
  predicate Performs(cfg: Config, a: Action, e: Event) {
    match a
    case GetToken => e.Issued?
    case CreateFolder(folder) => e.Sent? && e.request.FolderPost? && e.request.name == folder
    case Upload(path) => e.Sent? && e.request.ContentPut? && e.request.url == ContentUrl(cfg.userId, cfg.destination, path)
  }

  /** One more event performing one more action extends the sent uploads and folder creations accordingly. */
  lemma FollowStep(cfg: Config, a: Action, e: Event, acts: seq<Action>, log: seq<Event>)
    requires Performs(cfg, a, e)
    requires PutUrls(log) == ContentUrls(cfg, Uploads(acts)) && PostedFolders(log) == Folders(acts)
    ensures PutUrls([e] + log) == ContentUrls(cfg, Uploads([a] + acts))
    ensures PostedFolders([e] + log) == Folders([a] + acts)
  {
    assert ([e] + log)[0] == e && ([e] + log)[1..] == log;
    assert ([a] + acts)[0] == a && ([a] + acts)[1..] == acts;
    if a.Upload? {
      var u := Uploads(acts);
      assert Uploads([a] + acts) == [a.path] + u;
      assert ([a.path] + u)[0] == a.path && ([a.path] + u)[1..] == u;
      assert PutUrls([e] + log) == [ContentUrl(cfg.userId, cfg.destination, a.path)] + PutUrls(log);
    } else {
      assert Uploads([a] + acts) == [] + Uploads(acts) == Uploads(acts);
      assert PutUrls([e] + log) == [] + PutUrls(log) == PutUrls(log);
    }
  }

  /** An initial part of a sequence is its first element followed by an initial part of the rest. */
  lemma PrefixCons<T>(s: seq<T>, n: nat)
    requires 0 < n <= |s|
    ensures s[..n] == [s[0]] + s[1..][..n - 1]
  {
  }

  /** A log that performs a prefix of a plan sends exactly that prefix's uploads and folder creations. */
  lemma {:induction false} LogFollowsPlan(cfg: Config, plan: seq<Action>, log: seq<Event>)
    requires |log| <= |plan|
    requires forall i :: 0 <= i < |log| ==> Performs(cfg, plan[i], log[i])
    ensures PutUrls(log) == ContentUrls(cfg, Uploads(plan[..|log|]))
    ensures PostedFolders(log) == Folders(plan[..|log|])
    decreases |log|
  {
    if log == [] {
      assert plan[..0] == [];
    } else {
      var n := |log| - 1;
      forall i | 0 <= i < n
        ensures Performs(cfg, plan[1..][i], log[1..][i])
      {
        assert log[1..][i] == log[i + 1] && plan[1..][i] == plan[i + 1];
      }
      LogFollowsPlan(cfg, plan[1..], log[1..]);
      FollowStep(cfg, plan[0], log[0], plan[1..][..n], log[1..]);
      PrefixCons(plan, n + 1);
      assert log == [log[0]] + log[1..];
    }
  }

  /** Every event of a run performs the plan action at the same position. */
  lemma ExecutePerformsPlan(cfg: Config, plan: seq<Action>, tokens: TokenState, replies: seq<Reply>, bearer: string)
    requires |replies| == |plan|
    ensures var log := Execute(cfg, plan, tokens, replies, bearer).log;
            forall i :: 0 <= i < |log| ==> Performs(cfg, plan[i], log[i])
  {
    var log := Execute(cfg, plan, tokens, replies, bearer).log;
    forall i | 0 <= i < |log|
      ensures Performs(cfg, plan[i], log[i])
    {
      assert Answers(cfg, plan[i], log[i], replies[i], Bearer(log[..i], bearer));
    }
  }

  /** The uploads and folder creations of an initial part of a plan are an initial part of the plan's. */
  lemma PrefixProjections(cfg: Config, plan: seq<Action>, k: nat)
    requires k <= |plan|
    ensures ContentUrls(cfg, Uploads(plan[..k])) <= ContentUrls(cfg, Uploads(plan))
    ensures Folders(plan[..k]) <= Folders(plan)
  {
    assert plan == plan[..k] + plan[k..];
    ProjectionsAppend(plan[..k], plan[k..]);
    ContentUrlsAppend(cfg, Uploads(plan[..k]), Uploads(plan[k..]));
  }

  /**
   * A run sends the plan's uploads and folder creations in plan order: all of
   * them when nothing raises, an initial part of each otherwise.
   */
  lemma ExecuteFollowsPlan(cfg: Config, plan: seq<Action>, tokens: TokenState, replies: seq<Reply>, bearer: string)
    requires |replies| == |plan|
    ensures var run := Execute(cfg, plan, tokens, replies, bearer);
            PutUrls(run.log) <= ContentUrls(cfg, Uploads(plan)) &&
            PostedFolders(run.log) <= Folders(plan) &&
            (run.failure.None? ==>
               PutUrls(run.log) == ContentUrls(cfg, Uploads(plan)) &&
               PostedFolders(run.log) == Folders(plan))
  {
    var run := Execute(cfg, plan, tokens, replies, bearer);
    var k := |run.log|;
    assert k <= |plan| && (run.failure.None? ==> k == |plan|);
    ExecutePerformsPlan(cfg, plan, tokens, replies, bearer);
    LogFollowsPlan(cfg, plan, run.log);
    PrefixProjections(cfg, plan, k);
    if run.failure.None? {
      assert plan[..k] == plan;
    }
  }

  /**
   * A run of the walk sends uploads to exactly the content URLs of the walk's
   * files and creates exactly the walk's subdirectories, each once and in walk
   * order, whenever nothing raises; a run cut short by an exception has
   * sent an initial part of each.
   */
  lemma RunCoversWalk(cfg: Config, localFolder: string, walk: seq<WalkEntry>,
                      tokens: TokenState, replies: seq<Reply>)
    requires |replies| == PlanSize(walk)
    ensures var run := UploadFolder(cfg, localFolder, walk, tokens, replies);
            var base := Basename(localFolder);
            PutUrls(run.log) <= ContentUrls(cfg, FileTargets(base, walk)) &&
            PostedFolders(run.log) <= FolderTargets(base, walk) &&
            (run.failure.None? ==>
               PutUrls(run.log) == ContentUrls(cfg, FileTargets(base, walk)) &&
               PostedFolders(run.log) == FolderTargets(base, walk))
  {
    var base := Basename(localFolder);
    var plan := Plan(base, walk);
    assert UploadFolder(cfg, localFolder, walk, tokens, replies) == Execute(cfg, plan, tokens, replies, "");
    ExecuteFollowsPlan(cfg, plan, tokens, replies, "");
    PlanCoversWalk(base, walk);
  }

  /**
   * Position by position: the `k`-th upload a run of the walk sends goes to
   * the content URL of the walk's `k`-th file, whether or not the run was cut
   * short.
   */
  lemma RunPutsFileTargets(cfg: Config, localFolder: string, walk: seq<WalkEntry>,
                           tokens: TokenState, replies: seq<Reply>)
    requires |replies| == PlanSize(walk)
    ensures var puts := PutUrls(UploadFolder(cfg, localFolder, walk, tokens, replies).log);
            var targets := FileTargets(Basename(localFolder), walk);
            |puts| <= |targets| &&
            forall k :: 0 <= k < |puts| ==> puts[k] == ContentUrl(cfg.userId, cfg.destination, targets[k])
  {
    var puts := PutUrls(UploadFolder(cfg, localFolder, walk, tokens, replies).log);
    var targets := FileTargets(Basename(localFolder), walk);
    RunCoversWalk(cfg, localFolder, walk, tokens, replies);
    ContentUrlsAt(cfg, targets);
    assert puts <= ContentUrls(cfg, targets);
  }
}
