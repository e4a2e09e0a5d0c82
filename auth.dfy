/**
 * The session bookkeeping of the pages: sign-in, sign-up, the session check
 * and the single-flight refresh of the access token with its queue of
 * waiting callers. Each `fetch` the service awaits is an argument saying
 * what it yielded; the requests it sends are logged in order.
 */
module Auth {
  import opened Wrappers

  /** An HTTP response; only its status is consulted. */
  datatype Response = Response(status: int) {
    /** `response.ok`: a status from 200 to 299. */
    predicate Ok() {
      200 <= status <= 299
    }
  }

  /** What `response.json()` yields: an object whose `error` field is a string
      or absent, or a parse failure with its message. Other JSON values and
      non-string `error` fields are not modelled. */
  datatype Body = Parsed(error: Option<string>) | Unparsable(message: string)

  /** What awaiting a `fetch` yields: a response with its body, or a rejection. */
  datatype Fetch = Responded(response: Response, body: Body) | NetworkFailure(message: string)

  /** The requests the service sends. */
  datatype Request =
    | LoginRequest
    | RegisterRequest
    | RefreshRequest
    | LogoutRequest
    | CheckAuthRequest
    | ApiRequest(url: string)

  /** What `login` and `register` settle to: `true`, the `error` field of the
      server's answer (possibly undefined), or a rejection. */
  datatype SignInResult = SignedIn | ServerError(error: Option<string>) | Threw(message: string)

  /** A call of `refreshAccessToken` either starts the refresh or waits for the
      one in flight as the waiter with the given number. */
  datatype RefreshTicket = Started | Queued(waiter: nat)

  /** How the promise of a queued waiter was settled. */
  datatype Settlement = Resolved(waiter: nat) | Rejected(waiter: nat, message: string)

  /** How the refresh that started ended: `true`, or a thrown error. */
  datatype RefreshResult = Refreshed | RefreshFailed(message: string)

  const RefreshFailedMessage: string := "REFRESH_FAILED"

  /** The error the refresh throws for `reply`, or `None` on success. A
      non-ok answer throws `errorData.error || 'REFRESH_FAILED'`; a body that
      does not parse and a failed fetch throw their own error. */
  function RefreshError(reply: Fetch): (e: Option<string>)
    ensures e.None? <==> reply.Responded? && reply.response.Ok()
    ensures reply.Responded? && reply.body.Parsed? && e.Some? ==> e.value != ""
    ensures reply.Responded? && reply.body.Parsed? && e.Some? ==>
      (e.value == RefreshFailedMessage || reply.body.error == Some(e.value))
    ensures reply.Responded? && reply.body.Parsed? && e.Some? && reply.body.error.Some? && reply.body.error.value != "" ==>
      e.value == reply.body.error.value
    ensures reply.NetworkFailure? ==> e == Some(reply.message)
    ensures reply.Responded? && !reply.response.Ok() && reply.body.Unparsable? ==> e == Some(reply.body.message)
  {
    match reply
    case NetworkFailure(m) => Some(m)
    case Responded(response, body) =>
      if response.Ok() then None
      else
        match body
        case Unparsable(m) => Some(m)
        case Parsed(error) => if error.None? || error.value == "" then Some(RefreshFailedMessage) else error
  }

  /** The messages after which the whole session is dropped; the generic
      failure message is not one of them. */
  predicate IsExpired(message: string): (b: bool)
    ensures b ==> message != RefreshFailedMessage
  {
    message == "REFRESH_TOKEN_EXPIRED" || message == "refresh_token_expired"
  }

  function Settle(waiter: nat, failure: Option<string>): Settlement {
    if failure.None? then Resolved(waiter) else Rejected(waiter, failure.value)
  }

  /** The `forEach` over the queue: one settlement per waiter, in queue order. */
  function SettleAll(queue: seq<nat>, failure: Option<string>): (s: seq<Settlement>)
    ensures |s| == |queue|
    decreases |queue|
  {
    if queue == [] then []
    else SettleAll(queue[..|queue| - 1], failure) + [Settle(queue[|queue| - 1], failure)]
  }

  /** The waiters a log of settlements speaks of, in order. */
  function Waiters(s: seq<Settlement>): (w: seq<nat>)
    ensures |w| == |s|
    decreases |s|
  {
    if s == [] then [] else Waiters(s[..|s| - 1]) + [s[|s| - 1].waiter]
  }

  /** The waiter numbers handed out so far, `0` to `n - 1`. */
  function Range(n: nat): (r: seq<nat>)
    ensures |r| == n
    ensures forall i | 0 <= i < n :: r[i] == i
  {
    if n == 0 then [] else Range(n - 1) + [n - 1]
  }

  /** The `i`-th waiter of the queue gets the `i`-th settlement, and every
      settlement carries the same outcome. */
  lemma {:induction false} SettleAllAt(queue: seq<nat>, failure: Option<string>, i: nat)
    requires i < |queue|
    ensures SettleAll(queue, failure)[i].waiter == queue[i]
    ensures SettleAll(queue, failure)[i] == (if failure.None? then Resolved(queue[i]) else Rejected(queue[i], failure.value))
    decreases |queue|
  {
    if i < |queue| - 1 {
      SettleAllAt(queue[..|queue| - 1], failure, i);
    }
  }

  lemma {:induction false} WaitersAt(s: seq<Settlement>, i: nat)
    requires i < |s|
    ensures Waiters(s)[i] == s[i].waiter
    decreases |s|
  {
    if i < |s| - 1 {
      WaitersAt(s[..|s| - 1], i);
    }
  }

  lemma WaitersAppend(a: seq<Settlement>, b: seq<Settlement>)
    ensures Waiters(a + b) == Waiters(a) + Waiters(b)
  {
    forall i | 0 <= i < |a + b|
      ensures Waiters(a + b)[i] == (Waiters(a) + Waiters(b))[i]
    {
      WaitersAt(a + b, i);
      if i < |a| {
        WaitersAt(a, i);
      } else {
        WaitersAt(b, i - |a|);
      }
    }
  }

  /** Settling a queue settles exactly the waiters of the queue, in its order. */
  lemma SettledWaiters(queue: seq<nat>, failure: Option<string>)
    ensures Waiters(SettleAll(queue, failure)) == queue
  {
    forall i | 0 <= i < |queue|
      ensures Waiters(SettleAll(queue, failure))[i] == queue[i]
    {
      WaitersAt(SettleAll(queue, failure), i);
      SettleAllAt(queue, failure, i);
    }
  }

  /** Settling the whole queue keeps every waiter handed out accounted for. */
  lemma DrainKeepsIssueOrder(s: seq<Settlement>, queue: seq<nat>, failure: Option<string>, n: nat)
    requires Waiters(s) + queue == Range(n)
    ensures Waiters(s + SettleAll(queue, failure)) == Range(n)
  {
    SettledWaiters(queue, failure);
    WaitersAppend(s, SettleAll(queue, failure));
  }

  /** When the settled waiters followed by the queued ones are the waiters
      handed out, the `i`-th settlement is the `i`-th waiter's: no waiter is
      settled twice or out of turn, and the queue holds the rest in order. */
  lemma SettledInIssueOrder(s: seq<Settlement>, queue: seq<nat>, n: nat)
    requires Waiters(s) + queue == Range(n)
    ensures |s| + |queue| == n
    ensures forall i | 0 <= i < |s| :: s[i].waiter == i
    ensures forall j | 0 <= j < |queue| :: queue[j] == |s| + j
  {
    forall i | 0 <= i < |s|
      ensures s[i].waiter == i
    {
      WaitersAt(s, i);
      assert (Waiters(s) + queue)[i] == Waiters(s)[i];
    }
    forall j | 0 <= j < |queue|
      ensures queue[j] == |s| + j
    {
      assert (Waiters(s) + queue)[|s| + j] == queue[j];
    }
  }

  /** What `makeAuthenticatedRequest` returns: the response, `null`, or the
      rejection of the first `fetch`. */
  datatype RequestOutcome = Returned(response: Response) | ReturnedNull | Raised(message: string)

  /** Whether the request is sent a second time, whether the session is
      dropped, and what the caller gets. */
  datatype RequestPlan = RequestPlan(retried: bool, expireSession: bool, outcome: RequestOutcome)

  /** The decision of `makeAuthenticatedRequest` given what the first fetch,
      the refresh and the repeated fetch yield. */
  function AuthenticatedRequest(first: Fetch, refresh: RefreshResult, retry: Fetch): (p: RequestPlan)
    ensures p.retried ==> first.Responded? && first.response.status == 401 && refresh.Refreshed?
    ensures first.Responded? && first.response.status == 401 && refresh.Refreshed? ==> p.retried
    ensures first.Responded? && first.response.status != 401 ==>
      p == RequestPlan(false, false, Returned(first.response))
    ensures first.Responded? && first.response.status == 401 && refresh.RefreshFailed? ==>
      p == RequestPlan(false, true, ReturnedNull)
    ensures first.NetworkFailure? ==> p == RequestPlan(false, false, Raised(first.message))
    ensures p.expireSession <==> p.outcome.ReturnedNull?
    ensures p.retried && p.outcome.Returned? ==> retry.Responded? && p.outcome.response == retry.response
    ensures p.retried && !p.outcome.Returned? ==> retry.NetworkFailure? && p.expireSession
  {
    match first
    case NetworkFailure(m) => RequestPlan(false, false, Raised(m))
    case Responded(response, _) =>
      if response.status != 401 then RequestPlan(false, false, Returned(response))
      else if refresh.RefreshFailed? then RequestPlan(false, true, ReturnedNull)
      else
        match retry
        case NetworkFailure(_) => RequestPlan(true, true, ReturnedNull)
        case Responded(again, _) => RequestPlan(true, false, Returned(again))
  }

  class AuthService {
    var isRefreshing: bool
    /** the waiters of the refresh in flight, oldest first */
    var failedQueue: seq<nat>
    var isLogin: bool

    /** the number of waiters queued so far; the next one gets this number */
    var nextWaiter: nat
    /** every settlement of a waiter's promise, oldest first */
    var settlements: seq<Settlement>
    /** every request sent, oldest first */
    var requests: seq<Request>
    /** the last address assigned to `window.location.href` */
    var redirectedTo: Option<string>
    /** how many "session expired" banners were shown */
    var reauthNotices: nat

    /** The queue is empty unless a refresh is in flight, and every waiter
        handed out is either settled, once and in turn, or still queued. */
    ghost predicate Valid()
      reads this`isRefreshing, this`failedQueue, this`nextWaiter, this`settlements
    {
      && (!isRefreshing ==> failedQueue == [])
      && Waiters(settlements) + failedQueue == Range(nextWaiter)
    }

    constructor ()
      ensures Valid()
      ensures !isRefreshing && failedQueue == [] && !isLogin
      ensures nextWaiter == 0 && settlements == [] && requests == []
      ensures redirectedTo == None && reauthNotices == 0
    {
      isRefreshing := false;
      failedQueue := [];
      isLogin := false;
      nextWaiter := 0;
      settlements := [];
      requests := [];
      redirectedTo := None;
      reauthNotices := 0;
    }

    /** `login`: an ok answer signs in; otherwise the `error` field of the
        answer is returned and the flag is left as it was. A failed fetch or
        an unreadable error body rejects. */
    method Login(reply: Fetch) returns (r: SignInResult)
      modifies this`isLogin, this`requests
      ensures requests == old(requests) + [LoginRequest]
      ensures r.SignedIn? <==> reply.Responded? && reply.response.Ok()
      ensures isLogin == (r.SignedIn? || old(isLogin))
      ensures reply.Responded? && !reply.response.Ok() && reply.body.Parsed? ==> r == ServerError(reply.body.error)
      ensures reply.Responded? && !reply.response.Ok() && reply.body.Unparsable? ==> r == Threw(reply.body.message)
      ensures reply.NetworkFailure? ==> r == Threw(reply.message)
    {
      requests := requests + [LoginRequest];
      match reply
      case NetworkFailure(m) =>
        r := Threw(m);
      case Responded(response, body) =>
        if response.Ok() {
          isLogin := true;
          r := SignedIn;
        } else {
          match body
          case Unparsable(m) => r := Threw(m);
          case Parsed(error) => r := ServerError(error);
        }
    }

    /** `register`: as `login`, except that the body is read first, so an
        unreadable body rejects even with an ok status. */
    method Register(reply: Fetch) returns (r: SignInResult)
      modifies this`isLogin, this`requests
      ensures requests == old(requests) + [RegisterRequest]
      ensures r.SignedIn? <==> reply.Responded? && reply.response.Ok() && reply.body.Parsed?
      ensures isLogin == (r.SignedIn? || old(isLogin))
      ensures reply.Responded? && reply.body.Unparsable? ==> r == Threw(reply.body.message)
      ensures reply.Responded? && !reply.response.Ok() && reply.body.Parsed? ==> r == ServerError(reply.body.error)
      ensures reply.NetworkFailure? ==> r == Threw(reply.message)
    {
      requests := requests + [RegisterRequest];
      match reply
      case NetworkFailure(m) =>
        r := Threw(m);
      case Responded(response, body) =>
        match body
        case Unparsable(m) =>
          r := Threw(m);
        case Parsed(error) =>
          if response.Ok() {
            isLogin := true;
            r := SignedIn;
          } else {
            r := ServerError(error);
          }
    }

    /** `logout`: the logout request goes out (its failure is ignored), the
        flag drops and the page goes to the root. */
    method Logout()
      modifies this`isLogin, this`requests, this`redirectedTo
      ensures !isLogin
      ensures requests == old(requests) + [LogoutRequest]
      ensures redirectedTo == Some("/")
    {
      requests := requests + [LogoutRequest];
      isLogin := false;
      redirectedTo := Some("/");
    }

    /** `handleRefreshTokenExpired`: log out and show the banner. */
    method HandleRefreshTokenExpired()
      modifies this`isLogin, this`requests, this`redirectedTo, this`reauthNotices
      ensures !isLogin
      ensures requests == old(requests) + [LogoutRequest]
      ensures redirectedTo == Some("/")
      ensures reauthNotices == old(reauthNotices) + 1
    {
      Logout();
      reauthNotices := reauthNotices + 1;
    }

    /** `isAuthenticated`: the flag becomes whether the check answered ok; a
        failed fetch counts as not signed in. */
    method IsAuthenticated(reply: Fetch) returns (b: bool)
      modifies this`isLogin, this`requests
      ensures b <==> reply.Responded? && reply.response.Ok()
      ensures isLogin == b
      ensures requests == old(requests) + [CheckAuthRequest]
    {
      requests := requests + [CheckAuthRequest];
      b := reply.Responded? && reply.response.Ok();
      isLogin := b;
    }

    /** One tick of `startTokenMonitor`: a signed-in page checks the session
        and drops it if the check fails. */
    method MonitorTick(reply: Fetch)
      modifies this`isLogin, this`requests, this`redirectedTo, this`reauthNotices
      ensures !old(isLogin) ==>
        && !isLogin && requests == old(requests) && reauthNotices == old(reauthNotices)
        && redirectedTo == old(redirectedTo)
      ensures old(isLogin) && reply.Responded? && reply.response.Ok() ==>
        && isLogin && requests == old(requests) + [CheckAuthRequest] && reauthNotices == old(reauthNotices)
        && redirectedTo == old(redirectedTo)
      ensures old(isLogin) && !(reply.Responded? && reply.response.Ok()) ==>
        && !isLogin && requests == old(requests) + [CheckAuthRequest, LogoutRequest]
        && redirectedTo == Some("/") && reauthNotices == old(reauthNotices) + 1
    {
      if isLogin {
        var ok := IsAuthenticated(reply);
        if !ok {
          HandleRefreshTokenExpired();
        }
      }
    }

    /** The synchronous start of `refreshAccessToken`: while a refresh is in
        flight the caller is queued as a new waiter and nothing is sent;
        otherwise the flag is raised and the refresh request goes out. */
    method BeginRefresh() returns (t: RefreshTicket)
      requires Valid()
      modifies this`isRefreshing, this`failedQueue, this`nextWaiter, this`requests
      ensures Valid()
      ensures isRefreshing
      ensures old(isRefreshing) ==>
        && t == Queued(old(nextWaiter))
        && failedQueue == old(failedQueue) + [old(nextWaiter)]
        && nextWaiter == old(nextWaiter) + 1
        && requests == old(requests)
      ensures !old(isRefreshing) ==>
        && t == Started
        && failedQueue == old(failedQueue) == [] && nextWaiter == old(nextWaiter)
        && requests == old(requests) + [RefreshRequest]
    {
      if isRefreshing {
        t := Queued(nextWaiter);
        failedQueue := failedQueue + [nextWaiter];
        nextWaiter := nextWaiter + 1;
        assert Range(nextWaiter) == Range(nextWaiter - 1) + [nextWaiter - 1];
        return;
      }
      isRefreshing := true;
      requests := requests + [RefreshRequest];
      t := Started;
    }

    /** The `forEach` over `failedQueue`: each waiter is settled in turn. */
    method SettleQueue(failure: Option<string>)
      modifies this`settlements
      ensures settlements == old(settlements) + SettleAll(failedQueue, failure)
    {
      var i := 0;
      while i < |failedQueue|
        invariant 0 <= i <= |failedQueue|
        invariant settlements == old(settlements) + SettleAll(failedQueue[..i], failure)
      {
        assert failedQueue[..i + 1][..i] == failedQueue[..i];
        settlements := settlements + [Settle(failedQueue[i], failure)];
        i := i + 1;
      }
      assert failedQueue[..i] == failedQueue;
    }

    /** The rest of `refreshAccessToken` once its fetch yielded `reply`: every
        queued waiter is resolved, or rejected with the one error, in queue
        order; the queue empties; an expired refresh token drops the session;
        the flag is lowered in every case. */
    method CompleteRefresh(reply: Fetch) returns (r: RefreshResult)
      requires Valid() && isRefreshing
      modifies this`isRefreshing, this`failedQueue, this`settlements
      modifies this`isLogin, this`requests, this`redirectedTo, this`reauthNotices
      ensures Valid()
      ensures !isRefreshing && failedQueue == []
      ensures settlements == old(settlements) + SettleAll(old(failedQueue), RefreshError(reply))
      ensures r == (if RefreshError(reply).None? then Refreshed else RefreshFailed(RefreshError(reply).value))
      ensures r.RefreshFailed? && IsExpired(r.message) ==>
        && !isLogin && requests == old(requests) + [LogoutRequest]
        && redirectedTo == Some("/") && reauthNotices == old(reauthNotices) + 1
      ensures !(r.RefreshFailed? && IsExpired(r.message)) ==>
        && isLogin == old(isLogin) && requests == old(requests)
        && redirectedTo == old(redirectedTo) && reauthNotices == old(reauthNotices)
    {
      var failure := RefreshError(reply);
      SettleQueue(failure);
      DrainKeepsIssueOrder(old(settlements), failedQueue, failure, nextWaiter);
      failedQueue := [];
      r := EndRefresh(failure);
      isRefreshing := false;
    }

    /** The outcome of a refresh whose error is `failure`; an expired refresh
        token drops the session. */
    method EndRefresh(failure: Option<string>) returns (r: RefreshResult)
      modifies this`isLogin, this`requests, this`redirectedTo, this`reauthNotices
      ensures r == (if failure.None? then Refreshed else RefreshFailed(failure.value))
      ensures r.RefreshFailed? && IsExpired(r.message) ==>
        && !isLogin && requests == old(requests) + [LogoutRequest]
        && redirectedTo == Some("/") && reauthNotices == old(reauthNotices) + 1
      ensures !(r.RefreshFailed? && IsExpired(r.message)) ==>
        && isLogin == old(isLogin) && requests == old(requests)
        && redirectedTo == old(redirectedTo) && reauthNotices == old(reauthNotices)
    {
      if failure.None? {
        r := Refreshed;
      } else {
        r := RefreshFailed(failure.value);
        if IsExpired(failure.value) {
          HandleRefreshTokenExpired();
        }
      }
    }

    /** `makeAuthenticatedRequest` for `url`, given what its first fetch, the
        refresh it awaits and its second fetch yield: the request is sent
        again only after a 401 and a successful refresh, and the session is
        dropped exactly when the call returns `null`. */
    method MakeAuthenticatedRequest(url: string, first: Fetch, refresh: RefreshResult, retry: Fetch)
      returns (outcome: RequestOutcome)
      modifies this`isLogin, this`requests, this`redirectedTo, this`reauthNotices
      ensures var p := AuthenticatedRequest(first, refresh, retry);
        && outcome == p.outcome
        && requests == old(requests) + [ApiRequest(url)] + (if p.retried then [ApiRequest(url)] else [])
                       + (if p.expireSession then [LogoutRequest] else [])
        && (p.expireSession ==> !isLogin && redirectedTo == Some("/") && reauthNotices == old(reauthNotices) + 1)
        && (!p.expireSession ==> isLogin == old(isLogin) && redirectedTo == old(redirectedTo) && reauthNotices == old(reauthNotices))
    {
      requests := requests + [ApiRequest(url)];
      var p := AuthenticatedRequest(first, refresh, retry);
      if p.retried {
        requests := requests + [ApiRequest(url)];
      }
      if p.expireSession {
        HandleRefreshTokenExpired();
      }
      outcome := p.outcome;
    }
  }
}
