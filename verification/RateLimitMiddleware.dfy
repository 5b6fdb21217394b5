/**
 The rate-limiting middleware: which key and limit a request is counted under, what is
 forwarded, and the Retry-After header of a refusal (delay-seconds, section 10.2.3 of
 RFC 9110).
 */
module RateLimitMiddleware {
  import opened SlidingWindow
  import opened MemoryTable
  import opened MemoryRuns
  import opened MemoryRateLimiter
  import Redis = RedisScript
  import Agreement = BackendAgreement

  const NS_PER_S: int := 1_000_000_000

  datatype Caller = Client(id: string, rpm: int) | Anonymous(ip: string)

  datatype Outcome = Decided(answer: Answer) | BackendError

  datatype Response =
    | Forwarded(limit: int, remaining: int, reset: int)
    | ForwardedUnlimited
    | TooManyRequests(limit: int, remaining: int, reset: int, retryAfter: int)
    | ServiceUnavailable(retryAfter: int)

  /** Whole seconds, truncated toward zero as a float-to-int conversion truncates. */
  function WholeSeconds(ns: int): int {
    if ns < 0 then -(-ns / NS_PER_S) else ns / NS_PER_S
  }

  /** The header of a refusal that is written at `t`. */
  function RetryAfter(resetAt: int, t: int): int {
    var s := WholeSeconds(resetAt - t);
    if s < 1 then 1 else s
  }

  /** What the middleware does with the limiter's outcome, at clock reading `t`. */
  function Respond(o: Outcome, limit: int, failClosed: bool, t: int): Response {
    match o
    case BackendError => if failClosed then ServiceUnavailable(5) else ForwardedUnlimited
    case Decided(a) =>
      var reset := a.resetAt / NS_PER_S;
      if a.allowed then Forwarded(limit, a.remaining, reset)
      else TooManyRequests(limit, a.remaining, reset, RetryAfter(a.resetAt, t))
  }

  /**
   What a response says about the answer `a` it was made of, at `t`: the header of a refusal is at
   least a second, undershoots ResetAt by less than one and otherwise never overshoots it; the
   reset header is ResetAt in whole seconds; remaining is the limiter's.
   */
  ghost predicate Tells(r: Response, a: Answer, limit: int, t: int) {
    && (if a.allowed then r.Forwarded? else r.TooManyRequests?)
    && r.limit == limit && r.remaining == a.remaining
    && r.reset * 1_000_000_000 <= a.resetAt < (r.reset + 1) * 1_000_000_000
    && (r.TooManyRequests? ==>
          && 1 <= r.retryAfter && a.resetAt < t + (r.retryAfter + 1) * 1_000_000_000
          && (r.retryAfter == 1 || t + r.retryAfter * 1_000_000_000 <= a.resetAt)
          && (a.resetAt <= t + 60_000_000_000 ==> r.retryAfter <= 60))
  }

  lemma ResponseTells(a: Answer, limit: int, failClosed: bool, t: int)
    ensures Tells(Respond(Decided(a), limit, failClosed, t), a, limit, t)
  {
    WholeSecondsError(a.resetAt - t);
  }

  /**
   One request through the middleware on the in-process backend, which never fails. The
   limiter reads the clock at `t1`, the header is computed at `t2`. An authenticated client
   is counted under its own key and limit, everyone else under the address with the limiter's
   default; `rpm` is the default that the middleware itself was given, and reports.
   */
  method Serve(rl: MemoryRateLimiter, rpm: int, caller: Caller, failClosed: bool, t1: int, t2: int) returns (r: Response)
    requires rl.Valid()
    modifies rl.Repr
    ensures rl.Valid() && fresh(rl.Repr - old(rl.Repr))
    ensures caller.Client? ==>
              && rl.Contents() == Called(old(rl.Contents()), "client:" + caller.id, caller.rpm, t1)
              && Tells(r, Answered(old(rl.Contents()), "client:" + caller.id, caller.rpm, t1), caller.rpm, t2)
    ensures caller.Anonymous? ==>
              && rl.Contents() == Called(old(rl.Contents()), caller.ip, rl.rpm, t1)
              && Tells(r, Answered(old(rl.Contents()), caller.ip, rl.rpm, t1), rpm, t2)
  {
    var a, limit;
    if caller.Client? {
      a := rl.AllowN("client:" + caller.id, caller.rpm, t1);
      limit := caller.rpm;
    } else {
      a := rl.Allow(caller.ip, t1);
      limit := rpm;
    }
    ResponseTells(a, limit, failClosed, t2);
    r := Respond(Decided(a), limit, failClosed, t2);
  }

  predicate ReachesHandler(r: Response) {
    r.Forwarded? || r.ForwardedUnlimited?
  }

  /**
   The same on Redis, where the call can fail: then the request is refused on the routes that
   fail closed and let through on the others. `now` is the caller's clock in milliseconds.
   */
  method ServeOnRedis(rl: Redis.RedisRateLimiter, rpm: int, caller: Caller, failClosed: bool, now: int, member: string,
                      serverNow: int, ran: bool, answered: bool, t2: int)
    returns (r: Response, ghost reply: Redis.Reply)
    modifies rl.server
    ensures var n, key := if caller.Client? then caller.rpm else rl.rpm,
                          "rate:" + if caller.Client? then "client:" + caller.id else caller.ip;
            && rl.server.db == (if 0 < n && (ran || answered)
                                then Redis.Scripted(old(rl.server.db), serverNow, key, now, n, member)
                                else old(rl.server.db))
            && (0 < n && answered ==>
                  && Redis.Replies(old(rl.server.db), serverNow, key, now, n, member, reply)
                  && Tells(r, Agreement.Scaled(Redis.ReplyAnswer(reply, n, now)), if caller.Client? then n else rpm, t2)
                  && (ReachesHandler(r) <==> reply.allowed == 1))
            && (0 < n && !answered ==> r == if failClosed then ServiceUnavailable(5) else ForwardedUnlimited)
            && (n <= 0 ==> Tells(r, Answer(false, 0, (now + 60_000) * 1_000_000), if caller.Client? then n else rpm, t2))
  {
    var result, limit;
    if caller.Client? {
      result, reply := rl.AllowN("client:" + caller.id, caller.rpm, now, member, serverNow, ran, answered);
      limit := caller.rpm;
    } else {
      result, reply := rl.Allow(caller.ip, now, member, serverNow, ran, answered);
      limit := rpm;
    }
    var o := match result
             case Decision(a) => Decided(Agreement.Scaled(a))
             case CallFailed => BackendError
             case Malformed(_) => BackendError;
    if o.Decided? { ResponseTells(o.answer, limit, failClosed, t2); }
    r := Respond(o, limit, failClosed, t2);
  }

  /** Whole seconds fall short by less than one second, on either side of zero. */
  lemma WholeSecondsError(ns: int)
    ensures ns >= 0 ==> WholeSeconds(ns) * NS_PER_S <= ns < (WholeSeconds(ns) + 1) * NS_PER_S
    ensures ns < 0 ==> WholeSeconds(ns) <= 0
  {
  }

  /**
   On every run the header of a refusal is an integer from 1 to 60 and points to less than one
   second before ResetAt, for the zero and negative limits too.
   */
  lemma RetryAfterBounds(ops: seq<Op>, key: string, rpm: int, now: int, limit: int, failClosed: bool, t: int)
    requires Chronological(ops) && Before(ops, now) && now <= t
    ensures var a := Answered(Run(ops), key, rpm, now);
            var r := Respond(Decided(a), limit, failClosed, t);
            && (r.TooManyRequests? <==> !a.allowed)
            && (r.TooManyRequests? ==> 1 <= r.retryAfter <= 60 && a.resetAt < t + (r.retryAfter + 1) * 1_000_000_000)
  {
    var a := Answered(Run(ops), key, rpm, now);
    if 0 < rpm { AnswerDescribesWindow(ops, key, rpm, now); }
    ResponseTells(a, limit, failClosed, t);
  }

  /**
   After a refusal, a client that is alone on its key and comes back after the header's number
   of seconds is admitted exactly when ResetAt has been reached by then; one second later it
   is always admitted. Cleanups and other keys' calls may happen meanwhile.
   */
  lemma LoneClientAfterRefusal(ops: seq<Op>, key: string, rpm: int, now: int, failClosed: bool, t: int,
                               mid: seq<Op>, next: int)
    requires 0 < rpm && ConstantRpm(ops, key, rpm) && ConstantRpm(mid, key, rpm) && CallsOn(mid, key) == 0
    requires Chronological(ops + [Call(key, rpm, now)] + mid)
    requires Before(ops + [Call(key, rpm, now)] + mid, next)
    requires !Answered(Run(ops), key, rpm, now).allowed && now <= t
    ensures var a := Answered(Run(ops), key, rpm, now);
            var r := Respond(Decided(a), rpm, failClosed, t);
            var later := Answered(Run(ops + [Call(key, rpm, now)] + mid), key, rpm, next);
            && r.TooManyRequests?
            && (next == t + r.retryAfter * NS_PER_S ==> (later.allowed <==> a.resetAt <= t + r.retryAfter * NS_PER_S))
            && (t + (r.retryAfter + 1) * NS_PER_S <= next ==> later.allowed)
  {
    var a := Answered(Run(ops), key, rpm, now);
    NoCalls(mid, key, a.resetAt);
    ChronologicalParts(ops, Call(key, rpm, now), mid);
    ResetAtIsExact(ops, key, rpm, now, mid, next);
    RetryAfterBounds(ops, key, rpm, now, rpm, failClosed, t);
  }

  lemma {:induction false} NoCalls(mid: seq<Op>, key: string, t: int)
    requires CallsOn(mid, key) == 0
    ensures CallsBefore(mid, key, t)
  {
    if mid != [] { NoCalls(mid[..|mid| - 1], key, t); }
  }
}
