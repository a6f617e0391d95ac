/** The HTTP middleware with decisions of its own: the per-client token bucket of RateLimit and the
    allow/preflight decision of CORS. Requests are handled one at a time; the clock reading and the
    number of tokens the elapsed time is worth are inputs. */
module Middleware {
  import opened Wrappers
  import opened Seqs
  import opened Records
  import Strconv

  const StatusNoContent := 204
  const StatusTooManyRequests := 429

  // ---------------------------------------------------------------------------
  // RateLimit

  /** A client's bucket. */
  datatype Client = Client(tokens: int, lastRefillTime: Time)

  function Min(a: int, b: int): (r: int)
    ensures r <= a && r <= b && (r == a || r == b)
  {
    if a < b then a else b
  }

  /** The bucket a request finds: the stored one, or a full bucket for a client seen for the first time. */
  function Entry(clients: map<string, Client>, ip: string, rps: int, now: Time): (r: Client)
    ensures ip !in clients ==> r == Client(rps, now)
  {
    if ip in clients then clients[ip] else Client(rps, now)
  }

  /** The refill: when the elapsed time is worth at least one token, the bucket gains that many,
      capped at rps, and its refill time moves to now; otherwise it is left as it is. */
  function Refill(cl: Client, rps: int, now: Time, tokensToAdd: int): (r: Client)
    ensures tokensToAdd > 0 ==> r.tokens <= rps && r.lastRefillTime == now
    ensures r.lastRefillTime != cl.lastRefillTime ==> tokensToAdd > 0
    ensures r.tokens >= cl.tokens || r.tokens == rps
  {
    if tokensToAdd > 0 then Client(Min(cl.tokens + tokensToAdd, rps), now) else cl
  }

  /** One request against a bucket: after the refill it is refused when no token is left, and
      otherwise takes one token. Returns the new bucket and whether the request passes. */
  function Step(cl: Client, rps: int, now: Time, tokensToAdd: int): (Client, bool) {
    var c := Refill(cl, rps, now, tokensToAdd);
    if c.tokens <= 0 then (c, false) else (c.(tokens := c.tokens - 1), true)
  }

  /** A request is refused exactly when the refilled bucket is empty; an accepted request costs
      exactly one token; the bucket never holds more than rps after a refill, nor a negative count
      when it started in 0..rps. */
  lemma StepSpec(cl: Client, rps: int, now: Time, tokensToAdd: int)
    ensures var (c, ok) := Step(cl, rps, now, tokensToAdd);
            var refilled := Refill(cl, rps, now, tokensToAdd);
            && (ok <==> refilled.tokens > 0)
            && (ok ==> c.tokens == refilled.tokens - 1)
            && (!ok ==> c == refilled)
            && c.lastRefillTime == refilled.lastRefillTime
            && (0 <= cl.tokens <= rps ==> 0 <= c.tokens <= rps)
  {
  }

  /** How many of `k` back-to-back requests pass when no time has elapsed between them. */
  function BurstAccepted(cl: Client, rps: int, now: Time, k: nat): nat
    decreases k
  {
    if k == 0 then 0
    else
      var (c, ok) := Step(cl, rps, now, 0);
      (if ok then 1 else 0) + BurstAccepted(c, rps, now, k - 1)
  }

  /** Without a refill a client gets at most as many requests through as it has tokens. */
  lemma {:induction false} BurstBound(cl: Client, rps: int, now: Time, k: nat)
    ensures BurstAccepted(cl, rps, now, k) == if cl.tokens <= 0 then 0 else Min(k, cl.tokens)
    decreases k
  {
    if k > 0 {
      var (c, ok) := Step(cl, rps, now, 0);
      BurstBound(c, rps, now, k - 1);
    }
  }

  /** The refusal message, with rps formatted as by %d. */
  function RateLimitMessage(rps: int): string {
    "Rate limit exceeded. Maximum " + Strconv.FormatInt(rps) + " requests per second."
  }

  datatype Verdict = Next | Abort(code: int, error: string)

  class RateLimiter {
    const rps: int
    var clients: map<string, Client>

    /** With a non-negative rate every bucket holds between 0 and rps tokens. */
    ghost predicate Valid()
      reads this
    {
      rps >= 0 ==> forall ip :: ip in clients ==> 0 <= clients[ip].tokens <= rps
    }

    constructor (rps: int)
      ensures this.rps == rps && clients == map[]
      ensures Valid()
    {
      this.rps := rps;
      clients := map[];
    }

    /** The handler RateLimit(rps) returns, for one request from `ip`: only that client's bucket
        changes, as one Step; a refused request is a 429. */
    method Handle(ip: string, now: Time, tokensToAdd: int) returns (verdict: Verdict)
      requires Valid()
      modifies this
      ensures Valid()
      ensures var (c, ok) := Step(Entry(old(clients), ip, rps, now), rps, now, tokensToAdd);
              && clients == old(clients)[ip := c]
              && (ok ==> verdict == Next)
              && (!ok ==> verdict == Abort(StatusTooManyRequests, RateLimitMessage(rps)))
    {
      var cl := Entry(clients, ip, rps, now);
      if ip !in clients {
        clients := clients[ip := cl];
      }
      if tokensToAdd > 0 {
        cl := Client(Min(cl.tokens + tokensToAdd, rps), now);
      }
      if cl.tokens <= 0 {
        clients := clients[ip := cl];
        return Abort(StatusTooManyRequests, RateLimitMessage(rps));
      }
      cl := cl.(tokens := cl.tokens - 1);
      clients := clients[ip := cl];
      StepSpec(Entry(old(clients), ip, rps, now), rps, now, tokensToAdd);
      return Next;
    }
  }

  // ---------------------------------------------------------------------------
  // CORS

  const AllowMethods := "GET, POST, PUT, DELETE, OPTIONS"
  const AllowHeaders := "Content-Type, Authorization"

  /** The origin is allowed when some entry of the list is "*" or the origin itself. */
  predicate OriginAllowed(allowOrigins: seq<string>, origin: string) {
    FindFirst(allowOrigins, (a: string) => a == "*" || a == origin).Some?
  }

  datatype CorsOutcome = CorsOutcome(headers: seq<(string, string)>, verdict: Verdict)

  /** The handler CORS(allowOrigins) returns, for one request: the four headers when the origin is
      allowed, none otherwise; a preflight ends with 204 whatever the origin. */
  function Cors(allowOrigins: seq<string>, origin: string, requestMethod: string): (r: CorsOutcome)
    ensures |r.headers| > 0 <==> "*" in allowOrigins || origin in allowOrigins
    ensures |r.headers| > 0 ==> r.headers[0] == ("Access-Control-Allow-Origin", origin)
    ensures r.verdict == if requestMethod == "OPTIONS" then Abort(StatusNoContent, "") else Next
  {
    var headers :=
      if OriginAllowed(allowOrigins, origin) then
        [("Access-Control-Allow-Origin", origin),
         ("Access-Control-Allow-Methods", AllowMethods),
         ("Access-Control-Allow-Headers", AllowHeaders),
         ("Access-Control-Allow-Credentials", "true")]
      else [];
    CorsOutcome(headers, if requestMethod == "OPTIONS" then Abort(StatusNoContent, "") else Next)
  }
}
