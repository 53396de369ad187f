/**
 The OAuth token cache (internal/polaris/auth.go): the client-credentials grant of section 4.4 of RFC 6749,
 with expires_in as in section 5.1 of RFC 6749.

 Times are in nanoseconds, as in Go's time package. A Duration is a signed 64-bit number, so the product of
 expires_in and one second wraps around; a point in time does not overflow here.
 */
module TokenCache {
  import opened Wrappers

  const SECOND: int := 1_000_000_000
  const LEAD_TIME: int := 30 * SECOND
  const HOUR: int := 3600 * SECOND
  const TWO_63: int := 0x8000_0000_0000_0000
  const TWO_64: int := 0x1_0000_0000_0000_0000

  /** Two's complement wrap-around to 64 bits. */
  function Wrap(n: int): (w: int)
    ensures -TWO_63 <= w < TWO_63
    ensures -TWO_63 <= n < TWO_63 ==> w == n
  {
    (n + TWO_63) % TWO_64 - TWO_63
  }

  datatype TokenResponse = TokenResponse(accessToken: string, expiresIn: int)

  /** How long a response is taken to be good for, from the moment it is recorded. */
  function Lifetime(r: TokenResponse): int {
    if r.expiresIn > 0 then Wrap(r.expiresIn * SECOND) else HOUR
  }

  /** What fetch returns: a response is only returned with a non-empty token. */
  datatype Fetched = Response(r: TokenResponse) | Failure

  predicate WellFormed(f: Fetched) {
    f.Response? ==> f.r.accessToken != ""
  }

  datatype Cache = Cache(cached: string, expiresAt: int)

  const NO_TOKEN := Cache("", 0)

  predicate Fresh(c: Cache, now: int) {
    c.cached != "" && c.expiresAt - now > LEAD_TIME
  }

  /** One call: the clock is read for the freshness test, and again after the exchange. */
  datatype Call = Call(asked: int, reply: Fetched, recorded: int)

  function After(c: Cache, call: Call): Cache {
    if Fresh(c, call.asked) || call.reply.Failure? then c
    else Cache(call.reply.r.accessToken, call.recorded + Lifetime(call.reply.r))
  }

  function Answer(c: Cache, call: Call): Option<string> {
    if Fresh(c, call.asked) then Some(c.cached)
    else if call.reply.Failure? then None
    else Some(call.reply.r.accessToken)
  }

  /** tokenSource.token, under its mutex. */
  class TokenSource {
    var cached: string
    var expiresAt: int

    constructor ()
      ensures State() == NO_TOKEN
    {
      cached, expiresAt := "", 0;
    }

    function State(): Cache
      reads this
    {
      Cache(cached, expiresAt)
    }

    method Token(call: Call) returns (token: Option<string>)
      modifies this
      ensures State() == After(old(State()), call)
      ensures token == Answer(old(State()), call)
    {
      if cached != "" && expiresAt - call.asked > LEAD_TIME {
        return Some(cached);
      }
      match call.reply
      case Failure =>
        return None;
      case Response(r) =>
        cached := r.accessToken;
        if r.expiresIn > 0 {
          expiresAt := call.recorded + Wrap(r.expiresIn * SECOND);
        } else {
          expiresAt := call.recorded + HOUR;
        }
        return Some(cached);
    }
  }

  // ---- Runs ----

  function Run(c: Cache, calls: seq<Call>): Cache
    decreases |calls|
  {
    if calls == [] then c else Run(After(c, calls[0]), calls[1..])
  }

  /** The mutex serialises the calls and the clock never goes back. */
  predicate InOrder(calls: seq<Call>, from: int)
    decreases |calls|
  {
    calls == [] ||
    (from <= calls[0].asked <= calls[0].recorded && WellFormed(calls[0].reply)
        && InOrder(calls[1..], calls[0].recorded))
  }

  /** How many calls exchanged credentials successfully. */
  function Exchanges(c: Cache, calls: seq<Call>): nat
    decreases |calls|
  {
    if calls == [] then 0
    else
      (if !Fresh(c, calls[0].asked) && calls[0].reply.Response? then 1 else 0)
      + Exchanges(After(c, calls[0]), calls[1..])
  }

  predicate LivesAtLeast(calls: seq<Call>, least: int) {
    forall i :: 0 <= i < |calls| && calls[i].reply.Response? ==> Lifetime(calls[i].reply.r) >= least
  }

  /**
   Refreshes are paced by what the server grants: with every token living at least `least`, n exchanges after
   an already recorded token end no earlier than n times (least - 30s) after it was recorded.
   */
  lemma {:induction false} ExchangesArePaced(c: Cache, calls: seq<Call>, recordedAt: int, from: int, least: int)
    requires least > LEAD_TIME && LivesAtLeast(calls, least) && InOrder(calls, from)
    requires c.cached != "" && c.expiresAt >= recordedAt + least && recordedAt <= from
    ensures Exchanges(c, calls) > 0 ==>
            calls[|calls| - 1].recorded - recordedAt >= Exchanges(c, calls) * (least - LEAD_TIME)
    decreases |calls|
  {
    hide Lifetime, Wrap;
    if calls != [] {
      var call, rest := calls[0], calls[1..];
      assert forall i :: 0 <= i < |rest| ==> rest[i] == calls[i + 1];
      var next := After(c, call);
      if !Fresh(c, call.asked) && call.reply.Response? {
        assert Lifetime(calls[0].reply.r) >= least;
        assert call.recorded - recordedAt >= least - LEAD_TIME;
        ExchangesArePaced(next, rest, call.recorded, call.recorded, least);
        ClockAdvances(calls, from);
        if Exchanges(next, rest) > 0 {
          assert rest[|rest| - 1] == calls[|calls| - 1];
          OneMore(Exchanges(next, rest), least - LEAD_TIME);
        }
      } else {
        ExchangesArePaced(next, rest, recordedAt, call.recorded, least);
      }
    }
  }

  lemma OneMore(n: nat, gap: int)
    ensures (n + 1) * gap == n * gap + gap
  {
  }

  lemma {:induction false} ClockAdvances(calls: seq<Call>, from: int)
    requires InOrder(calls, from) && calls != []
    ensures calls[|calls| - 1].recorded >= calls[0].recorded
    decreases |calls|
  {
    if |calls| > 1 {
      ClockAdvances(calls[1..], calls[0].recorded);
    }
  }

  /** The first exchange of a run, if there is one. */
  function FirstExchange(c: Cache, calls: seq<Call>): (i: nat)
    ensures i <= |calls|
    ensures i < |calls| ==> calls[i].reply.Response?
    decreases |calls|
  {
    if calls == [] then 0
    else if !Fresh(c, calls[0].asked) && calls[0].reply.Response? then 0
    else 1 + FirstExchange(After(c, calls[0]), calls[1..])
  }

  /**
   In any run from any cache, n successful exchanges span at least (n - 1) * (least - 30s), measured from
   the moment the first token was recorded.
   */
  lemma {:induction false} RefreshBound(c: Cache, calls: seq<Call>, from: int, least: int)
    requires least > LEAD_TIME && LivesAtLeast(calls, least) && InOrder(calls, from)
    requires Exchanges(c, calls) > 0
    ensures FirstExchange(c, calls) < |calls|
    ensures calls[|calls| - 1].recorded - calls[FirstExchange(c, calls)].recorded
            >= (Exchanges(c, calls) - 1) * (least - LEAD_TIME)
    decreases |calls|
  {
    var call, rest := calls[0], calls[1..];
    assert forall i :: 0 <= i < |rest| ==> rest[i] == calls[i + 1];
    var next := After(c, call);
    if !Fresh(c, call.asked) && call.reply.Response? {
      assert Lifetime(calls[0].reply.r) >= least;
      ExchangesArePaced(next, rest, call.recorded, call.recorded, least);
      ClockAdvances(calls, from);
    } else {
      RefreshBound(next, rest, call.recorded, least);
    }
  }

  /**
   What callers get: a token served without an exchange is non-empty with more than 30s of recorded life; a
   failed exchange gives no token and leaves the cache alone; an answer is always what is cached afterwards.
   */
  lemma AnswersAreGood(c: Cache, call: Call)
    requires WellFormed(call.reply)
    ensures var token, d := Answer(c, call), After(c, call);
            && (token.Some? ==> token.value != "" && d.cached == token.value)
            && (token.None? <==> !Fresh(c, call.asked) && call.reply.Failure?)
            && (token.None? ==> d == c)
            && (!Fresh(c, call.asked) && call.reply.Response? ==> token == Some(call.reply.r.accessToken))
            && (token.Some? && d == c && c.cached != "" && call.reply.Failure? ==> c.expiresAt - call.asked > LEAD_TIME)
  {
  }

  /** A token just recorded is served again, without an exchange, exactly while more than 30s of its lifetime remain. */
  lemma ReusedWhileFresh(c: Cache, call: Call, later: Call)
    requires !Fresh(c, call.asked) && call.reply.Response? && WellFormed(call.reply)
    ensures var d := After(c, call);
            if later.asked < call.recorded + Lifetime(call.reply.r) - LEAD_TIME
            then After(d, later) == d && Answer(d, later) == Some(call.reply.r.accessToken)
            else Exchanges(d, [later]) == if later.reply.Response? then 1 else 0
  {
  }

  // ---- The lifetime arithmetic ----

  /** Up to about 292 years the wrap-around does not show. */
  lemma LifetimeIsExact(r: TokenResponse)
    ensures 0 < r.expiresIn <= TWO_63 / SECOND ==> Lifetime(r) == r.expiresIn * SECOND
    ensures r.expiresIn > 0 && Lifetime(r) == r.expiresIn * SECOND ==> r.expiresIn <= TWO_63 / SECOND
  {
  }

  /** The granted lifetime in nanoseconds, as far as 64 bits hold it. */
  function Granted(r: TokenResponse): (m: int)
    ensures 0 <= m < TWO_64
  {
    r.expiresIn * SECOND % TWO_64
  }

  lemma LifetimeIsModulo(r: TokenResponse)
    requires r.expiresIn > 0
    ensures Lifetime(r) == if Granted(r) < TWO_63 then Granted(r) else Granted(r) - TWO_64
  {
    WrapIsModulo(r.expiresIn * SECOND);
  }

  lemma WrapIsModulo(n: int)
    ensures Wrap(n) == if n % TWO_64 < TWO_63 then n % TWO_64 else n % TWO_64 - TWO_64
  {
    var k, m := n / TWO_64, n % TWO_64;
    assert n == TWO_64 * k + m;
    if m < TWO_63 {
      assert n + TWO_63 == TWO_64 * k + (m + TWO_63);
      ModuloIs(n + TWO_63, k, m + TWO_63);
    } else {
      assert n + TWO_63 == TWO_64 * (k + 1) + (m - TWO_63);
      ModuloIs(n + TWO_63, k + 1, m - TWO_63);
    }
  }

  lemma ModuloIs(n: int, k: int, m: int)
    requires n == TWO_64 * k + m && 0 <= m < TWO_64
    ensures n % TWO_64 == m
  {
    var q := n / TWO_64 - k;
    assert n == TWO_64 * (n / TWO_64) + n % TWO_64;
    assert TWO_64 * q == m - n % TWO_64;
    assert q == 0;
  }

  /**
   When a token that came with a lifetime is reused, for every grant, cache and later clock: exactly while the clock
   is more than 30s short of the lifetime modulo 2^64 nanoseconds, and never if that has its top bit set.
   */
  lemma ReusedIff(c: Cache, call: Call, later: int)
    requires !Fresh(c, call.asked) && call.reply.Response? && WellFormed(call.reply) && call.reply.r.expiresIn > 0
    requires call.recorded <= later
    ensures var m := Granted(call.reply.r);
            Fresh(After(c, call), later) <==> m < TWO_63 && later - call.recorded < m - 30_000_000_000
  {
    hide Granted, Lifetime;
    LifetimeIsModulo(call.reply.r);
  }

  /** A token that came without a lifetime is reused for an hour, less the 30s. */
  lemma AssumedLifetime(c: Cache, call: Call, later: int)
    requires !Fresh(c, call.asked) && call.reply.Response? && WellFormed(call.reply) && call.reply.r.expiresIn <= 0
    ensures Fresh(After(c, call), later) <==> later - call.recorded < 3_570_000_000_000
  {
  }

  /** So the tokens every call exchanges anew are those granted at most 30s or at least 292 years, modulo 584 years. */
  lemma NeverReusedIff(c: Cache, call: Call)
    requires !Fresh(c, call.asked) && call.reply.Response? && WellFormed(call.reply) && call.reply.r.expiresIn > 0
    ensures (forall later :: later >= call.recorded ==> !Fresh(After(c, call), later)) <==>
            !(LEAD_TIME < Granted(call.reply.r) < TWO_63)
  {
    hide Granted, After, Fresh;
    var d := After(c, call);
    forall later | later >= call.recorded
      ensures Fresh(d, later) <==>
              Granted(call.reply.r) < TWO_63 && later - call.recorded < Granted(call.reply.r) - LEAD_TIME
    {
      ReusedIff(c, call, later);
    }
    if LEAD_TIME < Granted(call.reply.r) < TWO_63 {
      assert Fresh(d, call.recorded);
    }
  }

  /** One second past the limit a token is never reused; at twice the limit the wrap comes round to about an hour. */
  lemma WrapCutsBothWays(now: int)
    ensures !(LEAD_TIME < Granted(TokenResponse("t", TWO_63 / SECOND + 1)) < TWO_63)
    ensures var long := TokenResponse("t", 18446747674);
            && long.expiresIn > TWO_63 / SECOND
            && HOUR < Granted(long) < HOUR + SECOND
            && Fresh(After(NO_TOKEN, Call(now, Response(long), now)), now)
  {
    var long := TokenResponse("t", 18446747674);
    assert Granted(long) == 18446747674 * SECOND - TWO_64;
    ReusedIff(NO_TOKEN, Call(now, Response(long), now), now);
  }
}
