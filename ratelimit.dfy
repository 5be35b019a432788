/**
 * The per-IP sliding-window rate limiter in front of `POST /anp/message`
 * (esense/interface/server.py). Each client address keeps the arrival
 * times of its recent requests; a request is admitted while fewer than 30
 * arrivals lie within the last 60 seconds. Times are integer seconds.
 */
module RateLimit {
  import opened Wrappers
  import opened Values

  /** `_RATE_WINDOW`, in seconds. */
  const Window := 60
  /** `_RATE_MAX`, requests per window per address. */
  const MaxRequests := 30

  /** The arrival times of `times` still inside the window ending at `now`,
      in their original order. */
  function Pruned(times: seq<int>, now: int): (r: seq<int>)
    ensures |r| <= |times|
    ensures forall t :: t in r <==> t in times && now - t < Window
  {
    if times == [] then []
    else (if now - times[0] < Window then [times[0]] else []) + Pruned(times[1..], now)
  }

  /** Pruning keeps a list whose every arrival is still inside the window. */
  lemma {:induction false} PrunedKeepsRecent(times: seq<int>, now: int)
    requires forall t :: t in times ==> now - t < Window
    ensures Pruned(times, now) == times
  {
    if times != [] {
      assert times[0] in times;
      forall t | t in times[1..]
        ensures now - t < Window
      {
        assert t in times;
      }
      PrunedKeepsRecent(times[1..], now);
      assert [times[0]] + times[1..] == times;
    }
  }

  /** `_rate_limit[ip]` of the `defaultdict(list)`: an unseen address has an
      empty list. */
  function Arrivals(windows: map<string, seq<int>>, ip: string): seq<int>
  {
    if ip in windows then windows[ip] else []
  }

  /** Every address holds at most `MaxRequests` arrivals. */
  predicate Bounded(windows: map<string, seq<int>>)
  {
    forall ip :: ip in windows ==> |windows[ip]| <= MaxRequests
  }

  /** The outcome of one rate check and the table it leaves. */
  datatype Check = Check(admitted: bool, windows: map<string, seq<int>>)

  /** One request from `ip` at `now`: the address's list is replaced by its
      pruned form; the request is admitted if and only if fewer than
      `MaxRequests` arrivals remain, and only an admitted request is
      recorded. */
  function Checked(windows: map<string, seq<int>>, ip: string, now: int): (c: Check)
    ensures c.admitted <==> |Pruned(Arrivals(windows, ip), now)| < MaxRequests
    ensures ip in c.windows
    ensures c.admitted ==> c.windows[ip] == Pruned(Arrivals(windows, ip), now) + [now]
    ensures !c.admitted ==> c.windows[ip] == Pruned(Arrivals(windows, ip), now)
  {
    var kept := Pruned(Arrivals(windows, ip), now);
    if |kept| >= MaxRequests then Check(false, windows[ip := kept])
    else Check(true, windows[ip := kept + [now]])
  }

  /** A check keeps every list within `MaxRequests`. */
  lemma CheckedBounded(windows: map<string, seq<int>>, ip: string, now: int)
    requires Bounded(windows)
    ensures Bounded(Checked(windows, ip, now).windows)
  {
  }

  /** Requests from one address never touch another address's list. */
  lemma CheckedIsolated(windows: map<string, seq<int>>, ip: string, now: int, other: string)
    requires other != ip
    ensures Arrivals(Checked(windows, ip, now).windows, other) == Arrivals(windows, other)
    ensures other in Checked(windows, ip, now).windows <==> other in windows
  {
  }

  /** The outcome of a run of requests from one address. */
  datatype Run = Run(admitted: seq<bool>, windows: map<string, seq<int>>)

  function Ran(windows: map<string, seq<int>>, ip: string, times: seq<int>): (r: Run)
    ensures |r.admitted| == |times|
    decreases |times|
  {
    if times == [] then Run([], windows)
    else
      var c := Checked(windows, ip, times[0]);
      var rest := Ran(c.windows, ip, times[1..]);
      Run([c.admitted] + rest.admitted, rest.windows)
  }

  /** Every arrival in `times` lies within the window of every arrival in
      `earlier`. */
  predicate Close(earlier: seq<int>, times: seq<int>)
  {
    forall t, u :: t in earlier && u in times ==> u - t < Window
  }

  /** Admitting the first of `times` moves it to the recorded arrivals and
      keeps the rest close. */
  lemma CloseShift(before: seq<int>, times: seq<int>)
    requires times != [] && Close(before + times, times)
    ensures forall t :: t in before ==> times[0] - t < Window
    ensures Close((before + [times[0]]) + times[1..], times[1..])
  {
    assert (before + [times[0]]) + times[1..] == before + times;
    forall t | t in before
      ensures times[0] - t < Window
    {
      assert t in before + times && times[0] in times;
    }
    forall t, u | t in before + times && u in times[1..]
      ensures u - t < Window
    {
      assert u in times;
    }
  }

  /** A request finding room and no arrival out of the window is admitted
      and recorded after the others. */
  lemma CheckedAdmits(windows: map<string, seq<int>>, ip: string, now: int)
    requires |Arrivals(windows, ip)| < MaxRequests
    requires forall t :: t in Arrivals(windows, ip) ==> now - t < Window
    ensures Checked(windows, ip, now) == Check(true, windows[ip := Arrivals(windows, ip) + [now]])
  {
    PrunedKeepsRecent(Arrivals(windows, ip), now);
  }

  /** While no arrival has left the window and the limit is not reached,
      every request is admitted and recorded. */
  lemma {:induction false} RanFillsUp(windows: map<string, seq<int>>, ip: string, times: seq<int>)
    requires |Arrivals(windows, ip)| + |times| <= MaxRequests
    requires Close(Arrivals(windows, ip) + times, times)
    ensures forall i :: 0 <= i < |times| ==> Ran(windows, ip, times).admitted[i]
    ensures Arrivals(Ran(windows, ip, times).windows, ip) == Arrivals(windows, ip) + times
    decreases |times|
  {
    if times != [] {
      var before := Arrivals(windows, ip);
      CloseShift(before, times);
      CheckedAdmits(windows, ip, times[0]);
      var after := windows[ip := before + [times[0]]];
      assert Arrivals(after, ip) == before + [times[0]];
      RanFillsUp(after, ip, times[1..]);
      var rest := Ran(after, ip, times[1..]);
      var r := Ran(windows, ip, times);
      assert r == Run([true] + rest.admitted, rest.windows);
      forall i | 0 <= i < |times|
        ensures r.admitted[i]
      {
        if i > 0 {
          assert r.admitted[i] == rest.admitted[i - 1];
        }
      }
      assert before + [times[0]] + times[1..] == before + times;
    }
  }

  /** From an address with no recent history, thirty requests and a
      thirty-first all arriving within one window: the thirty are admitted
      and the thirty-first is refused. */
  lemma ThirtyFirstRefused(windows: map<string, seq<int>>, ip: string, times: seq<int>, now: int)
    requires Arrivals(windows, ip) == []
    requires |times| == MaxRequests
    requires forall i :: 0 <= i < |times| ==> times[0] <= times[i] <= now
    requires now - times[0] < Window
    ensures forall i :: 0 <= i < MaxRequests ==> Ran(windows, ip, times).admitted[i]
    ensures !Checked(Ran(windows, ip, times).windows, ip, now).admitted
  {
    assert [] + times == times;
    forall t, u | t in times && u in times
      ensures u - t < Window
    {
      var i :| 0 <= i < |times| && times[i] == t;
      var j :| 0 <= j < |times| && times[j] == u;
    }
    RanFillsUp(windows, ip, times);
    forall t | t in times
      ensures now - t < Window
    {
      var i :| 0 <= i < |times| && times[i] == t;
    }
    PrunedKeepsRecent(times, now);
  }

  /** The process-wide `_rate_limit` table. */
  class RateLimiter {
    var windows: map<string, seq<int>>

    predicate Valid()
      reads this
    {
      Bounded(windows)
    }

    constructor ()
      ensures windows == map[] && Valid()
    {
      windows := map[];
    }

    /** The rate check at the head of `receive_anp_message`. */
    method Admit(ip: string, now: int) returns (admitted: bool)
      modifies this
      ensures Check(admitted, windows) == Checked(old(windows), ip, now)
      ensures old(Valid()) ==> Valid()
    {
      var kept := Pruned(Arrivals(windows, ip), now);
      windows := windows[ip := kept];
      if |kept| >= MaxRequests {
        return false;
      }
      windows := windows[ip := kept + [now]];
      admitted := true;
    }
  }

  /** HTTP status codes of `receive_anp_message`. */
  const TooManyRequests := 429
  const BadRequest := 400
  const Unauthorized := 401
  const ServerError := 500
  const Received := 200

  /** `receive_anp_message`, up to the hand-over to the node. The body is
      `None` when it is not JSON; `receive` is the transport's verdict on a
      body: `None` when it raises, else whether the signature is valid. The
      rate check comes first, so a refused request is refused whatever its
      body, and an admitted one is recorded whatever happens next. */
  method ReceiveAnpMessage(limiter: RateLimiter, ip: string, now: int, body: Option<Value>,
                           receive: Value -> Option<bool>, devSkipSig: bool)
    returns (status: int)
    modifies limiter
    ensures var c := Checked(old(limiter.windows), ip, now);
      && limiter.windows == c.windows
      && (status == TooManyRequests <==> !c.admitted)
      && (status == BadRequest <==> c.admitted && body.None?)
      && (status == ServerError <==> c.admitted && body.Some? && receive(body.value).None?)
      && (status == Unauthorized <==> c.admitted && body.Some? && receive(body.value) == Some(false) && !devSkipSig)
      && (status == Received <==>
            c.admitted && body.Some? && receive(body.value).Some? && (receive(body.value).value || devSkipSig))
    ensures old(limiter.Valid()) ==> limiter.Valid()
  {
    var admitted := limiter.Admit(ip, now);
    if !admitted {
      return TooManyRequests;
    }
    if body.None? {
      return BadRequest;
    }
    var verdict := receive(body.value);
    if verdict.None? {
      return ServerError;
    }
    if !verdict.value && !devSkipSig {
      return Unauthorized;
    }
    status := Received;
  }
}
