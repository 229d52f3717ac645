/**
 * The lookup with rate-limit handling (`ConsultarCnpjComTratamentoAsync`).
 *
 * The remote service is a function from the number of a request (0 for the
 * first) to what that request gets back: a response, or a transport fault
 * thrown by the GET. Decoding a response body is a function too. Console
 * writes and the one-second sleeps are recorded as a trace of events.
 */
module Lookup {
  import opened Wrappers
  import opened CompanyRecord

  const MaxAttempts: nat := 5
  const TooManyRequests: nat := 429
  /** The first second of the countdown; it runs down to 0. */
  const CountdownStart: nat := 60
  const TickMillis: nat := 1000

  /** What one GET yields: a response, or a transport fault with its message. */
  datatype Reply =
    | Response(status: nat, reason: Option<string>, body: string)
    | Fault(message: string)

  /** What decoding a body yields: a record (null for a JSON `null`), or a decode failure. */
  datatype Decoded = Parsed(record: Option<Empresa>) | Malformed(message: string)

  /** The exceptions the lookup ends with. */
  datatype LookupError =
    | HttpError(code: nat, reason: Option<string>)
    | Exhausted
    | Failure(message: string)

  /** The lookup returns a (possibly null) record or throws. */
  datatype Outcome = Found(record: Option<Empresa>) | Thrown(error: LookupError)

  /** What the lookup does besides asking the server. */
  datatype Event =
    | RateLimitWarning(attempt: nat, max: nat)
    | Tick(seconds: nat)
    | Delay(millis: nat)
    | RetryNotice

  /** A finished lookup: its outcome, the number of requests sent, and its trace. */
  datatype Run = Run(outcome: Outcome, attempts: nat, trace: seq<Event>)

  /** `IsSuccessStatusCode`: a 2xx status. */
  predicate IsSuccessStatusCode(status: nat) {
    200 <= status <= 299
  }

  predicate IsRateLimited(reply: Reply) {
    reply.Response? && reply.status == TooManyRequests
  }

  // ---------------------------------------------------------------------------
  // The specification

  /** The first request at or after `from`, among the first `MaxAttempts`, that is not rate limited. */
  function FirstNotRateLimited(server: nat -> Reply, from: nat): (k: nat)
    requires from <= MaxAttempts
    ensures from <= k <= MaxAttempts
    ensures forall i :: from <= i < k ==> IsRateLimited(server(i))
    ensures k < MaxAttempts ==> !IsRateLimited(server(k))
    decreases MaxAttempts - from
  {
    if from == MaxAttempts || !IsRateLimited(server(from)) then from
    else FirstNotRateLimited(server, from + 1)
  }

  /** A countdown writes one tick and sleeps one second for each of 60, 59, ..., 0. */
  const CountdownLength: nat := 2 * (CountdownStart + 1)

  /** Event `k` of a countdown: at even positions the seconds left, at odd ones a sleep. */
  function CountdownEvent(k: nat): Event
    requires k < CountdownLength
  {
    if k % 2 == 0 then Tick(CountdownStart - k / 2) else Delay(TickMillis)
  }

  /** A whole countdown. */
  function Countdown(): (c: seq<Event>)
    ensures |c| == CountdownLength
    ensures forall k :: 0 <= k < CountdownLength ==> c[k] == CountdownEvent(k)
  {
    seq(CountdownLength, k requires 0 <= k < CountdownLength => CountdownEvent(k))
  }

  /** What a rate-limited attempt number `attempt` adds to the trace. */
  function WaitBlock(attempt: nat): seq<Event> {
    [RateLimitWarning(attempt, MaxAttempts)] + Countdown() + [RetryNotice]
  }

  /** The trace of `n` rate-limited attempts in a row. */
  function Waits(n: nat): seq<Event> {
    if n == 0 then [] else Waits(n - 1) + WaitBlock(n)
  }

  /** How the lookup ends on a reply that is not a 429. */
  function Settle(reply: Reply, decode: string -> Decoded): Outcome {
    match reply
    case Fault(message) => Thrown(Failure(message))
    case Response(status, reason, body) =>
      if !IsSuccessStatusCode(status) then Thrown(HttpError(status, reason))
      else match decode(body)
        case Parsed(record) => Found(record)
        case Malformed(message) => Thrown(Failure(message))
  }

  /**
   * The lookup in closed form: k leading 429s are each waited out; then either
   * the budget is spent, or reply k decides the outcome.
   */
  function Expected(server: nat -> Reply, decode: string -> Decoded): (r: Run)
    ensures 1 <= r.attempts <= MaxAttempts
    ensures forall i :: 0 <= i < r.attempts - 1 ==> IsRateLimited(server(i))
  {
    var k := FirstNotRateLimited(server, 0);
    if k == MaxAttempts then Run(Thrown(Exhausted), k, Waits(k))
    else Run(Settle(server(k), decode), k + 1, Waits(k))
  }

  // ---------------------------------------------------------------------------
  // The lookup loop

  /**
   * Up to `MaxAttempts` requests; a 429 is announced, waited out with a
   * countdown from 60 to 0 and retried; any other non-2xx status throws at
   * once; the first 2xx response is decoded and returned.
   */
  method ConsultarCnpjComTratamento(server: nat -> Reply, decode: string -> Decoded)
    returns (outcome: Outcome, attempts: nat, trace: seq<Event>)
    ensures Run(outcome, attempts, trace) == Expected(server, decode)
    ensures 1 <= attempts <= MaxAttempts
  {
    attempts := 0;
    trace := [];
    while attempts < MaxAttempts
      invariant attempts <= MaxAttempts
      invariant forall i :: 0 <= i < attempts ==> IsRateLimited(server(i))
      invariant trace == Waits(attempts)
    {
      attempts := attempts + 1;
      var reply := server(attempts - 1);
      if IsRateLimited(reply) {
        trace := trace + [RateLimitWarning(attempts, MaxAttempts)];
        var ticks := CountDown();
        trace := trace + ticks;
        trace := trace + [RetryNotice];
        assert trace == Waits(attempts);
        continue;
      }
      FirstNotRateLimitedIs(server, attempts - 1);
      match reply {
        case Fault(message) =>
          outcome := Thrown(Failure(message));
        case Response(status, reason, body) =>
          if !IsSuccessStatusCode(status) {
            outcome := Thrown(HttpError(status, reason));
          } else {
            var decoded := decode(body);
            match decoded {
              case Parsed(record) => outcome := Found(record);
              case Malformed(message) => outcome := Thrown(Failure(message));
            }
          }
      }
      assert outcome == Settle(reply, decode);
      return;
    }
    FirstNotRateLimitedIs(server, MaxAttempts);
    outcome := Thrown(Exhausted);
  }

  /** The countdown of a rate-limited attempt: for i = 60 down to 0, show i, then sleep one second. */
  method CountDown() returns (ticks: seq<Event>)
    ensures ticks == Countdown()
  {
    ticks := [];
    var i: int := CountdownStart;
    while i >= 0
      invariant -1 <= i <= CountdownStart
      invariant ticks == Countdown()[..2 * (CountdownStart - i)]
    {
      CountdownStep(CountdownStart - i + 1);
      ticks := ticks + [Tick(i), Delay(TickMillis)];
      i := i - 1;
    }
    assert Countdown()[..CountdownLength] == Countdown();
  }

  // ---------------------------------------------------------------------------
  // Properties of the specification

  /** The count of leading 429s is pinned down by the replies. */
  lemma FirstNotRateLimitedIs(server: nat -> Reply, k: nat)
    requires k <= MaxAttempts
    requires forall i :: 0 <= i < k ==> IsRateLimited(server(i))
    requires k < MaxAttempts ==> !IsRateLimited(server(k))
    ensures FirstNotRateLimited(server, 0) == k
  {
  }

  /** A 2xx reply after k 429s (k < 5) ends the lookup with that body decoded, after k + 1 requests. */
  lemma SucceedsAfterRateLimits(server: nat -> Reply, decode: string -> Decoded, k: nat)
    requires k < MaxAttempts
    requires forall i :: 0 <= i < k ==> IsRateLimited(server(i))
    requires server(k).Response? && IsSuccessStatusCode(server(k).status)
    ensures var r := Expected(server, decode);
      && r.attempts == k + 1
      && r.trace == Waits(k)
      && (decode(server(k).body).Parsed? ==> r.outcome == Found(decode(server(k).body).record))
      && (decode(server(k).body).Malformed? ==> r.outcome == Thrown(Failure(decode(server(k).body).message)))
  {
    FirstNotRateLimitedIs(server, k);
  }

  /**
   * A status that is neither 429 nor 2xx ends the lookup at once with an HTTP
   * error carrying that status and reason: no further request and no wait.
   */
  lemma StopsAtHttpError(server: nat -> Reply, decode: string -> Decoded, k: nat)
    requires k < MaxAttempts
    requires forall i :: 0 <= i < k ==> IsRateLimited(server(i))
    requires server(k).Response? && server(k).status != TooManyRequests
    requires !IsSuccessStatusCode(server(k).status)
    ensures var r := Expected(server, decode);
      && r.outcome == Thrown(HttpError(server(k).status, server(k).reason))
      && r.attempts == k + 1
      && r.trace == Waits(k)
  {
    FirstNotRateLimitedIs(server, k);
  }

  /** A transport fault is not retried either: it ends the lookup with its own message. */
  lemma StopsAtFault(server: nat -> Reply, decode: string -> Decoded, k: nat)
    requires k < MaxAttempts
    requires forall i :: 0 <= i < k ==> IsRateLimited(server(i))
    requires server(k).Fault?
    ensures var r := Expected(server, decode);
      && r.outcome == Thrown(Failure(server(k).message))
      && r.attempts == k + 1
      && r.trace == Waits(k)
  {
    FirstNotRateLimitedIs(server, k);
  }

  /**
   * The lookup gives up with "maximum attempts exceeded" exactly when all five
   * replies are 429; it then has sent five requests and waited five times.
   */
  lemma ExhaustedExactlyWhenAllRateLimited(server: nat -> Reply, decode: string -> Decoded)
    ensures var r := Expected(server, decode);
      && (r.outcome == Thrown(Exhausted) <==> forall i :: 0 <= i < MaxAttempts ==> IsRateLimited(server(i)))
      && (r.outcome == Thrown(Exhausted) ==> r.attempts == MaxAttempts && r.trace == Waits(MaxAttempts))
  {
    var k := FirstNotRateLimited(server, 0);
    if k < MaxAttempts {
      assert !IsRateLimited(server(k));
      match server(k)
      case Fault(_) =>
      case Response(_, _, body) =>
        match decode(body)
        case Parsed(_) =>
        case Malformed(_) =>
    }
  }

  /** A record is returned only from a 2xx reply that follows nothing but 429s, and it is that reply's body decoded. */
  lemma FoundOnlyFromSuccess(server: nat -> Reply, decode: string -> Decoded)
    requires Expected(server, decode).outcome.Found?
    ensures var r := Expected(server, decode);
      var reply := server(r.attempts - 1);
      && reply.Response?
      && IsSuccessStatusCode(reply.status)
      && decode(reply.body) == Parsed(r.outcome.record)
  {
    var k := FirstNotRateLimited(server, 0);
    if k < MaxAttempts {
      match server(k)
      case Fault(_) =>
      case Response(_, _, body) =>
        match decode(body)
        case Parsed(_) =>
        case Malformed(_) =>
    }
  }

  /** An HTTP error reports the status and reason of the reply that ended the lookup, a non-2xx status other than 429. */
  lemma HttpErrorOnlyFromStatus(server: nat -> Reply, decode: string -> Decoded)
    requires Expected(server, decode).outcome.Thrown?
    requires Expected(server, decode).outcome.error.HttpError?
    ensures var r := Expected(server, decode);
      var reply := server(r.attempts - 1);
      && reply.Response?
      && reply.status != TooManyRequests
      && !IsSuccessStatusCode(reply.status)
      && r.outcome.error == HttpError(reply.status, reply.reason)
  {
    var k := FirstNotRateLimited(server, 0);
    if k < MaxAttempts {
      match server(k)
      case Fault(_) =>
      case Response(_, _, body) =>
        match decode(body)
        case Parsed(_) =>
        case Malformed(_) =>
    }
  }

  // ---------------------------------------------------------------------------
  // Properties of the trace

  /** Gathers, in order, what `f` picks out of each event. */
  function Collect<T>(trace: seq<Event>, f: Event -> seq<T>): seq<T> {
    if trace == [] then [] else Collect(trace[..|trace| - 1], f) + f(trace[|trace| - 1])
  }

  lemma {:induction false} CollectAppend<T>(a: seq<Event>, b: seq<Event>, f: Event -> seq<T>)
    ensures Collect(a + b, f) == Collect(a, f) + Collect(b, f)
    decreases |b|
  {
    if b != [] {
      assert (a + b)[..|a + b| - 1] == a + b[..|b| - 1];
      CollectAppend(a, b[..|b| - 1], f);
    } else {
      assert a + b == a;
    }
  }

  function AttemptShown(e: Event): seq<nat> {
    if e.RateLimitWarning? then [e.attempt] else []
  }

  function SecondsShown(e: Event): seq<nat> {
    if e.Tick? then [e.seconds] else []
  }

  /** The attempt numbers shown by the rate-limit warnings of a trace, in order. */
  function WarningAttempts(trace: seq<Event>): seq<nat> {
    Collect(trace, AttemptShown)
  }

  /** The seconds shown by the countdown ticks of a trace, in order. */
  function TickSeconds(trace: seq<Event>): seq<nat> {
    Collect(trace, SecondsShown)
  }

  /** The time slept during a trace, in milliseconds. */
  function TotalDelay(trace: seq<Event>): nat {
    if trace == [] then 0
    else TotalDelay(trace[..|trace| - 1]) + (if trace[|trace| - 1].Delay? then trace[|trace| - 1].millis else 0)
  }

  lemma {:induction false} TotalDelayAppend(a: seq<Event>, b: seq<Event>)
    ensures TotalDelay(a + b) == TotalDelay(a) + TotalDelay(b)
    decreases |b|
  {
    if b != [] {
      assert (a + b)[..|a + b| - 1] == a + b[..|b| - 1];
      TotalDelayAppend(a, b[..|b| - 1]);
    } else {
      assert a + b == a;
    }
  }

  lemma CollectPair<T>(a: Event, b: Event, f: Event -> seq<T>)
    ensures Collect([a], f) == f(a)
    ensures Collect([a, b], f) == f(a) + f(b)
  {
    assert [a][..0] == [] && [a, b][..1] == [a];
  }

  lemma TotalDelayPair(a: Event, b: Event)
    ensures TotalDelay([a]) == (if a.Delay? then a.millis else 0)
    ensures TotalDelay([a, b]) == TotalDelay([a]) + (if b.Delay? then b.millis else 0)
  {
    assert [a][..0] == [] && [a, b][..1] == [a];
  }

  /** The first `j` ticks of a countdown, each with its sleep. */
  lemma CountdownStep(j: nat)
    requires 0 < j <= CountdownStart + 1
    ensures Countdown()[..2 * j] == Countdown()[..2 * (j - 1)] + [Tick(CountdownStart - (j - 1)), Delay(TickMillis)]
  {
    var c := Countdown();
    assert c[2 * j - 2] == Tick(CountdownStart - (j - 1));
    assert c[2 * j - 1] == Delay(TickMillis);
    assert c[..2 * j] == c[..2 * (j - 1)] + [c[2 * j - 2], c[2 * j - 1]];
  }

  lemma {:induction false} CountdownTicksPrefix(j: nat)
    requires j <= CountdownStart + 1
    ensures var shown := TickSeconds(Countdown()[..2 * j]);
      |shown| == j && forall m :: 0 <= m < j ==> shown[m] == CountdownStart - m
  {
    if j > 0 {
      CountdownTicksPrefix(j - 1);
      CountdownStep(j);
      var tick, sleep := Tick(CountdownStart - (j - 1)), Delay(TickMillis);
      CollectAppend(Countdown()[..2 * (j - 1)], [tick, sleep], SecondsShown);
      CollectPair(tick, sleep, SecondsShown);
    }
  }

  lemma {:induction false} CountdownOtherPrefix(j: nat)
    requires j <= CountdownStart + 1
    ensures WarningAttempts(Countdown()[..2 * j]) == []
    ensures TotalDelay(Countdown()[..2 * j]) == j * TickMillis
  {
    if j > 0 {
      CountdownOtherPrefix(j - 1);
      CountdownStep(j);
      var tick, sleep := Tick(CountdownStart - (j - 1)), Delay(TickMillis);
      CollectAppend(Countdown()[..2 * (j - 1)], [tick, sleep], AttemptShown);
      CollectPair(tick, sleep, AttemptShown);
      TotalDelayAppend(Countdown()[..2 * (j - 1)], [tick, sleep]);
      TotalDelayPair(tick, sleep);
    }
  }

  /** A countdown shows 60, 59, ..., 0 and sleeps one second after each: 61 seconds in all. */
  lemma CountdownShape()
    ensures |TickSeconds(Countdown())| == CountdownStart + 1
    ensures forall m :: 0 <= m <= CountdownStart ==> TickSeconds(Countdown())[m] == CountdownStart - m
    ensures WarningAttempts(Countdown()) == []
    ensures TotalDelay(Countdown()) == (CountdownStart + 1) * TickMillis
  {
    CountdownTicksPrefix(CountdownStart + 1);
    CountdownOtherPrefix(CountdownStart + 1);
    assert Countdown()[..2 * (CountdownStart + 1)] == Countdown();
  }

  /** One rate-limited attempt shows its number once, counts down 61 ticks and sleeps 61 seconds. */
  lemma WaitBlockShape(attempt: nat)
    ensures WarningAttempts(WaitBlock(attempt)) == [attempt]
    ensures |TickSeconds(WaitBlock(attempt))| == CountdownStart + 1
    ensures TotalDelay(WaitBlock(attempt)) == (CountdownStart + 1) * TickMillis
  {
    CountdownShape();
    var w, c, e := RateLimitWarning(attempt, MaxAttempts), Countdown(), RetryNotice;
    CollectAppend([w] + c, [e], AttemptShown);
    CollectAppend([w], c, AttemptShown);
    CollectAppend([w] + c, [e], SecondsShown);
    CollectAppend([w], c, SecondsShown);
    CollectPair(w, e, AttemptShown);
    CollectPair(e, w, AttemptShown);
    CollectPair(w, e, SecondsShown);
    CollectPair(e, w, SecondsShown);
    TotalDelayAppend([w] + c, [e]);
    TotalDelayAppend([w], c);
    TotalDelayPair(w, e);
    TotalDelayPair(e, w);
  }

  /** After n rate-limited attempts the warnings have shown the attempt numbers 1, 2, ..., n in order. */
  lemma {:induction false} WaitsShowAttempts(n: nat)
    ensures |WarningAttempts(Waits(n))| == n
    ensures forall i :: 0 <= i < n ==> WarningAttempts(Waits(n))[i] == i + 1
  {
    if n > 0 {
      WaitsShowAttempts(n - 1);
      WaitBlockShape(n);
      CollectAppend(Waits(n - 1), WaitBlock(n), AttemptShown);
    }
  }

  /** After n rate-limited attempts, 61 ticks and 61 seconds of sleep have gone by for each. */
  lemma {:induction false} WaitsTime(n: nat)
    ensures |TickSeconds(Waits(n))| == n * (CountdownStart + 1)
    ensures TotalDelay(Waits(n)) == n * (CountdownStart + 1) * TickMillis
  {
    if n > 0 {
      WaitsTime(n - 1);
      WaitBlockShape(n);
      CollectAppend(Waits(n - 1), WaitBlock(n), SecondsShown);
      TotalDelayAppend(Waits(n - 1), WaitBlock(n));
      var perWait := CountdownStart + 1;
      assert n * perWait == (n - 1) * perWait + perWait;
      assert n * perWait * TickMillis == (n - 1) * perWait * TickMillis + perWait * TickMillis;
    }
  }

  /**
   * When all five replies are 429 the lookup has shown the warnings for
   * attempts 1 to 5, counted down five times and slept 5 * 61 seconds
   * before it gives up.
   */
  lemma ExhaustedAfterFiveWaits(server: nat -> Reply, decode: string -> Decoded)
    requires forall i :: 0 <= i < MaxAttempts ==> IsRateLimited(server(i))
    ensures var r := Expected(server, decode);
      && r.outcome == Thrown(Exhausted)
      && r.attempts == MaxAttempts
      && |WarningAttempts(r.trace)| == MaxAttempts
      && (forall i :: 0 <= i < MaxAttempts ==> WarningAttempts(r.trace)[i] == i + 1)
      && TotalDelay(r.trace) == MaxAttempts * (CountdownStart + 1) * TickMillis
  {
    ExhaustedExactlyWhenAllRateLimited(server, decode);
    WaitsShowAttempts(MaxAttempts);
    WaitsTime(MaxAttempts);
  }
}
