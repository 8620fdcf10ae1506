/** breaker: a keyed circuit breaker with jittered exponential cooldowns. */
module BreakerSpec {
  import opened Wrappers
  import opened Backoff

  type Key = string

  datatype Circuit = Circuit(failures: nat, retryAt: Time)

  type Circuits = map<Key, Circuit>

  datatype Tuning = Tuning(threshold: int, baseDelay: Duration, maxDelay: Duration) {
    /** The backoff before jitter: min(base * 2^(n-1), max), unless both delays are negative. */
    function Delay(failures: int): Duration {
      if baseDelay < 0 && maxDelay <= baseDelay then maxDelay else Curve(baseDelay, maxDelay, failures)
    }

    predicate Positive() {
      baseDelay > 0 && maxDelay > 0
    }
  }

  /** `draw` is a value rand.N(d) may return; a non-positive duration is not drawn for. */
  predicate Drawn(d: Duration, draw: Duration) {
    d > 0 ==> 0 <= draw < d
  }

  /** jitter.Add. */
  function Jittered(d: Duration, draw: Duration): (r: Duration)
    requires Drawn(d, draw)
    ensures d > 0 ==> d <= r < 2 * d && r - d == draw
    ensures d <= 0 ==> r == d
  {
    if d <= 0 then d else d + draw
  }

  /** A key the map does not hold reads as Go's zero circuit. */
  function Of(c: Circuits, key: Key): Circuit {
    if key in c then c[key] else Circuit(0, 0)
  }

  // ---------------------------------------------------------------- runs

  /** The calls a breaker sees, with the clock and the draw each one meets. */
  datatype Event =
    | AllowCall(key: Key, now: Time, draw: Duration)
    | Success(key: Key)
    | Failure(key: Key, now: Time, draw: Duration)

  predicate Open(t: Tuning, c: Circuits, key: Key) {
    Of(c, key).failures >= t.threshold
  }

  predicate Granted(t: Tuning, c: Circuits, key: Key, now: Time) {
    !Open(t, c, key) || now >= Of(c, key).retryAt
  }

  /** The draws of an event are ones its backoff could meet. */
  predicate Possible(t: Tuning, c: Circuits, e: Event) {
    match e
    case AllowCall(key, _, draw) => Drawn(t.Delay(Of(c, key).failures), draw)
    case Success(_) => true
    case Failure(key, _, draw) => Drawn(t.Delay(Of(c, key).failures + 1), draw)
  }

  function Apply(t: Tuning, c: Circuits, e: Event): Circuits
    requires Possible(t, c, e)
  {
    match e
    case AllowCall(key, now, draw) =>
      var was := Of(c, key);
      if Open(t, c, key) && now >= was.retryAt
      then c[key := was.(retryAt := now + Jittered(t.Delay(was.failures), draw))]
      else c
    case Success(key) => c - {key}
    case Failure(key, now, draw) =>
      var n := Of(c, key).failures + 1;
      c[key := Circuit(n, now + Jittered(t.Delay(n), draw))]
  }

  ghost predicate Legal(t: Tuning, c: Circuits, run: seq<Event>)
    decreases |run|
  {
    run == [] || (Possible(t, c, run[0]) && Legal(t, Apply(t, c, run[0]), run[1..]))
  }

  ghost function After(t: Tuning, c: Circuits, run: seq<Event>): Circuits
    requires Legal(t, c, run)
    decreases |run|
  {
    if run == [] then c else After(t, Apply(t, c, run[0]), run[1..])
  }

  /** No event is earlier than `since`, nor than one before it. */
  ghost predicate Monotone(run: seq<Event>, since: Time)
    decreases |run|
  {
    run == [] ||
    if run[0].Success? then Monotone(run[1..], since)
    else run[0].now >= since && Monotone(run[1..], run[0].now)
  }

  lemma {:induction false} MonotoneIsLower(run: seq<Event>, since: Time, earlier: Time)
    requires Monotone(run, since) && earlier <= since
    ensures Monotone(run, earlier)
    decreases |run|
  {
    if run != [] && run[0].Success? {
      MonotoneIsLower(run[1..], since, earlier);
    }
  }

  // ---------------------------------------------------------------- probes are spaced

  /** While its circuit stays open, a key's failures do not fall and no probe is due before `wait` is over. */
  lemma {:induction false} StaysCool(t: Tuning, c: Circuits, run: seq<Event>, key: Key, since: Time, wait: Duration)
    requires t.Positive() && Legal(t, c, run) && Monotone(run, since)
    requires forall e :: e in run ==> e != Success(key)
    requires Open(t, c, key) && wait <= t.Delay(Of(c, key).failures) && Of(c, key).retryAt >= since + wait
    ensures Open(t, After(t, c, run), key) && Of(After(t, c, run), key).retryAt >= since + wait
    decreases |run|
  {
    if run != [] {
      var e, c1 := run[0], Apply(t, c, run[0]);
      assert e in run && forall f :: f in run[1..] ==> f in run;
      CurveMonotone(t.baseDelay, t.maxDelay, Of(c, key).failures, Of(c1, key).failures);
      if !e.Success? {
        MonotoneIsLower(run[1..], e.now, since);
      }
      StaysCool(t, c1, run[1..], key, since, wait);
    }
  }

  /**
   * Probe spacing: after a probe granted to an open circuit with n failures, no second one is granted before
   * min(base * 2^(n-1), max) has passed, unless a success closes the circuit in between. With a threshold of at
   * least one, that is never less than min(base * 2^(threshold-1), max).
   */
  lemma ProbeSpacing(t: Tuning, c: Circuits, key: Key, now: Time, draw: Duration, between: seq<Event>, later: Time)
    requires t.Positive()
    requires Open(t, c, key) && Granted(t, c, key, now) && Legal(t, c, [AllowCall(key, now, draw)] + between)
    requires Monotone(between + [AllowCall(key, later, 0)], now)
    requires forall e :: e in between ==> e != Success(key)
    ensures var run := [AllowCall(key, now, draw)] + between;
            && Open(t, After(t, c, run), key)
            && (Granted(t, After(t, c, run), key, later) ==> later - now >= t.Delay(Of(c, key).failures))
    ensures t.threshold >= 1 ==>
              t.Delay(Of(c, key).failures) >= Min(t.baseDelay * Pow2(t.threshold - 1), t.maxDelay)
  {
    var probe := AllowCall(key, now, draw);
    var run := [probe] + between;
    assert run[0] == probe && run[1..] == between;
    var c1 := Apply(t, c, probe);
    var n := Of(c, key).failures;
    CurveMonotone(t.baseDelay, t.maxDelay, n, n);
    CurveMonotone(t.baseDelay, t.maxDelay, t.threshold, n);
    MonotonePrefix(between, AllowCall(key, later, 0), now);
    StaysCool(t, c1, between, key, now, t.Delay(n));
  }

  lemma {:induction false} MonotonePrefix(run: seq<Event>, last: Event, since: Time)
    requires Monotone(run + [last], since)
    ensures Monotone(run, since)
    decreases |run|
  {
    if run != [] {
      assert (run + [last])[0] == run[0] && (run + [last])[1..] == run[1..] + [last];
      MonotonePrefix(run[1..], last, if run[0].Success? then since else run[0].now);
    }
  }

  // ---------------------------------------------------------------- failures and cooldowns

  /** Failures of `key` since its last success, on top of `n` before the run. */
  function Consecutive(run: seq<Event>, key: Key, n: nat): nat
    decreases |run|
  {
    if run == [] then n
    else
      Consecutive(run[1..], key,
                  if run[0] == Success(key) then 0 else if run[0].Failure? && run[0].key == key then n + 1 else n)
  }

  /** The counter is the number of consecutive failures, so exactly the threshold-th opens the circuit. */
  lemma {:induction false} FailuresAreConsecutive(t: Tuning, c: Circuits, run: seq<Event>, key: Key)
    requires Legal(t, c, run)
    ensures Of(After(t, c, run), key).failures == Consecutive(run, key, Of(c, key).failures)
    ensures Open(t, After(t, c, run), key) <==> Consecutive(run, key, Of(c, key).failures) >= t.threshold
    decreases |run|
  {
    if run != [] {
      FailuresAreConsecutive(t, Apply(t, c, run[0]), run[1..], key);
    }
  }

  /** No circuit waits for twice its delay or longer. */
  ghost predicate Bounded(t: Tuning, c: Circuits, now: Time) {
    forall key :: key in c ==> c[key].retryAt < now + 2 * t.Delay(c[key].failures)
  }

  /** A refused caller is told to wait less than twice min(base * 2^(n-1), max), in every reachable state. */
  lemma {:induction false} RefusalsAreBounded(t: Tuning, c: Circuits, run: seq<Event>, since: Time, key: Key, now: Time)
    requires t.Positive() && t.threshold >= 1 && Legal(t, c, run) && Bounded(t, c, since)
    requires Monotone(run + [AllowCall(key, now, 0)], since)
    ensures var c' := After(t, c, run);
            !Granted(t, c', key, now) ==>
              0 < Of(c', key).retryAt - now < 2 * t.Delay(Of(c', key).failures) <= 2 * t.maxDelay
    decreases |run|
  {
    if run == [] {
      var n := Of(c, key).failures;
      CurveMonotone(t.baseDelay, t.maxDelay, n, n);
    } else {
      var e := run[0];
      var since' := if e.Success? then since else e.now;
      var c1 := Apply(t, c, e);
      CurveMonotone(t.baseDelay, t.maxDelay, Of(c1, e.key).failures, Of(c1, e.key).failures);
      assert (run + [AllowCall(key, now, 0)])[1..] == run[1..] + [AllowCall(key, now, 0)];
      assert Bounded(t, c1, since');
      RefusalsAreBounded(t, c1, run[1..], since', key, now);
    }
  }
}

module Breaker {
  import opened Wrappers
  import opened Backoff
  import opened BreakerSpec

  const DEFAULT_FAILURE_THRESHOLD := 5
  const DEFAULT_BASE_DELAY: Duration := 30 * SECOND
  const DEFAULT_MAX_DELAY: Duration := HOUR

  /** Where the doubling stops, the cap or the last step has been reached. */
  lemma CurveReached(t: Tuning, i: int, failures: int)
    requires 1 <= i && (i <= failures || i == 1)
    requires i >= failures || t.baseDelay * Pow2(i - 1) >= t.maxDelay
    requires t.baseDelay < 0 && t.maxDelay <= t.baseDelay ==> i == 1
    ensures Min(t.baseDelay * Pow2(i - 1), t.maxDelay) == t.Delay(failures)
  {
    if i < failures {
      Pow2Monotone(i - 1, failures - 1);
      if t.baseDelay >= 0 {
        MulMonotone(t.baseDelay, Pow2(i - 1), Pow2(failures - 1));
      } else {
        MulMonotone(-t.baseDelay, 1, Pow2(i - 1));
        assert t.baseDelay * Pow2(i - 1) == -(-t.baseDelay * Pow2(i - 1)) <= t.baseDelay;
      }
    }
  }

  class Breaker {
    const tuning: Tuning
    var circuits: Circuits

    constructor (threshold: int := DEFAULT_FAILURE_THRESHOLD, baseDelay: Duration := DEFAULT_BASE_DELAY,
                 maxDelay: Duration := DEFAULT_MAX_DELAY)
      ensures circuits == map[] && tuning == Tuning(threshold, baseDelay, maxDelay)
    {
      tuning := Tuning(threshold, baseDelay, maxDelay);
      circuits := map[];
    }

    method Allow(key: Key, now: Time, draw: Duration) returns (ok: bool, cooldown: Duration)
      requires Possible(tuning, circuits, AllowCall(key, now, draw))
      modifies this
      ensures ok == Granted(tuning, old(circuits), key, now)
      ensures cooldown == if ok then 0 else Of(old(circuits), key).retryAt - now
      ensures circuits == Apply(tuning, old(circuits), AllowCall(key, now, draw))
      ensures var c := if key in old(circuits) then old(circuits)[key] else Circuit(0, 0);
              && (ok <==> c.failures < tuning.threshold || now >= c.retryAt)
              && (!ok ==> cooldown == c.retryAt - now > 0) && (ok ==> cooldown == 0)
              && (!ok || c.failures < tuning.threshold ==> circuits == old(circuits))
              && (ok && c.failures >= tuning.threshold ==>
                    && circuits == old(circuits)[key := Circuit(c.failures, circuits[key].retryAt)]
                    && var wait := Curve(tuning.baseDelay, tuning.maxDelay, c.failures);
                    (tuning.Positive() ==> now + wait <= circuits[key].retryAt < now + 2 * wait))
    {
      var c := Of(circuits, key);
      if c.failures < tuning.threshold {
        return true, 0;
      }
      if now < c.retryAt {
        return false, c.retryAt - now;
      }
      if tuning.Positive() {
        CurveMonotone(tuning.baseDelay, tuning.maxDelay, c.failures, c.failures);
      }
      var wait := Backoff(c.failures, draw);
      c := c.(retryAt := now + wait);
      circuits := circuits[key := c];
      return true, 0;
    }

    method RecordSuccess(key: Key)
      modifies this
      ensures circuits == Apply(tuning, old(circuits), Success(key))
      ensures circuits == old(circuits) - {key}
    {
      circuits := circuits - {key};
    }

    method RecordFailure(key: Key, now: Time, draw: Duration) returns (delay: Duration)
      requires Possible(tuning, circuits, Failure(key, now, draw))
      modifies this
      ensures circuits == Apply(tuning, old(circuits), Failure(key, now, draw))
      ensures circuits[key].retryAt == now + delay
      ensures var n := if key in old(circuits) then old(circuits)[key].failures + 1 else 1;
              && circuits == old(circuits)[key := Circuit(n, now + delay)]
              && var wait := Curve(tuning.baseDelay, tuning.maxDelay, n);
              (tuning.Positive() ==> wait <= delay < 2 * wait)
    {
      var c := Of(circuits, key);
      c := c.(failures := c.failures + 1);
      if tuning.Positive() {
        CurveMonotone(tuning.baseDelay, tuning.maxDelay, c.failures, c.failures);
      }
      delay := Backoff(c.failures, draw);
      c := c.(retryAt := now + delay);
      circuits := circuits[key := c];
    }

    /** The doubling loop reaches the closed form. */
    method Backoff(failures: int, draw: Duration) returns (r: Duration)
      requires Drawn(tuning.Delay(failures), draw)
      ensures r == Jittered(tuning.Delay(failures), draw)
    {
      var base, cap := tuning.baseDelay, tuning.maxDelay;
      var d := base;
      var i := 1;
      while i < failures && d < cap
        invariant 1 <= i && (i <= failures || i == 1)
        invariant d == base * Pow2(i - 1)
        invariant base < 0 && cap <= base ==> i == 1
      {
        d := d * 2;
        i := i + 1;
      }
      CurveReached(tuning, i, failures);
      r := Jittered(Min(d, cap), draw);
    }
  }
}
