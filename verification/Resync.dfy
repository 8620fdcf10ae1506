/** reconcilers/resync: one tick's share of the keys that are due once a period. */
module Resync {
  import opened Wrappers

  type Key = string

  /** A Sharder; nothing in it changes after New. */
  datatype Sharder = Sharder(start: Time, tick: Duration, concurrency: int, priority: int)

  datatype NewError = TickNotPositive | TickNotMinutes | NilClient | NilNow | ConcurrencyNotPositive

  /** New; `start` is what the clock answers. */
  function New(tick: Duration, hasClient: bool, hasNow: bool, start: Time, concurrency: int, priority: int):
    (r: Result<Sharder, NewError>)
    ensures r.Ok? ==> Made(r.value) && hasClient && hasNow
    ensures r.Ok? ==>
              && r.value.start == start && r.value.tick == tick
              && r.value.concurrency == concurrency && r.value.priority == priority
    ensures r.Err? ==> tick <= 0 || tick % MINUTE != 0 || !hasClient || !hasNow || concurrency <= 0
  {
    if tick <= 0 then Err(TickNotPositive)
    else if tick % MINUTE != 0 then Err(TickNotMinutes)
    else if !hasClient then Err(NilClient)
    else if !hasNow then Err(NilNow)
    else if concurrency <= 0 then Err(ConcurrencyNotPositive)
    else Ok(Sharder(start, tick, concurrency, priority))
  }

  /** What New guarantees of the sharders it makes. */
  predicate Made(s: Sharder) {
    s.tick > 0 && s.tick % MINUTE == 0 && s.concurrency > 0
  }

  /** time.Time.Truncate: rounds down to a multiple of `d` since the zero time. */
  function Truncate(t: Time, d: Duration): Time {
    if d <= 0 then t else t - t % d
  }

  /** Unix() of an instant, as the bits of a uint64. */
  function Salt(t: Time): nat {
    (t / SECOND - 62_135_596_800) % 0x1_0000_0000_0000_0000
  }

  /** The minute of the period of `key`; `hash` stands for the first eight bytes of SHA-256. */
  function Bucket(hash: (nat, Key) -> nat, salt: nat, key: Key, periodMinutes: nat): nat
    requires periodMinutes > 0
  {
    hash(salt, key) % periodMinutes
  }

  predicate Divides(tick: Duration, period: Duration) {
    tick > 0 && period > 0 && period % tick == 0
  }

  /** Minutes from the start of the period to the start of the tick. */
  function ShardStart(s: Sharder, period: Duration): int {
    (Truncate(s.start, s.tick) - Truncate(s.start, period)) / MINUTE
  }

  lemma PeriodHasMinutes(s: Sharder, period: Duration)
    requires Made(s) && Divides(s.tick, period)
    ensures s.tick / MINUTE > 0 && period / MINUTE == period / s.tick * (s.tick / MINUTE)
    ensures period / s.tick > 0 && period / MINUTE > 0 && period % MINUTE == 0
  {
    var m, n := s.tick / MINUTE, period / s.tick;
    assert s.tick == m * MINUTE && period == n * s.tick;
    assert period == n * (m * MINUTE) == (n * m) * MINUTE;
    assert n > 0 && m > 0;
    MulPositive(n, m);
  }

  lemma MulPositive(a: int, b: int)
    requires a > 0 && b > 0
    ensures a * b > 0
  {
  }

  function KeyMinute(s: Sharder, hash: (nat, Key) -> nat, period: Duration, key: Key): nat
    requires Made(s) && Divides(s.tick, period)
  {
    PeriodHasMinutes(s, period);
    Bucket(hash, Salt(Truncate(s.start, period)), key, period / MINUTE)
  }

  /** The key belongs to this tick. */
  predicate InShard(s: Sharder, hash: (nat, Key) -> nat, period: Duration, key: Key)
    requires Made(s) && Divides(s.tick, period)
  {
    ShardStart(s, period) <= KeyMinute(s, hash, period, key) < ShardStart(s, period) + s.tick / MINUTE
  }

  function Target(s: Sharder, hash: (nat, Key) -> nat, period: Duration, key: Key): Time
    requires Made(s) && Divides(s.tick, period)
  {
    s.start + (KeyMinute(s, hash, period, key) - ShardStart(s, period)) * MINUTE
  }

  datatype Request = Request(key: Key, priority: int, delaySeconds: nat)

  /** max(0, int64(d.Seconds())): late work is due now, early work within the second before its target. */
  function DelaySeconds(d: Duration): (seconds: nat)
    ensures if d < 0 then seconds == 0 else d - SECOND < seconds * SECOND <= d
  {
    if d < 0 then 0 else d / SECOND
  }

  datatype ProcessError = PeriodNotPositive | TickDoesNotDivide | EnqueueFailed(key: Key)

  /**
   * Process; `clock` is the time at the enqueue of each key, and `accepts` whether the workqueue takes it, which may
   * be no because an earlier failure cancelled the rest.
   */
  method Process(s: Sharder, hash: (nat, Key) -> nat, period: Duration, keys: set<Key>, clock: Key -> Time,
                 accepts: Key -> bool) returns (sent: seq<Request>, err: Option<ProcessError>)
    requires Made(s)
    ensures period <= 0 <==> err == Some(PeriodNotPositive)
    ensures period > 0 && period % s.tick != 0 <==> err == Some(TickDoesNotDivide)
    ensures !Divides(s.tick, period) ==> sent == []
    ensures Divides(s.tick, period) ==>
              && (err.None? <==> forall key :: key in keys && InShard(s, hash, period, key) ==> accepts(key))
              && (forall key :: (exists r :: r in sent && r.key == key)
                                <==> key in keys && InShard(s, hash, period, key) && accepts(key))
              && (forall i, j :: 0 <= i < j < |sent| ==> sent[i].key != sent[j].key)
              && (forall r :: r in sent ==>
                    && r.priority == s.priority
                    && r.delaySeconds == DelaySeconds(Target(s, hash, period, r.key) - clock(r.key)))
  {
    sent := [];
    if period <= 0 {
      return [], Some(PeriodNotPositive);
    }
    if period % s.tick != 0 {
      return [], Some(TickDoesNotDivide);
    }
    PeriodHasMinutes(s, period);
    hide Truncate, Salt, Bucket;
    var periodStart, tickStart := Truncate(s.start, period), Truncate(s.start, s.tick);
    var shardStartMin := (tickStart - periodStart) / MINUTE;
    var left := keys;
    err := None;
    while left != {}
      invariant left <= keys
      invariant err.None? <==> forall key :: key in keys - left && InShard(s, hash, period, key) ==> accepts(key)
      invariant err.Some? ==> err.value.EnqueueFailed?
      invariant forall r :: r in sent ==>
                  && r.key in keys - left && InShard(s, hash, period, r.key) && accepts(r.key)
                  && r.priority == s.priority
                  && r.delaySeconds == DelaySeconds(Target(s, hash, period, r.key) - clock(r.key))
      invariant forall key :: key in keys - left && InShard(s, hash, period, key) && accepts(key) ==>
                  exists r :: r in sent && r.key == key
      invariant forall i, j :: 0 <= i < j < |sent| ==> sent[i].key != sent[j].key
      decreases |left|
    {
      var key :| key in left;
      left := left - {key};
      var keyMin := KeyMinute(s, hash, period, key);
      if keyMin < shardStartMin || keyMin >= shardStartMin + s.tick / MINUTE {
        continue;
      }
      var target := s.start + (keyMin - shardStartMin) * MINUTE;
      if accepts(key) {
        var r := Request(key, s.priority, DelaySeconds(target - clock(key)));
        assert forall q :: q in sent + [r] <==> q in sent || q == r;
        sent := sent + [r];
      } else if err.None? {
        err := Some(EnqueueFailed(key));
      }
    }
  }

  // ---------------------------------------------------------------- exactly once

  /** The number, within its period, of the tick window a start falls into. */
  function Window(s: Sharder, period: Duration): int
    requires Made(s)
  {
    (Truncate(s.start, s.tick) - Truncate(s.start, period)) / s.tick
  }

  /** Windows start at whole ticks of the period. */
  lemma WindowStarts(s: Sharder, period: Duration)
    requires Made(s) && Divides(s.tick, period)
    ensures 0 <= Window(s, period) < period / s.tick
    ensures ShardStart(s, period) == Window(s, period) * (s.tick / MINUTE)
    ensures Truncate(s.start, s.tick) == Truncate(s.start, period) + Window(s, period) * s.tick
  {
    hide Truncate;
    var p, t := period, s.tick;
    var n, a, b, m := p / t, s.start / p, s.start / t, t / MINUTE;
    TruncateMeans(s.start, p);
    TruncateMeans(s.start, t);
    TruncateMeans(p, t);
    TruncateMeans(t, MINUTE);
    MulAssociative(a, n, t);
    var w := b - a * n;
    MulDistributes(b, a * n, t);
    QuotientOf(w, t, 0);
    Squeeze(w, n, t, s.start - a * p);
    MulAssociative(w, m, MINUTE);
    QuotientOf(w * m, MINUTE, 0);
  }

  lemma TruncateMeans(t: Time, d: Duration)
    requires d > 0
    ensures Truncate(t, d) == t / d * d <= t < t / d * d + d
    ensures t % d == 0 ==> t == t / d * d
  {
  }

  lemma MulAssociative(a: int, b: int, c: int)
    ensures a * (b * c) == a * b * c
  {
  }

  lemma MulDistributes(a: int, b: int, c: int)
    ensures (a - b) * c == a * c - b * c
  {
  }

  lemma MulLe(a: int, b: int, t: int)
    requires a <= b && t >= 0
    ensures a * t <= b * t
  {
    assert b * t == a * t + (b - a) * t;
  }

  lemma QuotientOf(q: int, d: int, r: int)
    requires d > 0 && 0 <= r < d
    ensures (q * d + r) / d == q
  {
    var n := q * d + r;
    var x := n / d;
    assert x * d <= n < (x + 1) * d;
    if x < q {
      MulLe(x + 1, q, d);
    } else if x > q {
      MulLe(q + 1, x, d);
    }
  }

  lemma Squeeze(w: int, n: int, t: int, x: int)
    requires t > 0 && 0 <= x < n * t && w * t <= x < w * t + t
    ensures 0 <= w < n
  {
    if w < 0 {
      MulLe(w + 1, 0, t);
    } else if w >= n {
      MulLe(n, w, t);
    }
  }

  /** A key is due in the window that holds its minute. */
  lemma InShardIff(s: Sharder, hash: (nat, Key) -> nat, period: Duration, key: Key)
    requires Made(s) && Divides(s.tick, period)
    ensures s.tick / MINUTE > 0
    ensures InShard(s, hash, period, key) <==> KeyMinute(s, hash, period, key) / (s.tick / MINUTE) == Window(s, period)
  {
    PeriodHasMinutes(s, period);
    WindowStarts(s, period);
    var w, m, k := Window(s, period), s.tick / MINUTE, KeyMinute(s, hash, period, key);
    assert k / m * m <= k < k / m * m + m;
    if w * m <= k < w * m + m {
      QuotientOf(w, m, k - w * m);
    }
  }

  /** Firings that share a period, as New made them. */
  ghost predicate OnePeriod(firings: seq<Sharder>, tick: Duration, period: Duration, periodStart: Time) {
    forall i :: 0 <= i < |firings| ==>
      Made(firings[i]) && firings[i].tick == tick && Truncate(firings[i].start, period) == periodStart
  }

  /** Exactly one of the firings falls in the `w`-th window. */
  ghost predicate FiresOnce(firings: seq<Sharder>, period: Duration, w: int)
    requires forall i :: 0 <= i < |firings| ==> Made(firings[i])
  {
    && (exists i :: 0 <= i < |firings| && Window(firings[i], period) == w)
    && (forall i, j :: 0 <= i < j < |firings| && Window(firings[i], period) == w ==> Window(firings[j], period) != w)
  }

  /** Exactly one of the firings enqueues the key. */
  ghost predicate DueOnce(firings: seq<Sharder>, hash: (nat, Key) -> nat, period: Duration, key: Key)
    requires forall i :: 0 <= i < |firings| ==> Made(firings[i]) && Divides(firings[i].tick, period)
  {
    && (exists i :: 0 <= i < |firings| && InShard(firings[i], hash, period, key))
    && (forall i, j :: 0 <= i < j < |firings| && InShard(firings[i], hash, period, key) ==>
          !InShard(firings[j], hash, period, key))
  }

  /** A key is due exactly once if and only if the window that holds its minute sees exactly one firing. */
  lemma DueOnceIffItsWindowFiresOnce(firings: seq<Sharder>, hash: (nat, Key) -> nat, tick: Duration, period: Duration,
                                     periodStart: Time, key: Key)
    requires Divides(tick, period) && tick % MINUTE == 0 && OnePeriod(firings, tick, period, periodStart)
    ensures var w := MinuteOf(hash, period, periodStart, key) / (tick / MINUTE);
            0 <= w < period / tick && (DueOnce(firings, hash, period, key) <==> FiresOnce(firings, period, w))
  {
    hide Truncate, Window, InShard;
    MinuteInPeriod(hash, tick, period, periodStart, key);
    forall i | 0 <= i < |firings|
      ensures InShard(firings[i], hash, period, key) <==>
                Window(firings[i], period) == MinuteOf(hash, period, periodStart, key) / (tick / MINUTE)
    {
      InShardIff(firings[i], hash, period, key);
    }
  }

  /** Across one period with one firing a tick, every key is due in exactly one firing, whatever the hash. */
  lemma ExactlyOncePerPeriod(firings: seq<Sharder>, hash: (nat, Key) -> nat, tick: Duration, period: Duration,
                             periodStart: Time, key: Key)
    requires Divides(tick, period) && tick % MINUTE == 0 && OnePeriod(firings, tick, period, periodStart)
    requires forall w :: 0 <= w < period / tick ==> FiresOnce(firings, period, w)
    ensures DueOnce(firings, hash, period, key)
  {
    hide DueOnce, FiresOnce;
    DueOnceIffItsWindowFiresOnce(firings, hash, tick, period, periodStart, key);
  }

  /** The minute of a key depends on the period's start alone. */
  function MinuteOf(hash: (nat, Key) -> nat, period: Duration, periodStart: Time, key: Key): nat {
    if period / MINUTE <= 0 then 0 else Bucket(hash, Salt(periodStart), key, period / MINUTE)
  }

  lemma MinuteInPeriod(hash: (nat, Key) -> nat, tick: Duration, period: Duration, periodStart: Time, key: Key)
    requires Divides(tick, period) && tick % MINUTE == 0
    ensures tick / MINUTE > 0
    ensures 0 <= MinuteOf(hash, period, periodStart, key) / (tick / MINUTE) < period / tick
  {
    PeriodHasMinutes(Sharder(0, tick, 1, 0), period);
    var m, k := tick / MINUTE, MinuteOf(hash, period, periodStart, key);
    var q := k / m;
    assert q * m <= k < q * m + m;
    Squeeze(q, period / tick, m, k);
  }

  /** The shard of a firing, said of the clock and the hash: what it enqueues, and for when. */
  lemma InShardMeans(s: Sharder, hash: (nat, Key) -> nat, period: Duration, key: Key)
    requires Made(s) && Divides(s.tick, period)
    ensures period / MINUTE > 0
    ensures var periodStart, tickStart := s.start - s.start % period, s.start - s.start % s.tick;
            var salt := (periodStart / 1_000_000_000 - 62_135_596_800) % 0x1_0000_0000_0000_0000;
            var due := periodStart + hash(salt, key) % (period / MINUTE) * MINUTE;
            && (InShard(s, hash, period, key) <==> tickStart <= due < tickStart + s.tick)
            && Target(s, hash, period, key) == due + (s.start - tickStart)
  {
    PeriodHasMinutes(s, period);
    WindowStarts(s, period);
    var periodStart, tickStart := Truncate(s.start, period), Truncate(s.start, s.tick);
    var k, w, m := KeyMinute(s, hash, period, key), Window(s, period), s.tick / MINUTE;
    MulAssociative(w, m, MINUTE);
    TruncateMeans(s.tick, MINUTE);
    assert tickStart == periodStart + w * m * MINUTE == periodStart + ShardStart(s, period) * MINUTE;
    MinutesCompare(ShardStart(s, period), k);
    MinutesCompare(ShardStart(s, period) + m, k);
  }

  lemma MinutesCompare(a: int, b: int)
    ensures a <= b <==> a * MINUTE <= b * MINUTE
  {
  }

  /** A target lies in the tick after the firing's start, at the key's own minute plus the lateness of the firing. */
  lemma TargetInTick(s: Sharder, hash: (nat, Key) -> nat, period: Duration, key: Key)
    requires Made(s) && Divides(s.tick, period) && InShard(s, hash, period, key)
    ensures s.start <= Target(s, hash, period, key) < s.start + s.tick
    ensures Target(s, hash, period, key)
            == Truncate(s.start, period) + KeyMinute(s, hash, period, key) * MINUTE
               + (s.start - Truncate(s.start, s.tick))
  {
    WindowStarts(s, period);
    var w, m := Window(s, period), s.tick / MINUTE;
    assert s.tick == m * MINUTE;
    assert w * s.tick == w * (m * MINUTE) == (w * m) * MINUTE;
  }
}
