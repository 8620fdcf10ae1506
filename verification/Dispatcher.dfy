/** workqueue/dispatcher: which keys a pass launches, and what becomes of a key once its callback returns. */
module Dispatcher {
  import opened Wrappers
  import opened Inmem
  import Backoff

  datatype QueueKey = QueueKey(key: Key, priority: int, delaySeconds: int)

  /** What a callback returned. */
  datatype CallbackResult =
    | Success
    | RequeueAfter(delay: Duration, floor: bool)
    | QueueKeys(keys: seq<QueueKey>)
    | NonRetriable
    | Retriable

  /** What becomes of the key. */
  datatype Verdict = Complete | Deadletter | Back(opts: Options) | QueueFirst(keys: seq<QueueKey>)

  /** `delay` is the failure backoff, drawn by RetryDelay. */
  function Judge(o: Owner, r: CallbackResult, maxRetry: int, delay: Duration): Verdict {
    match r
    case Success => Complete
    case RequeueAfter(d, floor) =>
      Back(Options(o.opts.priority, 0, if floor && d > MAXIMUM_REQUEUE_FLOOR then MAXIMUM_REQUEUE_FLOOR else d, 0, floor))
    case QueueKeys(keys) => if keys == [] then Complete else QueueFirst(keys)
    case NonRetriable => if maxRetry > 0 && o.attempts >= maxRetry then Deadletter else Complete
    case Retriable =>
      if maxRetry > 0 && o.attempts >= maxRetry then Deadletter else Back(NO_OPTIONS.(backoffDelay := delay))
  }

  /** The options a QueueKeys entry is queued with. */
  function QueueKeyOptions(k: QueueKey, now: Time): Options {
    NO_OPTIONS.(priority := k.priority, notBefore := if k.delaySeconds > 0 then now + k.delaySeconds * SECOND else 0)
  }

  // ---------------------------------------------------------------- the launch loop

  /** The handles whose keys are not already in progress, in listing order. */
  function Inactive(next: seq<Handle>, active: set<Key>): seq<Handle> {
    if next == [] then []
    else
      var n := |next| - 1;
      Inactive(next[..n], active) + (if next[n].key in active then [] else [next[n]])
  }

  function LaunchLimit(active: nat, concurrency: int, batch: int): nat {
    var b := if batch <= 0 || batch > concurrency then concurrency else batch;
    if active >= concurrency then 0 else Min(b, concurrency - active)
  }

  lemma {:induction false} InactivePrefix(next: seq<Handle>, active: set<Key>, i: nat)
    requires i <= |next|
    ensures |Inactive(next[..i], active)| <= |Inactive(next, active)|
    ensures Inactive(next, active)[..|Inactive(next[..i], active)|] == Inactive(next[..i], active)
    decreases |next|
  {
    if i < |next| {
      var n := |next| - 1;
      InactivePrefix(next[..n], active, i);
      assert next[..n][..i] == next[..i];
    } else {
      assert next[..i] == next;
    }
  }

  /** A pass launches exactly the first min(batch, concurrency - active) keys of the listing that are not active. */
  method Launch(active: set<Key>, next: seq<Handle>, concurrency: int, batchSize: int) returns (launched: seq<Handle>)
    ensures var can := Inactive(next, active);
            launched == can[..Min(LaunchLimit(|active|, concurrency, batchSize), |can|)]
    ensures exists n :: 0 <= n <= |next| && forall h :: h in launched <==> h in next[..n] && h.key !in active
    ensures |active| < concurrency ==> |active| + |launched| <= concurrency
    ensures |active| >= concurrency ==> launched == []
    ensures 1 <= batchSize <= concurrency ==> |launched| <= batchSize
    ensures |active| < concurrency && |active| + |launched| < concurrency
            && (1 <= batchSize <= concurrency ==> |launched| < batchSize)
            ==> forall h :: h in next && h.key !in active ==> h in launched
  {
    var batch := batchSize;
    if batch <= 0 || batch > concurrency {
      batch := concurrency;
    }
    launched := [];
    if |active| >= concurrency {
      assert forall h :: h in launched <==> h in next[..0] && h.key !in active;
      return;
    }
    var limit: nat := Min(batch, concurrency - |active|);
    var idx := 0;
    while idx < |next| && |launched| < limit
      invariant 0 <= idx <= |next| && |launched| <= limit
      invariant launched == Inactive(next[..idx], active)
    {
      assert next[..idx + 1][..idx] == next[..idx];
      if next[idx].key !in active {
        launched := launched + [next[idx]];
      }
      idx := idx + 1;
    }
    LaunchedMeans(next, active, idx, launched, limit);
  }

  /** What the launch loop has done where it stops. */
  lemma LaunchedMeans(next: seq<Handle>, active: set<Key>, idx: nat, launched: seq<Handle>, limit: nat)
    requires idx <= |next| && launched == Inactive(next[..idx], active) && |launched| <= limit
    requires idx == |next| || |launched| == limit
    ensures var can := Inactive(next, active); launched == can[..Min(limit, |can|)]
    ensures forall h :: h in launched <==> h in next[..idx] && h.key !in active
    ensures |launched| < limit ==> forall h :: h in next && h.key !in active ==> h in launched
  {
    hide Inactive;
    InactivePrefix(next, active, idx);
    InactiveMeans(next[..idx], active);
    assert next[..|next|] == next;
  }

  lemma {:induction false} InactiveMeans(next: seq<Handle>, active: set<Key>)
    ensures forall h :: h in Inactive(next, active) <==> h in next && h.key !in active
  {
    if next != [] {
      var n := |next| - 1;
      InactiveMeans(next[..n], active);
      assert next == next[..n] + [next[n]];
    }
  }

  // ---------------------------------------------------------------- the outcome of one key

  /** retryBackoff: the loop is the capped curve. */
  method RetryBackoff(attempts: int) returns (d: Duration)
    ensures d == Backoff.Curve(30 * SECOND, 10 * MINUTE, attempts)
  {
    d := BACKOFF_PERIOD;
    var i := 0;
    ghost var top := if attempts < 1 then 0 else attempts - 1;
    while i < attempts - 1
      invariant 0 <= i <= top
      invariant d == BACKOFF_PERIOD * Backoff.Pow2(i)
    {
      if d >= MAXIMUM_BACKOFF_PERIOD {
        Backoff.Pow2Monotone(i, top);
        Backoff.MulMonotone(BACKOFF_PERIOD, Backoff.Pow2(i), Backoff.Pow2(top));
        break;
      }
      d := d * 2;
      i := i + 1;
    }
    return Min(d, MAXIMUM_BACKOFF_PERIOD);
  }

  /** A positive hook value replaces the curve; otherwise the curve is stretched by less than half. */
  method RetryDelay(attempts: int, hook: Option<Duration>, draw: Duration) returns (d: Duration)
    requires 0 <= draw < Backoff.Curve(BACKOFF_PERIOD, MAXIMUM_BACKOFF_PERIOD, attempts) / 2
    ensures if hook.Some? && hook.value > 0 then d == hook.value
            else var c := Backoff.Curve(BACKOFF_PERIOD, MAXIMUM_BACKOFF_PERIOD, attempts); c <= d < c + c / 2
    ensures hook.None? || hook.value <= 0 ==> d - draw == Backoff.Curve(30 * SECOND, 10 * MINUTE, attempts)
    ensures 0 < d
  {
    Backoff.CurveMonotone(BACKOFF_PERIOD, MAXIMUM_BACKOFF_PERIOD, attempts, attempts);
    d := if hook.Some? then hook.value else 0;
    if d <= 0 {
      d := RetryBackoff(attempts);
      d := d + draw;
    }
  }

  /** The queue after the first `n` listed keys have been queued. */
  function QueuedFirst(q: QueueState, keys: seq<QueueKey>, n: nat, now: Time): QueueState
    requires n <= |keys|
  {
    if n == 0 then q
    else Enqueued(QueuedFirst(q, keys, n - 1, now), keys[n - 1].key, QueueKeyOptions(keys[n - 1], now), now)
  }

  /** One listed key: an entry with its own priority and delay, if there is none yet. */
  lemma QueueKeyMeans(q: QueueState, k: QueueKey, now: Time)
    ensures var q' := Enqueued(q, k.key, QueueKeyOptions(k, now), now);
            var start := if k.delaySeconds > 0 then now + k.delaySeconds * SECOND else 0;
            && q'.wip == q.wip && k.key in q'.backlog
            && (k.key !in q.backlog ==> q'.backlog[k.key] == Item(Options(k.priority, start, 0, 0, false), 0, now))
            && (forall x :: x != k.key ==> (x in q'.backlog <==> x in q.backlog))
            && (forall x :: x != k.key && x in q.backlog ==> q'.backlog[x] == q.backlog[x])
  {
  }

  /** Every listed key is queued, and nothing else is touched. */
  lemma {:induction false} QueuedFirstTouches(q: QueueState, keys: seq<QueueKey>, n: nat, now: Time)
    requires n <= |keys|
    ensures var q' := QueuedFirst(q, keys, n, now);
            && q'.wip == q.wip
            && (forall i :: 0 <= i < n ==> keys[i].key in q'.backlog)
            && (forall k :: (forall i :: 0 <= i < n ==> keys[i].key != k) ==>
                  (k in q'.backlog <==> k in q.backlog) && (k in q.backlog ==> q'.backlog[k] == q.backlog[k]))
  {
    hide Enqueued, QueueKeyOptions;
    if n > 0 {
      QueuedFirstTouches(q, keys, n - 1, now);
      QueueKeyMeans(QueuedFirst(q, keys, n - 1, now), keys[n - 1], now);
    }
  }

  /** A key listed once and not in the backlog before starts with the priority and delay it was listed with. */
  lemma {:induction false} QueuedFirstEntries(q: QueueState, keys: seq<QueueKey>, n: nat, i: nat, now: Time)
    requires i < n <= |keys| && keys[i].key !in q.backlog
    requires forall j :: 0 <= j < n && j != i ==> keys[j].key != keys[i].key
    ensures var q' := QueuedFirst(q, keys, n, now);
            var start := if keys[i].delaySeconds > 0 then now + keys[i].delaySeconds * SECOND else 0;
            keys[i].key in q'.backlog &&
            q'.backlog[keys[i].key] == Item(Options(keys[i].priority, start, 0, 0, false), 0, now)
    decreases n
  {
    hide Enqueued, QueueKeyOptions;
    var mid := QueuedFirst(q, keys, n - 1, now);
    QueueKeyMeans(mid, keys[n - 1], now);
    if i == n - 1 {
      QueuedFirstTouches(q, keys, n - 1, now);
    } else {
      QueuedFirstEntries(q, keys, n - 1, i, now);
    }
  }

  /** The queue after a verdict; `failAt` is the listed key the queue refuses, if any. */
  function Settled(q: QueueState, o: Owner, v: Verdict, failAt: Option<nat>, now: Time): QueueState {
    match v
    case Complete => Released(q, o.key)
    case Deadletter => Released(q, o.key)
    case Back(opts) => Requeued(q, o, opts, now)
    case QueueFirst(keys) =>
      if failAt.Some? && failAt.value < |keys|
      then Requeued(QueuedFirst(q, keys, failAt.value, now), o, NO_OPTIONS, now)
      else Released(QueuedFirst(q, keys, |keys|, now), o.key)
  }

  /** The part of a launched closure that runs once its callback has returned. */
  method Settle(wq: WorkQueue, o: Owner, r: CallbackResult, maxRetry: int, delay: Duration, failAt: Option<nat>, now: Time)
    modifies wq
    ensures wq.State() == Settled(old(wq.State()), o, Judge(o, r, maxRetry, delay), failAt, now)
    ensures o.key !in wq.wip && wq.wip == old(wq.wip) - {o.key}
    ensures var last := maxRetry > 0 && o.attempts >= maxRetry;
            r.Success? || (r.QueueKeys? && r.keys == []) || r.NonRetriable? || (r.Retriable? && last) ==>
              wq.queue == old(wq.queue)
    ensures r.RequeueAfter? && r.delay > 0 && o.key !in old(wq.queue) ==>
              var wait := if r.floor && r.delay > HOUR then HOUR else r.delay;
              wq.queue == old(wq.queue)[o.key := Item(Options(o.opts.priority, now + wait, wait, 0, r.floor), 0, now)]
    ensures r.Retriable? && !(maxRetry > 0 && o.attempts >= maxRetry) && delay > 0 && o.key !in old(wq.queue) ==>
              wq.queue == old(wq.queue)[o.key := Item(Options(o.opts.priority, now + delay, 0, delay, false), o.attempts, now)]
    ensures r.QueueKeys? && failAt.Some? && failAt.value < |r.keys| ==>
              && o.key in wq.queue && (forall i :: 0 <= i < failAt.value ==> r.keys[i].key in wq.queue)
              && (o.key !in old(wq.queue) && (forall i :: 0 <= i < failAt.value ==> r.keys[i].key != o.key) ==>
                    wq.queue[o.key].attempts == o.attempts && wq.queue[o.key].opts.priority == o.opts.priority)
    ensures r.QueueKeys? && failAt.None? ==>
              && (forall i :: 0 <= i < |r.keys| ==> r.keys[i].key in wq.queue)
              && (forall i :: 0 <= i < |r.keys| && r.keys[i].key !in old(wq.queue)
                              && (forall j :: 0 <= j < |r.keys| && j != i ==> r.keys[j].key != r.keys[i].key) ==>
                    var start := if r.keys[i].delaySeconds > 0 then now + r.keys[i].delaySeconds * SECOND else 0;
                    wq.queue[r.keys[i].key] == Item(Options(r.keys[i].priority, start, 0, 0, false), 0, now))
  {
    if r.RequeueAfter? {
      var d := r.delay;
      if r.floor && d > MAXIMUM_REQUEUE_FLOOR {
        d := MAXIMUM_REQUEUE_FLOOR;
      }
      wq.RequeueWithOptions(o, NO_OPTIONS.(priority := o.opts.priority, delay := d, floor := r.floor), now);
      return;
    }
    if r.QueueKeys? && |r.keys| > 0 {
      for i := 0 to |r.keys|
        invariant failAt.Some? ==> i <= failAt.value
        invariant wq.State() == QueuedFirst(old(wq.State()), r.keys, i, now)
      {
        if failAt == Some(i) {
          QueuedFirstTouches(old(wq.State()), r.keys, i, now);
          wq.RequeueWithOptions(o, NO_OPTIONS, now);
          return;
        }
        var opts := NO_OPTIONS.(priority := r.keys[i].priority);
        if r.keys[i].delaySeconds > 0 {
          opts := opts.(notBefore := now + r.keys[i].delaySeconds * SECOND);
        }
        wq.Queue(r.keys[i].key, opts, now);
      }
      ghost var q0 := old(wq.State());
      QueuedFirstTouches(q0, r.keys, |r.keys|, now);
      forall i | 0 <= i < |r.keys| && r.keys[i].key !in q0.backlog
                 && forall j :: 0 <= j < |r.keys| && j != i ==> r.keys[j].key != r.keys[i].key
        ensures QueuedFirst(q0, r.keys, |r.keys|, now).backlog[r.keys[i].key] ==
                Item(Options(r.keys[i].priority,
                             if r.keys[i].delaySeconds > 0 then now + r.keys[i].delaySeconds * SECOND else 0,
                             0, 0, false), 0, now)
      {
        QueuedFirstEntries(q0, r.keys, |r.keys|, i, now);
      }
    } else if r.NonRetriable? || r.Retriable? {
      if maxRetry > 0 && o.attempts >= maxRetry {
        wq.Deadletter(o);
      } else if r.NonRetriable? {
        wq.Complete(o);
      } else {
        wq.RequeueWithOptions(o, NO_OPTIONS.(backoffDelay := delay), now);
      }
      return;
    }
    wq.Complete(o);
  }
}
