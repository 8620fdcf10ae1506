/**
 * Any number of overlapping dispatcher passes over one in-memory queue, as a state machine: every queue call is one
 * atomic step, and a launched closure may run arbitrarily late, from a handle that has gone stale.
 */
module DispatchProtocol {
  import opened Wrappers
  import opened Inmem
  import opened Dispatcher

  datatype Ending = Completed | Deadlettered | BackInQueue

  /** Where a launched closure stands. `done[i]` is how often keys[i] had been started when it was queued. */
  datatype Phase =
    | Launched(h: Handle)
    | Lost
    | Running(o: Owner)
    | Queueing(o: Owner, keys: seq<QueueKey>, done: seq<nat>)
    | Ended(o: Owner, how: Ending, keys: seq<QueueKey>, done: seq<nat>)
  {
    predicate Live() {
      Running? || Queueing?
    }
  }

  /**
   * `q` is the queue. The rest is history: the closures, who owns each in-progress key, the calls that made each
   * backlog entry, the Starts of each key, those since its entry last began at attempt zero, and every key ever put in
   * the backlog with the number of Starts it had had by then.
   */
  datatype State = State(
    maxRetry: int, q: QueueState, workers: map<nat, Phase>, owner: map<Key, nat>,
    calls: map<Key, seq<Options>>, starts: map<Key, nat>, tries: map<Key, nat>, promises: set<(Key, nat)>)

  function Init(maxRetry: int): State {
    State(maxRetry, QueueState(map[], map[]), map[], map[], map[], map[], map[], {})
  }

  function Count(m: map<Key, nat>, k: Key): nat {
    if k in m then m[k] else 0
  }

  datatype Step =
    | Enqueue(key: Key, opts: Options, now: Time)
    | Pass(now: Time, limit: nat, concurrency: int, batch: int, top: seq<Candidate>, first: nat)
    | Begin(w: nat, now: Time)
    | Return(w: nat, result: CallbackResult, delay: Duration, now: Time)
    | QueueOne(w: nat, ok: bool, now: Time)
    | Finish(w: nat)

  function Handles(top: seq<Candidate>): seq<Handle> {
    seq(|top|, i requires 0 <= i < |top| => HandleOf(top[i]))
  }

  /** What a pass launches from its snapshot. */
  function LaunchList(s: State, concurrency: int, batch: int, top: seq<Candidate>): seq<Handle> {
    var can := Inactive(Handles(top), s.q.wip.Keys);
    can[..Min(LaunchLimit(|s.q.wip.Keys|, concurrency, batch), |can|)]
  }

  /** One closure a launched handle, numbered from `first`. */
  function Spawn(ws: map<nat, Phase>, l: seq<Handle>, first: nat): map<nat, Phase> {
    if l == [] then ws else Spawn(ws, l[..|l| - 1], first)[first + |l| - 1 := Launched(l[|l| - 1])]
  }

  lemma {:induction false} SpawnMeans(ws: map<nat, Phase>, l: seq<Handle>, first: nat)
    requires forall w :: w in ws ==> w < first
    ensures forall w :: w in Spawn(ws, l, first) <==> w in ws || first <= w < first + |l|
    ensures forall w :: w in ws ==> Spawn(ws, l, first)[w] == ws[w]
    ensures forall w :: first <= w < first + |l| ==> Spawn(ws, l, first)[w] == Launched(l[w - first])
  {
    if l != [] {
      SpawnMeans(ws, l[..|l| - 1], first);
    }
  }

  ghost predicate Enabled(s: State, t: Step) {
    match t
    case Enqueue(_, _, _) => true
    case Pass(now, limit, _, _, top, first) =>
      TopOf(s.q.backlog, Ready(s.q.backlog, now), limit, top) && forall w :: w in s.workers ==> w < first
    case Begin(w, _) => w in s.workers && s.workers[w].Launched?
    case Return(w, _, delay, _) => w in s.workers && s.workers[w].Running? && delay > 0
    case QueueOne(w, _, _) =>
      w in s.workers && s.workers[w].Queueing? && |s.workers[w].done| < |s.workers[w].keys|
    case Finish(w) =>
      w in s.workers && s.workers[w].Queueing? && |s.workers[w].done| == |s.workers[w].keys|
  }

  /** One key goes into the backlog: a new entry, or a merge into the one that is there. */
  function PutStep(s: State, key: Key, opts: Options, attempts: nat, now: Time): State {
    var merged := key in s.q.backlog && key in s.calls;
    s.(q := Put(s.q, key, opts, attempts, now),
       calls := s.calls[key := if merged then s.calls[key] + [opts] else [opts]],
       tries := if key !in s.q.backlog && attempts == 0 then s.tries[key := 0] else s.tries,
       promises := s.promises + {(key, Count(s.starts, key))})
  }

  /** The closure gives its key up. */
  function EndStep(s: State, w: nat, p: Phase, how: Ending): State
    requires p.Live()
  {
    s.(q := Released(s.q, p.o.key), owner := s.owner - {p.o.key},
       workers := s.workers[w := Ended(p.o, how, if p.Queueing? then p.keys else [], if p.Queueing? then p.done else [])])
  }

  function BackStep(s: State, w: nat, p: Phase, opts: Options, now: Time): State
    requires p.Live()
  {
    var r := RequeueOptions(p.o, opts, now);
    EndStep(PutStep(s, p.o.key, r.0, r.1, now), w, p, BackInQueue)
  }

  ghost function Apply(s: State, t: Step): State
    requires Enabled(s, t)
  {
    match t
    case Enqueue(key, opts, now) => PutStep(s, key, opts, 0, now)
    case Pass(_, _, concurrency, batch, top, first) =>
      var l := LaunchList(s, concurrency, batch, top);
      s.(workers := Spawn(s.workers, l, first))
    case Begin(w, now) =>
      var h := s.workers[w].h;
      if CanStart(s.q, h) then
        s.(q := Started(s.q, h, now), owner := s.owner[h.key := w],
           workers := s.workers[w := Running(StartedBy(h))],
           starts := s.starts[h.key := Count(s.starts, h.key) + 1],
           tries := s.tries[h.key := Count(s.tries, h.key) + 1])
      else s.(workers := s.workers[w := Lost])
    case Return(w, result, delay, now) =>
      var p := s.workers[w];
      (match Judge(p.o, result, s.maxRetry, delay)
       case Complete => EndStep(s, w, p, Completed)
       case Deadletter => EndStep(s, w, p, Deadlettered)
       case Back(opts) => BackStep(s, w, p, opts, now)
       case QueueFirst(keys) => s.(workers := s.workers[w := Queueing(p.o, keys, [])]))
    case QueueOne(w, ok, now) =>
      var p := s.workers[w];
      var k := p.keys[|p.done|];
      if ok then
        var s' := PutStep(s, k.key, QueueKeyOptions(k, now), 0, now);
        s'.(workers := s'.workers[w := Queueing(p.o, p.keys, p.done + [Count(s.starts, k.key)])])
      else BackStep(s, w, p, NO_OPTIONS, now)
    case Finish(w) => EndStep(s, w, s.workers[w], Completed)
  }

  ghost predicate Legal(s: State, run: seq<Step>)
    decreases |run|
  {
    run == [] || (Enabled(s, run[0]) && Legal(Apply(s, run[0]), run[1..]))
  }

  ghost function After(s: State, run: seq<Step>): State
    requires Legal(s, run)
    decreases |run|
  {
    if run == [] then s else After(Apply(s, run[0]), run[1..])
  }

  /** BackStep moves the queue exactly as RequeueWithOptions does. */
  lemma BackStepRequeues(s: State, w: nat, p: Phase, opts: Options, now: Time)
    requires p.Live()
    ensures BackStep(s, w, p, opts, now).q == Requeued(s.q, p.o, opts, now)
  {
  }

  /** A callback result that needs no queueing moves the queue as the dispatcher's own code does. */
  lemma ReturnSettles(s: State, w: nat, result: CallbackResult, delay: Duration, now: Time)
    requires Enabled(s, Return(w, result, delay, now))
    requires !Judge(s.workers[w].o, result, s.maxRetry, delay).QueueFirst?
    ensures Apply(s, Return(w, result, delay, now)).q ==
            Settled(s.q, s.workers[w].o, Judge(s.workers[w].o, result, s.maxRetry, delay), None, now)
  {
  }

  /** The steps of a closure whose callback returned queue keys, when nobody else moves. */
  function QueueingRun(w: nat, n: nat, failAt: Option<nat>, now: Time): seq<Step> {
    if failAt == Some(0) then [QueueOne(w, false, now)]
    else if n == 0 then [Finish(w)]
    else [QueueOne(w, true, now)] +
         QueueingRun(w, n - 1, if failAt.Some? then Some(failAt.value - 1) else None, now)
  }

  lemma {:induction false} QueuedFirstShift(q: QueueState, keys: seq<QueueKey>, n: nat, now: Time)
    requires 0 < n <= |keys|
    ensures QueuedFirst(Enqueued(q, keys[0].key, QueueKeyOptions(keys[0], now), now), keys[1..], n - 1, now)
            == QueuedFirst(q, keys, n, now)
  {
    if n > 1 {
      QueuedFirstShift(q, keys, n - 1, now);
    }
  }

  lemma QueueOneStep(s: State, w: nat, ok: bool, now: Time)
    requires Enabled(s, QueueOne(w, ok, now))
    ensures var p, s' := s.workers[w], Apply(s, QueueOne(w, ok, now));
            var k := p.keys[|p.done|];
            if ok then
              s'.q == Enqueued(s.q, k.key, QueueKeyOptions(k, now), now) && w in s'.workers &&
              s'.workers[w] == Queueing(p.o, p.keys, p.done + [Count(s.starts, k.key)])
            else s'.q == Requeued(s.q, p.o, NO_OPTIONS, now)
  {
  }

  lemma FinishStep(s: State, w: nat)
    requires Enabled(s, Finish(w))
    ensures Apply(s, Finish(w)).q == Released(s.q, s.workers[w].o.key)
  {
  }

  lemma QueueingSteps(s: State, w: nat, now: Time)
    requires w in s.workers && s.workers[w].Queueing? && |s.workers[w].done| <= |s.workers[w].keys|
    ensures |s.workers[w].done| < |s.workers[w].keys| ==>
              Enabled(s, QueueOne(w, true, now)) && Enabled(s, QueueOne(w, false, now))
    ensures |s.workers[w].done| == |s.workers[w].keys| ==> Enabled(s, Finish(w))
  {
  }

  /** Those steps too move the queue as the dispatcher's own loop does. */
  lemma {:induction false} QueueingSettles(s: State, w: nat, rest: seq<QueueKey>, failAt: Option<nat>, now: Time)
    requires w in s.workers && s.workers[w].Queueing? && |s.workers[w].done| <= |s.workers[w].keys|
    requires rest == s.workers[w].keys[|s.workers[w].done|..]
    requires failAt.Some? ==> failAt.value < |rest|
    ensures Legal(s, QueueingRun(w, |rest|, failAt, now))
    ensures After(s, QueueingRun(w, |rest|, failAt, now)).q
            == Settled(s.q, s.workers[w].o, QueueFirst(rest), failAt, now)
    decreases |rest|
  {
    hide Requeued, Enqueued, QueueKeyOptions, Released, Apply, Enabled;
    QueueingSteps(s, w, now);
    var run := QueueingRun(w, |rest|, failAt, now);
    if failAt == Some(0) {
      QueueOneStep(s, w, false, now);
      assert run[1..] == [];
    } else if rest == [] {
      assert run[1..] == [];
      FinishStep(s, w);
    } else {
      var t := QueueOne(w, true, now);
      QueueOneStep(s, w, true, now);
      var s' := Apply(s, t);
      var failAt' := if failAt.Some? then Some(failAt.value - 1) else None;
      assert s'.workers[w].keys[|s'.workers[w].done|..] == rest[1..];
      QueueingSettles(s', w, rest[1..], failAt', now);
      assert run[1..] == QueueingRun(w, |rest| - 1, failAt', now);
      QueuedFirstShift(s.q, rest, if failAt.Some? then failAt.value else |rest|, now);
    }
  }
}
