/** What every interleaving of enqueues and overlapping dispatcher passes keeps. */
module DispatchSafety {
  import opened Wrappers
  import opened Inmem
  import opened Dispatcher
  import opened DispatchProtocol

  // ---------------------------------------------------------------- the invariant

  /** The in-progress map is exactly the set of live owners, and every key has one. */
  ghost predicate OwnerInv(s: State) {
    && s.owner.Keys == s.q.wip.Keys
    && (forall k :: k in s.owner ==> s.owner[k] in s.workers && s.workers[s.owner[k]].Live()
                                     && s.workers[s.owner[k]].o.key == k)
    && (forall w :: w in s.workers && s.workers[w].Live() ==>
          s.workers[w].o.key in s.owner && s.owner[s.workers[w].o.key] == w)
  }

  /** Whatever was put in the backlog is there still, or has been started since. */
  ghost predicate PromiseInv(s: State) {
    forall p :: p in s.promises ==>
      p.1 <= Count(s.starts, p.0) && (p.0 in s.q.backlog || p.1 < Count(s.starts, p.0))
  }

  /** Every backlog entry is the merge of the calls that made it. */
  ghost predicate EntryInv(s: State) {
    forall k :: k in s.q.backlog ==>
      k in s.calls && s.calls[k] != [] && s.q.backlog[k].opts == MergeAll(s.calls[k])
  }

  /** `done` records a promise for each key it covers. */
  predicate Covered(s: State, keys: seq<QueueKey>, done: seq<nat>) {
    |done| <= |keys| && forall i :: 0 <= i < |done| ==> (keys[i].key, done[i]) in s.promises
  }

  predicate WorkerOk(s: State, p: Phase) {
    match p
    case Queueing(_, keys, done) => Covered(s, keys, done)
    case Ended(_, how, keys, done) => Covered(s, keys, done) && (how == Completed ==> |done| == |keys|)
    case _ => true
  }

  ghost predicate Inv(s: State) {
    OwnerInv(s) && PromiseInv(s) && EntryInv(s) && forall w :: w in s.workers ==> WorkerOk(s, s.workers[w])
  }

  lemma PutKeeps(s: State, key: Key, opts: Options, attempts: nat, now: Time)
    requires Inv(s)
    ensures Inv(PutStep(s, key, opts, attempts, now))
  {
    var s' := PutStep(s, key, opts, attempts, now);
    if key in s.q.backlog {
      var calls := s.calls[key];
      assert (calls + [opts])[..|calls|] == calls;
    }
    assert EntryInv(s');
    assert s.promises <= s'.promises;
    forall w | w in s'.workers ensures WorkerOk(s', s'.workers[w]) {
      assert WorkerOk(s, s.workers[w]);
    }
  }

  lemma EndKeeps(s: State, w: nat, p: Phase, how: Ending)
    requires Inv(s) && w in s.workers && s.workers[w] == p && p.Live()
    requires how == Completed && p.Queueing? ==> |p.done| == |p.keys|
    ensures Inv(EndStep(s, w, p, how))
  {
    var s' := EndStep(s, w, p, how);
    assert WorkerOk(s, p);
    forall v | v in s'.workers ensures WorkerOk(s', s'.workers[v]) {
      assert v in s.workers && WorkerOk(s, s.workers[v]);
    }
  }

  lemma BackKeeps(s: State, w: nat, p: Phase, opts: Options, now: Time)
    requires Inv(s) && w in s.workers && s.workers[w] == p && p.Live()
    ensures Inv(BackStep(s, w, p, opts, now))
  {
    var r := RequeueOptions(p.o, opts, now);
    PutKeeps(s, p.o.key, r.0, r.1, now);
    EndKeeps(PutStep(s, p.o.key, r.0, r.1, now), w, p, BackInQueue);
  }

  lemma BeginKeeps(s: State, w: nat, now: Time)
    requires Inv(s) && Enabled(s, Begin(w, now))
    ensures Inv(Apply(s, Begin(w, now)))
  {
    hide OwnerInv, PromiseInv, MergeAll;
    BeginKeepsOwners(s, w, now);
    BeginKeepsPromises(s, w, now);
    BeginKeepsEntries(s, w, now);
    BeginKeepsOthers(s, w, now);
  }

  lemma BeginKeepsEntries(s: State, w: nat, now: Time)
    requires EntryInv(s) && Enabled(s, Begin(w, now))
    ensures EntryInv(Apply(s, Begin(w, now)))
  {
    hide MergeAll;
  }

  lemma BeginKeepsOthers(s: State, w: nat, now: Time)
    requires Enabled(s, Begin(w, now)) && forall v :: v in s.workers ==> WorkerOk(s, s.workers[v])
    ensures forall v :: v in Apply(s, Begin(w, now)).workers ==>
              WorkerOk(Apply(s, Begin(w, now)), Apply(s, Begin(w, now)).workers[v])
  {
    var s' := Apply(s, Begin(w, now));
    forall v | v in s'.workers
      ensures WorkerOk(s', s'.workers[v])
    {
      if v != w {
        assert WorkerOk(s, s.workers[v]);
      }
    }
  }

  /** A closure that takes a free key becomes its owner. */
  lemma TakingKeepsOwners(s: State, w: nat, o: Owner, s': State)
    requires OwnerInv(s) && w in s.workers && s.workers[w].Launched? && o.key !in s.q.wip
    requires s'.workers == s.workers[w := Running(o)] && s'.owner == s.owner[o.key := w]
    requires s'.q.wip.Keys == s.q.wip.Keys + {o.key}
    ensures OwnerInv(s')
  {
  }

  lemma BeginKeepsOwners(s: State, w: nat, now: Time)
    requires OwnerInv(s) && Enabled(s, Begin(w, now))
    ensures OwnerInv(Apply(s, Begin(w, now)))
  {
    var h := s.workers[w].h;
    var s' := Apply(s, Begin(w, now));
    if CanStart(s.q, h) {
      hide OwnerInv;
      TakingKeepsOwners(s, w, StartedBy(h), s');
    } else {
      assert s'.q == s.q && s'.owner == s.owner && s'.workers == s.workers[w := Lost];
    }
  }

  lemma BeginKeepsPromises(s: State, w: nat, now: Time)
    requires PromiseInv(s) && Enabled(s, Begin(w, now))
    ensures PromiseInv(Apply(s, Begin(w, now)))
  {
    var h := s.workers[w].h;
    var s' := Apply(s, Begin(w, now));
    forall p | p in s'.promises
      ensures p.1 <= Count(s'.starts, p.0) && (p.0 in s'.q.backlog || p.1 < Count(s'.starts, p.0))
    {
      assert p in s.promises;
    }
  }

  lemma PassKeeps(s: State, t: Step)
    requires Inv(s) && Enabled(s, t) && t.Pass?
    ensures Inv(Apply(s, t))
  {
    var s' := Apply(s, t);
    SpawnMeans(s.workers, LaunchList(s, t.concurrency, t.batch, t.top), t.first);
    forall v | v in s'.workers ensures WorkerOk(s', s'.workers[v]) {
      if v in s.workers {
        assert WorkerOk(s, s.workers[v]);
      }
    }
  }

  /** Moving a live closure on without ending it. */
  lemma AdvanceKeeps(s: State, w: nat, p: Phase)
    requires Inv(s) && w in s.workers && s.workers[w].Live() && p.Queueing? && p.o == s.workers[w].o && WorkerOk(s, p)
    ensures Inv(s.(workers := s.workers[w := p]))
  {
    var s' := s.(workers := s.workers[w := p]);
    forall v | v in s'.workers ensures WorkerOk(s', s'.workers[v]) {
      if v != w {
        assert WorkerOk(s, s.workers[v]);
      }
    }
  }

  lemma StepKeepsInv(s: State, t: Step)
    requires Inv(s) && Enabled(s, t)
    ensures Inv(Apply(s, t))
  {
    match t
    case Enqueue(key, opts, now) => PutKeeps(s, key, opts, 0, now);
    case Pass(_, _, _, _, _, _) => PassKeeps(s, t);
    case Begin(w, now) => BeginKeeps(s, w, now);
    case Return(w, result, delay, now) =>
      var p := s.workers[w];
      match Judge(p.o, result, s.maxRetry, delay) {
        case Complete => EndKeeps(s, w, p, Completed);
        case Deadletter => EndKeeps(s, w, p, Deadlettered);
        case Back(opts) => BackKeeps(s, w, p, opts, now);
        case QueueFirst(keys) => AdvanceKeeps(s, w, Queueing(p.o, keys, []));
      }
    case QueueOne(w, ok, now) =>
      var p := s.workers[w];
      var k := p.keys[|p.done|];
      if ok {
        PutKeeps(s, k.key, QueueKeyOptions(k, now), 0, now);
        assert WorkerOk(s, p);
        AdvanceKeeps(PutStep(s, k.key, QueueKeyOptions(k, now), 0, now), w,
                     Queueing(p.o, p.keys, p.done + [Count(s.starts, k.key)]));
      } else {
        BackKeeps(s, w, p, NO_OPTIONS, now);
      }
    case Finish(w) => EndKeeps(s, w, s.workers[w], Completed);
  }

  lemma {:induction false} RunKeepsInv(s: State, run: seq<Step>)
    requires Inv(s) && Legal(s, run)
    ensures Inv(After(s, run))
    decreases |run|
  {
    if run != [] {
      StepKeepsInv(s, run[0]);
      RunKeepsInv(Apply(s, run[0]), run[1..]);
    }
  }

  // ---------------------------------------------------------------- single owner, nothing lost

  /** No key ever has two live owners, and a key is in progress exactly while somebody owns it. */
  lemma SingleOwner(maxRetry: int, run: seq<Step>)
    requires Legal(Init(maxRetry), run)
    ensures var s := After(Init(maxRetry), run);
            (forall v, w :: v in s.workers && w in s.workers && s.workers[v].Live() && s.workers[w].Live() && v != w
               ==> s.workers[v].o.key != s.workers[w].o.key) &&
            (forall k :: k in s.q.wip <==> exists w :: w in s.workers && s.workers[w].Live() && s.workers[w].o.key == k)
  {
    RunKeepsInv(Init(maxRetry), run);
    var s := After(Init(maxRetry), run);
    forall k
      ensures k in s.q.wip <==> exists w :: w in s.workers && s.workers[w].Live() && s.workers[w].o.key == k
    {
      if k in s.q.wip {
        assert s.workers[s.owner[k]].o.key == k;
      }
    }
  }

  /** The step gives the key of closure `w` up, by Complete, by RequeueWithOptions or by Deadletter. */
  ghost predicate Ends(s: State, t: Step, w: nat)
    requires Enabled(s, t)
  {
    w in s.workers && !s.workers[w].Ended? && w in Apply(s, t).workers && Apply(s, t).workers[w].Ended?
  }

  lemma EndedStays(s: State, t: Step, w: nat)
    requires Inv(s) && Enabled(s, t) && w in s.workers && s.workers[w].Ended?
    ensures w in Apply(s, t).workers && Apply(s, t).workers[w] == s.workers[w]
  {
    hide Inv, LaunchList, Requeued, Enqueued, Started, StartedBy, CanStart, Judge, QueueKeyOptions, RequeueOptions, Put,
      Released, TopOf, Ready, Count, Spawn;
    if t.Pass? {
      SpawnMeans(s.workers, LaunchList(s, t.concurrency, t.batch, t.top), t.first);
    }
  }

  /** A successful Start is ended once: a closure that has ended never changes again, so it never ends a second time. */
  lemma {:induction false} EndsAtMostOnce(s: State, run: seq<Step>, w: nat)
    requires Inv(s) && Legal(s, run) && w in s.workers && s.workers[w].Ended?
    ensures w in After(s, run).workers && After(s, run).workers[w] == s.workers[w]
    ensures forall t :: Enabled(After(s, run), t) ==> !Ends(After(s, run), t, w)
    decreases |run|
  {
    hide Apply, Enabled, Inv;
    if run != [] {
      StepKeepsInv(s, run[0]);
      EndedStays(s, run[0], w);
      EndsAtMostOnce(Apply(s, run[0]), run[1..], w);
    }
  }

  /** The closures that have completed, requeued or dead-lettered key `k`. */
  ghost function EndedOf(s: State, k: Key): set<nat> {
    set w | w in s.workers && s.workers[w].Ended? && s.workers[w].o.key == k
  }

  ghost predicate Balanced(s: State, k: Key) {
    Count(s.starts, k) == |EndedOf(s, k)| + (if k in s.q.wip then 1 else 0)
  }

  /** A step that starts and ends nothing keeps the balance. */
  lemma IdleKeepsBalance(s: State, s': State, k: Key)
    requires Balanced(s, k) && s'.starts == s.starts && s'.q.wip == s.q.wip
    requires forall w :: w in s'.workers && s'.workers[w].Ended? <==> w in s.workers && s.workers[w].Ended?
    requires forall w :: w in s.workers && s.workers[w].Ended? ==> s'.workers[w] == s.workers[w]
    ensures Balanced(s', k)
  {
    assert EndedOf(s', k) == EndedOf(s, k);
  }

  lemma PutKeepsBalance(s: State, key: Key, opts: Options, attempts: nat, now: Time, k: Key)
    requires Balanced(s, k)
    ensures Balanced(PutStep(s, key, opts, attempts, now), k)
  {
    IdleKeepsBalance(s, PutStep(s, key, opts, attempts, now), k);
  }

  /** An ending takes its key out of progress and is counted for it. */
  lemma EndKeepsBalance(s: State, w: nat, p: Phase, how: Ending, k: Key)
    requires OwnerInv(s) && Balanced(s, k) && w in s.workers && s.workers[w] == p && p.Live()
    ensures Balanced(EndStep(s, w, p, how), k)
  {
    var s' := EndStep(s, w, p, how);
    if p.o.key == k {
      assert EndedOf(s', k) == EndedOf(s, k) + {w} && w !in EndedOf(s, k);
    } else {
      assert EndedOf(s', k) == EndedOf(s, k);
    }
  }

  lemma BackKeepsBalance(s: State, w: nat, p: Phase, opts: Options, now: Time, k: Key)
    requires OwnerInv(s) && Balanced(s, k) && w in s.workers && s.workers[w] == p && p.Live()
    ensures Balanced(BackStep(s, w, p, opts, now), k)
  {
    var r := RequeueOptions(p.o, opts, now);
    PutKeepsBalance(s, p.o.key, r.0, r.1, now, k);
    EndKeepsBalance(PutStep(s, p.o.key, r.0, r.1, now), w, p, BackInQueue, k);
  }

  lemma BeginKeepsBalance(s: State, w: nat, now: Time, k: Key)
    requires Balanced(s, k) && Enabled(s, Begin(w, now))
    ensures Balanced(Apply(s, Begin(w, now)), k)
  {
    assert EndedOf(Apply(s, Begin(w, now)), k) == EndedOf(s, k);
  }

  lemma PassKeepsBalance(s: State, t: Step, k: Key)
    requires Balanced(s, k) && Enabled(s, t) && t.Pass?
    ensures Balanced(Apply(s, t), k)
  {
    hide LaunchList, TopOf, Ready;
    SpawnMeans(s.workers, LaunchList(s, t.concurrency, t.batch, t.top), t.first);
    IdleKeepsBalance(s, Apply(s, t), k);
  }

  lemma StepKeepsBalance(s: State, t: Step, k: Key)
    requires OwnerInv(s) && Enabled(s, t) && Balanced(s, k)
    ensures Balanced(Apply(s, t), k)
  {
    hide Balanced, OwnerInv, BackStep, EndStep, PutStep;
    match t
    case Enqueue(key, opts, now) => PutKeepsBalance(s, key, opts, 0, now, k);
    case Pass(_, _, _, _, _, _) => PassKeepsBalance(s, t, k);
    case Begin(w, now) => BeginKeepsBalance(s, w, now, k);
    case Return(w, result, delay, now) =>
      var p := s.workers[w];
      match Judge(p.o, result, s.maxRetry, delay) {
        case Complete => EndKeepsBalance(s, w, p, Completed, k);
        case Deadletter => EndKeepsBalance(s, w, p, Deadlettered, k);
        case Back(opts) => BackKeepsBalance(s, w, p, opts, now, k);
        case QueueFirst(keys) => IdleKeepsBalance(s, Apply(s, t), k);
      }
    case QueueOne(w, ok, now) =>
      var p := s.workers[w];
      var key := p.keys[|p.done|];
      if ok {
        PutKeepsBalance(s, key.key, QueueKeyOptions(key, now), 0, now, k);
        QueueOneIsIdle(s, t);
        IdleKeepsBalance(PutStep(s, key.key, QueueKeyOptions(key, now), 0, now), Apply(s, t), k);
      } else {
        BackKeepsBalance(s, w, p, NO_OPTIONS, now, k);
      }
    case Finish(w) => EndKeepsBalance(s, w, s.workers[w], Completed, k);
  }

  lemma QueueOneIsIdle(s: State, t: Step)
    requires Enabled(s, t) && t.QueueOne? && t.ok
    ensures var p := s.workers[t.w];
            var key := p.keys[|p.done|];
            var mid, s' := PutStep(s, key.key, QueueKeyOptions(key, t.now), 0, t.now), Apply(s, t);
            && s'.starts == mid.starts && s'.q.wip == mid.q.wip && mid.workers == s.workers
            && (forall w :: w in s'.workers && s'.workers[w].Ended? <==> w in mid.workers && mid.workers[w].Ended?)
            && (forall w :: w in mid.workers && mid.workers[w].Ended? ==> s'.workers[w] == mid.workers[w])
  {
  }

  lemma {:induction false} RunKeepsBalance(s: State, run: seq<Step>, k: Key)
    requires Inv(s) && Balanced(s, k) && Legal(s, run)
    ensures Balanced(After(s, run), k)
    decreases |run|
  {
    hide Apply, Enabled, Balanced;
    if run != [] {
      StepKeepsInv(s, run[0]);
      StepKeepsBalance(s, run[0], k);
      RunKeepsBalance(Apply(s, run[0]), run[1..], k);
    }
  }

  /**
   * Conservation: in every reachable state, the successful Starts of a key are its endings, each by Complete,
   * RequeueWithOptions or Deadletter of another closure, and one more exactly while the key is in progress.
   */
  lemma StartsAreEndedOnce(maxRetry: int, run: seq<Step>, k: Key)
    requires Legal(Init(maxRetry), run)
    ensures var s := After(Init(maxRetry), run);
            Count(s.starts, k) == |EndedOf(s, k)| + (if k in s.q.wip then 1 else 0)
  {
    assert EndedOf(Init(maxRetry), k) == {};
    RunKeepsBalance(Init(maxRetry), run, k);
  }

  /** The entry of `k`, unless it has been started, is kept or merged into. */
  ghost predicate EntryKept(s: State, s': State, k: Key) {
    && Count(s.starts, k) <= Count(s'.starts, k)
    && (k in s.q.backlog && Count(s'.starts, k) == Count(s.starts, k) ==>
          k in s'.q.backlog &&
          (s.q.backlog[k].opts.floor ==>
             s'.q.backlog[k].opts.floor && s.q.backlog[k].opts.notBefore <= s'.q.backlog[k].opts.notBefore))
  }

  lemma PutKeepsEntry(s: State, key: Key, opts: Options, attempts: nat, now: Time, k: Key)
    ensures EntryKept(s, PutStep(s, key, opts, attempts, now), k)
  {
  }

  lemma StepOnEntry(s: State, t: Step, k: Key)
    requires Enabled(s, t)
    ensures EntryKept(s, Apply(s, t), k)
  {
    match t
    case Enqueue(key, opts, now) => PutKeepsEntry(s, key, opts, 0, now, k);
    case Return(w, result, delay, now) =>
      var p := s.workers[w];
      var v := Judge(p.o, result, s.maxRetry, delay);
      if v.Back? {
        var r := RequeueOptions(p.o, v.opts, now);
        PutKeepsEntry(s, p.o.key, r.0, r.1, now, k);
      }
    case QueueOne(w, ok, now) =>
      var p := s.workers[w];
      var key := p.keys[|p.done|];
      if ok {
        PutKeepsEntry(s, key.key, QueueKeyOptions(key, now), 0, now, k);
      } else {
        var r := RequeueOptions(p.o, NO_OPTIONS, now);
        PutKeepsEntry(s, p.o.key, r.0, r.1, now, k);
      }
    case _ =>
  }

  /** Only a successful Start counts, one at a time. */
  lemma {:induction false} StartsGrow(s: State, run: seq<Step>, k: Key)
    requires Legal(s, run)
    ensures Count(s.starts, k) <= Count(After(s, run).starts, k)
    decreases |run|
  {
    hide Apply, Enabled;
    if run != [] {
      StepOnEntry(s, run[0], k);
      StartsGrow(Apply(s, run[0]), run[1..], k);
    }
  }

  /**
   * Nothing lost: a key in the backlog stays there until a later Start of that very key. If its entry is floored it
   * stays floored meanwhile, and its time never moves earlier.
   */
  lemma {:induction false} StaysUntilStarted(s: State, run: seq<Step>, k: Key)
    requires Legal(s, run) && k in s.q.backlog
    requires Count(After(s, run).starts, k) == Count(s.starts, k)
    ensures k in After(s, run).q.backlog
    ensures s.q.backlog[k].opts.floor ==>
              After(s, run).q.backlog[k].opts.floor &&
              s.q.backlog[k].opts.notBefore <= After(s, run).q.backlog[k].opts.notBefore
    decreases |run|
  {
    hide Apply, Enabled;
    if run != [] {
      StepOnEntry(s, run[0], k);
      StartsGrow(Apply(s, run[0]), run[1..], k);
      StaysUntilStarted(Apply(s, run[0]), run[1..], k);
    }
  }

  /**
   * A closure that completed its key after a QueueKeys result had put every listed key in the backlog, its own key
   * included; each of them is there still, or was started since.
   */
  lemma CompletedAfterEverythingQueued(maxRetry: int, run: seq<Step>, w: nat, i: nat)
    requires Legal(Init(maxRetry), run)
    requires w in After(Init(maxRetry), run).workers && After(Init(maxRetry), run).workers[w].Ended?
    requires After(Init(maxRetry), run).workers[w].how == Completed
    requires i < |After(Init(maxRetry), run).workers[w].keys|
    ensures var s := After(Init(maxRetry), run);
            var p := s.workers[w];
            i < |p.done| && (p.keys[i].key, p.done[i]) in s.promises &&
            (p.keys[i].key in s.q.backlog || p.done[i] < Count(s.starts, p.keys[i].key))
  {
    RunKeepsInv(Init(maxRetry), run);
    var s := After(Init(maxRetry), run);
    assert WorkerOk(s, s.workers[w]);
    assert (s.workers[w].keys[i].key, s.workers[w].done[i]) in s.promises;
  }

  // ---------------------------------------------------------------- floors

  /** In every reachable state an entry's priority, time and floor are what the calls that made it mean. */
  lemma EntriesAreMerged(maxRetry: int, run: seq<Step>, k: Key)
    requires Legal(Init(maxRetry), run) && k in After(Init(maxRetry), run).q.backlog
    ensures var s := After(Init(maxRetry), run);
            k in s.calls && Merged(s.calls[k], s.q.backlog[k].opts)
  {
    RunKeepsInv(Init(maxRetry), run);
    MergeAllIsMerged(After(Init(maxRetry), run).calls[k]);
  }

  /** No pass before a floor's time lists the key, whatever is enqueued meanwhile. */
  lemma FloorIsNotUndercut(s: State, run: seq<Step>, k: Key, t: Step)
    requires Legal(s, run) && k in s.q.backlog && s.q.backlog[k].opts.floor
    requires Count(After(s, run).starts, k) == Count(s.starts, k)
    requires Enabled(After(s, run), t) && t.Pass? && t.now < s.q.backlog[k].opts.notBefore
    ensures k !in KeysOf(t.top)
  {
    StaysUntilStarted(s, run, k);
  }

  // ---------------------------------------------------------------- a requeued key waits

  /** Right after its callback returned, a key that was not in the backlog is there with this time, floored or not. */
  ghost predicate WaitsUntil(s: State, k: Key, time: Time, floor: bool) {
    k in s.q.backlog && s.q.backlog[k].opts.notBefore == time && (s.q.backlog[k].opts.floor <==> floor)
  }

  /** In a run without a Start of `k`, and, unless its entry is floored, without another call of it, `k` waits its time. */
  lemma WaitingKeyIsNotListed(s: State, k: Key, time: Time, floor: bool, run: seq<Step>, p: Step)
    requires Inv(s) && WaitsUntil(s, k, time, floor) && Legal(s, run)
    requires Count(After(s, run).starts, k) == Count(s.starts, k)
    requires floor || (k in After(s, run).calls && k in s.calls && After(s, run).calls[k] == s.calls[k])
    requires p.Pass? && Enabled(After(s, run), p) && p.now < time
    ensures forall i :: 0 <= i < |p.top| ==> p.top[i].key != k
  {
    hide Apply, Enabled, OwnerInv, PromiseInv, MergeAll;
    RunKeepsInv(s, run);
    StaysUntilStarted(s, run, k);
    ListedIsDue(After(s, run), p);
  }

  lemma ListedIsDue(s: State, p: Step)
    requires p.Pass? && Enabled(s, p)
    ensures forall i :: 0 <= i < |p.top| ==>
              p.top[i].key in s.q.backlog && s.q.backlog[p.top[i].key].opts.notBefore <= p.now
  {
    TopMeans(s.q.backlog, p.now, p.limit, p.top);
  }

  /**
   * RequeueAfter in every reachable state: the key comes back no earlier than asked, a floored delay clamped to an hour.
   * With a floor that holds whatever else is enqueued meanwhile, otherwise until another call of the key.
   */
  lemma RequeueAfterWaits(maxRetry: int, before: seq<Step>, s: State, t: Step, run: seq<Step>, p: Step)
    requires Legal(Init(maxRetry), before) && s == After(Init(maxRetry), before)
    requires Enabled(s, t) && t.Return? && t.result.RequeueAfter? && t.result.delay > 0
    requires s.workers[t.w].o.key !in s.q.backlog
    requires Legal(Apply(s, t), run) && p.Pass? && Enabled(After(Apply(s, t), run), p)
    requires var k, s1, s2 := s.workers[t.w].o.key, Apply(s, t), After(Apply(s, t), run);
             && Count(s2.starts, k) == Count(s1.starts, k)
             && (t.result.floor || (k in s2.calls && k in s1.calls && s2.calls[k] == s1.calls[k]))
    requires p.now < t.now + if t.result.floor && t.result.delay > HOUR then HOUR else t.result.delay
    ensures forall i :: 0 <= i < |p.top| ==> p.top[i].key != s.workers[t.w].o.key
  {
    var k := s.workers[t.w].o.key;
    InitKeepsInv(maxRetry, before);
    hide Apply, Enabled, Inv, WaitsUntil, After, Legal;
    StepKeepsInv(s, t);
    var time := t.now + if t.result.floor && t.result.delay > HOUR then HOUR else t.result.delay;
    RequeueAfterEntry(s, t);
    WaitingKeyIsNotListed(Apply(s, t), k, time, t.result.floor, run, p);
  }

  lemma InitKeepsInv(maxRetry: int, run: seq<Step>)
    requires Legal(Init(maxRetry), run)
    ensures Inv(After(Init(maxRetry), run))
  {
    RunKeepsInv(Init(maxRetry), run);
  }

  lemma RequeueAfterEntry(s: State, t: Step)
    requires Enabled(s, t) && t.Return? && t.result.RequeueAfter? && t.result.delay > 0
    requires s.workers[t.w].o.key !in s.q.backlog
    ensures WaitsUntil(Apply(s, t), s.workers[t.w].o.key,
                       t.now + (if t.result.floor && t.result.delay > HOUR then HOUR else t.result.delay), t.result.floor)
  {
  }

  /** A retriable failure in every reachable state: the key waits its backoff, until another call of it. */
  lemma FailureWaits(maxRetry: int, before: seq<Step>, s: State, t: Step, run: seq<Step>, p: Step)
    requires Legal(Init(maxRetry), before) && s == After(Init(maxRetry), before)
    requires Enabled(s, t) && t.Return? && t.result.Retriable? && s.workers[t.w].o.key !in s.q.backlog
    requires !(s.maxRetry > 0 && s.workers[t.w].o.attempts >= s.maxRetry)
    requires Legal(Apply(s, t), run) && p.Pass? && Enabled(After(Apply(s, t), run), p) && p.now < t.now + t.delay
    requires var k, s1, s2 := s.workers[t.w].o.key, Apply(s, t), After(Apply(s, t), run);
             && Count(s2.starts, k) == Count(s1.starts, k)
             && k in s2.calls && k in s1.calls && s2.calls[k] == s1.calls[k]
    ensures forall i :: 0 <= i < |p.top| ==> p.top[i].key != s.workers[t.w].o.key
  {
    var k := s.workers[t.w].o.key;
    InitKeepsInv(maxRetry, before);
    hide Apply, Enabled, Inv, WaitsUntil, After, Legal;
    StepKeepsInv(s, t);
    FailureEntry(s, t);
    WaitingKeyIsNotListed(Apply(s, t), k, t.now + t.delay, false, run, p);
  }

  lemma FailureEntry(s: State, t: Step)
    requires Enabled(s, t) && t.Return? && t.result.Retriable? && s.workers[t.w].o.key !in s.q.backlog
    requires !(s.maxRetry > 0 && s.workers[t.w].o.attempts >= s.maxRetry)
    ensures WaitsUntil(Apply(s, t), s.workers[t.w].o.key, t.now + t.delay, false)
  {
  }

  // ---------------------------------------------------------------- the dead-letter bound

  /** The side conditions on key `k`: it is not enqueued while in progress, and is started only from up-to-date handles. */
  ghost predicate UpToDate(s: State, t: Step, k: Key)
    requires Enabled(s, t)
  {
    match t
    case Enqueue(key, _, _) => key == k ==> k !in s.q.wip
    case QueueOne(w, ok, _) => ok && s.workers[w].keys[|s.workers[w].done|].key == k ==> k !in s.q.wip
    case Begin(w, _) =>
      s.workers[w].h.key == k && k in s.q.backlog ==> s.workers[w].h.attempts == s.q.backlog[k].attempts
    case _ => true
  }

  ghost predicate UpToDateRun(s: State, run: seq<Step>, k: Key)
    requires Legal(s, run)
    decreases |run|
  {
    run == [] || (UpToDate(s, run[0], k) && UpToDateRun(Apply(s, run[0]), run[1..], k))
  }

  /** Attempts are Starts since the entry began, or was last requeued with a Delay. */
  ghost predicate TryInv(s: State, k: Key) {
    && (k in s.q.backlog ==> k !in s.q.wip && s.q.backlog[k].attempts == Count(s.tries, k))
    && (forall w :: w in s.workers && s.workers[w].Live() && s.workers[w].o.key == k ==>
          s.workers[w].o.attempts == Count(s.tries, k) >= 1)
  }

  /** What TryInv and OwnerInv say of a key that a closure owns. */
  lemma OwnedKey(s: State, w: nat, k: Key)
    requires OwnerInv(s) && TryInv(s, k) && w in s.workers && s.workers[w].Live() && s.workers[w].o.key == k
    ensures s.workers[w].o.attempts == Count(s.tries, k) >= 1
    ensures k in s.owner && k in s.q.wip && k !in s.q.backlog
    ensures forall v :: v in s.workers && v != w && s.workers[v].Live() ==> s.workers[v].o.key != k
  {
  }

  lemma PutKeepsTries(s: State, key: Key, opts: Options, attempts: nat, now: Time, k: Key)
    requires OwnerInv(s) && TryInv(s, k) && (key == k ==> attempts == 0 && k !in s.q.wip)
    ensures TryInv(PutStep(s, key, opts, attempts, now), k)
  {
    var s' := PutStep(s, key, opts, attempts, now);
    if key == k {
      assert forall w :: w in s.workers && s.workers[w].Live() ==> s.workers[w].o.key != k;
    } else {
      assert Count(s'.tries, k) == Count(s.tries, k);
    }
  }

  lemma EndKeepsTries(s: State, w: nat, p: Phase, how: Ending, k: Key)
    requires OwnerInv(s) && TryInv(s, k) && w in s.workers && s.workers[w] == p && p.Live()
    ensures TryInv(EndStep(s, w, p, how), k)
  {
  }

  /** A requeue of another key. */
  lemma OtherBackKeepsTries(s: State, w: nat, p: Phase, opts: Options, now: Time, k: Key)
    requires OwnerInv(s) && TryInv(s, k) && w in s.workers && s.workers[w] == p && p.Live() && p.o.key != k
    ensures TryInv(BackStep(s, w, p, opts, now), k)
  {
    var r := RequeueOptions(p.o, opts, now);
    PutKeepsTries(s, p.o.key, r.0, r.1, now, k);
    EndKeepsTries(PutStep(s, p.o.key, r.0, r.1, now), w, p, BackInQueue, k);
  }

  /** A requeue of the key itself: with a Delay both counts go back to zero, otherwise both stay. */
  lemma OwnBackKeepsTries(s: State, w: nat, p: Phase, opts: Options, now: Time, k: Key)
    requires OwnerInv(s) && TryInv(s, k) && w in s.workers && s.workers[w] == p && p.Live() && p.o.key == k
    ensures var s' := BackStep(s, w, p, opts, now);
            && TryInv(s', k) && s'.workers[w].Ended? && s'.workers[w].how == BackInQueue && k in s'.q.backlog
            && Count(s'.tries, k) == if opts.backoffDelay <= 0 && opts.delay > 0 then 0 else Count(s.tries, k)
  {
    OwnedKey(s, w, k);
    hide OwnerInv, TryInv;
    var r := RequeueOptions(p.o, opts, now);
    var s' := BackStep(s, w, p, opts, now);
    assert s'.q.backlog[k] == Item(r.0, r.1, now) && k !in s'.q.wip;
    assert Count(s'.tries, k) == r.1;
    OwnerlessKey(s', k);
  }

  lemma OwnerlessKey(s: State, k: Key)
    requires k in s.q.backlog && k !in s.q.wip && s.q.backlog[k].attempts == Count(s.tries, k)
    requires forall w :: w in s.workers && s.workers[w].Live() ==> s.workers[w].o.key != k
    ensures TryInv(s, k)
  {
  }

  lemma BackKeepsTries(s: State, w: nat, p: Phase, opts: Options, now: Time, k: Key)
    requires OwnerInv(s) && TryInv(s, k) && w in s.workers && s.workers[w] == p && p.Live()
    ensures TryInv(BackStep(s, w, p, opts, now), k)
  {
    hide OwnerInv, TryInv;
    if p.o.key == k {
      OwnBackKeepsTries(s, w, p, opts, now, k);
    } else {
      OtherBackKeepsTries(s, w, p, opts, now, k);
    }
  }

  /** Steps that leave the queue, the counts and the owners of `k` alone. */
  lemma ElsewhereKeepsTries(s: State, s': State, k: Key)
    requires TryInv(s, k) && s'.q == s.q && s'.tries == s.tries
    requires forall w :: w in s'.workers && s'.workers[w].Live() && s'.workers[w].o.key == k
                         ==> w in s.workers && s.workers[w].Live() && s'.workers[w].o == s.workers[w].o
    ensures TryInv(s', k)
  {
  }

  lemma BeginKeepsTries(s: State, w: nat, now: Time, k: Key)
    requires OwnerInv(s) && TryInv(s, k) && Enabled(s, Begin(w, now)) && UpToDate(s, Begin(w, now), k)
    ensures TryInv(Apply(s, Begin(w, now)), k)
  {
    if CanStart(s.q, s.workers[w].h) {
      StartKeepsTries(s, w, now, k);
    } else {
      hide TryInv;
      ElsewhereKeepsTries(s, Apply(s, Begin(w, now)), k);
    }
  }

  /** A Start counts as a try, and its owner carries the count. */
  lemma StartKeepsTries(s: State, w: nat, now: Time, k: Key)
    requires OwnerInv(s) && TryInv(s, k) && Enabled(s, Begin(w, now)) && CanStart(s.q, s.workers[w].h)
    requires UpToDate(s, Begin(w, now), k)
    ensures TryInv(Apply(s, Begin(w, now)), k)
  {
    hide RequeueOptions, QueueKeyOptions;
    var h := s.workers[w].h;
    var s' := Apply(s, Begin(w, now));
    if h.key == k {
      assert forall v :: v in s.workers && s.workers[v].Live() ==> s.workers[v].o.key != k;
    } else {
      assert forall v :: v in s'.workers && s'.workers[v].Live() && s'.workers[v].o.key == k ==> v != w;
    }
  }

  lemma ReturnKeepsTries(s: State, t: Step, k: Key)
    requires OwnerInv(s) && TryInv(s, k) && Enabled(s, t) && t.Return?
    ensures TryInv(Apply(s, t), k)
  {
    hide OwnerInv, TryInv, EndStep, BackStep;
    var p := s.workers[t.w];
    match Judge(p.o, t.result, s.maxRetry, t.delay)
    case Complete => EndKeepsTries(s, t.w, p, Completed, k);
    case Deadletter => EndKeepsTries(s, t.w, p, Deadlettered, k);
    case Back(opts) => BackKeepsTries(s, t.w, p, opts, t.now, k);
    case QueueFirst(keys) => ElsewhereKeepsTries(s, Apply(s, t), k);
  }

  lemma QueueOneKeepsTries(s: State, t: Step, k: Key)
    requires OwnerInv(s) && TryInv(s, k) && Enabled(s, t) && UpToDate(s, t, k) && t.QueueOne?
    ensures TryInv(Apply(s, t), k)
  {
    hide OwnerInv, TryInv, BackStep;
    var p := s.workers[t.w];
    var key := p.keys[|p.done|];
    if t.ok {
      PutKeepsTries(s, key.key, QueueKeyOptions(key, t.now), 0, t.now, k);
      ElsewhereKeepsTries(PutStep(s, key.key, QueueKeyOptions(key, t.now), 0, t.now), Apply(s, t), k);
    } else {
      BackKeepsTries(s, t.w, p, NO_OPTIONS, t.now, k);
    }
  }

  lemma StepKeepsTries(s: State, t: Step, k: Key)
    requires OwnerInv(s) && TryInv(s, k) && Enabled(s, t) && UpToDate(s, t, k)
    ensures TryInv(Apply(s, t), k)
  {
    hide OwnerInv, TryInv, BackStep, EndStep, PutStep;
    match t
    case Enqueue(key, opts, now) => PutKeepsTries(s, key, opts, 0, now, k);
    case Pass(_, _, concurrency, batch, top, first) =>
      SpawnMeans(s.workers, LaunchList(s, concurrency, batch, top), first);
      ElsewhereKeepsTries(s, Apply(s, t), k);
    case Begin(w, now) => BeginKeepsTries(s, w, now, k);
    case Return(_, _, _, _) => ReturnKeepsTries(s, t, k);
    case QueueOne(_, _, _) => QueueOneKeepsTries(s, t, k);
    case Finish(w) => EndKeepsTries(s, w, s.workers[w], Completed, k);
  }

  lemma {:induction false} RunKeepsTries(s: State, run: seq<Step>, k: Key)
    requires Inv(s) && TryInv(s, k) && Legal(s, run) && UpToDateRun(s, run, k)
    ensures Inv(After(s, run)) && TryInv(After(s, run), k) && After(s, run).maxRetry == s.maxRetry
    decreases |run|
  {
    hide TryInv, Apply, Enabled, UpToDate;
    if run != [] {
      StepKeepsInv(s, run[0]);
      StepKeepsTries(s, run[0], k);
      KeepsMaxRetry(s, run[0]);
      RunKeepsTries(Apply(s, run[0]), run[1..], k);
    }
  }

  /** `s` is reached by a run that keeps the side conditions on `k`, whatever the callbacks return. */
  ghost predicate Reached(maxRetry: int, s: State, k: Key) {
    exists run :: Legal(Init(maxRetry), run) && UpToDateRun(Init(maxRetry), run, k) && s == After(Init(maxRetry), run)
  }

  /**
   * In all those states the attempts of a key, in the backlog or with its owner, are its Starts since its entry began or
   * was last requeued with a Delay.
   */
  lemma AttemptsAreTries(maxRetry: int, s: State, k: Key)
    requires Reached(maxRetry, s, k)
    ensures Inv(s) && TryInv(s, k) && s.maxRetry == maxRetry
    ensures k in s.q.backlog ==> s.q.backlog[k].attempts == Count(s.tries, k)
    ensures forall w :: w in s.workers && s.workers[w].Live() && s.workers[w].o.key == k ==>
              s.workers[w].o.attempts == Count(s.tries, k) >= 1
  {
    var run :| Legal(Init(maxRetry), run) && UpToDateRun(Init(maxRetry), run, k) && s == After(Init(maxRetry), run);
    hide Apply, Enabled, Legal, After, UpToDateRun;
    RunKeepsTries(Init(maxRetry), run, k);
  }

  /** The steps that start the count of `k` afresh: a new entry, or a requeue with a Delay. */
  ghost predicate Resets(s: State, t: Step, k: Key)
    requires Enabled(s, t)
  {
    match t
    case Enqueue(key, _, _) => key == k && k !in s.q.backlog
    case QueueOne(w, ok, _) => ok && s.workers[w].keys[|s.workers[w].done|].key == k && k !in s.q.backlog
    case Return(w, result, _, _) => s.workers[w].o.key == k && result.RequeueAfter? && result.delay > 0
    case _ => false
  }

  /** The step is a successful Start of `k`. */
  ghost predicate StartsKey(s: State, t: Step, k: Key)
    requires Enabled(s, t)
  {
    t.Begin? && s.workers[t.w].h.key == k && CanStart(s.q, s.workers[t.w].h)
  }

  /** What is counted: Starts, and tries from zero at each reset. */
  lemma TriesStep(s: State, t: Step, k: Key)
    requires OwnerInv(s) && TryInv(s, k) && Enabled(s, t)
    ensures Count(Apply(s, t).starts, k) == Count(s.starts, k) + (if StartsKey(s, t, k) then 1 else 0)
    ensures Count(Apply(s, t).tries, k) ==
            if Resets(s, t, k) then 0 else Count(s.tries, k) + (if StartsKey(s, t, k) then 1 else 0)
  {
    hide OwnerInv, TryInv, BackStep, EndStep;
    if t.Return? {
      ReturnCounts(s, t, k);
    } else if t.QueueOne? {
      QueueOneCounts(s, t, k);
    } else if t.Finish? {
      EndCounts(s, t.w, s.workers[t.w], Completed);
    }
  }

  lemma ReturnCounts(s: State, t: Step, k: Key)
    requires OwnerInv(s) && TryInv(s, k) && Enabled(s, t) && t.Return?
    ensures Count(Apply(s, t).starts, k) == Count(s.starts, k)
    ensures Count(Apply(s, t).tries, k) == if Resets(s, t, k) then 0 else Count(s.tries, k)
  {
    hide OwnerInv, TryInv, BackStep, EndStep;
    var p := s.workers[t.w];
    match Judge(p.o, t.result, s.maxRetry, t.delay)
    case Complete => EndCounts(s, t.w, p, Completed);
    case Deadletter => EndCounts(s, t.w, p, Deadlettered);
    case Back(opts) => BackCounts(s, t.w, p, opts, t.now, k);
    case QueueFirst(_) =>
  }

  lemma QueueOneCounts(s: State, t: Step, k: Key)
    requires OwnerInv(s) && TryInv(s, k) && Enabled(s, t) && t.QueueOne?
    ensures Count(Apply(s, t).starts, k) == Count(s.starts, k)
    ensures Count(Apply(s, t).tries, k) == if Resets(s, t, k) then 0 else Count(s.tries, k)
  {
    hide OwnerInv, TryInv, BackStep;
    if !t.ok {
      BackCounts(s, t.w, s.workers[t.w], NO_OPTIONS, t.now, k);
    }
  }

  lemma EndCounts(s: State, w: nat, p: Phase, how: Ending)
    requires p.Live()
    ensures EndStep(s, w, p, how).starts == s.starts && EndStep(s, w, p, how).tries == s.tries
  {
  }

  lemma BackCounts(s: State, w: nat, p: Phase, opts: Options, now: Time, k: Key)
    requires OwnerInv(s) && TryInv(s, k) && w in s.workers && s.workers[w] == p && p.Live()
    ensures var s' := BackStep(s, w, p, opts, now);
            && s'.starts == s.starts
            && Count(s'.tries, k) ==
               if p.o.key == k && opts.backoffDelay <= 0 && opts.delay > 0 then 0 else Count(s.tries, k)
  {
    if p.o.key == k {
      OwnBackKeepsTries(s, w, p, opts, now, k);
    }
  }

  ghost predicate NeverReset(s: State, run: seq<Step>, k: Key)
    requires Legal(s, run)
    decreases |run|
  {
    run == [] || (!Resets(s, run[0], k) && NeverReset(Apply(s, run[0]), run[1..], k))
  }

  lemma {:induction false} TriesAreStarts(s: State, run: seq<Step>, k: Key)
    requires Inv(s) && TryInv(s, k) && Legal(s, run) && UpToDateRun(s, run, k) && NeverReset(s, run, k)
    ensures Count(After(s, run).tries, k) - Count(s.tries, k) == Count(After(s, run).starts, k) - Count(s.starts, k)
    decreases |run|
  {
    hide TryInv, Apply, Enabled, UpToDate, Resets, StartsKey;
    if run != [] {
      StepKeepsInv(s, run[0]);
      StepKeepsTries(s, run[0], k);
      TriesStep(s, run[0], k);
      TriesAreStarts(Apply(s, run[0]), run[1..], k);
    }
  }

  /** The step ends closure `w` in this way. */
  ghost predicate EndsAs(s: State, t: Step, w: nat, how: Ending)
    requires Enabled(s, t)
  {
    var s' := Apply(s, t);
    w in s'.workers && s'.workers[w].Ended? && s'.workers[w].how == how
  }

  /** One failure of a key: dead-lettered iff its tries have reached the limit; otherwise a retriable one goes back. */
  lemma FailureOfKey(s: State, t: Step, k: Key)
    requires OwnerInv(s) && TryInv(s, k) && Enabled(s, t) && t.Return? && s.workers[t.w].o.key == k
    requires t.result.Retriable? || t.result.NonRetriable?
    ensures s.workers[t.w].o.attempts == Count(s.tries, k) >= 1
    ensures var how := if s.maxRetry > 0 && Count(s.tries, k) >= s.maxRetry then Deadlettered
                       else if t.result.Retriable? then BackInQueue else Completed;
            var q := Apply(s, t).q;
            && EndsAs(s, t, t.w, how) && k !in q.wip && Count(Apply(s, t).tries, k) == Count(s.tries, k)
            && (k in q.backlog <==> how == BackInQueue) && (k in q.backlog ==> q.backlog[k].attempts == Count(s.tries, k))
  {
    OwnedKey(s, t.w, k);
    hide OwnerInv, TryInv;
    var p := s.workers[t.w];
    if !(s.maxRetry > 0 && p.o.attempts >= s.maxRetry) && t.result.Retriable? {
      var opts := NO_OPTIONS.(backoffDelay := t.delay);
      assert Apply(s, t) == BackStep(s, t.w, p, opts, t.now);
      BackStepRequeues(s, t.w, p, opts, t.now);
    } else {
      var how := if s.maxRetry > 0 && p.o.attempts >= s.maxRetry then Deadlettered else Completed;
      assert Apply(s, t) == EndStep(s, t.w, p, how);
    }
  }

  /**
   * Exactly when a retriable failure dead-letters its key, in every run that keeps the side conditions, whatever the
   * callbacks returned before: at the maxRetry-th try or later, and never with maxRetry off.
   */
  lemma FailureDeadLettersIff(maxRetry: int, s: State, t: Step, k: Key)
    requires Reached(maxRetry, s, k)
    requires Enabled(s, t) && t.Return? && s.workers[t.w].o.key == k && t.result.Retriable?
    ensures s.workers[t.w].o.attempts == Count(s.tries, k) >= 1
    ensures var last := maxRetry > 0 && Count(s.tries, k) >= maxRetry;
            EndsAs(s, t, t.w, if last then Deadlettered else BackInQueue) && (k in Apply(s, t).q.backlog <==> !last)
  {
    hide Reached, OwnerInv, TryInv, EndsAs, Apply;
    AttemptsAreTries(maxRetry, s, k);
    FailureOfKey(s, t, k);
  }

  /** From here on, every result of the key's callback is a failure that may be retried. */
  ghost predicate FailingRun(s: State, run: seq<Step>, k: Key)
    requires Legal(s, run)
    decreases |run|
  {
    run == [] ||
    ((run[0].Return? && s.workers[run[0].w].o.key == k ==> run[0].result.Retriable?)
     && FailingRun(Apply(s, run[0]), run[1..], k))
  }

  /** A failing key has not run out of tries before it is dead-lettered. */
  ghost predicate WithinLimit(s: State, k: Key) {
    && (k in s.q.backlog ==> Count(s.tries, k) < s.maxRetry)
    && (k in s.q.wip ==> Count(s.tries, k) <= s.maxRetry && k in s.owner && s.owner[k] in s.workers
                         && s.workers[s.owner[k]].Running?)
  }

  /** `k` is nowhere it was not in `s`, and is still run by the same closure. */
  ghost predicate StaysPut(s: State, s': State, k: Key) {
    && (k in s'.q.backlog ==> k in s.q.backlog)
    && (k in s'.q.wip ==> k in s.q.wip && k in s.owner && k in s'.owner && s'.owner[k] == s.owner[k])
    && (k in s.owner && s.owner[k] in s.workers && s.workers[s.owner[k]].Running? ==>
          s.owner[k] in s'.workers && s'.workers[s.owner[k]].Running?)
  }

  lemma PutStaysPut(s: State, key: Key, opts: Options, attempts: nat, now: Time, k: Key)
    requires OwnerInv(s) && (key != k || k in s.q.backlog)
    ensures StaysPut(s, PutStep(s, key, opts, attempts, now), k)
  {
  }

  lemma EndStaysPut(s: State, w: nat, p: Phase, how: Ending, k: Key)
    requires OwnerInv(s) && w in s.workers && s.workers[w] == p && p.Live() && p.o.key != k
    ensures StaysPut(s, EndStep(s, w, p, how), k)
  {
  }

  lemma BackStaysPut(s: State, w: nat, p: Phase, opts: Options, now: Time, k: Key)
    requires OwnerInv(s) && w in s.workers && s.workers[w] == p && p.Live() && p.o.key != k
    ensures StaysPut(s, BackStep(s, w, p, opts, now), k)
  {
    var r := RequeueOptions(p.o, opts, now);
    PutStaysPut(s, p.o.key, r.0, r.1, now, k);
    EndStaysPut(PutStep(s, p.o.key, r.0, r.1, now), w, p, BackInQueue, k);
  }

  /** The owner of a key that no closure is queueing for takes no step but its Return. */
  lemma ReturnStaysPut(s: State, t: Step, k: Key)
    requires OwnerInv(s) && Enabled(s, t) && t.Return? && s.workers[t.w].o.key != k
    ensures StaysPut(s, Apply(s, t), k)
  {
    hide BackStep, EndStep;
    var p := s.workers[t.w];
    match Judge(p.o, t.result, s.maxRetry, t.delay)
    case Complete => EndStaysPut(s, t.w, p, Completed, k);
    case Deadletter => EndStaysPut(s, t.w, p, Deadlettered, k);
    case Back(opts) => BackStaysPut(s, t.w, p, opts, t.now, k);
    case QueueFirst(_) =>
  }

  lemma QueueOneStaysPut(s: State, t: Step, k: Key)
    requires OwnerInv(s) && Enabled(s, t) && t.QueueOne? && !Resets(s, t, k)
    requires s.workers[t.w].o.key != k
    ensures StaysPut(s, Apply(s, t), k)
  {
    hide BackStep;
    var p := s.workers[t.w];
    if t.ok {
      var key := p.keys[|p.done|];
      PutStaysPut(s, key.key, QueueKeyOptions(key, t.now), 0, t.now, k);
    } else {
      BackStaysPut(s, t.w, p, NO_OPTIONS, t.now, k);
    }
  }

  lemma PassStaysPut(s: State, t: Step, k: Key)
    requires OwnerInv(s) && Enabled(s, t) && t.Pass?
    ensures StaysPut(s, Apply(s, t), k)
  {
    hide LaunchList, TopOf, Ready;
    SpawnMeans(s.workers, LaunchList(s, t.concurrency, t.batch, t.top), t.first);
  }

  lemma BeginStaysPut(s: State, t: Step, k: Key)
    requires OwnerInv(s) && Enabled(s, t) && t.Begin? && !StartsKey(s, t, k)
    ensures StaysPut(s, Apply(s, t), k)
  {
  }

  /** A key in progress with its callback still running is not the key of a closure in another phase. */
  lemma RunningIsNotQueueing(s: State, w: nat, k: Key)
    requires OwnerInv(s) && w in s.workers && s.workers[w].Queueing?
    requires k in s.q.wip ==> k in s.owner && s.owner[k] in s.workers && s.workers[s.owner[k]].Running?
    ensures s.workers[w].o.key != k
  {
  }

  /** A step that neither starts nor resets nor returns `k` brings it nowhere new. */
  lemma KeyStaysPut(s: State, t: Step, k: Key)
    requires OwnerInv(s) && Enabled(s, t) && !StartsKey(s, t, k) && !Resets(s, t, k)
    requires t.Return? ==> s.workers[t.w].o.key != k
    requires k in s.q.wip ==> k in s.owner && s.owner[k] in s.workers && s.workers[s.owner[k]].Running?
    ensures StaysPut(s, Apply(s, t), k)
  {
    hide OwnerInv, StaysPut, PutStep, EndStep;
    match t
    case Enqueue(key, opts, now) => PutStaysPut(s, key, opts, 0, now, k);
    case Pass(_, _, _, _, _, _) => PassStaysPut(s, t, k);
    case Begin(_, _) => BeginStaysPut(s, t, k);
    case Return(_, _, _, _) => ReturnStaysPut(s, t, k);
    case QueueOne(w, _, _) =>
      RunningIsNotQueueing(s, w, k);
      QueueOneStaysPut(s, t, k);
    case Finish(w) =>
      RunningIsNotQueueing(s, w, k);
      EndStaysPut(s, w, s.workers[w], Completed, k);
  }

  lemma StepKeepsLimit(s: State, t: Step, k: Key)
    requires Inv(s) && TryInv(s, k) && WithinLimit(s, k) && s.maxRetry > 0
    requires Enabled(s, t) && UpToDate(s, t, k)
    requires t.Return? && s.workers[t.w].o.key == k ==> t.result.Retriable?
    ensures WithinLimit(Apply(s, t), k)
  {
    TriesStep(s, t, k);
    KeepsMaxRetry(s, t);
    if t.Return? && s.workers[t.w].o.key == k {
      hide OwnerInv, TryInv, WithinLimit, Apply;
      FailureOfKey(s, t, k);
      NotOwned(Apply(s, t), k);
    } else if StartsKey(s, t, k) {
      hide TryInv;
      assert k in s.q.backlog;
    } else if Resets(s, t, k) {
      hide TryInv;
    } else {
      KeyStaysPut(s, t, k);
      hide Apply, TryInv;
    }
  }

  lemma KeepsMaxRetry(s: State, t: Step)
    requires Enabled(s, t)
    ensures Apply(s, t).maxRetry == s.maxRetry
  {
  }

  lemma NotOwned(s: State, k: Key)
    requires k !in s.q.wip && (k in s.q.backlog ==> Count(s.tries, k) < s.maxRetry)
    ensures WithinLimit(s, k)
  {
  }

  lemma {:induction false} RunKeepsLimit(s: State, run: seq<Step>, k: Key)
    requires Inv(s) && TryInv(s, k) && WithinLimit(s, k) && s.maxRetry > 0
    requires Legal(s, run) && UpToDateRun(s, run, k) && FailingRun(s, run, k)
    ensures WithinLimit(After(s, run), k)
    decreases |run|
  {
    hide TryInv, Apply, Enabled, UpToDate, WithinLimit;
    if run != [] {
      StepKeepsInv(s, run[0]);
      StepKeepsTries(s, run[0], k);
      StepKeepsLimit(s, run[0], k);
      KeepsMaxRetry(s, run[0]);
      RunKeepsLimit(Apply(s, run[0]), run[1..], k);
    }
  }

  /**
   * The dead-letter bound: from any reachable state in which a key waits with no try counted, or is not in the queue at
   * all, and from which it always fails, it goes back with its attempts counted until its maxRetry-th try, and that
   * failure, and no other, dead-letters it. Unless it is reset meanwhile, that is the maxRetry-th Start.
   */
  lemma DeadLetteredAtMaxRetry(maxRetry: int, s0: State, run: seq<Step>, s: State, t: Step, k: Key)
    requires maxRetry > 0 && Reached(maxRetry, s0, k) && k !in s0.q.wip
    requires k in s0.q.backlog ==> Count(s0.tries, k) == 0
    requires Legal(s0, run) && UpToDateRun(s0, run, k) && FailingRun(s0, run, k) && s == After(s0, run)
    requires Enabled(s, t) && t.Return? && s.workers[t.w].o.key == k && t.result.Retriable?
    ensures 1 <= Count(s.tries, k) <= maxRetry && s.workers[t.w].o.attempts == Count(s.tries, k)
    ensures EndsAs(s, t, t.w, if Count(s.tries, k) == maxRetry then Deadlettered else BackInQueue)
    ensures k in Apply(s, t).q.backlog <==> Count(s.tries, k) < maxRetry
    ensures k in s0.q.backlog && NeverReset(s0, run, k) ==> Count(s.tries, k) == Count(s.starts, k) - Count(s0.starts, k)
  {
    hide Reached, TryInv, Apply, EndsAs, Enabled, UpToDateRun, FailingRun, NeverReset, Legal, After;
    AttemptsAreTries(maxRetry, s0, k);
    NotOwned(s0, k);
    RunKeepsTries(s0, run, k);
    RunKeepsLimit(s0, run, k);
    FailureOfKey(s, t, k);
    OwnedByReturner(s, t, k);
    if k in s0.q.backlog && NeverReset(s0, run, k) {
      TriesAreStarts(s0, run, k);
    }
  }

  lemma OwnedByReturner(s: State, t: Step, k: Key)
    requires OwnerInv(s) && WithinLimit(s, k) && Enabled(s, t) && t.Return? && s.workers[t.w].o.key == k
    ensures Count(s.tries, k) <= s.maxRetry
  {
  }

  // ---------------------------------------------------------------- the pass bound

  ghost function Waiting(s: State): set<nat> {
    set w | w in s.workers && s.workers[w].Launched?
  }

  /** Passes do not overlap: each one begins after every closure launched before it has reached its Start. */
  ghost predicate PassesAlone(s: State, t: Step, c: int) {
    t.Pass? ==> Waiting(s) == {} && t.concurrency <= c
  }

  ghost predicate SoloRun(s: State, run: seq<Step>, c: int)
    requires Legal(s, run)
    decreases |run|
  {
    run == [] || (PassesAlone(s, run[0], c) && SoloRun(Apply(s, run[0]), run[1..], c))
  }

  ghost predicate Bounded(s: State, c: int) {
    |s.q.wip.Keys| + |Waiting(s)| <= c
  }

  lemma {:induction false} RangeCount(first: nat, n: nat, ids: set<nat>)
    requires forall w :: w in ids <==> first <= w < first + n
    ensures |ids| == n
    decreases n
  {
    if n > 0 {
      RangeCount(first, n - 1, ids - {first + n - 1});
    } else {
      assert ids == {};
    }
  }

  lemma PassKeepsBound(s: State, t: Step, c: int)
    requires Enabled(s, t) && PassesAlone(s, t, c) && Bounded(s, c) && t.Pass?
    ensures Bounded(Apply(s, t), c)
  {
    var l := LaunchList(s, t.concurrency, t.batch, t.top);
    SpawnMeans(s.workers, l, t.first);
    assert forall w :: w in s.workers && s.workers[w].Launched? ==> w in Waiting(s);
    RangeCount(t.first, |l|, Waiting(Apply(s, t)));
  }

  lemma ShrinkKeepsBound(s: State, s': State, c: int)
    requires Bounded(s, c) && s'.q.wip.Keys <= s.q.wip.Keys && Waiting(s') == Waiting(s)
    ensures Bounded(s', c)
  {
    SubsetCount(s'.q.wip.Keys, s.q.wip.Keys);
  }

  /** A Start takes one waiting closure to at most one key in progress. */
  lemma BeginKeepsBound(s: State, t: Step, c: int)
    requires Enabled(s, t) && Bounded(s, c) && t.Begin?
    ensures Bounded(Apply(s, t), c)
  {
    var s' := Apply(s, t);
    assert Waiting(s') == Waiting(s) - {t.w} && t.w in Waiting(s);
    assert s'.q.wip.Keys == s.q.wip.Keys || s'.q.wip.Keys == s.q.wip.Keys + {s.workers[t.w].h.key};
  }

  /** `s'` differs from `s` in at most one closure, which waits in neither, and has no more keys in progress. */
  ghost predicate Settles(s: State, s': State) {
    && s'.q.wip.Keys <= s.q.wip.Keys
    && s'.workers.Keys == s.workers.Keys
    && (forall w :: w in s.workers ==> (s.workers[w].Launched? <==> s'.workers[w].Launched?))
  }

  lemma BackSettles(s: State, w: nat, p: Phase, opts: Options, now: Time)
    requires w in s.workers && s.workers[w] == p && p.Live()
    ensures Settles(s, BackStep(s, w, p, opts, now))
  {
  }

  lemma OtherStepsSettle(s: State, t: Step)
    requires Enabled(s, t) && !t.Pass? && !t.Begin?
    ensures Settles(s, Apply(s, t))
  {
    match t
    case Enqueue(_, _, _) =>
    case Return(w, result, delay, now) =>
      var p := s.workers[w];
      var v := Judge(p.o, result, s.maxRetry, delay);
      if v.Back? {
        BackSettles(s, w, p, v.opts, now);
      }
    case QueueOne(w, ok, now) =>
      if !ok {
        BackSettles(s, w, s.workers[w], NO_OPTIONS, now);
      }
    case Finish(_) =>
  }

  lemma OtherStepsKeepBound(s: State, t: Step, c: int)
    requires Enabled(s, t) && Bounded(s, c) && !t.Pass? && !t.Begin?
    ensures Bounded(Apply(s, t), c)
  {
    hide Apply, Enabled, Bounded;
    OtherStepsSettle(s, t);
    ShrinkKeepsBound(s, Apply(s, t), c);
  }

  /** With passes that do not overlap, the in-progress count never exceeds the concurrency. */
  lemma {:induction false} InProgressIsBounded(s: State, run: seq<Step>, c: int)
    requires Inv(s) && Bounded(s, c) && Legal(s, run) && SoloRun(s, run, c)
    ensures |After(s, run).q.wip| <= c
    decreases |run|
  {
    if run == [] {
      assert |s.q.wip| == |s.q.wip.Keys|;
    } else {
      StepKeepsInv(s, run[0]);
      if run[0].Pass? {
        PassKeepsBound(s, run[0], c);
      } else if run[0].Begin? {
        BeginKeepsBound(s, run[0], c);
      } else {
        OtherStepsKeepBound(s, run[0], c);
      }
      InProgressIsBounded(Apply(s, run[0]), run[1..], c);
    }
  }
}
