/** workqueue/inmem: two maps of keys, floor-aware merging of enqueues, and a streaming top-k. */
module Inmem {
  import opened Wrappers

  type Key = string

  const BACKOFF_PERIOD: Duration := 30 * SECOND
  const MAXIMUM_BACKOFF_PERIOD: Duration := 10 * MINUTE
  const MAXIMUM_REQUEUE_FLOOR: Duration := HOUR

  datatype Options = Options(priority: int, notBefore: Time, delay: Duration, backoffDelay: Duration, floor: bool)

  const NO_OPTIONS := Options(0, 0, 0, 0, false)

  datatype Item = Item(opts: Options, attempts: nat, queued: Time)

  /** A queuedKey: a snapshot of an entry, good for as long as its holder cares to keep it. */
  datatype Handle = Handle(key: Key, opts: Options, attempts: nat)

  /** An inProgressKey held by whoever started it. */
  datatype Owner = Owner(key: Key, opts: Options, attempts: nat)

  datatype QueueState = QueueState(wip: map<Key, Item>, backlog: map<Key, Item>)

  // ---------------------------------------------------------------- the operations on values

  /** mergeOptions(&dst, src). */
  function Merge(dst: Options, src: Options): Options {
    var d := dst.(priority := Max(dst.priority, src.priority));
    if src.floor && dst.floor then d.(notBefore := Max(dst.notBefore, src.notBefore))
    else if src.floor then d.(notBefore := src.notBefore, floor := true)
    else if dst.floor then d
    else d.(notBefore := Min(dst.notBefore, src.notBefore))
  }

  function Put(q: QueueState, key: Key, opts: Options, attempts: nat, now: Time): QueueState {
    q.(backlog := q.backlog[key :=
        if key in q.backlog then q.backlog[key].(opts := Merge(q.backlog[key].opts, opts))
        else Item(opts, attempts, now)])
  }

  function Enqueued(q: QueueState, key: Key, opts: Options, now: Time): QueueState {
    Put(q, key, opts, 0, now)
  }

  predicate CanStart(q: QueueState, h: Handle) {
    h.key !in q.wip && h.key in q.backlog
  }

  function Started(q: QueueState, h: Handle, now: Time): QueueState
    requires CanStart(q, h)
  {
    QueueState(q.wip[h.key := Item(h.opts, h.attempts, now)], q.backlog - {h.key})
  }

  function StartedBy(h: Handle): Owner {
    Owner(h.key, h.opts, h.attempts + 1)
  }

  /** The options and attempts a requeue puts in the queue. */
  function RequeueOptions(o: Owner, opts: Options, now: Time): (Options, nat) {
    var p := opts.(priority := if opts.priority == 0 then o.opts.priority else opts.priority);
    if p.backoffDelay > 0 then (p.(notBefore := now + p.backoffDelay), o.attempts)
    else if p.delay > 0 then (p.(notBefore := now + p.delay), 0)
    else if p.priority > 0 then
      (p.(notBefore := now + Min(o.attempts * BACKOFF_PERIOD, MAXIMUM_BACKOFF_PERIOD)), o.attempts)
    else (p, o.attempts)
  }

  function Requeued(q: QueueState, o: Owner, opts: Options, now: Time): QueueState {
    var r := RequeueOptions(o, opts, now);
    var q' := Put(q, o.key, r.0, r.1, now);
    q'.(wip := q'.wip - {o.key})
  }

  /** Complete and Deadletter both drop the key from the in-progress map. */
  function Released(q: QueueState, key: Key): QueueState {
    q.(wip := q.wip - {key})
  }

  // ---------------------------------------------------------------- order-free merging

  function MergeAll(calls: seq<Options>): Options
    requires calls != []
  {
    if |calls| == 1 then calls[0] else Merge(MergeAll(calls[..|calls| - 1]), calls[|calls| - 1])
  }

  /** What an entry's options mean, said of the calls that made it, with no reference to their order. */
  ghost predicate Merged(calls: seq<Options>, r: Options) {
    && (exists c :: c in calls && c.priority == r.priority)
    && (forall c :: c in calls ==> c.priority <= r.priority)
    && (r.floor <==> exists c :: c in calls && c.floor)
    && (exists c :: c in calls && c.floor == r.floor && c.notBefore == r.notBefore)
    && (if r.floor then forall c :: c in calls && c.floor ==> c.notBefore <= r.notBefore
        else forall c :: c in calls ==> r.notBefore <= c.notBefore)
  }

  /**
   * After any sequence of calls an entry has the highest priority; it is floored iff some call was, and then its time
   * is the latest floored one; otherwise its time is the earliest of all.
   */
  lemma {:induction false} MergeAllIsMerged(calls: seq<Options>)
    requires calls != []
    ensures Merged(calls, MergeAll(calls))
  {
    if |calls| == 1 {
      assert calls[0] in calls;
    } else {
      var init, last := calls[..|calls| - 1], calls[|calls| - 1];
      MergeAllIsMerged(init);
      assert calls == init + [last];
      assert forall c :: c in calls <==> c in init || c == last;
    }
  }

  /** Hence no permutation of the calls changes an entry's priority, time or floor. */
  lemma MergeIsOrderFree(a: seq<Options>, b: seq<Options>)
    requires a != [] && b != [] && multiset(a) == multiset(b)
    ensures var x, y := MergeAll(a), MergeAll(b);
            x.priority == y.priority && x.notBefore == y.notBefore && x.floor == y.floor
  {
    MergeAllIsMerged(a);
    MergeAllIsMerged(b);
    assert forall c :: c in a <==> c in multiset(a);
    assert forall c :: c in b <==> c in multiset(b);
  }

  // ---------------------------------------------------------------- streaming top-k

  datatype Candidate = Candidate(key: Key, opts: Options, attempts: nat, ts: Time)

  function CandidateOf(b: map<Key, Item>, k: Key): Candidate
    requires k in b
  {
    Candidate(k, b[k].opts, b[k].attempts, b[k].queued)
  }

  function HandleOf(c: Candidate): Handle {
    Handle(c.key, c.opts, c.attempts)
  }

  /** Strictly better: higher priority, or as high and queued earlier. */
  predicate Better(a: Candidate, b: Candidate) {
    a.opts.priority > b.opts.priority || (a.opts.priority == b.opts.priority && a.ts < b.ts)
  }

  ghost predicate Sorted(s: seq<Candidate>) {
    forall i, j :: 0 <= i < j < |s| ==> !Better(s[j], s[i])
  }

  predicate Eligible(b: map<Key, Item>, now: Time, k: Key) {
    k in b && b[k].opts.notBefore <= now
  }

  function Ready(b: map<Key, Item>, now: Time): set<Key> {
    set k | k in b && Eligible(b, now, k)
  }

  function KeysOf(s: seq<Candidate>): set<Key> {
    set i | 0 <= i < |s| :: s[i].key
  }

  ghost predicate Distinct(s: seq<Candidate>) {
    forall i, j :: 0 <= i < j < |s| ==> s[i].key != s[j].key
  }

  /** The best min(limit, |from|) of the keys `from`, best first; ties are cut arbitrarily. */
  ghost predicate TopOf(b: map<Key, Item>, from: set<Key>, limit: nat, s: seq<Candidate>) {
    && from <= b.Keys
    && Sorted(s) && Distinct(s)
    && (forall i :: 0 <= i < |s| ==> s[i].key in from && s[i] == CandidateOf(b, s[i].key))
    && |s| == Min(limit, |from|)
    && (forall k, i :: k in from && k !in KeysOf(s) && 0 <= i < |s| ==> !Better(CandidateOf(b, k), s[i]))
  }

  /** sort.Slice: some ordering of the same elements; nothing is promised about ties. */
  method SortByRank(s: seq<Candidate>) returns (r: seq<Candidate>)
    ensures Sorted(r) && multiset(r) == multiset(s)
  {
    hide Better;
    r := [];
    for n := 0 to |s|
      invariant Sorted(r) && multiset(r) == multiset(s[..n])
    {
      assert s[..n + 1] == s[..n] + [s[n]];
      r := InsertByRank(r, s[n]);
    }
    assert s[..|s|] == s;
  }

  method InsertByRank(s: seq<Candidate>, c: Candidate) returns (r: seq<Candidate>)
    requires Sorted(s)
    ensures Sorted(r) && multiset(r) == multiset(s + [c])
  {
    var i := |s|;
    while i > 0 && Better(c, s[i - 1])
      invariant 0 <= i <= |s|
      invariant forall j :: i <= j < |s| ==> Better(c, s[j])
    {
      i := i - 1;
    }
    InsertedIsSorted(s, c, i);
    assert s == s[..i] + s[i..];
    r := s[..i] + [c] + s[i..];
  }

  lemma InsertedIsSorted(s: seq<Candidate>, c: Candidate, i: nat)
    requires Sorted(s) && i <= |s| && (i > 0 ==> !Better(c, s[i - 1]))
    requires forall j :: i <= j < |s| ==> Better(c, s[j])
    ensures Sorted(s[..i] + [c] + s[i..])
  {
    forall j | 0 <= j < i
      ensures !Better(c, s[j])
    {
      assert !Better(s[i - 1], s[j]);
    }
  }

  lemma {:induction false} DistinctCount(s: seq<Candidate>)
    requires Distinct(s)
    ensures |KeysOf(s)| == |s|
  {
    if s != [] {
      var n := |s| - 1;
      DistinctCount(s[..n]);
      assert KeysOf(s) == KeysOf(s[..n]) + {s[n].key};
    }
  }

  lemma {:induction false} SubsetCount<T>(a: set<T>, b: set<T>)
    requires a <= b
    ensures |a| <= |b|
    decreases a
  {
    if a != {} {
      var x :| x in a;
      SubsetCount(a - {x}, b - {x});
    }
  }

  /** A key is left out only once the list is full. */
  lemma FullTop(b: map<Key, Item>, from: set<Key>, limit: nat, s: seq<Candidate>, x: Key)
    requires TopOf(b, from, limit, s) && x in from && x !in KeysOf(s)
    ensures |s| == limit
  {
    DistinctCount(s);
    SubsetCount(KeysOf(s), from - {x});
  }

  lemma NothingLeftOut(b: map<Key, Item>, from: set<Key>, limit: nat, s: seq<Candidate>)
    requires TopOf(b, from, limit, s) && |s| < limit
    ensures forall x :: x in from ==> CandidateOf(b, x) in s
  {
    forall x | x in from
      ensures CandidateOf(b, x) in s
    {
      if x !in KeysOf(s) {
        FullTop(b, from, limit, s, x);
      }
    }
  }

  /** Nothing that is left out after a newcomer has been sorted in beats anything that is kept. */
  lemma LeftOutIsNotBetter(b: map<Key, Item>, from: set<Key>, limit: nat, s: seq<Candidate>, k: Key, r: seq<Candidate>,
                           x: Key, i: nat)
    requires TopOf(b, from, limit, s) && k in b && k !in from
    requires Sorted(r) && (forall c :: c in r <==> c in s || c == CandidateOf(b, k)) && |r| == |s| + 1
    requires |r| > limit && Distinct(r) && i < limit
    requires x in from + {k} && x !in KeysOf(r[..limit])
    ensures !Better(CandidateOf(b, x), r[i])
  {
    var c := CandidateOf(b, x);
    var last := r[limit];
    if x in KeysOf(s) || x == k {
      assert c in r;
      var j :| 0 <= j < |r| && r[j] == c;
    } else {
      FullTop(b, from, limit, s, x);
      assert last in r && r[i] in r;
      assert !Better(last, r[i]);
      if r[i] in s {
        assert !Better(c, r[i]);
      } else {
        assert last in s by {
          assert r[i].key != last.key;
        }
        assert !Better(c, last);
      }
    }
  }

  /** Sorting one newcomer into a top list and cutting the list back keeps it a top list. */
  lemma TopStep(b: map<Key, Item>, from: set<Key>, limit: nat, s: seq<Candidate>, k: Key, r: seq<Candidate>)
    requires TopOf(b, from, limit, s) && k in b && k !in from
    requires Sorted(r) && multiset(r) == multiset(s + [CandidateOf(b, k)])
    ensures TopOf(b, from + {k}, limit, if |r| > limit then r[..limit] else r)
  {
    var t := s + [CandidateOf(b, k)];
    SameElements(t, r);
    PermutationDistinct(t, r);
    assert forall c :: c in r <==> c in s || c == CandidateOf(b, k);
    if |r| > limit {
      CutTop(b, from, limit, s, k, r);
    } else {
      UncutTop(b, from, limit, s, k, r);
    }
  }

  lemma CutTop(b: map<Key, Item>, from: set<Key>, limit: nat, s: seq<Candidate>, k: Key, r: seq<Candidate>)
    requires TopOf(b, from, limit, s) && k in b && k !in from
    requires Sorted(r) && Distinct(r) && (forall c :: c in r <==> c in s || c == CandidateOf(b, k)) && |r| == |s| + 1
    requires |r| > limit
    ensures TopOf(b, from + {k}, limit, r[..limit])
  {
    hide Better;
    var cut := r[..limit];
    ElementsOfTop(b, from, limit, s, k);
    assert forall i :: 0 <= i < |cut| ==> cut[i] == r[i] && cut[i] in r;
    forall x, i | x in from + {k} && x !in KeysOf(cut) && 0 <= i < |cut|
      ensures !Better(CandidateOf(b, x), cut[i])
    {
      LeftOutIsNotBetter(b, from, limit, s, k, r, x, i);
    }
  }

  lemma ElementsOfTop(b: map<Key, Item>, from: set<Key>, limit: nat, s: seq<Candidate>, k: Key)
    requires TopOf(b, from, limit, s) && k in b
    ensures forall c :: c in s || c == CandidateOf(b, k) ==>
              c.key in from + {k} && c.key in b && c == CandidateOf(b, c.key)
  {
    hide Better;
  }

  lemma UncutTop(b: map<Key, Item>, from: set<Key>, limit: nat, s: seq<Candidate>, k: Key, r: seq<Candidate>)
    requires TopOf(b, from, limit, s) && k in b && k !in from
    requires Sorted(r) && Distinct(r) && (forall c :: c in r <==> c in s || c == CandidateOf(b, k)) && |r| == |s| + 1
    requires |r| <= limit
    ensures TopOf(b, from + {k}, limit, r)
  {
    hide Better, Sorted, Distinct;
    ElementsOfTop(b, from, limit, s, k);
    NothingLeftOut(b, from, limit, s);
    EveryKeyIsIn(b, from + {k}, r);
    assert forall i :: 0 <= i < |r| ==> r[i] in r;
    assert |from + {k}| == |from| + 1;
  }

  lemma EveryKeyIsIn(b: map<Key, Item>, from: set<Key>, r: seq<Candidate>)
    requires from <= b.Keys && forall x :: x in from ==> CandidateOf(b, x) in r
    ensures from <= KeysOf(r)
  {
    forall x | x in from
      ensures x in KeysOf(r)
    {
      assert CandidateOf(b, x) in r;
    }
  }

  lemma SameElements(a: seq<Candidate>, b: seq<Candidate>)
    requires multiset(a) == multiset(b)
    ensures |a| == |b| && forall c :: c in a <==> c in b
  {
    assert |a| == |multiset(a)| && |b| == |multiset(b)|;
    assert forall c :: c in a <==> c in multiset(a);
    assert forall c :: c in b <==> c in multiset(b);
  }

  lemma SameKeySame(a: seq<Candidate>, x: Candidate, y: Candidate)
    requires Distinct(a) && x in a && y in a && x.key == y.key
    ensures x == y
  {
  }

  lemma TwiceIn(b: seq<Candidate>, i: nat, j: nat)
    requires i < j < |b| && b[i] == b[j]
    ensures multiset(b)[b[i]] >= 2
  {
    assert b == b[..i] + [b[i]] + b[i + 1..j] + [b[j]] + b[j + 1..];
  }

  lemma PermutationDistinct(a: seq<Candidate>, b: seq<Candidate>)
    requires multiset(a) == multiset(b) && Distinct(a)
    ensures Distinct(b)
  {
    SameElements(a, b);
    forall i, j | 0 <= i < j < |b|
      ensures b[i].key != b[j].key
    {
      if b[i].key == b[j].key {
        SameKeySame(a, b[i], b[j]);
        TwiceIn(b, i, j);
        OnceEach(a, b[i]);
      }
    }
  }

  lemma {:induction false} OnceEach(a: seq<Candidate>, c: Candidate)
    requires Distinct(a)
    ensures multiset(a)[c] <= 1
  {
    if a != [] {
      var n := |a| - 1;
      OnceEach(a[..n], c);
      assert a == a[..n] + [a[n]];
      if a[n] == c {
        assert c !in a[..n];
        assert c !in multiset(a[..n]);
      }
    }
  }

  /** What a best-of list is, said of the entries themselves. */
  lemma TopMeans(b: map<Key, Item>, now: Time, limit: nat, s: seq<Candidate>)
    requires TopOf(b, Ready(b, now), limit, s)
    ensures forall i :: 0 <= i < |s| ==>
              && s[i].key in b && b[s[i].key].opts.notBefore <= now
              && s[i].opts == b[s[i].key].opts && s[i].attempts == b[s[i].key].attempts
    ensures forall i, j :: 0 <= i < j < |s| ==> s[i].key != s[j].key
    ensures forall i, j :: 0 <= i < j < |s| ==>
              var x, y := b[s[i].key], b[s[j].key];
              x.opts.priority > y.opts.priority || (x.opts.priority == y.opts.priority && x.queued <= y.queued)
    ensures forall k, i :: k in b && b[k].opts.notBefore <= now && 0 <= i < |s| ==>
              var x, y := b[s[i].key], b[k];
              || (exists j :: 0 <= j < |s| && s[j].key == k)
              || x.opts.priority > y.opts.priority || (x.opts.priority == y.opts.priority && x.queued <= y.queued)
    ensures |s| == Min(limit, |set k | k in b && b[k].opts.notBefore <= now|)
  {
    assert Ready(b, now) == set k | k in b && b[k].opts.notBefore <= now;
    forall k, i | k in b && b[k].opts.notBefore <= now && 0 <= i < |s| && !exists j :: 0 <= j < |s| && s[j].key == k
      ensures !Better(CandidateOf(b, k), s[i])
    {
      assert k !in KeysOf(s);
    }
  }

  class WorkQueue {
    const limit: nat
    var wip: map<Key, Item>
    var queue: map<Key, Item>

    constructor (limit: nat)
      ensures this.limit == limit && State() == QueueState(map[], map[])
    {
      this.limit, wip, queue := limit, map[], map[];
    }

    function State(): QueueState
      reads this
    {
      QueueState(wip, queue)
    }

    method Queue(key: Key, opts: Options, now: Time)
      modifies this
      ensures State() == Enqueued(old(State()), key, opts, now)
      ensures wip == old(wip) && queue.Keys == old(queue).Keys + {key}
      ensures forall k :: k in old(queue) && k != key ==> queue[k] == old(queue)[k]
      ensures if key !in old(queue) then queue[key] == Item(opts, 0, now)
              else queue[key] == old(queue)[key].(opts := Merge(old(queue)[key].opts, opts))
    {
      if key !in queue {
        queue := queue[key := Item(opts, 0, now)];
        return;
      }
      var qi := queue[key];
      var merged := MergeOptions(qi.opts, opts);
      queue := queue[key := qi.(opts := merged)];
    }

    /** Lists the in-progress keys, in any map iteration order. */
    method ListActive() returns (active: seq<Key>)
      ensures forall k :: k in active <==> k in wip
      ensures |active| == |wip.Keys|
    {
      active := [];
      var todo := wip.Keys;
      while todo != {}
        invariant todo <= wip.Keys && |active| + |todo| == |wip.Keys|
        invariant forall k :: k in active <==> k in wip && k !in todo
        decreases todo
      {
        var k :| k in todo;
        active, todo := active + [k], todo - {k};
      }
    }

    /** Streams the backlog, in any map iteration order, through a list that never grows past the limit. */
    method ListBest(now: Time) returns (qd: seq<Candidate>)
      ensures TopOf(queue, Ready(queue, now), limit, qd)
    {
      qd := [];
      var todo := queue.Keys;
      ghost var seen: set<Key> := {};
      while todo != {}
        invariant todo <= queue.Keys && seen !! todo
        invariant forall k :: k in seen <==> k in Ready(queue, now) && k !in todo
        invariant TopOf(queue, seen, limit, qd)
        decreases todo
      {
        var k :| k in todo;
        todo := todo - {k};
        var item := queue[k];
        if now < item.opts.notBefore {
          continue;
        }
        var sorted := SortByRank(qd + [Candidate(k, item.opts, item.attempts, item.queued)]);
        TopStep(queue, seen, limit, qd, k, sorted);
        qd := sorted;
        if |qd| > limit {
          qd := qd[..limit];
        }
        seen := seen + {k};
      }
      assert seen == Ready(queue, now);
    }

    /** The in-progress keys, and handles on the best eligible keys of the backlog at one instant. */
    method Enumerate(now: Time) returns (active: seq<Key>, next: seq<Handle>, ghost top: seq<Candidate>)
      ensures forall k :: k in active <==> k in wip
      ensures |active| == |wip.Keys|
      ensures TopOf(queue, Ready(queue, now), limit, top)
      ensures |next| == |top| && forall i :: 0 <= i < |top| ==> next[i] == HandleOf(top[i])
      ensures |next| == Min(limit, |set k | k in queue && queue[k].opts.notBefore <= now|)
      ensures forall i :: 0 <= i < |next| ==>
                && next[i].key in queue && queue[next[i].key].opts.notBefore <= now
                && next[i].opts == queue[next[i].key].opts && next[i].attempts == queue[next[i].key].attempts
      ensures forall i, j :: 0 <= i < j < |next| ==> next[i].key != next[j].key
      ensures forall i, j :: 0 <= i < j < |next| ==>
                var x, y := queue[next[i].key], queue[next[j].key];
                x.opts.priority > y.opts.priority || (x.opts.priority == y.opts.priority && x.queued <= y.queued)
      ensures forall k, i :: k in queue && queue[k].opts.notBefore <= now && 0 <= i < |next| ==>
                var x, y := queue[next[i].key], queue[k];
                || (exists j :: 0 <= j < |next| && next[j].key == k)
                || x.opts.priority > y.opts.priority || (x.opts.priority == y.opts.priority && x.queued <= y.queued)
    {
      active := ListActive();
      var qd := ListBest(now);
      next, top := [], qd;
      for i := 0 to |qd|
        invariant |next| == i && forall j :: 0 <= j < i ==> next[j] == HandleOf(qd[j])
      {
        next := next + [Handle(qd[i].key, qd[i].opts, qd[i].attempts)];
      }
      hide TopOf, Ready;
      TopMeans(queue, now, limit, top);
    }

    method Start(h: Handle, now: Time) returns (o: Option<Owner>)
      modifies this
      ensures o.Some? <==> CanStart(old(State()), h)
      ensures o.Some? ==> o.value == StartedBy(h) && State() == Started(old(State()), h, now)
      ensures o.None? ==> State() == old(State())
      ensures o.Some? <==> h.key !in old(wip) && h.key in old(queue)
      ensures o.Some? ==>
                && o.value == Owner(h.key, h.opts, h.attempts + 1) && queue == old(queue) - {h.key}
                && wip == old(wip)[h.key := Item(h.opts, h.attempts, now)]
    {
      if h.key in wip {
        return None;
      }
      if h.key !in queue {
        return None;
      }
      queue := queue - {h.key};
      wip := wip[h.key := Item(h.opts, h.attempts, now)];
      return Some(Owner(h.key, h.opts, h.attempts + 1));
    }

    method RequeueWithOptions(o: Owner, options: Options, now: Time)
      modifies this
      ensures State() == Requeued(old(State()), o, options, now)
      ensures wip == old(wip) - {o.key} && queue.Keys == old(queue).Keys + {o.key}
      ensures forall k :: k in old(queue) && k != o.key ==> queue[k] == old(queue)[k]
      ensures var priority := if options.priority == 0 then o.opts.priority else options.priority;
              var notBefore := if options.backoffDelay > 0 then now + options.backoffDelay
                               else if options.delay > 0 then now + options.delay
                               else if priority > 0 then now + Min(o.attempts * (30 * SECOND), 10 * MINUTE)
                               else options.notBefore;
              var given := options.(priority := priority, notBefore := notBefore);
              if o.key in old(queue)
              then queue[o.key] == old(queue)[o.key].(opts := Merge(old(queue)[o.key].opts, given))
              else queue[o.key] == Item(given, if options.backoffDelay <= 0 && options.delay > 0 then 0 else o.attempts, now)
    {
      var opts := options;
      if opts.priority == 0 {
        opts := opts.(priority := o.opts.priority);
      }
      var attempts := o.attempts;
      if opts.backoffDelay > 0 {
        opts := opts.(notBefore := now + opts.backoffDelay);
      } else if opts.delay > 0 {
        attempts := 0;
        opts := opts.(notBefore := now + opts.delay);
      } else if opts.priority > 0 {
        opts := opts.(notBefore := now + Min(o.attempts * BACKOFF_PERIOD, MAXIMUM_BACKOFF_PERIOD));
      }
      if o.key !in queue {
        queue := queue[o.key := Item(opts, attempts, now)];
      } else {
        var qi := queue[o.key];
        var merged := MergeOptions(qi.opts, opts);
        queue := queue[o.key := qi.(opts := merged)];
      }
      wip := wip - {o.key};
    }

    method Complete(o: Owner)
      modifies this
      ensures State() == Released(old(State()), o.key)
      ensures wip == old(wip) - {o.key} && queue == old(queue)
    {
      wip := wip - {o.key};
    }

    method Deadletter(o: Owner)
      modifies this
      ensures State() == Released(old(State()), o.key)
      ensures wip == old(wip) - {o.key} && queue == old(queue)
    {
      wip := wip - {o.key};
    }
  }

  method MergeOptions(dst: Options, src: Options) returns (r: Options)
    ensures r == Merge(dst, src)
    ensures r.priority == Max(dst.priority, src.priority) && (r.floor <==> dst.floor || src.floor)
    ensures r.notBefore == if dst.floor && src.floor then Max(dst.notBefore, src.notBefore)
                           else if dst.floor then dst.notBefore
                           else if src.floor then src.notBefore
                           else Min(dst.notBefore, src.notBefore)
  {
    r := dst;
    if r.priority < src.priority {
      r := r.(priority := src.priority);
    }
    if src.floor && r.floor {
      if r.notBefore < src.notBefore {
        r := r.(notBefore := src.notBefore);
      }
    } else if src.floor {
      r := r.(notBefore := src.notBefore, floor := true);
    } else if r.floor {
    } else if r.notBefore > src.notBefore {
      r := r.(notBefore := src.notBefore);
    }
  }
}
