/**
 * The halt/wake protocol as a state machine: every store call and every question call is one atomic step, and any
 * number of Suspend and Wake calls interleave.
 */
module SuspendProtocol {
  import opened Wrappers
  import opened Checkpoint
  import opened Questions
  import opened StoreSpec

  /** A Suspend call is named by the generation its Save was given. */
  type Gen = nat

  datatype ParkPhase = Saved | Asked(nonce: Nonce) | Abandoned
  datatype Park = Park(key: Key, env: EnvelopeValue, phase: ParkPhase)

  datatype Decision = WakeFresh | WakeRearm | WakeResume
  datatype WakeResult = WakeResult(env: EnvelopeValue, answer: Answer, tok: Gen)

  /** Where a Wake call stands between two of its atomic steps. */
  datatype WakePhase =
    | Loaded(key: Key, env: EnvelopeValue, tok: Gen, dead: bool)
    | Sweeping(key: Key, tok: Gen, pending: Option<Nonce>)
    | SweepConsuming(key: Key, tok: Gen, nonce: Nonce)
    | Claiming(key: Key, env: EnvelopeValue, tok: Gen, answer: Answer)
    | Consuming(key: Key, env: EnvelopeValue, tok: Gen, answer: Answer)
    | Returned(key: Key, decision: Decision, result: Option<WakeResult>)

  /**
   * `store` and `docs` are the shared stores. `parks`, `minted` and `ended` are history: every envelope ever saved,
   * the Suspend that minted each nonce, and the Wake that deleted each envelope.
   */
  datatype State = State(
    store: Store, docs: Docs, wakes: map<nat, WakePhase>,
    parks: map<Gen, Park>, minted: map<Nonce, Gen>, ended: map<Gen, nat>)

  const INIT := State(Store(0, map[]), map[], map[], map[], map[], map[])

  datatype Step =
    | SuspendSave(key: Key, env: EnvelopeValue)
    | SuspendAsk(park: Gen, q: Question)
    | SuspendFail(park: Gen)                            // the backup hook, the nonce or Ask fails after Save
    | Reply(key: Key, answer: Answer)
    | WakeLoad(w: nat, key: Key, now: Time, drift: bool)
    | WakePending(w: nat, fails: bool)
    | WakeAnswer(w: nat)
    | WakeAbort(w: nat)                                 // a read or delete error before the commit point
    | WakeDelete(w: nat)                                // the sweep or the claim
    | WakeConsume(w: nat, fails: bool)

  const DEFAULT_PARK_DEADLINE: Duration := 14 * 24 * HOUR

  /** The envelope as it is parked: keyed, and bounded by a deadline. */
  function Stamped(e: EnvelopeValue, key: Key, now: Time, parkDeadline: Duration): EnvelopeValue {
    var h := e.header.(reconcilerKey := key);
    var d := if parkDeadline != 0 then parkDeadline else DEFAULT_PARK_DEADLINE;
    e.(header := if h.deadline == 0 then h.(deadline := now + d) else h)
  }

  /** What a coordinator parks under `key`: an envelope that may be parked, keyed, and bounded by a deadline. */
  predicate Parkable(key: Key, e: EnvelopeValue) {
    Validate(e).None? && e.header.reconcilerKey == key && e.header.deadline != 0
  }

  /** envelopeDead: past its deadline, or the hook reports drift. */
  predicate Dead(env: EnvelopeValue, now: Time, drift: bool) {
    PastDeadline(env, now) || drift
  }

  predicate Enabled(s: State, t: Step) {
    match t
    case SuspendSave(_, _) => true
    case SuspendAsk(g, q) =>
      g in s.parks && s.parks[g].phase == Saved && q.key == s.parks[g].key && q.id !in s.minted
    case SuspendFail(g) => g in s.parks && s.parks[g].phase == Saved
    case Reply(_, _) => true
    case WakeLoad(w, _, _, _) => w !in s.wakes
    case WakePending(w, _) => w in s.wakes && s.wakes[w].Loaded? && s.wakes[w].dead
    case WakeAnswer(w) => w in s.wakes && s.wakes[w].Loaded? && !s.wakes[w].dead
    case WakeAbort(w) => w in s.wakes && (s.wakes[w].Loaded? || s.wakes[w].Sweeping? || s.wakes[w].Claiming?)
    case WakeDelete(w) => w in s.wakes && (s.wakes[w].Sweeping? || s.wakes[w].Claiming?)
    case WakeConsume(w, _) => w in s.wakes && (s.wakes[w].SweepConsuming? || s.wakes[w].Consuming?)
  }

  /** The phase a Wake is in right after its Delete. */
  function AfterDelete(p: WakePhase, won: bool): WakePhase
    requires p.Sweeping? || p.Claiming?
  {
    if p.Sweeping? then
      if won && p.pending.Some? then SweepConsuming(p.key, p.tok, p.pending.value)
      else Returned(p.key, WakeFresh, None)
    else if won then Consuming(p.key, p.env, p.tok, p.answer)
    else Returned(p.key, WakeRearm, None)
  }

  function Apply(s: State, t: Step): State
    requires Enabled(s, t)
  {
    match t
    case SuspendSave(key, env) =>
      var store := s.store.Save(key, env);
      s.(store := store, parks := s.parks[store.gen := Park(key, env, Saved)])
    case SuspendAsk(g, q) =>
      s.(docs := AskIn(s.docs, q.key, q), minted := s.minted[q.id := g],
         parks := s.parks[g := s.parks[g].(phase := Asked(q.id))])
    case SuspendFail(g) =>
      s.(parks := s.parks[g := s.parks[g].(phase := Abandoned)])
    case Reply(key, a) =>
      s.(docs := ReplyIn(s.docs, key, a))
    case WakeLoad(w, key, now, drift) =>
      var phase :=
        if key !in s.store.parked then Returned(key, WakeFresh, None)
        else
          var e := s.store.parked[key];
          Loaded(key, e.env, e.gen, Dead(e.env, now, drift));
      s.(wakes := s.wakes[w := phase])
    case WakePending(w, fails) =>
      var p := s.wakes[w];
      s.(wakes := s.wakes[w := Sweeping(p.key, p.tok, if fails then None else PendingIn(s.docs, p.key))])
    case WakeAnswer(w) =>
      var p := s.wakes[w];
      var a := AnswerIn(s.docs, p.key);
      s.(wakes := s.wakes[w := if a.Some? then Claiming(p.key, p.env, p.tok, a.value)
                               else Returned(p.key, WakeRearm, None)])
    case WakeAbort(w) =>
      var p := s.wakes[w];
      s.(wakes := s.wakes[w := Returned(p.key, if p.Sweeping? || (p.Loaded? && p.dead) then WakeFresh else WakeRearm, None)])
    case WakeDelete(w) =>
      var p := s.wakes[w];
      var won := s.store.Current(p.key, p.tok);
      s.(store := s.store.Delete(p.key, p.tok),
         ended := if won then s.ended[p.tok := w] else s.ended,
         wakes := s.wakes[w := AfterDelete(p, won)])
    case WakeConsume(w, fails) =>
      var p := s.wakes[w];
      var nonce := if p.Consuming? then p.answer.questionID else p.nonce;
      s.(docs := if fails then s.docs else ConsumeIn(s.docs, p.key, nonce),
         wakes := s.wakes[w := if p.Consuming?
                               then Returned(p.key, WakeResume, Some(WakeResult(p.env, p.answer, p.tok)))
                               else Returned(p.key, WakeFresh, None)])
  }

  predicate Legal(s: State, run: seq<Step>)
    decreases |run|
  {
    run == [] || (Enabled(s, run[0]) && Legal(Apply(s, run[0]), run[1..]))
  }

  function After(s: State, run: seq<Step>): State
    requires Legal(s, run)
    decreases |run|
  {
    if run == [] then s else After(Apply(s, run[0]), run[1..])
  }

  lemma {:induction false} LegalConcat(s: State, a: seq<Step>, b: seq<Step>)
    requires Legal(s, a) && Legal(After(s, a), b)
    ensures Legal(s, a + b) && After(s, a + b) == After(After(s, a), b)
    decreases |a|
  {
    if a == [] {
      assert a + b == b;
    } else {
      LegalConcat(Apply(s, a[0]), a[1..], b);
      assert (a + b)[1..] == a[1..] + b;
    }
  }

  lemma LegalOne(s: State, t: Step)
    requires Enabled(s, t)
    ensures Legal(s, [t]) && After(s, [t]) == Apply(s, t)
  {
    assert [t][1..] == [];
  }

  /** The token of the envelope a Wake has deleted in order to resume it. */
  function ResumeToken(p: WakePhase): Option<Gen> {
    if p.Consuming? then Some(p.tok)
    else if p.Returned? && p.result.Some? then Some(p.result.value.tok)
    else None
  }
}
