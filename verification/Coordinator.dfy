/** agents/suspend's Coordinator over the two stores: each call it makes is one step of the protocol. */
module SuspendCoordinator {
  import opened Wrappers
  import opened Checkpoint
  import opened Questions
  import opened SuspendProtocol
  import MemStore
  import StoreSpec

  /** How the environment treats one Suspend. */
  datatype ParkFault = NoFault | BackupFails | MintFails | AskFails

  /** How the environment treats one Wake. */
  datatype WakeFaults = WakeFaults(pendingFails: bool, answerFails: bool, consumeFails: bool)

  datatype SuspendOutcome = BadConfig | Invalid(error: ParkError) | Broken(fault: ParkFault) | RequeueAfter(delay: Duration)

  /** The step a lone Wake takes next. */
  function NextStep(p: WakePhase, w: nat, f: WakeFaults): Step
    requires !p.Returned?
  {
    match p
    case Loaded(_, _, _, dead) =>
      if dead then WakePending(w, f.pendingFails) else if f.answerFails then WakeAbort(w) else WakeAnswer(w)
    case Sweeping(_, _, _) => WakeDelete(w)
    case Claiming(_, _, _, _) => WakeDelete(w)
    case SweepConsuming(_, _, _) => WakeConsume(w, f.consumeFails)
    case Consuming(_, _, _, _) => WakeConsume(w, f.consumeFails)
  }

  function Rank(p: WakePhase): nat {
    match p
    case Loaded(_, _, _, _) => 3
    case Sweeping(_, _, _) => 2
    case Claiming(_, _, _, _) => 2
    case SweepConsuming(_, _, _) => 1
    case Consuming(_, _, _, _) => 1
    case Returned(_, _, _) => 0
  }

  /** The steps of Wake `w` from where it stands to its return, when nobody else moves. */
  function WakeRun(s: State, w: nat, f: WakeFaults): seq<Step>
    requires w in s.wakes
    decreases Rank(s.wakes[w])
  {
    if s.wakes[w].Returned? then []
    else
      var t := NextStep(s.wakes[w], w, f);
      [t] + WakeRun(Apply(s, t), w, f)
  }

  /** A run that leads to `s`, and then all of Wake `w`, from its Load to its return. */
  function WithWake(run: seq<Step>, s: State, w: nat, key: Key, now: Time, drift: bool, f: WakeFaults): seq<Step>
    requires w !in s.wakes
  {
    var t := WakeLoad(w, key, now, drift);
    run + [t] + WakeRun(Apply(s, t), w, f)
  }

  /** The next step is enabled and brings the Wake closer to its return. */
  lemma NextStepAdvances(s: State, w: nat, f: WakeFaults)
    requires w in s.wakes && !s.wakes[w].Returned?
    ensures Enabled(s, NextStep(s.wakes[w], w, f))
    ensures var s' := Apply(s, NextStep(s.wakes[w], w, f)); w in s'.wakes && Rank(s'.wakes[w]) < Rank(s.wakes[w])
  {
  }

  /** Every Wake returns, by a legal run of the protocol. */
  lemma {:induction false} WakeRunReturns(s: State, w: nat, f: WakeFaults)
    requires w in s.wakes
    ensures Legal(s, WakeRun(s, w, f))
    ensures w in After(s, WakeRun(s, w, f)).wakes && After(s, WakeRun(s, w, f)).wakes[w].Returned?
    decreases Rank(s.wakes[w])
  {
    hide Apply, NextStep, Enabled;
    if !s.wakes[w].Returned? {
      NextStepAdvances(s, w, f);
      var t := NextStep(s.wakes[w], w, f);
      WakeRunReturns(Apply(s, t), w, f);
      assert WakeRun(s, w, f)[1..] == WakeRun(Apply(s, t), w, f);
    }
  }

  lemma WakeRunHead(s: State, w: nat, f: WakeFaults)
    requires w in s.wakes && !s.wakes[w].Returned?
    ensures var s' := Apply(s, NextStep(s.wakes[w], w, f));
            w in s'.wakes && Rank(s'.wakes[w]) < Rank(s.wakes[w]) &&
            WakeRun(s, w, f) == [NextStep(s.wakes[w], w, f)] + WakeRun(s', w, f)
  {
    hide Apply, NextStep, Enabled;
    NextStepAdvances(s, w, f);
  }

  /** A lone Wake takes at most three steps after its Load: those of a sweep, */
  lemma SweepRun(s0: State, s1: State, s2: State, w: nat, f: WakeFaults)
    requires w in s0.wakes && s0.wakes[w].Loaded? && s0.wakes[w].dead
    requires s1 == Apply(s0, WakePending(w, f.pendingFails)) && s2 == Apply(s1, WakeDelete(w))
    ensures w in s2.wakes
    ensures WakeRun(s0, w, f) == [WakePending(w, f.pendingFails)] + [WakeDelete(w)]
                                 + (if s2.wakes[w].Returned? then [] else [WakeConsume(w, f.consumeFails)])
  {
    hide WakeRun, Rank;
    WakeRunHead(s0, w, f);
    WakeRunHead(s1, w, f);
    LastStep(s2, w, f);
  }

  /** those of a claim, */
  lemma ClaimRun(s0: State, s1: State, s2: State, w: nat, f: WakeFaults)
    requires w in s0.wakes && s0.wakes[w].Loaded? && !s0.wakes[w].dead && !f.answerFails
    requires s1 == Apply(s0, WakeAnswer(w)) && s2 == if s1.wakes[w].Returned? then s1 else Apply(s1, WakeDelete(w))
    ensures w in s1.wakes && w in s2.wakes
    ensures WakeRun(s0, w, f) == [WakeAnswer(w)]
                                 + (if s1.wakes[w].Returned? then [] else [WakeDelete(w)])
                                 + (if s2.wakes[w].Returned? then [] else [WakeConsume(w, f.consumeFails)])
  {
    hide WakeRun, Rank;
    WakeRunHead(s0, w, f);
    if s1.wakes[w].Returned? {
      RunIsOver(s1, w, f);
    } else {
      WakeRunHead(s1, w, f);
      LastStep(s2, w, f);
    }
  }

  /** or the failure to read the answer. */
  lemma AbortRun(s: State, w: nat, f: WakeFaults)
    requires w in s.wakes && s.wakes[w].Loaded? && !s.wakes[w].dead && f.answerFails
    ensures WakeRun(s, w, f) == [WakeAbort(w)]
  {
    hide WakeRun, Rank;
    WakeRunHead(s, w, f);
    RunIsOver(Apply(s, WakeAbort(w)), w, f);
  }

  lemma LastStep(s: State, w: nat, f: WakeFaults)
    requires w in s.wakes && (s.wakes[w].SweepConsuming? || s.wakes[w].Consuming? || s.wakes[w].Returned?)
    ensures WakeRun(s, w, f) == if s.wakes[w].Returned? then [] else [WakeConsume(w, f.consumeFails)]
  {
    hide WakeRun, Rank;
    if s.wakes[w].Returned? {
      RunIsOver(s, w, f);
    } else {
      WakeRunHead(s, w, f);
      RunIsOver(Apply(s, WakeConsume(w, f.consumeFails)), w, f);
    }
  }

  lemma RunIsOver(s: State, w: nat, f: WakeFaults)
    requires w in s.wakes && s.wakes[w].Returned?
    ensures WakeRun(s, w, f) == []
  {
  }

  // ---------------------------------------------------------------- the three outcomes

  const NO_FAULTS := WakeFaults(false, false, false)

  /** What an undisturbed Wake without faults answers, and what it does to the two stores it finds. */
  predicate Decides(found: StoreSpec.Store, docs: Docs, key: Key, now: Time, drift: bool,
                    p: WakePhase, left: StoreSpec.Store, docsLeft: Docs)
  {
    && p.Returned? && p.key == key
    && (p.decision == WakeFresh <==>
          key !in found.parked || drift ||
          (found.parked[key].env.header.deadline != 0 && now > found.parked[key].env.header.deadline))
    && (p.decision == WakeResume <==>
          && p.decision != WakeFresh && key in docs && docs[key].answer.Some?
          && docs[key].answer.value.questionID == docs[key].question.id)
    && (p.decision == WakeResume ==>
          p.result == Some(WakeResult(found.parked[key].env, docs[key].answer.value, found.parked[key].gen)))
    && left.parked == (if p.decision == WakeRearm then found.parked else found.parked - {key})
    && docsLeft == (if p.decision == WakeRearm || key !in found.parked then docs else docs - {key})
  }

  /** The run of an undisturbed Wake: nothing parked or dead, fresh; unanswered, rearm; answered, resume. */
  lemma LoneWakeDecides(s: State, w: nat, key: Key, now: Time, drift: bool)
    requires w !in s.wakes
    ensures var s0 := Apply(s, WakeLoad(w, key, now, drift));
            && w in s0.wakes && Legal(s0, WakeRun(s0, w, NO_FAULTS))
            && var s' := After(s0, WakeRun(s0, w, NO_FAULTS));
            && w in s'.wakes
            && Decides(s.store, s.docs, key, now, drift, s'.wakes[w], s'.store, s'.docs)
  {
    hide Legal, After, WakeRun, Rank;
    var s0 := Apply(s, WakeLoad(w, key, now, drift));
    WakeRunReturns(s0, w, NO_FAULTS);
    if s0.wakes[w].Returned? {
      RunOnce(s0, w, NO_FAULTS);
    } else if s0.wakes[w].dead {
      LoneSweepDecides(s0, w);
    } else {
      LoneClaimDecides(s0, w);
    }
  }

  /** WakeRun and After, unfolded one step. */
  lemma RunOnce(s: State, w: nat, f: WakeFaults)
    requires w in s.wakes && Legal(s, WakeRun(s, w, f))
    ensures if s.wakes[w].Returned? then After(s, WakeRun(s, w, f)) == s
            else
              var s' := Apply(s, NextStep(s.wakes[w], w, f));
              w in s'.wakes && Legal(s', WakeRun(s', w, f)) && After(s, WakeRun(s, w, f)) == After(s', WakeRun(s', w, f))
  {
    hide Apply, NextStep, Enabled;
    if !s.wakes[w].Returned? {
      WakeRunHead(s, w, f);
      var t := NextStep(s.wakes[w], w, f);
      assert WakeRun(s, w, f)[1..] == WakeRun(Apply(s, t), w, f);
    }
  }

  lemma LoneSweepDecides(s: State, w: nat)
    requires w in s.wakes && s.wakes[w].Loaded? && s.wakes[w].dead && Legal(s, WakeRun(s, w, NO_FAULTS))
    requires s.store.Current(s.wakes[w].key, s.wakes[w].tok)
    ensures var s' := After(s, WakeRun(s, w, NO_FAULTS));
            var key := s.wakes[w].key;
            && w in s'.wakes && s'.wakes[w] == Returned(key, WakeFresh, None)
            && s'.store == s.store.(parked := s.store.parked - {key}) && s'.docs == s.docs - {key}
  {
    hide Legal, After, WakeRun, Rank;
    var key := s.wakes[w].key;
    RunOnce(s, w, NO_FAULTS);
    var s1 := Apply(s, NextStep(s.wakes[w], w, NO_FAULTS));
    RunOnce(s1, w, NO_FAULTS);
    var s2 := Apply(s1, NextStep(s1.wakes[w], w, NO_FAULTS));
    RunOnce(s2, w, NO_FAULTS);
    if key in s.docs {
      RunOnce(Apply(s2, NextStep(s2.wakes[w], w, NO_FAULTS)), w, NO_FAULTS);
    }
  }

  lemma LoneClaimDecides(s: State, w: nat)
    requires w in s.wakes && s.wakes[w].Loaded? && !s.wakes[w].dead && Legal(s, WakeRun(s, w, NO_FAULTS))
    requires s.store.Current(s.wakes[w].key, s.wakes[w].tok)
    ensures var s' := After(s, WakeRun(s, w, NO_FAULTS));
            var p := s.wakes[w];
            && w in s'.wakes
            && match AnswerIn(s.docs, p.key)
               case None => s'.wakes[w] == Returned(p.key, WakeRearm, None) && s'.store == s.store && s'.docs == s.docs
               case Some(a) =>
                 s'.wakes[w] == Returned(p.key, WakeResume, Some(WakeResult(p.env, a, p.tok)))
                 && s'.store == s.store.(parked := s.store.parked - {p.key}) && s'.docs == s.docs - {p.key}
  {
    hide Legal, After, WakeRun, Rank;
    RunOnce(s, w, NO_FAULTS);
    var s1 := Apply(s, NextStep(s.wakes[w], w, NO_FAULTS));
    RunOnce(s1, w, NO_FAULTS);
    if AnswerIn(s.docs, s.wakes[w].key).Some? {
      var s2 := Apply(s1, NextStep(s1.wakes[w], w, NO_FAULTS));
      RunOnce(s2, w, NO_FAULTS);
      RunOnce(Apply(s2, NextStep(s2.wakes[w], w, NO_FAULTS)), w, NO_FAULTS);
    }
  }

  /** The same of the run that leads here: what is in the stores after it. */
  lemma WakeDecides(run: seq<Step>, w: nat, key: Key, now: Time, drift: bool)
    requires Legal(INIT, run) && w !in After(INIT, run).wakes
    ensures var s := After(INIT, run);
            var s0 := Apply(s, WakeLoad(w, key, now, drift));
            var whole := run + [WakeLoad(w, key, now, drift)] + WakeRun(s0, w, NO_FAULTS);
            && Legal(INIT, whole)
            && var s' := After(INIT, whole);
            && w in s'.wakes
            && Decides(s.store, s.docs, key, now, drift, s'.wakes[w], s'.store, s'.docs)
  {
    hide Apply, Decides, Legal, After, WakeRun;
    var s := After(INIT, run);
    var t := WakeLoad(w, key, now, drift);
    LoneWakeDecides(s, w, key, now, drift);
    LegalOne(s, t);
    LegalConcat(INIT, run, [t]);
    LegalConcat(INIT, run + [t], WakeRun(Apply(s, t), w, NO_FAULTS));
  }

  /** Every parked envelope came through Suspend. */
  predicate AllParkable(store: StoreSpec.Store) {
    forall k :: k in store.parked ==> Parkable(k, store.parked[k].env)
  }

  lemma ParkableResumes(key: Key, e: EnvelopeValue, now: Time)
    requires Parkable(key, e)
    ensures ValidateForResume(e, e.header.provider, e.header.model, e.header.configDigest, now).None?
            <==> !PastDeadline(e, now)
  {
    ParkGateImpliesResumeGate(e, now);
  }

  class Coordinator {
    const store: MemStore.Store
    const questions: FileQuestions
    const wakeInterval: Duration
    const jitter: Duration
    const parkDeadline: Duration

    /** History: the steps taken so far, and the protocol state they lead to. */
    ghost var run: seq<Step>
    ghost var proto: State

    ghost function Repr(): set<object>
      reads store
    {
      {store, questions} + store.mem
    }

    ghost predicate Valid()
      reads this, Repr()
    {
      && this !in Repr() && questions !in store.mem
      && store.Valid()
      && Legal(INIT, run) && proto == After(INIT, run)
      && proto.store == store.Contents() && proto.docs == questions.file
      && AllParkable(proto.store)
    }

    constructor (wakeInterval: Duration, jitter: Duration, parkDeadline: Duration)
      requires wakeInterval > 0
      ensures Valid() && run == [] && fresh(Repr())
      ensures this.wakeInterval == wakeInterval && this.jitter == jitter && this.parkDeadline == parkDeadline
    {
      this.wakeInterval, this.jitter, this.parkDeadline := wakeInterval, jitter, parkDeadline;
      store := new MemStore.Store();
      questions := new FileQuestions();
      run, proto := [], INIT;
    }

    /** The protocol has moved by one step. */
    twostate predicate Took(t: Step)
      reads this
    {
      Enabled(old(proto), t) && run == old(run) + [t] && proto == Apply(old(proto), t)
    }

    /** Records one protocol step. */
    ghost method Take(t: Step)
      requires Legal(INIT, run) && proto == After(INIT, run) && Enabled(proto, t)
      modifies this`run, this`proto
      ensures run == old(run) + [t] && Legal(INIT, run)
      ensures proto == After(INIT, run) == Apply(old(proto), t)
    {
      LegalOne(proto, t);
      LegalConcat(INIT, run, [t]);
      run, proto := run + [t], Apply(proto, t);
    }

    // -------------------------------------------------------------- one store or question call, one step

    method SaveStep(key: Key, env: MemStore.Envelope)
      requires Valid() && Parkable(key, env.Value())
      modifies this`run, this`proto, store
      ensures Valid() && fresh(Repr() - old(Repr()))
      ensures run == old(run) + [SuspendSave(key, old(env.Value()))]
      ensures proto.store.gen == old(proto).store.gen + 1 && proto.minted == old(proto).minted
      ensures proto.store.gen in proto.parks && proto.parks[proto.store.gen] == Park(key, old(env.Value()), Saved)
    {
      hide MemStore.Owns, MemStore.Values, MemStore.Envelope.Footprint, MemStore.Envelope.Value, Legal, After;
      ghost var v := env.Value();
      store.Save(key, env);
      Take(SuspendSave(key, v));
    }

    method AskStep(key: Key, q: Question)
      requires Valid() && q.key == key && q.id !in proto.minted
      requires var g := proto.store.gen; g in proto.parks && proto.parks[g].key == key && proto.parks[g].phase == Saved
      modifies this`run, this`proto, questions
      ensures Valid()
      ensures run == old(run) + [SuspendAsk(old(proto).store.gen, q)]
    {
      hide MemStore.Owns, MemStore.Values, MemStore.Envelope.Footprint, MemStore.Envelope.Value, Legal, After;
      questions.Ask(key, q);
      Take(SuspendAsk(proto.store.gen, q));
    }

    ghost method FailStep()
      requires Valid() && proto.store.gen in proto.parks && proto.parks[proto.store.gen].phase == Saved
      modifies this`run, this`proto
      ensures Valid()
      ensures run == old(run) + [SuspendFail(old(proto).store.gen)]
    {
      hide MemStore.Owns, MemStore.Values, Legal, After;
      Take(SuspendFail(proto.store.gen));
    }

    method LoadStep(ghost w: nat, key: Key, now: Time, drift: bool)
      returns (env: MemStore.Envelope?, tok: nat, ok: bool)
      requires Valid() && w !in proto.wakes
      modifies this`run, this`proto
      ensures Valid()
      ensures Took(WakeLoad(w, key, now, drift)) && w in proto.wakes
      ensures ok <==> key in old(proto).store.parked
      ensures ok ==> env != null && env.Value() == old(proto).store.parked[key].env
      ensures ok ==> env != null && fresh(env.Footprint()) && Parkable(key, env.Value())
                     && proto.wakes[w] == Loaded(key, env.Value(), tok, Dead(env.Value(), now, drift))
      ensures !ok ==> proto.wakes[w] == Returned(key, WakeFresh, None)
    {
      hide MemStore.Owns, MemStore.Values, MemStore.Envelope.Footprint, MemStore.Envelope.Value, Legal, After;
      Take(WakeLoad(w, key, now, drift));
      env, tok, ok := store.Load(key);
    }

    method PendingStep(ghost w: nat, key: Key, fails: bool) returns (q: Option<Question>)
      requires Valid() && w in proto.wakes && proto.wakes[w].Loaded? && proto.wakes[w].dead && proto.wakes[w].key == key
      modifies this`run, this`proto
      ensures Valid()
      ensures Took(WakePending(w, fails))
      ensures w in proto.wakes
      ensures proto.wakes[w] == Sweeping(key, old(proto).wakes[w].tok, if q.Some? then Some(q.value.id) else None)
    {
      hide MemStore.Owns, MemStore.Values, MemStore.Envelope.Footprint, MemStore.Envelope.Value, Legal, After;
      q := None;
      if !fails {
        q := questions.Pending(key);
      }
      Take(WakePending(w, fails));
    }

    method AnswerStep(ghost w: nat, key: Key) returns (a: Option<Answer>)
      requires Valid() && w in proto.wakes && proto.wakes[w].Loaded? && !proto.wakes[w].dead && proto.wakes[w].key == key
      modifies this`run, this`proto
      ensures Valid()
      ensures Took(WakeAnswer(w))
      ensures w in proto.wakes
      ensures var p := old(proto).wakes[w];
              proto.wakes[w] == if a.Some? then Claiming(key, p.env, p.tok, a.value) else Returned(key, WakeRearm, None)
    {
      hide MemStore.Owns, MemStore.Values, MemStore.Envelope.Footprint, MemStore.Envelope.Value, Legal, After;
      a := questions.GetAnswer(key);
      Take(WakeAnswer(w));
    }

    method DeleteStep(ghost w: nat, key: Key, tok: nat) returns (won: bool)
      requires Valid() && w in proto.wakes && (proto.wakes[w].Sweeping? || proto.wakes[w].Claiming?)
      requires proto.wakes[w].key == key && proto.wakes[w].tok == tok
      modifies this`run, this`proto, store`m
      ensures Valid() && store.mem == old(store.mem)
      ensures Took(WakeDelete(w))
      ensures won <==> old(proto).store.Current(key, tok)
      ensures w in proto.wakes && proto.wakes[w] == AfterDelete(old(proto).wakes[w], won)
    {
      hide MemStore.Owns, MemStore.Values, MemStore.Envelope.Footprint, MemStore.Envelope.Value, Legal, After;
      won := store.Delete(key, tok);
      Take(WakeDelete(w));
    }

    method ConsumeStep(ghost w: nat, key: Key, nonce: Nonce, fails: bool)
      requires Valid() && w in proto.wakes && (proto.wakes[w].SweepConsuming? || proto.wakes[w].Consuming?)
      requires proto.wakes[w].key == key
      requires nonce == var p := proto.wakes[w]; if p.Consuming? then p.answer.questionID else p.nonce
      modifies this`run, this`proto, questions
      ensures Valid()
      ensures Took(WakeConsume(w, fails))
      ensures w in proto.wakes
      ensures var p := old(proto).wakes[w];
              proto.wakes[w] == if p.Consuming? then Returned(key, WakeResume, Some(WakeResult(p.env, p.answer, p.tok)))
                                else Returned(key, WakeFresh, None)
    {
      hide MemStore.Owns, MemStore.Values, MemStore.Envelope.Footprint, MemStore.Envelope.Value, Legal, After;
      if !fails {
        questions.Consume(key, nonce);
      }
      Take(WakeConsume(w, fails));
    }

    ghost method AbortStep(w: nat)
      requires Valid() && w in proto.wakes && proto.wakes[w].Loaded? && !proto.wakes[w].dead
      modifies this`run, this`proto
      ensures Valid()
      ensures Took(WakeAbort(w))
      ensures w in proto.wakes && proto.wakes[w] == Returned(old(proto).wakes[w].key, WakeRearm, None)
    {
      hide MemStore.Owns, MemStore.Values, Legal, After;
      Take(WakeAbort(w));
    }

    // -------------------------------------------------------------- the two operations

    /** Stamps the key and, unless the caller chose one, the park deadline. */
    method Stamp(key: Key, env: MemStore.Envelope, now: Clock)
      requires Valid() && env !in Repr() && env !in {this as object}
      modifies env`header
      ensures Valid()
      ensures env.Value() == Stamped(old(env.Value()), key, now, parkDeadline)
      ensures var h := old(env.header);
              env.header == h.(
                reconcilerKey := key,
                deadline := if h.deadline != 0 then h.deadline
                            else if parkDeadline != 0 then now + parkDeadline else now + 14 * 24 * HOUR)
    {
      hide MemStore.Owns, MemStore.Values, MemStore.Envelope.Footprint, MemStore.Envelope.Value, Legal, After;
      env.SetHeader(env.header.(reconcilerKey := key));
      if env.header.deadline == 0 {
        env.SetHeader(env.header.(deadline := now + (if parkDeadline != 0 then parkDeadline else DEFAULT_PARK_DEADLINE)));
      }
    }

    /**
     * Suspend: stamps and validates the envelope, parks it, then posts the question. Whatever fails after the Save
     * leaves the envelope parked with no question of its own.
     */
    method Suspend(key: Key, env: MemStore.Envelope, nonce: Nonce, prompt: string, now: Clock, askedAt: Time,
                   draw: Duration, fault: ParkFault)
      returns (outcome: SuspendOutcome)
      requires Valid() && env !in Repr() && env !in {this as object}
      requires nonce !in proto.minted && (0 < jitter ==> 0 <= draw < jitter)
      modifies this`run, this`proto, store, questions, env`header
      ensures Valid() && fresh(Repr() - old(Repr()))
      ensures outcome.BadConfig? <==> wakeInterval <= 0 || parkDeadline < 0
      ensures var v := Stamped(old(env.Value()), key, now, parkDeadline);
              match outcome
              case BadConfig => run == old(run)
              case Invalid(error) => Validate(v) == Some(error) && run == old(run)
              case Broken(f) =>
                Validate(v).None? && f == fault != NoFault &&
                run == old(run) + [SuspendSave(key, v)] + [SuspendFail(old(proto).store.gen + 1)]
              case RequeueAfter(delay) =>
                Validate(v).None? && fault == NoFault && wakeInterval <= delay <= wakeInterval + Max(jitter - 1, 0) &&
                delay - wakeInterval == (if jitter > 0 then draw else 0) &&
                run == old(run) + [SuspendSave(key, v)]
                       + [SuspendAsk(old(proto).store.gen + 1, Question(nonce, key, v.header.runID, prompt, askedAt))]
    {
      hide MemStore.Owns, MemStore.Values, MemStore.Envelope.Footprint, MemStore.Envelope.Value, Legal, After, Apply,
        Valid, Enabled;
      if wakeInterval <= 0 || parkDeadline < 0 {
        return BadConfig;
      }
      Stamp(key, env, now);
      var invalid, runID := ValidateHeap(env);
      if invalid.Some? {
        return Invalid(invalid.value);
      }
      SaveStep(key, env);
      if fault == BackupFails || fault == MintFails || fault == AskFails {
        FailStep();
        return Broken(fault);
      }
      AskStep(key, Question(nonce, key, runID, prompt, askedAt));
      return RequeueAfter(if jitter > 0 then wakeInterval + draw else wakeInterval);
    }

    /** The sweep of a dead envelope: the pending question is read before the delete, so it is that pause's or older. */
    method Sweep(ghost w: nat, key: Key, tok: nat, f: WakeFaults)
      requires Valid() && w in proto.wakes && proto.wakes[w].Loaded? && proto.wakes[w].dead
      requires proto.wakes[w].key == key && proto.wakes[w].tok == tok
      modifies this`run, this`proto, store`m, questions
      ensures Valid() && store.mem == old(store.mem)
      ensures run == old(run) + WakeRun(old(proto), w, f)
      ensures w in proto.wakes && proto.wakes[w] == Returned(key, WakeFresh, None)
    {
      hide MemStore.Owns, MemStore.Values, MemStore.Envelope.Footprint, MemStore.Envelope.Value, Legal, After, Apply,
        NextStep, WakeRun, Valid, Repr;
      ghost var s0 := proto;
      var q := PendingStep(w, key, f.pendingFails);
      ghost var s1 := proto;
      var won := DeleteStep(w, key, tok);
      ghost var s2 := proto;
      if won && q.Some? {
        ConsumeStep(w, key, q.value.id, f.consumeFails);
      }
      SweepRun(s0, s1, s2, w, f);
    }

    /** The claim of an answered envelope: the Consume after it may fail without losing the answer. */
    method Claim(ghost w: nat, key: Key, tok: nat, f: WakeFaults) returns (a: Option<Answer>)
      requires Valid() && w in proto.wakes && proto.wakes[w].Loaded? && !proto.wakes[w].dead && !f.answerFails
      requires proto.wakes[w].key == key && proto.wakes[w].tok == tok
      modifies this`run, this`proto, store`m, questions
      ensures Valid() && store.mem == old(store.mem)
      ensures run == old(run) + WakeRun(old(proto), w, f)
      ensures w in proto.wakes
      ensures a.Some? ==> proto.wakes[w] == Returned(key, WakeResume, Some(WakeResult(old(proto).wakes[w].env, a.value, tok)))
      ensures a.None? ==> proto.wakes[w] == Returned(key, WakeRearm, None)
    {
      hide MemStore.Owns, MemStore.Values, MemStore.Envelope.Footprint, MemStore.Envelope.Value, Legal, After, Apply,
        NextStep, WakeRun, Valid, Repr;
      ghost var s0 := proto;
      a := AnswerStep(w, key);
      ghost var s1 := proto;
      if a.None? {
        ClaimRun(s0, s1, s1, w, f);
        return;
      }
      var won := DeleteStep(w, key, tok);
      ghost var s2 := proto;
      if won {
        ConsumeStep(w, key, a.value.questionID, f.consumeFails);
      } else {
        a := None;
      }
      ClaimRun(s0, s1, s2, w, f);
    }

    /** A claim does not touch the copy the caller will resume from. */
    method ClaimKeeping(ghost w: nat, key: Key, ghost env: MemStore.Envelope, tok: nat, f: WakeFaults)
      returns (a: Option<Answer>)
      requires Valid() && w in proto.wakes && !f.answerFails
      requires proto.wakes[w] == Loaded(key, env.Value(), tok, false)
      requires env.Footprint() !! {this, store, questions}
      modifies this`run, this`proto, store`m, questions
      ensures Valid() && store.mem == old(store.mem)
      ensures run == old(run) + WakeRun(old(proto), w, f)
      ensures w in proto.wakes && env.Value() == old(env.Value()) && env.Footprint() == old(env.Footprint())
      ensures a.Some? ==> proto.wakes[w] == Returned(key, WakeResume, Some(WakeResult(env.Value(), a.value, tok)))
      ensures a.None? ==> proto.wakes[w] == Returned(key, WakeRearm, None)
    {
      hide MemStore.Owns, MemStore.Values, Legal, After, Apply, WakeRun;
      a := Claim(w, key, tok, f);
      MemStore.EnvelopeFrame(env);
    }

    /** What Valid says of the history. */
    lemma HistoryAgrees()
      requires Valid()
      ensures Legal(INIT, run) && proto == After(INIT, run)
      ensures proto.store == store.Contents() && proto.docs == questions.file
      ensures {store, questions} + store.mem == Repr()
    {
    }

    /** Wake: sweeps, rearms or resumes; the resumed envelope is handed out in memory of its own. */
    method Wake(ghost w: nat, key: Key, now: Time, drift: bool, f: WakeFaults)
      returns (decision: Decision, env: MemStore.Envelope?, answer: Option<Answer>, tok: nat, failed: bool)
      requires Valid() && w !in proto.wakes
      modifies this`run, this`proto, store`m, questions
      ensures Valid()
      ensures proto.store == store.Contents() && proto.docs == questions.file
      ensures drift ==> decision != WakeResume
      ensures var found := old(proto).store.parked;
              decision == WakeFresh <==>
                key !in found || drift || (found[key].env.header.deadline != 0 && now > found[key].env.header.deadline)
      ensures var found, docs := old(proto).store.parked, old(proto).docs;
              f == NO_FAULTS ==>
                && (decision == WakeResume <==>
                      && decision != WakeFresh && key in docs && docs[key].answer.Some?
                      && docs[key].answer.value.questionID == docs[key].question.id)
                && (decision == WakeResume ==> answer == docs[key].answer && tok == found[key].gen)
                && proto.store.parked == (if decision == WakeRearm then found else found - {key})
                && proto.docs == (if decision == WakeRearm || key !in found then docs else docs - {key})
      ensures run == WithWake(old(run), old(proto), w, key, now, drift, f)
      ensures w in proto.wakes && proto.wakes[w].Returned? && proto.wakes[w].decision == decision
      ensures decision == WakeResume <==> env != null && answer.Some?
      ensures decision == WakeResume ==>
                !failed && fresh(env.Footprint()) &&
                proto.wakes[w].result == Some(WakeResult(env.Value(), answer.value, tok))
      ensures decision == WakeResume ==>
                var h := env.Value().header;
                && env.Value() == old(proto).store.parked[key].env && Parkable(key, env.Value())
                && ValidateForResume(env.Value(), h.provider, h.model, h.configDigest, now).None?
    {
      hide MemStore.Owns, MemStore.Values, MemStore.Envelope.Footprint, MemStore.Envelope.Value, Legal, After, Apply,
        NextStep, WakeRun, Valid, Repr, Parkable;
      HistoryAgrees();
      WakeDecides(run, w, key, now, drift);
      var loaded, t, ok := LoadStep(w, key, now, drift);
      if !ok {
        RunIsOver(proto, w, f);
        assert run == old(run) + [WakeLoad(w, key, now, drift)] + [];
        HistoryAgrees();
        return WakeFresh, null, None, 0, false;
      }
      if (loaded.header.deadline != 0 && now > loaded.header.deadline) || drift {
        Sweep(w, key, t, f);
        HistoryAgrees();
        return WakeFresh, null, None, 0, false;
      }
      ParkableResumes(key, loaded.Value(), now);
      if f.answerFails {
        AbortRun(proto, w, f);
        AbortStep(w);
        HistoryAgrees();
        return WakeRearm, null, None, 0, true;
      }
      var a := ClaimKeeping(w, key, loaded, t, f);
      HistoryAgrees();
      if a.None? {
        return WakeRearm, null, None, 0, false;
      }
      return WakeResume, loaded, a, t, false;
    }
  }

  /** Envelope.Validate on the heap object. */
  method ValidateHeap(e: MemStore.Envelope) returns (r: Option<ParkError>, runID: string)
    ensures e.Value() == old(e.Value()) && r == Validate(e.Value()) && runID == e.Value().header.runID
  {
    runID := e.header.runID;
    if e.header.version != ENVELOPE_VERSION {
      return Some(BadVersion), runID;
    }
    if e.providerState == null || e.providerState.Length == 0 {
      return Some(NoProviderState), runID;
    }
    if e.header.configDigest == "" {
      return Some(NoDigest), runID;
    }
    if e.header.remainingTurns <= 0 {
      return Some(NoTurns), runID;
    }
    if e.pending == null || e.pending.Length == 0 {
      return Some(NoCalls), runID;
    }
    ghost var calls := e.Value().Calls();
    FirstEmptyIDFindsTheFirst(calls, 0);
    for i := 0 to e.pending.Length
      invariant forall j :: 0 <= j < i ==> calls[j].id != ""
    {
      assert calls[i].id == e.pending[i].id;
      if e.pending[i].id == "" {
        return Some(EmptyCallID(i)), runID;
      }
    }
    return None, runID;
  }
}
