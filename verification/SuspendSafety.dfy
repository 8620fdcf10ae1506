/** What every interleaving of Suspend, Wake and reply steps keeps. */
module SuspendSafety {
  import opened Wrappers
  import opened Checkpoint
  import opened Questions
  import opened StoreSpec
  import opened SuspendProtocol

  // ---------------------------------------------------------------- runs

  ghost function StateAt(run: seq<Step>, i: nat): State
    requires Legal(INIT, run) && i <= |run|
  {
    LegalPrefix(INIT, run, i);
    After(INIT, run[..i])
  }

  lemma {:induction false} LegalPrefix(s: State, run: seq<Step>, i: nat)
    requires Legal(s, run) && i <= |run|
    ensures Legal(s, run[..i])
    ensures Legal(After(s, run[..i]), run[i..]) && After(After(s, run[..i]), run[i..]) == After(s, run)
    decreases i
  {
    if i == 0 {
      assert run[..0] == [] && run[0..] == run;
    } else {
      LegalPrefix(Apply(s, run[0]), run[1..], i - 1);
      assert run[..i][1..] == run[1..][..i - 1] && run[i..] == run[1..][i - 1..];
    }
  }

  /** One step of a run leads from one of its states to the next. */
  lemma StepAt(run: seq<Step>, i: nat)
    requires Legal(INIT, run) && i < |run|
    ensures Enabled(StateAt(run, i), run[i])
    ensures StateAt(run, i + 1) == Apply(StateAt(run, i), run[i])
  {
    LegalPrefix(INIT, run, i);
    LegalPrefix(INIT, run, i + 1);
    var rest := run[i..];
    LegalPrefix(INIT, run[..i + 1], i);
    assert run[..i + 1][..i] == run[..i] && run[..i + 1][i..] == [run[i]];
    assert rest[0] == run[i];
    var s := StateAt(run, i);
    assert [run[i]][1..] == [];
    assert After(s, [run[i]]) == Apply(s, run[i]);
  }

  // ---------------------------------------------------------------- the invariant

  /** `tok` names a park of `key` that saved `env`. */
  predicate Holds(s: State, key: Key, env: EnvelopeValue, tok: Gen) {
    tok in s.parks && s.parks[tok].key == key && s.parks[tok].env == env
  }

  /** `n` is the nonce of a pause of `key`. */
  predicate NonceOf(s: State, n: Nonce, key: Key) {
    n in s.minted && s.minted[n] in s.parks && s.parks[s.minted[n]].key == key
  }

  predicate WakeOk(s: State, w: nat, p: WakePhase) {
    match p
    case Loaded(key, env, tok, _) => Holds(s, key, env, tok)
    case Sweeping(key, tok, pending) =>
      tok in s.parks && s.parks[tok].key == key &&
      (pending.Some? ==> NonceOf(s, pending.value, key) &&
                         (s.store.Current(key, tok) ==> s.minted[pending.value] <= tok))
    case SweepConsuming(key, tok, n) =>
      NonceOf(s, n, key) && s.minted[n] <= tok && tok in s.ended && s.ended[tok] == w
    case Claiming(key, env, tok, a) =>
      Holds(s, key, env, tok) && NonceOf(s, a.questionID, key) &&
      (s.store.Current(key, tok) ==> s.minted[a.questionID] <= tok)
    case Consuming(key, env, tok, a) =>
      Holds(s, key, env, tok) && NonceOf(s, a.questionID, key) && s.minted[a.questionID] <= tok &&
      tok in s.ended && s.ended[tok] == w
    case Returned(key, decision, result) =>
      (decision == WakeResume <==> result.Some?) &&
      (result.Some? ==>
         var r := result.value;
         Holds(s, key, r.env, r.tok) && NonceOf(s, r.answer.questionID, key) &&
         s.minted[r.answer.questionID] <= r.tok && r.tok in s.ended && s.ended[r.tok] == w)
  }

  ghost predicate StoreInv(s: State) {
    && (forall k :: k in s.store.parked ==>
          Holds(s, k, s.store.parked[k].env, s.store.parked[k].gen) && s.store.parked[k].gen !in s.ended)
    && (forall g :: g in s.parks ==> 0 < g <= s.store.gen)
    && (forall g :: g in s.ended ==> g in s.parks)
    && (forall k, g :: k in s.store.parked && g in s.parks && s.parks[g].key == k ==> g <= s.store.parked[k].gen)
  }

  ghost predicate QuestionInv(s: State) {
    && (forall n :: n in s.minted ==> s.minted[n] in s.parks && s.parks[s.minted[n]].phase == Asked(n))
    && (forall k :: k in s.docs ==> NonceOf(s, s.docs[k].question.id, k))
  }

  ghost predicate Inv(s: State) {
    StoreInv(s) && QuestionInv(s) && forall w :: w in s.wakes ==> WakeOk(s, w, s.wakes[w])
  }

  /** History only grows, and a token that has stopped being current stays so. */
  ghost predicate Extends(s: State, s': State) {
    && (forall g :: g in s.parks ==>
          g in s'.parks && s'.parks[g].key == s.parks[g].key && s'.parks[g].env == s.parks[g].env)
    && (forall n :: n in s.minted ==> n in s'.minted && s'.minted[n] == s.minted[n])
    && (forall g :: g in s.ended ==> g in s'.ended && s'.ended[g] == s.ended[g])
    && (forall k, g :: g in s.parks && s'.store.Current(k, g) ==> s.store.Current(k, g))
    && s.store.gen <= s'.store.gen
  }

  lemma StepExtends(s: State, t: Step)
    requires StoreInv(s) && Enabled(s, t)
    ensures Extends(s, Apply(s, t))
  {
    if t.SuspendSave? {
      SaveExtends(s, t);
    } else if t.WakeDelete? {
      DeleteExtends(s, t);
    } else {
      hide StoreInv;
      OtherStepExtends(s, t);
    }
  }

  lemma DeleteExtends(s: State, t: Step)
    requires StoreInv(s) && Enabled(s, t) && t.WakeDelete?
    ensures Extends(s, Apply(s, t))
  {
  }

  lemma SaveExtends(s: State, t: Step)
    requires StoreInv(s) && t.SuspendSave?
    ensures Extends(s, Apply(s, t))
  {
    assert s.store.gen + 1 !in s.parks;
  }

  lemma OtherStepExtends(s: State, t: Step)
    requires Enabled(s, t) && !t.SuspendSave? && !t.WakeDelete?
    ensures Extends(s, Apply(s, t))
  {
  }

  lemma SaveKeepsStoreInv(s: State, t: Step)
    requires StoreInv(s) && QuestionInv(s) && t.SuspendSave?
    ensures StoreInv(Apply(s, t)) && QuestionInv(Apply(s, t))
  {
    var s' := Apply(s, t);
    assert forall g :: g in s.parks ==> s'.parks[g] == s.parks[g];
  }

  lemma DeleteKeepsStoreInv(s: State, t: Step)
    requires StoreInv(s) && QuestionInv(s) && Enabled(s, t) && t.WakeDelete?
    ensures StoreInv(Apply(s, t)) && QuestionInv(Apply(s, t))
  {
    var p := s.wakes[t.w];
    if s.store.Current(p.key, p.tok) {
      assert Holds(s, p.key, s.store.parked[p.key].env, p.tok);
      forall k | k in s.store.parked && k != p.key
        ensures s.store.parked[k].gen != p.tok
      {
        assert Holds(s, k, s.store.parked[k].env, s.store.parked[k].gen);
      }
    }
  }

  lemma AskKeepsStoreInv(s: State, t: Step)
    requires StoreInv(s) && QuestionInv(s) && Enabled(s, t) && (t.SuspendAsk? || t.SuspendFail?)
    ensures StoreInv(Apply(s, t)) && QuestionInv(Apply(s, t))
  {
    var s' := Apply(s, t);
    StepExtends(s, t);
    assert s'.store == s.store && s'.ended == s.ended && s'.parks.Keys == s.parks.Keys;
    forall k | k in s.store.parked
      ensures Holds(s', k, s.store.parked[k].env, s.store.parked[k].gen)
    {
      assert Holds(s, k, s.store.parked[k].env, s.store.parked[k].gen);
    }
    forall k | k in s'.docs
      ensures NonceOf(s', s'.docs[k].question.id, k)
    {
      if k in s.docs {
        assert NonceOf(s, s.docs[k].question.id, k);
      }
    }
  }

  lemma StepKeepsStoreInv(s: State, t: Step)
    requires StoreInv(s) && QuestionInv(s) && Enabled(s, t)
    ensures StoreInv(Apply(s, t)) && QuestionInv(Apply(s, t))
  {
    match t
    case SuspendSave(_, _) => SaveKeepsStoreInv(s, t);
    case SuspendAsk(_, _) => AskKeepsStoreInv(s, t);
    case SuspendFail(_) => AskKeepsStoreInv(s, t);
    case WakeDelete(_) => DeleteKeepsStoreInv(s, t);
    case _ =>
      var s' := Apply(s, t);
      assert s'.store == s.store && s'.parks == s.parks && s'.ended == s.ended && s'.minted == s.minted;
      forall k | k in s'.docs
        ensures NonceOf(s', s'.docs[k].question.id, k)
      {
        assert NonceOf(s, s.docs[k].question.id, k);
      }
  }

  /** A Wake that takes no step keeps what it knows, whatever the others do. */
  lemma WakeStable(s: State, s': State, w: nat, p: WakePhase)
    requires Extends(s, s') && WakeOk(s, w, p)
    ensures WakeOk(s', w, p)
  {
  }

  /** The Wake that takes step `t`. */
  function StepOf(t: Step): Option<nat> {
    match t
    case WakeLoad(w, _, _, _) => Some(w)
    case WakePending(w, _) => Some(w)
    case WakeAnswer(w) => Some(w)
    case WakeAbort(w) => Some(w)
    case WakeDelete(w) => Some(w)
    case WakeConsume(w, _) => Some(w)
    case _ => None
  }

  lemma OthersKeepWake(s: State, t: Step, w: nat)
    requires Enabled(s, t) && StepOf(t) != Some(w)
    ensures w in Apply(s, t).wakes <==> w in s.wakes
    ensures w in s.wakes ==> Apply(s, t).wakes[w] == s.wakes[w]
  {
  }

  lemma LoadOk(s: State, t: Step)
    requires StoreInv(s) && Enabled(s, t) && t.WakeLoad?
    ensures WakeOk(Apply(s, t), t.w, Apply(s, t).wakes[t.w])
  {
    if t.key in s.store.parked {
      assert Holds(s, t.key, s.store.parked[t.key].env, s.store.parked[t.key].gen);
    }
  }

  /** A question read while the token is current is that of the envelope, or older. */
  lemma ReadOk(s: State, t: Step)
    requires Inv(s) && Enabled(s, t) && (t.WakeAnswer? || t.WakePending?)
    ensures WakeOk(Apply(s, t), t.w, Apply(s, t).wakes[t.w])
  {
    var p := s.wakes[t.w];
    assert WakeOk(s, t.w, p);
    if p.key in s.docs {
      assert NonceOf(s, s.docs[p.key].question.id, p.key);
    }
  }

  lemma DeleteOk(s: State, t: Step)
    requires Inv(s) && Enabled(s, t) && t.WakeDelete?
    ensures WakeOk(Apply(s, t), t.w, Apply(s, t).wakes[t.w])
  {
    hide StoreInv, QuestionInv;
    assert WakeOk(s, t.w, s.wakes[t.w]);
  }

  lemma ReturnOk(s: State, t: Step)
    requires Inv(s) && Enabled(s, t) && (t.WakeConsume? || t.WakeAbort?)
    ensures WakeOk(Apply(s, t), t.w, Apply(s, t).wakes[t.w])
  {
    hide StoreInv, QuestionInv;
    assert WakeOk(s, t.w, s.wakes[t.w]);
  }

  lemma StepKeepsWakes(s: State, t: Step, w: nat)
    requires Inv(s) && Enabled(s, t) && w in Apply(s, t).wakes
    ensures WakeOk(Apply(s, t), w, Apply(s, t).wakes[w])
  {
    hide Apply, Enabled, WakeOk, StoreInv, QuestionInv, Extends;
    if StepOf(t) != Some(w) {
      OthersKeepWake(s, t, w);
      StepExtends(s, t);
      WakeStable(s, Apply(s, t), w, s.wakes[w]);
    } else {
      match t
      case WakeLoad(_, _, _, _) => LoadOk(s, t);
      case WakePending(_, _) => ReadOk(s, t);
      case WakeAnswer(_) => ReadOk(s, t);
      case WakeDelete(_) => DeleteOk(s, t);
      case WakeConsume(_, _) => ReturnOk(s, t);
      case WakeAbort(_) => ReturnOk(s, t);
    }
  }

  lemma StepKeepsInv(s: State, t: Step)
    requires Inv(s) && Enabled(s, t)
    ensures Inv(Apply(s, t))
  {
    StepKeepsStoreInv(s, t);
    forall w | w in Apply(s, t).wakes ensures WakeOk(Apply(s, t), w, Apply(s, t).wakes[w]) {
      StepKeepsWakes(s, t, w);
    }
  }

  lemma {:induction false} RunKeepsInv(s: State, run: seq<Step>)
    requires Inv(s) && Legal(s, run)
    ensures Inv(After(s, run))
    decreases |run|
  {
    if run != [] {
      StepKeepsInv(s, run[0]);
      RunKeepsInv(Apply(s, run[0]), run[1..]);
    }
  }

  lemma ReachableInv(run: seq<Step>, i: nat)
    requires Legal(INIT, run) && i <= |run|
    ensures Inv(StateAt(run, i))
  {
    LegalPrefix(INIT, run, i);
    RunKeepsInv(INIT, run[..i]);
  }

  lemma ExtendsTransitive(a: State, b: State, c: State)
    requires Extends(a, b) && Extends(b, c)
    ensures Extends(a, c)
  {
  }

  lemma {:induction false} LaterExtends(run: seq<Step>, i: nat, j: nat)
    requires Legal(INIT, run) && i <= j <= |run|
    ensures Extends(StateAt(run, i), StateAt(run, j))
    decreases j - i
  {
    hide Apply, Enabled, After, Legal;
    if i < j {
      LaterExtends(run, i, j - 1);
      ReachableInv(run, j - 1);
      StepAt(run, j - 1);
      StepExtends(StateAt(run, j - 1), run[j - 1]);
      ExtendsTransitive(StateAt(run, i), StateAt(run, j - 1), StateAt(run, j));
    }
  }

  // ---------------------------------------------------------------- claim once

  /** The token step `t` removes from the store: the claim of an answered envelope, or the sweep of a dead one. */
  function Removes(s: State, t: Step): Option<Gen>
    requires Enabled(s, t)
  {
    if t.WakeDelete? && s.store.Current(s.wakes[t.w].key, s.wakes[t.w].tok) then Some(s.wakes[t.w].tok) else None
  }

  /** Each Save gets a generation that no Save before it had, on any key, whatever was deleted in between. */
  lemma GenerationsNeverReused(run: seq<Step>, i: nat, j: nat)
    requires Legal(INIT, run) && i < j < |run| && run[i].SuspendSave? && run[j].SuspendSave?
    ensures StateAt(run, i + 1).store.Current(run[i].key, StateAt(run, i + 1).store.gen)
    ensures StateAt(run, j + 1).store.Current(run[j].key, StateAt(run, j + 1).store.gen)
    ensures StateAt(run, i + 1).store.gen < StateAt(run, j + 1).store.gen
    ensures forall g :: g in StateAt(run, j).parks || g in StateAt(run, j).ended ==> g < StateAt(run, j + 1).store.gen
  {
    StepAt(run, i);
    StepAt(run, j);
    LaterExtends(run, i + 1, j);
    ReachableInv(run, j);
  }

  /** Over a whole run, no saved envelope is claimed or swept twice. */
  lemma RemovedAtMostOnce(run: seq<Step>, i: nat, j: nat)
    requires Legal(INIT, run) && i < j < |run|
    ensures Enabled(StateAt(run, i), run[i]) && Enabled(StateAt(run, j), run[j])
    ensures Removes(StateAt(run, i), run[i]).Some?
            ==> Removes(StateAt(run, i), run[i]) != Removes(StateAt(run, j), run[j])
  {
    StepAt(run, i);
    StepAt(run, j);
    LaterExtends(run, i + 1, j);
    ReachableInv(run, j);
  }

  /** At most one Wake resumes a given park, and it resumes the envelope that was saved under its token. */
  lemma ClaimOnce(run: seq<Step>, w1: nat, w2: nat)
    requires Legal(INIT, run)
    requires w1 in After(INIT, run).wakes && w2 in After(INIT, run).wakes
    requires ResumeToken(After(INIT, run).wakes[w1]).Some?
    ensures ResumeToken(After(INIT, run).wakes[w1]) == ResumeToken(After(INIT, run).wakes[w2]) ==> w1 == w2
    ensures var p := After(INIT, run).wakes[w1];
            p.Returned? ==> p.decision == WakeResume && Holds(After(INIT, run), p.key, p.result.value.env, p.result.value.tok)
  {
    RunKeepsInv(INIT, run);
    var s := After(INIT, run);
    assert WakeOk(s, w1, s.wakes[w1]) && WakeOk(s, w2, s.wakes[w2]);
  }

  /** A Wake keeps its key and token until it returns. */
  lemma {:induction false} WakeKeepsToken(run: seq<Step>, i: nat, j: nat, w: nat)
    requires Legal(INIT, run) && i <= j <= |run|
    requires w in StateAt(run, i).wakes && StateAt(run, i).wakes[w].Loaded?
    ensures w in StateAt(run, j).wakes
    ensures var p, q := StateAt(run, i).wakes[w], StateAt(run, j).wakes[w];
            q.key == p.key && (!q.Returned? ==> q.tok == p.tok)
    decreases j - i
  {
    if i < j {
      WakeKeepsToken(run, i, j - 1, w);
      StepAt(run, j - 1);
    }
  }

  /**
   * A Delete that succeeds proves that the key was untouched since the Load its token came from: in every state in
   * between, the store held the very envelope that was loaded.
   */
  lemma ClaimMeansUntouched(run: seq<Step>, i: nat, j: nat, m: nat)
    requires Legal(INIT, run) && i < m <= j < |run|
    requires run[i].WakeLoad? && run[j].WakeDelete? && run[i].w == run[j].w
    requires Enabled(StateAt(run, j), run[j]) && Removes(StateAt(run, j), run[j]).Some?
    ensures run[i].key in StateAt(run, i).store.parked && run[i].key in StateAt(run, m).store.parked
    ensures StateAt(run, m).store.parked[run[i].key] == StateAt(run, i).store.parked[run[i].key]
    ensures StateAt(run, i).store.parked[run[i].key].gen == Removes(StateAt(run, j), run[j]).value
  {
    var w, key := run[i].w, run[i].key;
    StepAt(run, i);
    if key !in StateAt(run, i).store.parked {
      ReturnedIsFinal(run, i + 1, j, w);
    } else {
      WakeKeepsToken(run, i + 1, j, w);
      var tok := StateAt(run, i + 1).wakes[w].tok;
      ReachableInv(run, i + 1);
      ReachableInv(run, m);
      LaterExtends(run, i + 1, m);
      LaterExtends(run, m, j);
      assert WakeOk(StateAt(run, i + 1), w, StateAt(run, i + 1).wakes[w]);
      assert StateAt(run, m).store.Current(key, tok);
    }
  }

  lemma {:induction false} ReturnedIsFinal(run: seq<Step>, i: nat, j: nat, w: nat)
    requires Legal(INIT, run) && i <= j <= |run|
    requires w in StateAt(run, i).wakes && StateAt(run, i).wakes[w].Returned?
    ensures w in StateAt(run, j).wakes && StateAt(run, j).wakes[w] == StateAt(run, i).wakes[w]
    decreases j - i
  {
    if i < j {
      ReturnedIsFinal(run, i, j - 1, w);
      StepAt(run, j - 1);
    }
  }

  /** Whatever has ended was removed by a step of the run. */
  lemma {:induction false} EndedIffRemoved(run: seq<Step>, n: nat, g: Gen)
    requires Legal(INIT, run) && n <= |run|
    ensures g in StateAt(run, n).ended <==>
              exists i :: 0 <= i < n && Enabled(StateAt(run, i), run[i]) && Removes(StateAt(run, i), run[i]) == Some(g)
    decreases n
  {
    hide Apply, Enabled, After, Legal, Removes;
    if n == 0 {
      NothingEndedAtFirst(run);
    } else {
      EndedIffRemoved(run, n - 1, g);
      StepAt(run, n - 1);
      EndedStep(StateAt(run, n - 1), run[n - 1], g);
    }
  }

  lemma NothingEndedAtFirst(run: seq<Step>)
    requires Legal(INIT, run)
    ensures StateAt(run, 0).ended == map[]
  {
  }

  lemma EndedStep(s: State, t: Step, g: Gen)
    requires Enabled(s, t)
    ensures g in Apply(s, t).ended <==> g in s.ended || Removes(s, t) == Some(g)
  {
  }

  /** No Save of the key came after park `g`. */
  ghost predicate IsLatest(s: State, g: Gen)
    requires g in s.parks
  {
    forall h :: h in s.parks && s.parks[h].key == s.parks[g].key ==> h <= g
  }

  lemma SaveAccountsFor(s: State, t: Step, g: Gen)
    requires Inv(s) && t.SuspendSave? && g in Apply(s, t).parks
    requires g in s.parks && IsLatest(s, g) && g !in s.ended ==> s.store.Current(s.parks[g].key, g)
    ensures IsLatest(Apply(s, t), g) && g !in Apply(s, t).ended ==>
              Apply(s, t).store.Current(Apply(s, t).parks[g].key, g)
  {
    var s' := Apply(s, t);
    var tok := s.store.gen + 1;
    assert s'.parks == s.parks[tok := Park(t.key, t.env, Saved)] && tok !in s.parks;
    if g != tok && IsLatest(s', g) {
      assert g <= s.store.gen && s'.parks[tok].key != s.parks[g].key;
      assert forall h :: h in s.parks ==> h in s'.parks && s'.parks[h] == s.parks[h];
    }
  }

  lemma StepAccountsFor(s: State, t: Step, g: Gen)
    requires Inv(s) && Enabled(s, t) && g in Apply(s, t).parks
    requires g in s.parks && IsLatest(s, g) && g !in s.ended ==> s.store.Current(s.parks[g].key, g)
    ensures IsLatest(Apply(s, t), g) && g !in Apply(s, t).ended ==>
              Apply(s, t).store.Current(Apply(s, t).parks[g].key, g)
  {
    if t.SuspendSave? {
      SaveAccountsFor(s, t, g);
    } else {
      hide StoreInv, QuestionInv, WakeOk;
      ParksKept(s, t);
      assert IsLatest(Apply(s, t), g) ==> IsLatest(s, g);
      if g !in Apply(s, t).ended && s.store.Current(s.parks[g].key, g) {
        CurrentKept(s, t, g);
      }
    }
  }

  /** A token stops being current only by ending. */
  lemma CurrentKept(s: State, t: Step, g: Gen)
    requires Inv(s) && Enabled(s, t) && !t.SuspendSave? && g in s.parks
    requires s.store.Current(s.parks[g].key, g) && g !in Apply(s, t).ended
    ensures Apply(s, t).store.Current(s.parks[g].key, g)
  {
  }

  lemma ParksKept(s: State, t: Step)
    requires Enabled(s, t) && !t.SuspendSave?
    ensures Apply(s, t).parks.Keys == s.parks.Keys
    ensures forall h :: h in s.parks ==> Apply(s, t).parks[h].key == s.parks[h].key
  {
  }

  /**
   * Conservation: a saved envelope is parked still, or was removed by exactly one Wake, or a later Save of its key came
   * in its place; it is parked only while neither has happened.
   */
  lemma {:induction false} SavedIsAccountedFor(run: seq<Step>, n: nat, g: Gen)
    requires Legal(INIT, run) && n <= |run| && g in StateAt(run, n).parks
    ensures var s := StateAt(run, n);
            s.store.Current(s.parks[g].key, g) <==> g !in s.ended && IsLatest(s, g)
    decreases n
  {
    ReachableInv(run, n);
    if n > 0 {
      StepAt(run, n - 1);
      ReachableInv(run, n - 1);
      if g in StateAt(run, n - 1).parks {
        SavedIsAccountedFor(run, n - 1, g);
      }
      StepAccountsFor(StateAt(run, n - 1), run[n - 1], g);
    }
  }

  // ---------------------------------------------------------------- dead or alive

  /**
   * Over every run a Wake goes by what its Load found: an envelope past its deadline, or reported to have drifted, is
   * never claimed and never resumed, whatever answer there is; any other is never swept.
   */
  lemma LoadDecides(run: seq<Step>, i: nat, n: nat)
    requires Legal(INIT, run) && i < n <= |run| && run[i].WakeLoad? && run[i].key in StateAt(run, i).store.parked
    ensures run[i].w in StateAt(run, n).wakes
    ensures var deadline := StateAt(run, i).store.parked[run[i].key].env.header.deadline;
            var p := StateAt(run, n).wakes[run[i].w];
            if run[i].drift || (deadline != 0 && run[i].now > deadline)
            then !p.Claiming? && !p.Consuming? && !(p.Returned? && p.decision == WakeResume)
            else !p.Sweeping? && !p.SweepConsuming? && !(p.Returned? && p.decision == WakeFresh)
  {
    LoadTakesPathTo(run, i, n);
  }

  lemma {:induction false} LoadTakesPathTo(run: seq<Step>, i: nat, n: nat)
    requires Legal(INIT, run) && i < n <= |run| && run[i].WakeLoad? && run[i].key in StateAt(run, i).store.parked
    ensures run[i].w in StateAt(run, n).wakes
    ensures var deadline := StateAt(run, i).store.parked[run[i].key].env.header.deadline;
            var p := StateAt(run, n).wakes[run[i].w];
            if run[i].drift || (deadline != 0 && run[i].now > deadline) then OnSweepPath(p) else OnClaimPath(p)
    decreases n
  {
    hide Apply, Enabled, OnSweepPath, OnClaimPath;
    StepAt(run, n - 1);
    if i == n - 1 {
      LoadTakesPath(StateAt(run, i), run[i]);
    } else {
      LoadTakesPathTo(run, i, n - 1);
      PathStep(StateAt(run, n - 1), run[n - 1], run[i].w);
    }
  }

  predicate OnSweepPath(p: WakePhase) {
    (p.Loaded? && p.dead) || p.Sweeping? || p.SweepConsuming? || (p.Returned? && p.decision == WakeFresh)
  }

  predicate OnClaimPath(p: WakePhase) {
    (p.Loaded? && !p.dead) || p.Claiming? || p.Consuming? || (p.Returned? && p.decision != WakeFresh)
  }

  lemma LoadTakesPath(s: State, t: Step)
    requires Enabled(s, t) && t.WakeLoad? && t.key in s.store.parked
    ensures t.w in Apply(s, t).wakes
    ensures var deadline := s.store.parked[t.key].env.header.deadline;
            var p := Apply(s, t).wakes[t.w];
            if t.drift || (deadline != 0 && t.now > deadline) then OnSweepPath(p) else OnClaimPath(p)
  {
  }

  lemma PathStep(s: State, t: Step, w: nat)
    requires Enabled(s, t) && w in s.wakes
    ensures w in Apply(s, t).wakes
    ensures OnSweepPath(s.wakes[w]) ==> OnSweepPath(Apply(s, t).wakes[w])
    ensures OnClaimPath(s.wakes[w]) ==> OnClaimPath(Apply(s, t).wakes[w])
  {
  }

  // ---------------------------------------------------------------- a Wake that rearms

  /** A Wake that has neither swept nor claimed. */
  predicate Harmless(p: WakePhase) {
    p.Loaded? || p.Sweeping? || p.Claiming? || (p.Returned? && p.decision == WakeRearm)
  }

  lemma HarmlessStep(s: State, t: Step, w: nat)
    requires Enabled(s, t) && w in Apply(s, t).wakes && Harmless(Apply(s, t).wakes[w])
    ensures StepOf(t) == Some(w) ==> Apply(s, t).store == s.store && Apply(s, t).docs == s.docs
    ensures StepOf(t) == Some(w) ==> w !in s.wakes || Harmless(s.wakes[w])
    ensures StepOf(t) != Some(w) ==> w in s.wakes && s.wakes[w] == Apply(s, t).wakes[w]
  {
  }

  lemma {:induction false} NotYetAWake(run: seq<Step>, n: nat, w: nat, i: nat)
    requires Legal(INIT, run) && i < n <= |run| && w !in StateAt(run, n).wakes
    ensures StepOf(run[i]) != Some(w)
    decreases n
  {
    StepAt(run, n - 1);
    if i < n - 1 {
      NotYetAWake(run, n - 1, w, i);
    }
  }

  /** A rearm changes nothing: no step of a Wake that returns WakeRearm touches the store or the questions. */
  lemma {:induction false} RearmMutatesNothing(run: seq<Step>, n: nat, w: nat, i: nat)
    requires Legal(INIT, run) && i < n <= |run| && StepOf(run[i]) == Some(w)
    requires w in StateAt(run, n).wakes && Harmless(StateAt(run, n).wakes[w])
    ensures StateAt(run, i + 1).store == StateAt(run, i).store && StateAt(run, i + 1).docs == StateAt(run, i).docs
    decreases n
  {
    StepAt(run, n - 1);
    HarmlessStep(StateAt(run, n - 1), run[n - 1], w);
    if i < n - 1 {
      if w in StateAt(run, n - 1).wakes {
        RearmMutatesNothing(run, n - 1, w, i);
      } else {
        NotYetAWake(run, n - 1, w, i);
      }
    }
  }

  // ---------------------------------------------------------------- questions of later pauses

  /** The token behind a Consume: that of the envelope the Wake swept or claimed. */
  function ConsumeToken(s: State, t: Step): Gen
    requires Enabled(s, t) && t.WakeConsume?
  {
    s.wakes[t.w].tok
  }

  /**
   * However late a sweep or a claim gets to its Consume, the question of every pause that began after the envelope it
   * removed is still there, with whatever reply it has.
   */
  lemma LaterQuestionsSurviveConsume(run: seq<Step>, i: nat, key: Key)
    requires Legal(INIT, run) && i < |run| && run[i].WakeConsume?
    requires Enabled(StateAt(run, i), run[i])
    requires key in StateAt(run, i).docs
    ensures var s := StateAt(run, i);
            var id := s.docs[key].question.id;
            id in s.minted &&
            (ConsumeToken(s, run[i]) < s.minted[id] ==>
              key in StateAt(run, i + 1).docs && StateAt(run, i + 1).docs[key] == s.docs[key])
  {
    StepAt(run, i);
    ReachableInv(run, i);
    var s := StateAt(run, i);
    assert WakeOk(s, run[i].w, s.wakes[run[i].w]);
    assert NonceOf(s, s.docs[key].question.id, key);
  }
}
