/** Which answer a Wake resumes with: that of its own pause, or one left over from another. */
module SuspendPairing {
  import opened Wrappers
  import opened Checkpoint
  import opened Questions
  import opened StoreSpec
  import opened SuspendProtocol
  import opened SuspendSafety

  // ---------------------------------------------------------------- the last Suspend that asked

  /** The Suspend that made the last Ask of `key` in `run`. */
  function LastAsker(run: seq<Step>, key: Key): Option<Gen> {
    if run == [] then None
    else
      var t := run[|run| - 1];
      if t.SuspendAsk? && t.q.key == key then Some(t.park) else LastAsker(run[..|run| - 1], key)
  }

  lemma LastAskerStep(run: seq<Step>, i: nat, key: Key)
    requires i < |run|
    ensures LastAsker(run[..i + 1], key) ==
            if run[i].SuspendAsk? && run[i].q.key == key then Some(run[i].park) else LastAsker(run[..i], key)
  {
    assert run[..i + 1][..i] == run[..i];
  }

  /** A pending question is always the last one asked. */
  lemma {:induction false} PendingIsLastAsked(run: seq<Step>, i: nat, key: Key)
    requires Legal(INIT, run) && i <= |run| && key in StateAt(run, i).docs
    ensures var s := StateAt(run, i);
            var id := s.docs[key].question.id;
            id in s.minted && LastAsker(run[..i], key) == Some(s.minted[id])
    decreases i
  {
    hide Apply, Enabled, After, LastAsker;
    NothingAskedAtFirst(run, key);
    var s, t := StateAt(run, i - 1), run[i - 1];
    StepAt(run, i - 1);
    LastAskerStep(run, i - 1, key);
    DocsStep(s, t, key);
    if !(t.SuspendAsk? && t.q.key == key) {
      PendingIsLastAsked(run, i - 1, key);
      LaterExtends(run, i - 1, i);
    }
  }

  lemma NothingAskedAtFirst(run: seq<Step>, key: Key)
    requires Legal(INIT, run)
    ensures key !in StateAt(run, 0).docs
  {
  }

  /** Only an Ask puts up a question, under the nonce it has minted. */
  lemma DocsStep(s: State, t: Step, key: Key)
    requires Enabled(s, t) && key in Apply(s, t).docs
    ensures var s' := Apply(s, t);
            if t.SuspendAsk? && t.q.key == key
            then s'.docs[key].question == t.q && t.q.id in s'.minted && s'.minted[t.q.id] == t.park
            else key in s.docs && s'.docs[key].question == s.docs[key].question
  {
  }

  // ---------------------------------------------------------------- the answer a Wake holds

  /** The token and answer of a Wake that has read one. */
  function Reading(p: WakePhase): Option<(Gen, Answer)> {
    if p.Claiming? || p.Consuming? then Some((p.tok, p.answer))
    else if p.Returned? && p.result.Some? then Some((p.result.value.tok, p.result.value.answer))
    else None
  }

  /** The answer was given to the very pause whose envelope the Wake holds. */
  predicate Paired(s: State, p: WakePhase)
    requires Reading(p).Some?
  {
    var (tok, a) := Reading(p).value;
    a.questionID in s.minted && s.minted[a.questionID] == tok
  }

  /** A Wake is past its read. */
  predicate HasRead(p: WakePhase) {
    p.Claiming? || p.Consuming? || p.Returned?
  }

  lemma {:induction false} HasReadStays(run: seq<Step>, i: nat, j: nat, w: nat)
    requires Legal(INIT, run) && i <= j <= |run|
    requires w in StateAt(run, i).wakes && HasRead(StateAt(run, i).wakes[w])
    ensures w in StateAt(run, j).wakes && HasRead(StateAt(run, j).wakes[w])
    decreases j - i
  {
    if i < j {
      HasReadStays(run, i, j - 1, w);
      StepAt(run, j - 1);
    }
  }

  /** A Wake reads an answer once. */
  lemma ReadsOnce(run: seq<Step>, i: nat, j: nat, w: nat)
    requires Legal(INIT, run) && i < |run| && j < |run| && run[i] == WakeAnswer(w) && run[j] == WakeAnswer(w)
    ensures i == j
  {
    if i != j {
      var lo, hi := if i < j then i else j, if i < j then j else i;
      StepAt(run, lo);
      HasReadStays(run, lo + 1, hi, w);
      StepAt(run, hi);
    }
  }

  /** `run[i]` is where Wake `w`, as it stands after `n` steps, read its answer: one to the last question then asked. */
  ghost predicate ReadAt(run: seq<Step>, n: nat, w: nat, i: nat)
    requires Legal(INIT, run) && i < n <= |run| && w in StateAt(run, n).wakes
  {
    var s, p := StateAt(run, i), StateAt(run, n).wakes[w];
    && run[i] == WakeAnswer(w) && Reading(p).Some?
    && var (tok, a) := Reading(p).value;
    && w in s.wakes && s.wakes[w].Loaded? && s.wakes[w].key == p.key && s.wakes[w].tok == tok && p.key in s.docs
    && a.questionID in StateAt(run, n).minted
    && LastAsker(run[..i], p.key) == Some(StateAt(run, n).minted[a.questionID])
    && (!p.Claiming? ==> s.store.Current(p.key, tok))
  }

  lemma {:induction false} AnswerRead(run: seq<Step>, n: nat, w: nat) returns (i: nat)
    requires Legal(INIT, run) && n <= |run|
    requires w in StateAt(run, n).wakes && Reading(StateAt(run, n).wakes[w]).Some?
    ensures i < n && ReadAt(run, n, w, i)
    decreases n
  {
    hide Apply, Enabled, ReadAt, After;
    NothingReadAtFirst(run, w);
    StepAt(run, n - 1);
    var s := StateAt(run, n - 1);
    if w in s.wakes && Reading(s.wakes[w]).Some? {
      i := AnswerRead(run, n - 1, w);
      ReadAtStays(run, n - 1, w, i);
    } else {
      i := n - 1;
      ReadNow(run, i, w);
    }
  }

  lemma NothingReadAtFirst(run: seq<Step>, w: nat)
    requires Legal(INIT, run)
    ensures w !in StateAt(run, 0).wakes
  {
  }

  lemma ReadNow(run: seq<Step>, i: nat, w: nat)
    requires Legal(INIT, run) && i < |run|
    requires w in StateAt(run, i + 1).wakes && Reading(StateAt(run, i + 1).wakes[w]).Some?
    requires w in StateAt(run, i).wakes ==> Reading(StateAt(run, i).wakes[w]).None?
    ensures ReadAt(run, i + 1, w, i)
  {
    hide Apply, Enabled, After, LastAsker;
    StepAt(run, i);
    ReadNowStep(StateAt(run, i), run[i], w);
    PendingIsLastAsked(run, i, StateAt(run, i).wakes[w].key);
  }

  /** The step by which a Wake comes to hold an answer. */
  lemma ReadNowStep(s: State, t: Step, w: nat)
    requires Enabled(s, t) && (w in s.wakes ==> Reading(s.wakes[w]).None?)
    requires w in Apply(s, t).wakes && Reading(Apply(s, t).wakes[w]).Some?
    ensures t == WakeAnswer(w) && w in s.wakes && s.wakes[w].Loaded? && s.wakes[w].key in s.docs
    ensures Apply(s, t).minted == s.minted
    ensures Apply(s, t).wakes[w].Claiming? && Apply(s, t).wakes[w].key == s.wakes[w].key
    ensures Apply(s, t).wakes[w].tok == s.wakes[w].tok
    ensures Apply(s, t).wakes[w].answer.questionID == s.docs[s.wakes[w].key].question.id
  {
  }

  lemma ReadAtStays(run: seq<Step>, n: nat, w: nat, i: nat)
    requires Legal(INIT, run) && i < n < |run|
    requires w in StateAt(run, n).wakes && ReadAt(run, n, w, i)
    requires w in StateAt(run, n + 1).wakes && Reading(StateAt(run, n + 1).wakes[w]).Some?
    ensures ReadAt(run, n + 1, w, i)
  {
    hide Apply, Enabled, After, LastAsker, Legal;
    StepAt(run, n);
    ReadingStep(StateAt(run, n), run[n], w);
    TokenStays(run, i, n, w);
  }

  lemma TokenStays(run: seq<Step>, i: nat, n: nat, w: nat)
    requires Legal(INIT, run) && i < n < |run| && w in StateAt(run, i).wakes && StateAt(run, i).wakes[w].Loaded?
    ensures var s, p := StateAt(run, i), StateAt(run, i).wakes[w];
            && (StateAt(run, n).store.Current(p.key, p.tok) ==> s.store.Current(p.key, p.tok))
            && (forall m :: m in StateAt(run, n).minted ==>
                  m in StateAt(run, n + 1).minted && StateAt(run, n + 1).minted[m] == StateAt(run, n).minted[m])
  {
    hide Apply, Enabled, After, Legal;
    LoadedToken(run, i, w);
    LaterExtends(run, i, n);
    LaterExtends(run, n, n + 1);
  }

  lemma LoadedToken(run: seq<Step>, i: nat, w: nat)
    requires Legal(INIT, run) && i <= |run| && w in StateAt(run, i).wakes && StateAt(run, i).wakes[w].Loaded?
    ensures StateAt(run, i).wakes[w].tok in StateAt(run, i).parks
  {
    hide After, Legal;
    ReachableInv(run, i);
    assert WakeOk(StateAt(run, i), w, StateAt(run, i).wakes[w]);
  }

  /** What a Wake has read it keeps, and it gets past its claim only while its token is current. */
  lemma ReadingStep(s: State, t: Step, w: nat)
    requires Enabled(s, t) && w in s.wakes && Reading(s.wakes[w]).Some?
    requires w in Apply(s, t).wakes && Reading(Apply(s, t).wakes[w]).Some?
    ensures Apply(s, t).wakes[w].key == s.wakes[w].key && Reading(Apply(s, t).wakes[w]) == Reading(s.wakes[w])
    ensures s.wakes[w].Claiming? && !Apply(s, t).wakes[w].Claiming? ==>
              s.store.Current(s.wakes[w].key, s.wakes[w].tok)
  {
  }

  /**
   * Exactly when a claim pairs, over every run: when the answer was read, the last Ask of the key had been made by the
   * Suspend whose envelope the Wake has loaded.
   */
  lemma ClaimPairsIffLastAsked(run: seq<Step>, i: nat, j: nat)
    requires Legal(INIT, run) && i < j < |run|
    requires run[i].WakeAnswer? && run[j].WakeDelete? && run[i].w == run[j].w
    requires Enabled(StateAt(run, j), run[j]) && Removes(StateAt(run, j), run[j]).Some?
    ensures var w, s := run[i].w, StateAt(run, j + 1);
            && w in s.wakes && s.wakes[w].Consuming?
            && (Paired(s, s.wakes[w]) <==> LastAsker(run[..i], s.wakes[w].key) == Some(s.wakes[w].tok))
  {
    var w := run[i].w;
    StepAt(run, i);
    StepAt(run, j);
    HasReadStays(run, i + 1, j, w);
    var k := AnswerRead(run, j + 1, w);
    ReadsOnce(run, i, k, w);
  }

  /** The same of what a Wake returns: every WakeResume read an answer once, and pairs on that same condition. */
  lemma ResumePairsIffLastAsked(run: seq<Step>, n: nat, w: nat) returns (i: nat)
    requires Legal(INIT, run) && n <= |run|
    requires w in StateAt(run, n).wakes && StateAt(run, n).wakes[w].Returned?
    requires StateAt(run, n).wakes[w].decision == WakeResume
    ensures i < n && forall k :: 0 <= k < |run| && run[k] == WakeAnswer(w) <==> k == i
    ensures var s, p := StateAt(run, n), StateAt(run, n).wakes[w];
            && p.result.Some? && Holds(s, p.key, p.result.value.env, p.result.value.tok)
            && (Paired(s, p) <==> LastAsker(run[..i], p.key) == Some(p.result.value.tok))
  {
    ReachableInv(run, n);
    assert WakeOk(StateAt(run, n), w, StateAt(run, n).wakes[w]);
    i := AnswerRead(run, n, w);
    forall k | 0 <= k < |run| && run[k] == WakeAnswer(w)
      ensures k == i
    {
      ReadsOnce(run, i, k, w);
    }
  }

  // ---------------------------------------------------------------- Suspends that do not overlap

  /** Suspends of one key do not overlap: none starts while another is between its Save and its Ask. */
  predicate Serial(s: State, t: Step) {
    t.SuspendSave? ==> forall g :: g in s.parks && s.parks[g].key == t.key ==> s.parks[g].phase != Saved
  }

  /** The Suspend that parked the envelope a Wake has loaded got as far as posting its question. */
  predicate QuestionPosted(s: State, t: Step) {
    t.WakeAnswer? && t.w in s.wakes && s.wakes[t.w].Loaded? && s.wakes[t.w].tok in s.parks ==>
      s.parks[s.wakes[t.w].tok].phase.Asked?
  }

  ghost predicate SerialRun(run: seq<Step>)
    requires Legal(INIT, run)
  {
    forall i :: 0 <= i < |run| ==> Serial(StateAt(run, i), run[i])
  }

  ghost predicate PostedRun(run: seq<Step>)
    requires Legal(INIT, run)
  {
    forall i :: 0 <= i < |run| ==> QuestionPosted(StateAt(run, i), run[i])
  }

  /** A Suspend between Save and Ask is the latest of its key. */
  ghost predicate SavedIsLatest(s: State) {
    forall g, h :: g in s.parks && h in s.parks && s.parks[g].key == s.parks[h].key && s.parks[g].phase == Saved ==> h <= g
  }

  /** A pending question belongs to the parked envelope as soon as that envelope's Ask is done. */
  ghost predicate PostedIsPending(s: State) {
    forall k :: k in s.store.parked && k in s.docs && s.store.parked[k].gen in s.parks
                && s.parks[s.store.parked[k].gen].phase.Asked? ==>
      s.docs[k].question.id in s.minted && s.minted[s.docs[k].question.id] == s.store.parked[k].gen
  }

  ghost predicate SerialInv(s: State) {
    SavedIsLatest(s) && PostedIsPending(s)
  }

  lemma SaveKeepsSerialInv(s: State, t: Step)
    requires Inv(s) && SerialInv(s) && t.SuspendSave? && Serial(s, t)
    ensures SerialInv(Apply(s, t))
  {
    var s' := Apply(s, t);
    assert forall g :: g in s.parks ==> s'.parks[g] == s.parks[g] && g < s'.store.gen;
  }

  lemma AskKeepsSerialInv(s: State, t: Step)
    requires Inv(s) && SerialInv(s) && Enabled(s, t) && (t.SuspendAsk? || t.SuspendFail?)
    ensures SerialInv(Apply(s, t))
  {
    AskKeepsLatest(s, t);
    AskKeepsPosted(s, t);
  }

  lemma AskKeepsLatest(s: State, t: Step)
    requires SavedIsLatest(s) && Enabled(s, t) && (t.SuspendAsk? || t.SuspendFail?)
    ensures SavedIsLatest(Apply(s, t))
  {
  }

  lemma AskKeepsPosted(s: State, t: Step)
    requires Inv(s) && SerialInv(s) && Enabled(s, t) && (t.SuspendAsk? || t.SuspendFail?)
    ensures PostedIsPending(Apply(s, t))
  {
    hide QuestionInv, WakeOk;
    var s' := Apply(s, t);
    assert forall g :: g in s.parks && g != t.park ==> s'.parks[g] == s.parks[g];
    forall k | k in s'.store.parked && k in s'.docs && s'.store.parked[k].gen in s'.parks
               && s'.parks[s'.store.parked[k].gen].phase.Asked?
      ensures s'.docs[k].question.id in s'.minted && s'.minted[s'.docs[k].question.id] == s'.store.parked[k].gen
    {
      assert Holds(s, k, s.store.parked[k].env, s.store.parked[k].gen);
    }
  }

  /** Steps that neither save nor ask can only lose parked envelopes and questions. */
  lemma ShrinkingKeepsSerialInv(s: State, s': State)
    requires SerialInv(s) && s'.parks == s.parks && s'.minted == s.minted
    requires forall k :: k in s'.store.parked ==> k in s.store.parked && s'.store.parked[k] == s.store.parked[k]
    requires forall k :: k in s'.docs ==> k in s.docs && s'.docs[k].question == s.docs[k].question
    ensures SerialInv(s')
  {
  }

  lemma StepKeepsSerialInv(s: State, t: Step)
    requires Inv(s) && SerialInv(s) && Enabled(s, t) && Serial(s, t)
    ensures SerialInv(Apply(s, t))
  {
    match t
    case SuspendSave(_, _) => SaveKeepsSerialInv(s, t);
    case SuspendAsk(_, _) => AskKeepsSerialInv(s, t);
    case SuspendFail(_) => AskKeepsSerialInv(s, t);
    case _ => ShrinkingKeepsSerialInv(s, Apply(s, t));
  }

  lemma {:induction false} ReachableSerialInv(run: seq<Step>, i: nat)
    requires Legal(INIT, run) && SerialRun(run) && i <= |run|
    ensures SerialInv(StateAt(run, i))
    decreases i
  {
    if i > 0 {
      ReachableSerialInv(run, i - 1);
      ReachableInv(run, i - 1);
      StepAt(run, i - 1);
      StepKeepsSerialInv(StateAt(run, i - 1), run[i - 1]);
    }
  }

  /** With serial Suspends, the last Ask is the loaded envelope's as soon as that envelope's Suspend has asked at all. */
  lemma PostedIffLastAsked(run: seq<Step>, i: nat)
    requires Legal(INIT, run) && SerialRun(run) && i < |run| && run[i].WakeAnswer?
    requires run[i].w in StateAt(run, i).wakes && StateAt(run, i).wakes[run[i].w].Loaded?
    requires var s, p := StateAt(run, i), StateAt(run, i).wakes[run[i].w];
             s.store.Current(p.key, p.tok) && p.key in s.docs
    ensures var p := StateAt(run, i).wakes[run[i].w];
            LastAsker(run[..i], p.key) == Some(p.tok) <==> QuestionPosted(StateAt(run, i), run[i])
  {
    var s, p := StateAt(run, i), StateAt(run, i).wakes[run[i].w];
    ReachableInv(run, i);
    ReachableSerialInv(run, i);
    PendingIsLastAsked(run, i, p.key);
    assert WakeOk(s, run[i].w, p);
    assert NonceOf(s, s.docs[p.key].question.id, p.key);
  }

  /** So over serial Suspends a claim pairs exactly when the loaded envelope's Suspend had posted its question. */
  lemma ClaimPairsIffQuestionPosted(run: seq<Step>, i: nat, j: nat)
    requires Legal(INIT, run) && SerialRun(run) && i < j < |run|
    requires run[i].WakeAnswer? && run[j].WakeDelete? && run[i].w == run[j].w
    requires Enabled(StateAt(run, j), run[j]) && Removes(StateAt(run, j), run[j]).Some?
    ensures var w, s := run[i].w, StateAt(run, j + 1);
            && w in s.wakes && s.wakes[w].Consuming?
            && (Paired(s, s.wakes[w]) <==> QuestionPosted(StateAt(run, i), run[i]))
  {
    ClaimPairsIffLastAsked(run, i, j);
    var k := AnswerRead(run, j + 1, run[i].w);
    ReadsOnce(run, i, k, run[i].w);
    PostedIffLastAsked(run, i);
  }

  /**
   * Pairing: in every interleaving of serial Suspends with Wakes, replies and failing Consumes in which no Wake reads
   * an answer inside the Save-to-Ask gap, every Wake past its claim carries the envelope saved under its token together
   * with an answer to the question that same Suspend posted.
   */
  lemma ResumesArePaired(run: seq<Step>, n: nat, w: nat)
    requires Legal(INIT, run) && SerialRun(run) && PostedRun(run) && n <= |run|
    requires w in StateAt(run, n).wakes && ResumeToken(StateAt(run, n).wakes[w]).Some?
    ensures Reading(StateAt(run, n).wakes[w]).Some? && Paired(StateAt(run, n), StateAt(run, n).wakes[w])
    ensures var s, p := StateAt(run, n), StateAt(run, n).wakes[w];
            p.Returned? ==>
              var r := p.result.value;
              p.decision == WakeResume && Holds(s, p.key, r.env, r.tok) && s.parks[r.tok].phase == Asked(r.answer.questionID)
  {
    ReachableInv(run, n);
    assert WakeOk(StateAt(run, n), w, StateAt(run, n).wakes[w]);
    var i := AnswerRead(run, n, w);
    PostedIffLastAsked(run, i);
  }

  /** The key that step `t` is about. */
  function KeyOf(s: State, t: Step): Key
    requires Enabled(s, t)
  {
    match t
    case SuspendSave(key, _) => key
    case SuspendAsk(_, q) => q.key
    case SuspendFail(g) => s.parks[g].key
    case Reply(key, _) => key
    case WakeLoad(_, key, _, _) => key
    case WakePending(w, _) => s.wakes[w].key
    case WakeAnswer(w) => s.wakes[w].key
    case WakeAbort(w) => s.wakes[w].key
    case WakeDelete(w) => s.wakes[w].key
    case WakeConsume(w, _) => s.wakes[w].key
  }

  /** While a park has saved and not asked, the only step on its key is its own Ask. */
  predicate AskComesNext(s: State, t: Step)
    requires Enabled(s, t)
  {
    forall g :: g in s.parks && s.parks[g].phase == Saved && s.parks[g].key == KeyOf(s, t) ==>
      t.SuspendAsk? && t.park == g
  }

  /** Save and Ask are one step for their key; others may go on in between. */
  ghost predicate OneStepParks(run: seq<Step>)
    requires Legal(INIT, run)
  {
    forall i :: 0 <= i < |run| ==> Enabled(StateAt(run, i), run[i]) && AskComesNext(StateAt(run, i), run[i])
  }

  ghost predicate NoneAbandoned(s: State) {
    forall g :: g in s.parks ==> s.parks[g].phase != Abandoned
  }

  lemma StepAbandonsNone(s: State, t: Step)
    requires NoneAbandoned(s) && Enabled(s, t) && AskComesNext(s, t)
    ensures NoneAbandoned(Apply(s, t))
  {
  }

  /** So whoever takes a step on a key finds every park of that key with its question posted, but for its own Ask. */
  lemma {:induction false} OneStepParksLeaveNoGap(run: seq<Step>, i: nat)
    requires Legal(INIT, run) && OneStepParks(run) && i <= |run|
    ensures NoneAbandoned(StateAt(run, i))
    ensures i < |run| ==>
              && Enabled(StateAt(run, i), run[i])
              && forall g :: g in StateAt(run, i).parks && StateAt(run, i).parks[g].key == KeyOf(StateAt(run, i), run[i]) ==>
                   StateAt(run, i).parks[g].phase.Asked? || (run[i].SuspendAsk? && run[i].park == g)
    decreases i
  {
    hide Apply, Enabled, AskComesNext, KeyOf;
    if i == 0 {
      NoParksAtFirst(run);
    } else {
      OneStepParksLeaveNoGap(run, i - 1);
      StepAt(run, i - 1);
      StepAbandonsNone(StateAt(run, i - 1), run[i - 1]);
    }
    if i < |run| {
      NoGapNow(StateAt(run, i), run[i]);
    }
  }

  lemma NoParksAtFirst(run: seq<Step>)
    requires Legal(INIT, run)
    ensures StateAt(run, 0).parks == map[]
  {
  }

  lemma NoGapNow(s: State, t: Step)
    requires NoneAbandoned(s) && Enabled(s, t) && AskComesNext(s, t)
    ensures forall g :: g in s.parks && s.parks[g].key == KeyOf(s, t) ==>
              s.parks[g].phase.Asked? || (t.SuspendAsk? && t.park == g)
  {
  }

  lemma NoGapMeans(s: State, t: Step)
    requires Inv(s) && NoneAbandoned(s) && Enabled(s, t) && AskComesNext(s, t)
    ensures Serial(s, t) && QuestionPosted(s, t)
  {
    NoGapNow(s, t);
    if t.WakeAnswer? {
      assert WakeOk(s, t.w, s.wakes[t.w]);
    }
  }

  /** So pairing holds outright when a park is one step for its key. */
  lemma OneStepParksPair(run: seq<Step>, n: nat, w: nat)
    requires Legal(INIT, run) && OneStepParks(run) && n <= |run|
    requires w in StateAt(run, n).wakes && ResumeToken(StateAt(run, n).wakes[w]).Some?
    ensures SerialRun(run) && PostedRun(run)
    ensures Reading(StateAt(run, n).wakes[w]).Some? && Paired(StateAt(run, n), StateAt(run, n).wakes[w])
  {
    hide Inv, NoneAbandoned, AskComesNext, Serial, QuestionPosted, Paired, Apply, Enabled;
    forall j | 0 <= j < |run|
      ensures Serial(StateAt(run, j), run[j]) && QuestionPosted(StateAt(run, j), run[j])
    {
      OneStepParksLeaveNoGap(run, j);
      ReachableInv(run, j);
      NoGapMeans(StateAt(run, j), run[j]);
    }
    ResumesArePaired(run, n, w);
  }

  // ---------------------------------------------------------------- two runs that mispair

  /** A Wake at `now` that claims, and whose Consume may fail. */
  function GapWake(w: nat, k: Key, now: Time, fails: bool): seq<Step> {
    [WakeLoad(w, k, now, false)] + [WakeAnswer(w)] + [WakeDelete(w)] + [WakeConsume(w, fails)]
  }

  lemma GapWakeClaims(s: State, w: nat, k: Key, now: Time, fails: bool)
    requires w !in s.wakes && k in s.store.parked && !PastDeadline(s.store.parked[k].env, now)
    requires AnswerIn(s.docs, k).Some?
    ensures Legal(s, GapWake(w, k, now, fails))
    ensures var e, a := s.store.parked[k], AnswerIn(s.docs, k).value;
            After(s, GapWake(w, k, now, fails)) ==
            s.(store := s.store.(parked := s.store.parked - {k}), ended := s.ended[e.gen := w],
               docs := if fails then s.docs else ConsumeIn(s.docs, k, a.questionID),
               wakes := s.wakes[w := Returned(k, WakeResume, Some(WakeResult(e.env, a, e.gen)))])
  {
    hide Apply, Enabled, Legal, After, PastDeadline;
    var t1, t2, t3, t4 := WakeLoad(w, k, now, false), WakeAnswer(w), WakeDelete(w), WakeConsume(w, fails);
    var s1, s2, s3 := GapWakeSteps(s, w, k, now, fails);
    AppendStep(s, [], t1, s);
    assert [] + [t1] == [t1];
    AppendStep(s, [t1], t2, s1);
    AppendStep(s, [t1] + [t2], t3, s2);
    AppendStep(s, [t1] + [t2] + [t3], t4, s3);
  }

  lemma GapWakeSteps(s: State, w: nat, k: Key, now: Time, fails: bool) returns (s1: State, s2: State, s3: State)
    requires w !in s.wakes && k in s.store.parked && !PastDeadline(s.store.parked[k].env, now)
    requires AnswerIn(s.docs, k).Some?
    ensures Legal(s, []) && After(s, []) == s
    ensures Enabled(s, WakeLoad(w, k, now, false)) && s1 == Apply(s, WakeLoad(w, k, now, false))
    ensures Enabled(s1, WakeAnswer(w)) && s2 == Apply(s1, WakeAnswer(w))
    ensures Enabled(s2, WakeDelete(w)) && s3 == Apply(s2, WakeDelete(w)) && Enabled(s3, WakeConsume(w, fails))
    ensures var e, a := s.store.parked[k], AnswerIn(s.docs, k).value;
            Apply(s3, WakeConsume(w, fails)) ==
            s.(store := s.store.(parked := s.store.parked - {k}), ended := s.ended[e.gen := w],
               docs := if fails then s.docs else ConsumeIn(s.docs, k, a.questionID),
               wakes := s.wakes[w := Returned(k, WakeResume, Some(WakeResult(e.env, a, e.gen)))])
  {
    var e, a := s.store.parked[k], AnswerIn(s.docs, k).value;
    s1 := s.(wakes := s.wakes[w := Loaded(k, e.env, e.gen, false)]);
    s2 := s.(wakes := s.wakes[w := Claiming(k, e.env, e.gen, a)]);
    s3 := s.(store := s.store.(parked := s.store.parked - {k}), ended := s.ended[e.gen := w],
             wakes := s.wakes[w := Consuming(k, e.env, e.gen, a)]);
  }

  /** One step at the end of a run. */
  lemma AppendStep(s: State, run: seq<Step>, t: Step, s': State)
    requires Legal(s, run) && After(s, run) == s' && Enabled(s', t)
    ensures Legal(s, run + [t]) && After(s, run + [t]) == Apply(s', t)
  {
    LegalOne(s', t);
    LegalConcat(s, run, [t]);
  }

  /** One pause asked, answered and claimed; then the next, woken when it has saved and not yet asked. */
  function GapRun(k: Key, e1: EnvelopeValue, e2: EnvelopeValue, q: Question, a: Answer, woken1: Time, woken2: Time):
    seq<Step>
  {
    [SuspendSave(k, e1)] + [SuspendAsk(1, q)] + [Reply(k, a)] + GapWake(0, k, woken1, true)
    + [SuspendSave(k, e2)] + GapWake(1, k, woken2, false)
  }

  /**
   * The first pause is answered and claimed, but its Consume fails; the second is woken before it has asked. Its Wake
   * resumes with the answer to the first one's question, for any two envelopes parked by this coordinator and woken
   * before their deadlines.
   */
  lemma GapMispairs(k: Key, env1: EnvelopeValue, env2: EnvelopeValue, park: Duration, q: Question, a: Answer,
                    saved1: Time, woken1: Time, saved2: Time, woken2: Time)
    requires q.key == k && a.questionID == q.id
    requires 0 < saved1 <= woken1 <= saved2 <= woken2 && park >= 0
    requires !PastDeadline(Stamped(env1, k, saved1, park), woken1)
    requires !PastDeadline(Stamped(env2, k, saved2, park), woken2)
    ensures var e1, e2 := Stamped(env1, k, saved1, park), Stamped(env2, k, saved2, park);
            var run := GapRun(k, e1, e2, q, a, woken1, woken2);
            && e1.header.deadline != 0 && e2.header.deadline != 0
            && Legal(INIT, run)
            && var s := After(INIT, run);
            && 1 in s.wakes && s.wakes[1] == Returned(k, WakeResume, Some(WakeResult(e2, a, 2)))
            && !Paired(s, s.wakes[1])
            && 2 in s.parks && s.parks[2] == Park(k, e2, Saved) && q.id in s.minted && s.minted[q.id] == 1
  {
    hide Apply, Enabled, Legal, After, PastDeadline;
    var e1, e2 := Stamped(env1, k, saved1, park), Stamped(env2, k, saved2, park);
    var s3 := AnsweredPark(k, e1, q, a);
    var run3 := [SuspendSave(k, e1)] + [SuspendAsk(1, q)] + [Reply(k, a)];
    GapWakeClaims(s3, 0, k, woken1, true);
    LegalConcat(INIT, run3, GapWake(0, k, woken1, true));
    var s7 := After(s3, GapWake(0, k, woken1, true));
    SaveStep(s7, k, e2);
    AppendStep(INIT, run3 + GapWake(0, k, woken1, true), SuspendSave(k, e2), s7);
    var s8 := Apply(s7, SuspendSave(k, e2));
    GapWakeClaims(s8, 1, k, woken2, false);
    LegalConcat(INIT, run3 + GapWake(0, k, woken1, true) + [SuspendSave(k, e2)], GapWake(1, k, woken2, false));
  }

  lemma SaveStep(s: State, k: Key, e: EnvelopeValue)
    ensures Enabled(s, SuspendSave(k, e))
    ensures Apply(s, SuspendSave(k, e)) == s.(store := s.store.Save(k, e),
                                              parks := s.parks[s.store.gen + 1 := Park(k, e, Saved)])
  {
  }

  lemma AnsweredPark(k: Key, e: EnvelopeValue, q: Question, a: Answer) returns (s: State)
    requires q.key == k && a.questionID == q.id
    ensures Legal(INIT, [SuspendSave(k, e)] + [SuspendAsk(1, q)] + [Reply(k, a)])
    ensures s == After(INIT, [SuspendSave(k, e)] + [SuspendAsk(1, q)] + [Reply(k, a)])
    ensures s == State(Store(1, map[k := Entry(e, 1)]), map[k := Doc(q, Some(a))], map[],
                       map[1 := Park(k, e, Asked(q.id))], map[q.id := 1], map[])
  {
    var t1, t2, t3 := SuspendSave(k, e), SuspendAsk(1, q), Reply(k, a);
    AppendStep(INIT, [], t1, INIT);
    assert [] + [t1] == [t1];
    var s1 := Apply(INIT, t1);
    AppendStep(INIT, [t1], t2, s1);
    var s2 := Apply(s1, t2);
    AppendStep(INIT, [t1] + [t2], t3, s2);
    s := Apply(s2, t3);
  }

  /** Two Suspends of one key overlap: the one that saved last asks first. */
  function OverlapParks(k: Key, e1: EnvelopeValue, e2: EnvelopeValue, q1: Question, q2: Question, a: Answer): seq<Step> {
    [SuspendSave(k, e1)] + [SuspendSave(k, e2)] + [SuspendAsk(2, q2)] + [SuspendAsk(1, q1)] + [Reply(k, a)]
  }

  lemma TwoSaved(k: Key, e1: EnvelopeValue, e2: EnvelopeValue) returns (s: State)
    ensures Legal(INIT, [SuspendSave(k, e1)] + [SuspendSave(k, e2)])
    ensures s == After(INIT, [SuspendSave(k, e1)] + [SuspendSave(k, e2)])
    ensures s == State(Store(2, map[k := Entry(e2, 2)]), map[], map[], map[1 := Park(k, e1, Saved), 2 := Park(k, e2, Saved)],
                       map[], map[])
  {
    AppendStep(INIT, [], SuspendSave(k, e1), INIT);
    assert [] + [SuspendSave(k, e1)] == [SuspendSave(k, e1)];
    var s1 := Apply(INIT, SuspendSave(k, e1));
    AppendStep(INIT, [SuspendSave(k, e1)], SuspendSave(k, e2), s1);
    s := Apply(s1, SuspendSave(k, e2));
  }

  lemma OverlapParked(k: Key, e1: EnvelopeValue, e2: EnvelopeValue, q1: Question, q2: Question, a: Answer)
    returns (s: State)
    requires q1.key == k && q2.key == k && q1.id != q2.id && a.questionID == q1.id
    ensures Legal(INIT, OverlapParks(k, e1, e2, q1, q2, a)) && s == After(INIT, OverlapParks(k, e1, e2, q1, q2, a))
    ensures s == State(Store(2, map[k := Entry(e2, 2)]), map[k := Doc(q1, Some(a))], map[],
                       map[1 := Park(k, e1, Asked(q1.id)), 2 := Park(k, e2, Asked(q2.id))],
                       map[q2.id := 2, q1.id := 1], map[])
  {
    var t3, t4, t5 := SuspendAsk(2, q2), SuspendAsk(1, q1), Reply(k, a);
    var saves := [SuspendSave(k, e1)] + [SuspendSave(k, e2)];
    var s2 := TwoSaved(k, e1, e2);
    AppendStep(INIT, saves, t3, s2);
    var s3 := Apply(s2, t3);
    AppendStep(INIT, saves + [t3], t4, s3);
    var s4 := Apply(s3, t4);
    AppendStep(INIT, saves + [t3] + [t4], t5, s4);
    s := Apply(s4, t5);
  }

  /**
   * A Wake can mispair outside the gap too: every question has been posted, and still the envelope of the Suspend that
   * saved last is resumed with the answer to the question of the one that asked last.
   */
  lemma OverlapMispairs(k: Key, env1: EnvelopeValue, env2: EnvelopeValue, park: Duration, q1: Question, q2: Question,
                        a: Answer, saved1: Time, saved2: Time, woken: Time)
    requires q1.key == k && q2.key == k && q1.id != q2.id && a.questionID == q1.id
    requires 0 < saved1 <= saved2 <= woken && park >= 0 && !PastDeadline(Stamped(env2, k, saved2, park), woken)
    ensures var e1, e2 := Stamped(env1, k, saved1, park), Stamped(env2, k, saved2, park);
            var run := OverlapParks(k, e1, e2, q1, q2, a) + GapWake(0, k, woken, false);
            && Legal(INIT, run)
            && var s := After(INIT, run);
            && 0 in s.wakes && s.wakes[0] == Returned(k, WakeResume, Some(WakeResult(e2, a, 2)))
            && !Paired(s, s.wakes[0])
            && 1 in s.parks && s.parks[1].phase == Asked(q1.id) && 2 in s.parks && s.parks[2].phase == Asked(q2.id)
  {
    hide Apply, Enabled, Legal, After, PastDeadline;
    var e1, e2 := Stamped(env1, k, saved1, park), Stamped(env2, k, saved2, park);
    var s := OverlapParked(k, e1, e2, q1, q2, a);
    GapWakeClaims(s, 0, k, woken, false);
    LegalConcat(INIT, OverlapParks(k, e1, e2, q1, q2, a), GapWake(0, k, woken, false));
  }
}
