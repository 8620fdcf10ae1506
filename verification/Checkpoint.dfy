/** Envelopes as values, and the two gates an envelope passes: one when it is parked, one when it is resumed. */
module Checkpoint {
  import opened Wrappers

  type Key = string

  const ENVELOPE_VERSION := 1
  const REASON_AWAITING_ANSWER := "awaiting answer"

  /** The scalar fields of a Go Envelope. */
  datatype Header = Header(
    version: int, provider: string, model: string, sdkVersion: string, configDigest: string,
    reconcilerKey: Key, runID: string, turn: int, remainingTurns: int, reason: string,
    stateRef: string, traceID: string, deadline: Time)

  /** A pending tool call; `None` is a nil slice. */
  datatype CallValue = CallValue(id: string, name: string, inputJSON: Option<Bytes>)

  datatype EnvelopeValue = EnvelopeValue(
    header: Header, pending: Option<seq<CallValue>>, providerState: Option<Bytes>, loopState: Option<Bytes>)
  {
    /** len(e.PendingToolCalls) over a slice that may be nil. */
    function Calls(): seq<CallValue> {
      if pending.Some? then pending.value else []
    }

    function ProviderLen(): nat {
      if providerState.Some? then |providerState.value| else 0
    }
  }

  datatype ParkError = BadVersion | NoProviderState | NoDigest | NoTurns | NoCalls | EmptyCallID(index: nat)

  /** The first pending call without an ID, scanning from `i`. */
  function FirstEmptyID(calls: seq<CallValue>, i: nat): Option<nat>
    requires i <= |calls|
    decreases |calls| - i
  {
    if i == |calls| then None
    else if calls[i].id == "" then Some(i)
    else FirstEmptyID(calls, i + 1)
  }

  /** Envelope.Validate. */
  function Validate(e: EnvelopeValue): Option<ParkError> {
    if e.header.version != ENVELOPE_VERSION then Some(BadVersion)
    else if e.ProviderLen() == 0 then Some(NoProviderState)
    else if e.header.configDigest == "" then Some(NoDigest)
    else if e.header.remainingTurns <= 0 then Some(NoTurns)
    else if |e.Calls()| == 0 then Some(NoCalls)
    else
      var bad := FirstEmptyID(e.Calls(), 0);
      if bad.Some? then Some(EmptyCallID(bad.value)) else None
  }

  datatype ResumeError = Drift | BudgetExhausted | DeadlinePassed

  /** ValidateForResume; the five ErrConfigDrift branches share one error. */
  function ValidateForResume(e: EnvelopeValue, provider: string, model: string, liveDigest: string, now: Time):
    Option<ResumeError>
  {
    var h := e.header;
    if h.version != ENVELOPE_VERSION then Some(Drift)
    else if h.provider != provider then Some(Drift)
    else if h.model != model then Some(Drift)
    else if h.configDigest == "" || liveDigest == "" then Some(Drift)
    else if h.configDigest != liveDigest then Some(Drift)
    else if h.remainingTurns <= 0 then Some(BudgetExhausted)
    else if h.deadline != 0 && now > h.deadline then Some(DeadlinePassed)
    else None
  }

  /** The deadline arm of envelopeDead. */
  predicate PastDeadline(e: EnvelopeValue, now: Time) {
    e.header.deadline != 0 && now > e.header.deadline
  }

  /** The envelope NewAskAFriendSuspension builds. */
  function NewAskAFriendEnvelope(provider: string, model: string, configDigest: string, turn: int, maxTurns: int,
                                 call: CallValue, providerState: Option<Bytes>, loopState: Option<Bytes>,
                                 traceID: string): EnvelopeValue
  {
    EnvelopeValue(
      Header(ENVELOPE_VERSION, provider, model, "", configDigest, "", "", turn,
             Max(maxTurns - (turn + 1), 0), REASON_AWAITING_ANSWER, "", traceID, 0),
      Some([call]), providerState, loopState)
  }

  lemma {:induction false} FirstEmptyIDFindsTheFirst(calls: seq<CallValue>, i: nat)
    requires i <= |calls|
    ensures FirstEmptyID(calls, i).None? <==> forall j :: i <= j < |calls| ==> calls[j].id != ""
    ensures FirstEmptyID(calls, i).Some? ==>
              var k := FirstEmptyID(calls, i).value;
              i <= k < |calls| && calls[k].id == "" && forall j :: i <= j < k ==> calls[j].id != ""
    decreases |calls| - i
  {
    if i < |calls| && calls[i].id != "" {
      FirstEmptyIDFindsTheFirst(calls, i + 1);
    }
  }

  /** Exactly what may be parked. */
  lemma ParksIff(e: EnvelopeValue)
    ensures Validate(e).None? <==>
              && e.header.version == 1 && e.providerState.Some? && e.providerState.value != []
              && e.header.configDigest != "" && e.header.remainingTurns > 0
              && e.pending.Some? && e.pending.value != []
              && forall i :: 0 <= i < |e.pending.value| ==> e.pending.value[i].id != ""
  {
    FirstEmptyIDFindsTheFirst(e.Calls(), 0);
  }

  /** Exactly what may be resumed, by which executor, and which refusals tell the caller to start over. */
  lemma ResumesIff(e: EnvelopeValue, provider: string, model: string, digest: string, now: Time)
    ensures var r, h := ValidateForResume(e, provider, model, digest, now), e.header;
            var matches := h.version == 1 && h.provider == provider && h.model == model
                           && h.configDigest == digest && digest != "";
            && (r == Some(Drift) <==> !matches)
            && (r.None? <==> matches && h.remainingTurns > 0 && (h.deadline == 0 || now <= h.deadline))
            && (r == Some(BudgetExhausted) <==> matches && h.remainingTurns <= 0)
  {
  }

  /** The two gates agree: a parked envelope resumes on its own executor exactly until its deadline. */
  lemma ParkGateImpliesResumeGate(e: EnvelopeValue, now: Time)
    requires Validate(e).None?
    ensures forall c :: c in e.Calls() ==> c.id != ""
    ensures ValidateForResume(e, e.header.provider, e.header.model, e.header.configDigest, now).None?
            <==> !PastDeadline(e, now)
  {
    FirstEmptyIDFindsTheFirst(e.Calls(), 0);
  }

  /** Exactly which ask-a-friend suspensions can be parked: none from the final turn. */
  lemma AskAFriendParksIff(provider: string, model: string, digest: string, turn: int, maxTurns: int,
                           call: CallValue, ps: Option<Bytes>, ls: Option<Bytes>, traceID: string)
    ensures Validate(NewAskAFriendEnvelope(provider, model, digest, turn, maxTurns, call, ps, ls, traceID)).None?
            <==> turn + 1 < maxTurns && digest != "" && ps.Some? && ps.value != [] && call.id != ""
    ensures var e := NewAskAFriendEnvelope(provider, model, digest, turn, maxTurns, call, ps, ls, traceID);
            && e.header.provider == provider && e.header.model == model && e.header.configDigest == digest
            && e.header.turn == turn && e.header.remainingTurns == (if turn + 1 < maxTurns then maxTurns - turn - 1 else 0)
            && e.header.traceID == traceID && e.Calls() == [call] && e.providerState == ps && e.loopState == ls
  {
    var e := NewAskAFriendEnvelope(provider, model, digest, turn, maxTurns, call, ps, ls, traceID);
    FirstEmptyIDFindsTheFirst(e.Calls(), 0);
    assert e.Calls()[0] == call;
  }
}
