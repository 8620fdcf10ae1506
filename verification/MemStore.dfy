/** agents/checkpoint/memstore over heap envelopes: compare-and-swap claims, and no memory shared with callers. */
module StoreSpec {
  import opened Wrappers
  import opened Checkpoint

  datatype Entry = Entry(env: EnvelopeValue, gen: nat)

  /** What a checkpoint store holds: at most one envelope a key, stamped with a store-wide generation. */
  datatype Store = Store(gen: nat, parked: map<Key, Entry>) {
    function Save(key: Key, env: EnvelopeValue): Store {
      Store(gen + 1, parked[key := Entry(env, gen + 1)])
    }

    /** `tok` is the current token of `key`. */
    predicate Current(key: Key, tok: nat) {
      key in parked && parked[key].gen == tok
    }

    /** The store after a Delete; the claim succeeds exactly when the token was Current. */
    function Delete(key: Key, tok: nat): Store {
      if Current(key, tok) then this.(parked := parked - {key}) else this
    }
  }
}

module MemStore {
  import opened Wrappers
  import opened Checkpoint
  import StoreSpec

  /** Memory behind a raw-JSON slice that may be nil. */
  ghost function RawValue(a: array?<byte>): Option<Bytes>
    reads if a == null then {} else {a}
  {
    if a == null then None else Some(a[..])
  }

  function Owned(a: array?<byte>): set<object> {
    if a == null then {} else {a as object}
  }

  /** slices.Clone: nil stays nil, anything else gets memory of its own. */
  method CloneBytes(a: array?<byte>) returns (r: array?<byte>)
    ensures r == null <==> a == null
    ensures r != null ==> fresh(r) && r[..] == a[..]
  {
    if a == null {
      return null;
    }
    r := new byte[a.Length];
    for i := 0 to a.Length
      invariant r[..i] == a[..i]
    {
      r[i] := a[i];
    }
    assert r[..] == r[..a.Length] == a[..];
  }

  datatype PendingToolCall = PendingToolCall(id: string, name: string, inputJSON: array?<byte>)

  ghost function CallOf(p: PendingToolCall): CallValue
    reads Owned(p.inputJSON)
  {
    CallValue(p.id, p.name, RawValue(p.inputJSON))
  }

  function CallMemory(calls: seq<PendingToolCall>): set<object> {
    set i | 0 <= i < |calls| && calls[i].inputJSON != null :: calls[i].inputJSON as object
  }

  ghost function CallValues(calls: seq<PendingToolCall>): seq<CallValue>
    reads CallMemory(calls)
  {
    seq(|calls|, i requires 0 <= i < |calls| reads CallMemory(calls) =>
      assert calls[i].inputJSON != null ==> calls[i].inputJSON in CallMemory(calls);
      CallOf(calls[i]))
  }

  /** The pending-call slice of an envelope, nil or not. */
  ghost function PendingMemory(a: array?<PendingToolCall>): set<object>
    reads if a == null then {} else {a}
  {
    if a == null then {} else {a as object} + CallMemory(a[..])
  }

  ghost function PendingValue(a: array?<PendingToolCall>): Option<seq<CallValue>>
    reads PendingMemory(a)
  {
    if a == null then None else Some(CallValues(a[..]))
  }

  /** Allocation elsewhere leaves a pending-call slice alone. */
  twostate lemma PendingFrame(a: array?<PendingToolCall>)
    requires a != null ==> unchanged(a)
    requires a != null ==> forall i :: 0 <= i < a.Length && a[i].inputJSON != null ==> unchanged(a[i].inputJSON)
    ensures PendingMemory(a) == old(PendingMemory(a)) && PendingValue(a) == old(PendingValue(a))
  {
    if a != null {
      assert a[..] == old(a[..]);
      assert CallValues(a[..]) == old(CallValues(a[..]));
    }
  }

  method ClonePending(src: array?<PendingToolCall>) returns (dst: array?<PendingToolCall>)
    ensures fresh(PendingMemory(dst))
    ensures PendingValue(dst) == PendingValue(src) == old(PendingValue(src))
  {
    if src == null {
      return null;
    }
    var blank := PendingToolCall("", "", null);
    dst := new PendingToolCall[src.Length](_ => blank);
    for i := 0 to src.Length
      invariant fresh(dst) && src[..] == old(src[..])
      invariant forall j :: 0 <= j < i && dst[j].inputJSON != null ==> fresh(dst[j].inputJSON)
      invariant forall j :: 0 <= j < i ==> CallOf(dst[j]) == CallOf(src[j])
      invariant forall j :: 0 <= j < src.Length ==> CallOf(src[j]) == old(CallOf(src[j]))
      invariant forall j :: i <= j < src.Length ==> dst[j].inputJSON == null
    {
      var input := CloneBytes(src[i].inputJSON);
      dst[i] := src[i].(inputJSON := input);
    }
    assert CallValues(dst[..]) == CallValues(src[..]);
    PendingFrame(src);
  }

  class Envelope {
    var header: Header
    var pending: array?<PendingToolCall>
    var providerState: array?<byte>
    var loopState: array?<byte>

    constructor (header: Header, pending: array?<PendingToolCall>, providerState: array?<byte>, loopState: array?<byte>)
      ensures this.header == header && this.pending == pending
      ensures this.providerState == providerState && this.loopState == loopState
    {
      this.header, this.pending := header, pending;
      this.providerState, this.loopState := providerState, loopState;
    }

    /** Every object a write could reach through this envelope. */
    ghost function Footprint(): (r: set<object>)
      reads this, pending
      ensures this in r && (pending != null ==> pending in r)
    {
      {this} + PendingMemory(pending) + Owned(providerState) + Owned(loopState)
    }

    ghost function Value(): (r: EnvelopeValue)
      reads this, pending, Footprint()
      ensures r.header == header
    {
      EnvelopeValue(header, PendingValue(pending), RawValue(providerState), RawValue(loopState))
    }

    method SetHeader(h: Header)
      modifies this`header
      ensures header == h && Value() == old(Value()).(header := h) && Footprint() == old(Footprint())
    {
      header := h;
      PendingFrame(pending);
    }

    /** The three slices Envelope.Clone copies. */
    method CloneSlices()
      returns (calls: array?<PendingToolCall>, ps: array?<byte>, ls: array?<byte>)
      ensures PendingValue(calls) == PendingValue(pending) == old(PendingValue(pending)) && fresh(PendingMemory(calls))
      ensures RawValue(ps) == RawValue(providerState) && fresh(Owned(ps))
      ensures RawValue(ls) == RawValue(loopState) && fresh(Owned(ls))
    {
      ps := CloneBytes(providerState);
      ls := CloneBytes(loopState);
      label sliced:
      calls := ClonePending(pending);
      PendingFrame@sliced(pending);
    }

    /** Envelope.Clone: the same value in memory that nobody else can reach. */
    method Clone() returns (cp: Envelope)
      ensures cp.Value() == old(Value())
      ensures fresh(cp.Footprint())
    {
      var calls, ps, ls := CloneSlices();
      label copied:
      cp := new Envelope(header, calls, ps, ls);
      PendingFrame@copied(calls);
      PendingFrame@copied(pending);
    }
  }

  /** An envelope keeps its value while nothing in its footprint is written. */
  twostate lemma EnvelopeFrame(e: Envelope)
    requires unchanged(old(e.Footprint()))
    ensures e.Footprint() == old(e.Footprint()) && e.Value() == old(e.Value())
  {
  }

  datatype Slot = Slot(env: Envelope, gen: nat)

  /** Every envelope of the table lives in `mem`. */
  ghost predicate Owns(m: map<Key, Slot>, mem: set<object>)
    reads mem
  {
    forall k :: k in m ==>
      var e := m[k].env;
      e in mem && (e.pending != null ==> e.pending in mem) && e.Footprint() <= mem
  }

  ghost function Values(m: map<Key, Slot>, mem: set<object>): (r: map<Key, StoreSpec.Entry>)
    requires Owns(m, mem)
    reads mem
    ensures r.Keys == m.Keys && forall k :: k in m ==> r[k].gen == m[k].gen
  {
    map k | k in m :: StoreSpec.Entry(m[k].env.Value(), m[k].gen)
  }

  lemma ValuesGrow(m: map<Key, Slot>, mem: set<object>, key: Key, slot: Slot, mem': set<object>)
    requires Owns(m, mem) && mem <= mem' && slot.env.Footprint() <= mem'
    ensures Owns(m[key := slot], mem')
    ensures Values(m[key := slot], mem') == Values(m, mem)[key := StoreSpec.Entry(slot.env.Value(), slot.gen)]
  {
  }

  lemma ValuesShrink(m: map<Key, Slot>, mem: set<object>, key: Key)
    requires Owns(m, mem)
    ensures Owns(m - {key}, mem)
    ensures Values(m - {key}, mem) == Values(m, mem) - {key}
  {
  }

  class Store {
    var gen: nat
    var m: map<Key, Slot>
    ghost var mem: set<object>

    ghost predicate Valid()
      reads this, mem
    {
      this !in mem && Owns(m, mem)
    }

    ghost function Contents(): StoreSpec.Store
      requires Valid()
      reads this, mem
    {
      StoreSpec.Store(gen, Values(m, mem))
    }

    constructor ()
      ensures Valid() && mem == {}
      ensures Contents() == StoreSpec.Store(0, map[])
    {
      gen, m, mem := 0, map[], {};
    }

    /** Stores a deep copy, so the caller keeps `env` and the store keeps its value. */
    method Save(key: Key, env: Envelope)
      requires Valid()
      modifies this
      ensures Valid() && mem >= old(mem) && fresh(mem - old(mem))
      ensures Contents() == old(Contents()).Save(key, old(env.Value()))
    {
      hide Owns, Values, Envelope.Footprint, Envelope.Value;
      var copy := env.Clone();
      ghost var mem' := mem + copy.Footprint();
      ValuesGrow(m, mem, key, Slot(copy, gen + 1), mem');
      label ready:
      gen := gen + 1;
      m := m[key := Slot(copy, gen)];
      mem := mem';
      assert Values(m, mem') == old@ready(Values(m[key := Slot(copy, gen + 1)], mem'));
    }

    /** Hands out a deep copy with its token: nothing the caller gets reaches the store's memory. */
    method Load(key: Key) returns (env: Envelope?, tok: nat, ok: bool)
      requires Valid()
      ensures ok <==> key in Contents().parked
      ensures ok ==> env != null && fresh(env.Footprint())
                     && StoreSpec.Entry(env.Value(), tok) == Contents().parked[key]
    {
      if key !in m {
        return null, 0, false;
      }
      env := m[key].env.Clone();
      tok, ok := m[key].gen, true;
    }

    /** The claim primitive. */
    method Delete(key: Key, tok: nat) returns (claimed: bool)
      requires Valid()
      modifies this`m
      ensures Valid()
      ensures claimed <==> old(Contents()).Current(key, tok)
      ensures Contents() == old(Contents()).Delete(key, tok)
    {
      hide Values, Owns;
      if key !in m || m[key].gen != tok {
        return false;
      }
      ValuesShrink(m, mem, key);
      m := m - {key};
      return true;
    }
  }

  /** A store keeps its contents while neither it nor its memory is written. */
  twostate lemma ContentsFrame(s: Store)
    requires old(s.Valid()) && unchanged(s) && unchanged(old(s.mem))
    ensures s.Valid() && s.Contents() == old(s.Contents())
  {
  }
}
