/**
 * Store isolation for memstore: whatever its callers do with the memory they can reach, the store keeps its contents.
 */
module StoreIsolation {
  import opened Wrappers
  import opened Checkpoint
  import opened MemStore
  import StoreSpec

  /** Everybody who uses one store: `held` is all memory they ever allocated, passed in or were handed. */
  class Callers {
    const store: Store
    ghost var held: set<object>

    /** The store's memory is out of the callers' reach. */
    ghost predicate Valid()
      reads this, store, store.mem
    {
      store.Valid() && this !in held && this !in store.mem && store !in held && held !! store.mem
    }

    constructor ()
      ensures Valid() && held == {} && fresh(store) && store.Contents() == StoreSpec.Store(0, map[])
    {
      store := new Store();
      held := {};
    }

    method NewBytes(n: nat) returns (a: array<byte>)
      requires Valid()
      modifies this
      ensures Valid() && held == old(held) + {a} && fresh(a) && a.Length == n
      ensures store.Contents() == old(store.Contents())
    {
      hide Store.Valid, Store.Contents, Owns, Values;
      a := new byte[n](_ => 0);
      ContentsFrame(store);
      held := held + {a};
    }

    method NewCalls(n: nat) returns (a: array<PendingToolCall>)
      requires Valid()
      modifies this
      ensures Valid() && held == old(held) + {a} && fresh(a) && a.Length == n
      ensures store.Contents() == old(store.Contents())
    {
      var blank := PendingToolCall("", "", null);
      hide Store.Valid, Store.Contents, Owns, Values;
      a := new PendingToolCall[n](_ => blank);
      ContentsFrame(store);
      held := held + {a};
    }

    method NewEnvelope(header: Header) returns (e: Envelope)
      requires Valid()
      modifies this
      ensures Valid() && held == old(held) + {e} && fresh(e) && e.Footprint() == {e} && e.header == header
      ensures store.Contents() == old(store.Contents())
    {
      hide Store.Valid, Store.Contents, Owns, Values;
      e := new Envelope(header, null, null, null);
      ContentsFrame(store);
      held := held + {e};
    }

    /** Callers pass in what they hold, and keep it. */
    method Save(key: Key, env: Envelope)
      requires Valid() && env.Footprint() <= held
      modifies store
      ensures Valid() && held == old(held)
      ensures store.Contents() == old(store.Contents()).Save(key, old(env.Value()))
    {
      hide Owns, Values, Envelope.Footprint, Envelope.Value;
      store.Save(key, env);
    }

    /** What they are handed they hold from then on. */
    method Load(key: Key) returns (env: Envelope?, tok: nat, ok: bool)
      requires Valid()
      modifies this
      ensures Valid() && store.Contents() == old(store.Contents())
      ensures ok <==> key in store.Contents().parked
      ensures ok ==> env != null && held == old(held) + env.Footprint()
                     && StoreSpec.Entry(env.Value(), tok) == store.Contents().parked[key]
      ensures !ok ==> held == old(held)
    {
      hide Store.Valid, Store.Contents, Owns, Values, Envelope.Footprint, Envelope.Value;
      env, tok, ok := store.Load(key);
      label loaded:
      ContentsFrame(store);
      if ok {
        held := held + env.Footprint();
        EnvelopeFrame@loaded(env);
      }
    }

    method Delete(key: Key, tok: nat) returns (claimed: bool)
      requires Valid()
      modifies store`m
      ensures Valid() && held == old(held)
      ensures claimed <==> old(store.Contents()).Current(key, tok)
      ensures store.Contents() == old(store.Contents()).Delete(key, tok)
    {
      hide Owns, Values;
      claimed := store.Delete(key, tok);
    }
  }

  /**
   * Store isolation: callers may write whatever they hold, envelopes they saved and envelopes they loaded alike, and
   * allocate as they like; the store's contents, and so what a later Load returns, stay the same.
   */
  twostate lemma CallerWritesAreInvisible(c: Callers)
    requires old(c.Valid()) && unchanged(c)
    requires forall o: object :: old(allocated(o)) && o !in old(c.held) ==> unchanged(o)
    ensures c.Valid() && c.store.Contents() == old(c.store.Contents())
  {
    ContentsFrame(c.store);
  }

  /** One write a caller can make through what it holds. */
  datatype Write =
    | ByteAt(a: array<byte>, i: nat, b: byte)
    | CallAt(calls: array<PendingToolCall>, i: nat, c: PendingToolCall)
    | HeaderOf(e: Envelope, h: Header)
    | SlicesOf(e: Envelope, pending: array?<PendingToolCall>, providerState: array?<byte>, loopState: array?<byte>)
  {
    function Target(): object {
      match this
      case ByteAt(a, _, _) => a as object
      case CallAt(calls, _, _) => calls as object
      case HeaderOf(e, _) => e as object
      case SlicesOf(e, _, _, _) => e as object
    }
  }

  method Perform(c: Callers, w: Write)
    requires c.Valid() && w.Target() in c.held
    modifies w.Target()
    ensures c.Valid() && c.store.Contents() == old(c.store.Contents())
  {
    hide Store.Valid, Store.Contents, Owns, Values;
    match w {
      case ByteAt(a, i, b) => if i < a.Length { a[i] := b; }
      case CallAt(calls, i, p) => if i < calls.Length { calls[i] := p; }
      case HeaderOf(e, h) => e.header := h;
      case SlicesOf(e, pending, ps, ls) => e.pending, e.providerState, e.loopState := pending, ps, ls;
    }
    ContentsFrame(c.store);
  }

  /** A Save, any sequence of writes by the callers, a Load: what comes back is what the envelope was when saved. */
  method SaveWriteLoad(c: Callers, key: Key, env: Envelope, writes: seq<Write>)
    returns (back: Envelope?, tok: nat, ok: bool)
    requires c.Valid() && env.Footprint() <= c.held && forall w :: w in writes ==> w.Target() in c.held
    modifies c, c.store, c.held
    ensures c.Valid() && ok && back != null && back.Value() == old(env.Value()) && tok == old(c.store.gen) + 1
  {
    hide Store.Valid, Owns, Values, Envelope.Footprint, Envelope.Value;
    c.Save(key, env);
    ghost var saved := c.store.Contents();
    for i := 0 to |writes|
      invariant c.Valid() && c.store.Contents() == saved && c.held == old(c.held)
    {
      Perform(c, writes[i]);
    }
    back, tok, ok := c.Load(key);
  }
}

/** The same for the in-memory blob backend. */
module BlobIsolation {
  import opened Wrappers
  import opened BlobSpec
  import opened Blob
  import MemStore

  class Callers {
    const store: Mem
    ghost var held: set<object>

    /** The backend's memory is out of the callers' reach. */
    ghost predicate Valid()
      reads this, store, store.mem
    {
      store.Valid() && this !in held && this !in store.mem && store !in held && held !! store.mem
    }

    constructor ()
      ensures Valid() && held == {} && fresh(store) && store.Contents() == Bucket(1, map[])
    {
      store := new Mem();
      held := {};
    }

    method NewBytes(n: nat) returns (a: array<byte>)
      requires Valid()
      modifies this
      ensures Valid() && held == old(held) + {a} && fresh(a) && a.Length == n
      ensures store.Contents() == old(store.Contents())
    {
      hide Mem.Valid, Mem.Contents, Owns, Values;
      a := new byte[n](_ => 0);
      ContentsFrame(store);
      held := held + {a};
    }

    /** Callers pass in what they hold, and keep it. */
    method Put(name: Name, data: array?<byte>, cond: Cond) returns (r: Result<nat, Error>)
      requires Valid() && MemStore.Owned(data) <= held
      modifies store
      ensures Valid() && held == old(held)
      ensures r == if old(store.Contents()).Allows(name, cond) then Ok(old(store.nextGen)) else Err(PreconditionFailed)
      ensures store.Contents() == old(store.Contents()).Put(name, old(MemStore.RawValue(data)), cond)
    {
      hide Owns, Values;
      r := store.Put(name, data, cond);
    }

    /** What they are handed they hold from then on. */
    method Get(name: Name) returns (data: array?<byte>, gen: nat, ok: bool)
      requires Valid()
      modifies this
      ensures Valid() && held == old(held) + MemStore.Owned(data) && store.Contents() == old(store.Contents())
      ensures ok <==> name in store.Contents().objects
      ensures ok ==> Entry(MemStore.RawValue(data), gen) == store.Contents().objects[name]
    {
      hide Mem.Valid, Mem.Contents, Owns, Values;
      data, gen, ok := store.Get(name);
      ContentsFrame(store);
      held := held + MemStore.Owned(data);
    }

    method Delete(name: Name, ifGen: int) returns (err: Option<Error>)
      requires Valid()
      modifies store`objects
      ensures Valid() && held == old(held)
      ensures err == old(store.Contents()).DeleteError(name, ifGen)
      ensures store.Contents() == old(store.Contents()).Delete(name, ifGen)
    {
      hide Owns, Values;
      err := store.Delete(name, ifGen);
    }
  }

  /** Callers may write whatever they put and whatever they got: what a later Get returns stays the same. */
  twostate lemma CallerWritesAreInvisible(c: Callers)
    requires old(c.Valid()) && unchanged(c)
    requires forall o: object :: old(allocated(o)) && o !in old(c.held) ==> unchanged(o)
    ensures c.Valid() && c.store.Contents() == old(c.store.Contents())
  {
    ContentsFrame(c.store);
  }

  /** One write a caller can make through what it holds. */
  datatype Write = Write(a: array<byte>, i: nat, b: byte)

  method Perform(c: Callers, w: Write)
    requires c.Valid() && w.a in c.held
    modifies w.a
    ensures c.Valid() && c.store.Contents() == old(c.store.Contents())
  {
    hide Mem.Valid, Mem.Contents, Owns, Values;
    if w.i < w.a.Length {
      w.a[w.i] := w.b;
    }
    ContentsFrame(c.store);
  }

  /** A Put that lands, any sequence of writes by the callers, a Get: what comes back are the bytes as they were put. */
  method PutWriteGet(c: Callers, name: Name, data: array?<byte>, cond: Cond, writes: seq<Write>)
    returns (r: Result<nat, Error>, back: array?<byte>, gen: nat, ok: bool)
    requires c.Valid() && MemStore.Owned(data) <= c.held && forall w :: w in writes ==> w.a in c.held
    modifies c, c.store, c.held
    ensures c.Valid()
    ensures r.Ok? <==> old(c.store.Contents()).Allows(name, cond)
    ensures r.Ok? ==> ok && MemStore.RawValue(back) == old(MemStore.RawValue(data)) && gen == r.value
  {
    hide Mem.Valid, Owns, Values, MemStore.RawValue;
    r := c.Put(name, data, cond);
    ghost var put := c.store.Contents();
    for i := 0 to |writes|
      invariant c.Valid() && c.store.Contents() == put && c.held == old(c.held)
    {
      Perform(c, writes[i]);
    }
    back, gen, ok := c.Get(name);
  }
}
