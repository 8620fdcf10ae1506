/** Runs of conditional writes on one bucket. */
module BlobRuns {
  import opened Wrappers
  import opened BlobSpec

  datatype Op = PutOp(name: Name, data: Option<Bytes>, cond: Cond) | DeleteOp(name: Name, ifGen: int)

  function Apply(b: Bucket, op: Op): Bucket {
    match op
    case PutOp(name, data, cond) => b.Put(name, data, cond)
    case DeleteOp(name, ifGen) => b.Delete(name, ifGen)
  }

  function After(b: Bucket, ops: seq<Op>): Bucket
    decreases |ops|
  {
    if ops == [] then b else After(Apply(b, ops[0]), ops[1..])
  }

  /** Generations handed out so far are positive and below the next one. */
  ghost predicate Inv(b: Bucket) {
    b.nextGen > 0 && forall n :: n in b.objects ==> 0 < b.objects[n].gen < b.nextGen
  }

  /** `gen` is spent for `name`: no object of that name carries it, now or ever again. */
  ghost predicate Spent(b: Bucket, name: Name, gen: nat) {
    gen < b.nextGen && (name in b.objects ==> b.objects[name].gen != gen)
  }

  /** `ops[k]` writes or removes `name`. */
  ghost predicate Touches(b: Bucket, ops: seq<Op>, k: nat, name: Name)
    requires k < |ops|
  {
    var before := After(b, ops[..k]);
    ops[k].name == name && Apply(before, ops[k]) != before
  }

  lemma {:induction false} SpentStays(b: Bucket, ops: seq<Op>, name: Name, gen: nat)
    requires Spent(b, name, gen)
    ensures Spent(After(b, ops), name, gen)
    decreases |ops|
  {
    if ops != [] {
      SpentStays(Apply(b, ops[0]), ops[1..], name, gen);
    }
  }

  lemma {:induction false} InvStays(b: Bucket, ops: seq<Op>)
    requires Inv(b)
    ensures Inv(After(b, ops))
    decreases |ops|
  {
    if ops != [] {
      InvStays(Apply(b, ops[0]), ops[1..]);
    }
  }

  lemma {:induction false} AfterPrefix(b: Bucket, ops: seq<Op>, k: nat)
    requires 0 < k <= |ops|
    ensures After(b, ops[..k]) == After(Apply(b, ops[0]), ops[1..][..k - 1])
  {
    assert ops[..k][1..] == ops[1..][..k - 1];
  }

  /**
   * Compare-and-swap: a write or delete conditional on a generation that was once current goes through exactly when
   * no operation in between has touched the object, which then still is what was read.
   */
  lemma {:induction false} CasIffUntouched(b: Bucket, ops: seq<Op>, name: Name)
    requires Inv(b) && name in b.objects
    ensures var gen, now := b.objects[name].gen, After(b, ops);
            && (now.Allows(name, Cond(false, gen)) <==> forall k :: 0 <= k < |ops| ==> !Touches(b, ops, k, name))
            && (now.Allows(name, Cond(false, gen)) <==> now.DeleteError(name, gen).None?)
            && (now.Allows(name, Cond(false, gen)) ==> now.objects[name] == b.objects[name])
    decreases |ops|
  {
    if ops != [] {
      var op := ops[0];
      var b1 := Apply(b, op);
      var gen := b.objects[name].gen;
      assert ops[..0] == [];
      assert Touches(b, ops, 0, name) <==> op.name == name && b1 != b;
      forall k | 0 < k < |ops|
        ensures Touches(b, ops, k, name) <==> Touches(b1, ops[1..], k - 1, name)
      {
        AfterPrefix(b, ops, k);
      }
      if Touches(b, ops, 0, name) {
        SpentStays(b1, ops[1..], name, gen);
      } else {
        CasIffUntouched(b1, ops[1..], name);
        assert forall k :: 0 <= k < |ops[1..]| ==>
            (Touches(b1, ops[1..], k, name) <==> Touches(b, ops, k + 1, name));
      }
    }
  }

  /** Of the create-only writes of one name, a second succeeds only after a delete of that name. */
  lemma {:induction false} CreateOnlyWinsOnce(b: Bucket, ops: seq<Op>, name: Name)
    requires name in b.objects && After(b, ops).Allows(name, Cond(true, 0))
    ensures exists k :: 0 <= k < |ops| && ops[k].DeleteOp? && Touches(b, ops, k, name)
    decreases |ops|
  {
    assert ops != [];
    var b1 := Apply(b, ops[0]);
    if name !in b1.objects {
      assert ops[..0] == [];
      assert Touches(b, ops, 0, name);
    } else {
      CreateOnlyWinsOnce(b1, ops[1..], name);
      var k :| 0 <= k < |ops[1..]| && ops[1..][k].DeleteOp? && Touches(b1, ops[1..], k, name);
      AfterPrefix(b, ops, k + 1);
      assert Touches(b, ops, k + 1, name);
    }
  }
}
