/** agents/promptbuilder's Build: a memoised walk over the graph of composed prompts, under a depth and a size budget. */
module Build {
  import opened Wrappers
  import opened Utf8
  import opened Template
  import opened Prompts

  const MAX_COMPOSITION_DEPTH := 100
  const MAX_BUILD_BYTES := 64 * 1024 * 1024

  datatype BuildError = UnboundName | MarshalFailed(msg: string) | TooDeep | TooBig | Internal(name: string)

  // ---------------------------------------------------------------- building without memo or budget

  /** Plain substitution over the token list. */
  function Fill(tokens: seq<Token>, values: map<string, string>): string
    requires Names(tokens) <= values.Keys
  {
    if tokens == [] then ""
    else (match tokens[0] case Text(x) => x case Hole(n) => values[n]) + Fill(tokens[1..], values)
  }

  /** What a prompt builds to when every binding is simply built again wherever it occurs; None if something fails. */
  ghost function Plain(lib: Library, id: nat): Option<string>
    requires WellFormed(lib) && id < |lib.prompts|
    decreases id, 2
  {
    var p := lib.prompts[id];
    assert PromptOk(lib.cc, p, id);
    if forall n :: n in p.bindings ==> PlainValue(lib, id, n).Some?
    then Some(Fill(Tokenize(lib.cc, p.template).tokens, PlainValues(lib, id)))
    else None
  }

  ghost function PlainValue(lib: Library, id: nat, name: string): Option<string>
    requires WellFormed(lib) && id < |lib.prompts| && name in lib.prompts[id].bindings
    decreases id, 0
  {
    assert PromptOk(lib.cc, lib.prompts[id], id);
    match lib.prompts[id].bindings[name]
    case Unbound => None
    case Literal(v) => Some(v)
    case Marshalled(out) => if out.Ok? then Some(out.value) else None
    case List(items, ordered) => Some(ListText(items, ordered, |items|))
    case Sub(c) => Plain(lib, c)
  }

  ghost function PlainValues(lib: Library, id: nat): (r: map<string, string>)
    requires WellFormed(lib) && id < |lib.prompts|
    requires forall n :: n in lib.prompts[id].bindings ==> PlainValue(lib, id, n).Some?
    ensures r.Keys == lib.prompts[id].bindings.Keys
    decreases id, 1
  {
    map n | n in lib.prompts[id].bindings :: PlainValue(lib, id, n).value
  }

  // ---------------------------------------------------------------- what a build costs

  function HoleBytes(tokens: seq<Token>, values: map<string, string>): nat
    requires Names(tokens) <= values.Keys
  {
    if tokens == [] then 0
    else (match tokens[0] case Text(_) => 0 case Hole(n) => ByteLen(values[n])) + HoleBytes(tokens[1..], values)
  }

  function TextBytes(tokens: seq<Token>): nat {
    if tokens == [] then 0
    else (match tokens[0] case Text(x) => ByteLen(x) case Hole(_) => 0) + TextBytes(tokens[1..])
  }

  /** The bytes one prompt is charged: its template, and every value at every placeholder it fills. */
  ghost function Cost(lib: Library, id: nat): nat
    requires WellFormed(lib) && id < |lib.prompts|
  {
    assert PromptOk(lib.cc, lib.prompts[id], id);
    if Plain(lib, id).Some?
    then ByteLen(lib.prompts[id].template)
         + HoleBytes(Tokenize(lib.cc, lib.prompts[id].template).tokens, PlainValues(lib, id))
    else 0
  }

  lemma {:induction false} FillBytes(tokens: seq<Token>, values: map<string, string>)
    requires Names(tokens) <= values.Keys
    ensures ByteLen(Fill(tokens, values)) == TextBytes(tokens) + HoleBytes(tokens, values)
  {
    if tokens != [] {
      FillBytes(tokens[1..], values);
      ByteLenConcat(match tokens[0] case Text(x) => x case Hole(n) => values[n], Fill(tokens[1..], values));
    }
  }

  lemma ByteLenAt(t: string, i: nat)
    requires i <= |t|
    ensures ByteLen(t) == ByteLen(t[..i]) + ByteLen(t[i..])
  {
    ByteLenConcat(t[..i], t[i..]);
    assert t == t[..i] + t[i..];
  }

  lemma SplitBytes(t: string, i: nat, j: nat)
    requires i <= j <= |t|
    ensures ByteLen(t) == ByteLen(t[..i]) + ByteLen(t[i..j]) + ByteLen(t[j..])
  {
    ByteLenAt(t[i..], j - i);
    ByteLenAt(t, i);
    assert t[i..][..j - i] == t[i..j] && t[i..][j - i..] == t[j..];
  }

  lemma TextBytesPair(text: string, name: string, rest: seq<Token>)
    ensures TextBytes([Text(text)] + ([Hole(name)] + rest)) == ByteLen(text) + TextBytes(rest)
  {
    var tail := [Hole(name)] + rest;
    assert tail[1..] == rest && ([Text(text)] + tail)[1..] == tail;
  }

  lemma {:induction false} TextWithinTemplate(cc: CharClass, t: string)
    requires Tokenize(cc, t).err.None?
    ensures TextBytes(Tokenize(cc, t).tokens) <= ByteLen(t)
    decreases |t|
  {
    hide Trim, IsName;
    var start := FindPair(t, '{');
    if t == "" {
    } else if start.None? {
      assert [Text(t)][1..] == [];
    } else {
      HoleEndBounds(t);
      var end := HoleEnd(t, start.value).value;
      TokenizeStep(cc, t, start.value, end);
      TextWithinTemplate(cc, t[end..]);
      TextBytesPair(t[..start.value], Trim(cc, t[start.value + 2..end - 2]), Tokenize(cc, t[end..]).tokens);
      SplitBytes(t, start.value, end);
    }
  }

  /** A prompt's output is no longer than what it was charged. */
  lemma OutputWithinCost(lib: Library, id: nat)
    requires WellFormed(lib) && id < |lib.prompts| && Plain(lib, id).Some?
    ensures ByteLen(Plain(lib, id).value) <= Cost(lib, id)
  {
    assert PromptOk(lib.cc, lib.prompts[id], id);
    var tokens := Tokenize(lib.cc, lib.prompts[id].template).tokens;
    FillBytes(tokens, PlainValues(lib, id));
    TextWithinTemplate(lib.cc, lib.prompts[id].template);
  }

  /** The lengths of the outputs of the prompts in `ids`, each counted once. */
  ghost function Lengths(lib: Library, ids: set<nat>, n: nat): nat
    requires WellFormed(lib) && n <= |lib.prompts|
  {
    if n == 0 then 0
    else Lengths(lib, ids, n - 1)
         + (if n - 1 in ids && Plain(lib, n - 1).Some? then ByteLen(Plain(lib, n - 1).value) else 0)
  }

  lemma {:induction false} LengthsWithinTotal(lib: Library, ids: set<nat>, n: nat)
    requires WellFormed(lib) && n <= |lib.prompts|
    ensures Lengths(lib, ids, n) <= SumUpTo(lib, ids, n)
  {
    hide Plain, Cost, WellFormed;
    if n > 0 {
      LengthsWithinTotal(lib, ids, n - 1);
      if Plain(lib, n - 1).Some? {
        OutputWithinCost(lib, n - 1);
      }
    }
  }

  /** `k` is composed into prompt `id` through binding `name`, at any depth. */
  ghost predicate Via(lib: Library, id: nat, name: string, k: nat)
    requires WellFormed(lib) && id < |lib.prompts| && name in lib.prompts[id].bindings
    decreases id, 0
  {
    assert PromptOk(lib.cc, lib.prompts[id], id);
    var b := lib.prompts[id].bindings[name];
    b.Sub? && (b.p == k || Reaches(lib, b.p, k))
  }

  ghost predicate Reaches(lib: Library, id: nat, k: nat)
    requires WellFormed(lib) && id < |lib.prompts|
    decreases id, 1
  {
    exists name :: name in lib.prompts[id].bindings && Via(lib, id, name, k)
  }

  lemma {:induction false} ReachesSmaller(lib: Library, id: nat, k: nat)
    requires WellFormed(lib) && id < |lib.prompts| && Reaches(lib, id, k)
    ensures k < id
    decreases id
  {
    assert PromptOk(lib.cc, lib.prompts[id], id);
    var name :| name in lib.prompts[id].bindings && Via(lib, id, name, k);
    var c := lib.prompts[id].bindings[name].p;
    if c != k {
      ReachesSmaller(lib, c, k);
    }
  }

  /** The distinct prompts composed into `id`. */
  ghost function Composed(lib: Library, id: nat): set<nat>
    requires WellFormed(lib) && id < |lib.prompts|
  {
    set k | 0 <= k < id && Reaches(lib, id, k)
  }

  ghost function SumUpTo(lib: Library, ids: set<nat>, n: nat): nat
    requires WellFormed(lib) && n <= |lib.prompts|
  {
    if n == 0 then 0 else SumUpTo(lib, ids, n - 1) + (if n - 1 in ids then Cost(lib, n - 1) else 0)
  }

  /** The cost of a set of prompts, each counted once. */
  ghost function Total(lib: Library, ids: set<nat>): nat
    requires WellFormed(lib)
  {
    SumUpTo(lib, ids, |lib.prompts|)
  }

  lemma {:induction false} SumMonotone(lib: Library, a: set<nat>, b: set<nat>, n: nat)
    requires WellFormed(lib) && n <= |lib.prompts| && a <= b
    ensures SumUpTo(lib, a, n) <= SumUpTo(lib, b, n)
  {
    if n > 0 {
      SumMonotone(lib, a, b, n - 1);
    }
  }

  lemma {:induction false} SumInsert(lib: Library, a: set<nat>, k: nat, n: nat)
    requires WellFormed(lib) && n <= |lib.prompts| && k !in a && k < |lib.prompts|
    ensures SumUpTo(lib, a + {k}, n) == SumUpTo(lib, a, n) + (if k < n then Cost(lib, k) else 0)
  {
    if n > 0 {
      SumInsert(lib, a, k, n - 1);
    }
  }

  /** Every path of compositions below `id` has at most `d` links. */
  ghost predicate NestsWithin(lib: Library, id: nat, d: int)
    requires WellFormed(lib) && id < |lib.prompts|
    decreases id
  {
    assert PromptOk(lib.cc, lib.prompts[id], id);
    d >= 0 && forall n :: n in lib.prompts[id].bindings && lib.prompts[id].bindings[n].Sub?
                          ==> NestsWithin(lib, lib.prompts[id].bindings[n].p, d - 1)
  }

  // ---------------------------------------------------------------- the budgeted fill

  /** build's resolver: charges a value at every occurrence. */
  function Spend(values: map<string, string>, bytes: nat, name: string): (nat, Result<string, BuildError>) {
    if name !in values then (bytes, Err(Internal(name)))
    else
      var b := bytes + ByteLen(values[name]);
      if b > MAX_BUILD_BYTES then (b, Err(TooBig)) else (b, Ok(values[name]))
  }

  function Spender(values: map<string, string>): Resolver<nat, BuildError> {
    (bytes: nat, name: string) => Spend(values, bytes, name)
  }

  lemma {:induction false} SpenderFills(tokens: seq<Token>, values: map<string, string>, bytes: nat, out: string)
    requires Names(tokens) <= values.Keys && bytes <= MAX_BUILD_BYTES
    ensures var r := Resolve(tokens, Spender(values), bytes, out);
            if bytes + HoleBytes(tokens, values) <= MAX_BUILD_BYTES
            then r == (bytes + HoleBytes(tokens, values), Ok(out + Fill(tokens, values)))
            else r.1 == Err(TooBig)
    decreases |tokens|
  {
    if tokens == [] {
      assert out + Fill(tokens, values) == out;
    } else {
      match tokens[0]
      case Text(x) =>
        SpenderFills(tokens[1..], values, bytes, out + x);
        assert out + x + Fill(tokens[1..], values) == out + Fill(tokens, values);
      case Hole(n) =>
        var v := values[n];
        if bytes + ByteLen(v) <= MAX_BUILD_BYTES {
          SpenderFills(tokens[1..], values, bytes + ByteLen(v), out + v);
          assert out + v + Fill(tokens[1..], values) == out + Fill(tokens, values);
        }
    }
  }

  // ---------------------------------------------------------------- the build

  class BuildState {
    var depth: int
    var bytes: nat
    var memo: map<nat, string>

    constructor ()
      ensures depth == 0 && bytes == 0 && memo == map[]
    {
      depth, bytes, memo := 0, 0, map[];
    }
  }

  /** Every memo entry is the plain output of its prompt, and nothing composed into it is missing. */
  ghost predicate MemoOk(lib: Library, memo: map<nat, string>)
    requires WellFormed(lib)
  {
    forall k :: k in memo ==>
      k < |lib.prompts| && Plain(lib, k) == Some(memo[k]) && Composed(lib, k) <= memo.Keys
  }

  /** The memo's keys once binding `name` of `id` has been evaluated. */
  ghost function WithVia(lib: Library, keys: set<nat>, id: nat, name: string): set<nat>
    requires WellFormed(lib) && id < |lib.prompts| && name in lib.prompts[id].bindings
  {
    keys + set k | 0 <= k < id && Via(lib, id, name, k)
  }

  lemma ViaOfSub(lib: Library, keys: set<nat>, id: nat, name: string)
    requires WellFormed(lib) && id < |lib.prompts| && name in lib.prompts[id].bindings
    ensures PromptOk(lib.cc, lib.prompts[id], id)
    ensures var b := lib.prompts[id].bindings[name];
            WithVia(lib, keys, id, name) == if b.Sub? then keys + {b.p} + Composed(lib, b.p) else keys
  {
    assert PromptOk(lib.cc, lib.prompts[id], id);
    var b := lib.prompts[id].bindings[name];
    if b.Sub? {
      forall k: nat
        ensures k in WithVia(lib, keys, id, name) <==> k in keys + {b.p} + Composed(lib, b.p)
      {
        if Reaches(lib, b.p, k) {
          ReachesSmaller(lib, b.p, k);
        }
      }
    }
  }

  /** What it takes for a build of `id` to go through from a memo that holds `keys`, whatever the iteration order. */
  ghost predicate CanBuild(lib: Library, id: nat, keys: set<nat>, bytes: nat, depth: int)
    requires WellFormed(lib) && id < |lib.prompts|
  {
    && Plain(lib, id).Some?
    && NestsWithin(lib, id, MAX_COMPOSITION_DEPTH - depth)
    && bytes + Total(lib, keys + Composed(lib, id)) - Total(lib, keys) + Cost(lib, id) <= MAX_BUILD_BYTES
  }

  ghost predicate CanValue(lib: Library, id: nat, name: string, keys: set<nat>, bytes: nat, depth: int)
    requires WellFormed(lib) && id < |lib.prompts| && name in lib.prompts[id].bindings
  {
    ViaOfSub(lib, keys, id, name);
    && PlainValue(lib, id, name).Some?
    && (lib.prompts[id].bindings[name].Sub? ==>
          NestsWithin(lib, lib.prompts[id].bindings[name].p, MAX_COMPOSITION_DEPTH - depth - 1))
    && bytes + Total(lib, WithVia(lib, keys, id, name)) - Total(lib, keys) <= MAX_BUILD_BYTES
  }

  /** Building a composed prompt that is not in the memo costs what its binding costs. */
  lemma CanValueMeansCanBuild(lib: Library, id: nat, name: string, keys: set<nat>, bytes: nat, depth: int)
    requires WellFormed(lib) && id < |lib.prompts| && name in lib.prompts[id].bindings
    requires lib.prompts[id].bindings[name].Sub? && lib.prompts[id].bindings[name].p !in keys
    ensures PromptOk(lib.cc, lib.prompts[id], id)
    ensures var c := lib.prompts[id].bindings[name].p;
            Total(lib, WithVia(lib, keys, id, name)) == Total(lib, keys + Composed(lib, c)) + Cost(lib, c) &&
            (CanValue(lib, id, name, keys, bytes, depth) ==> CanBuild(lib, c, keys, bytes, depth + 1))
  {
    ViaOfSub(lib, keys, id, name);
    var c := lib.prompts[id].bindings[name].p;
    SumInsert(lib, keys + Composed(lib, c), c, |lib.prompts|);
    assert keys + {c} + Composed(lib, c) == keys + Composed(lib, c) + {c};
  }

  /** A memo stays good when a freshly built prompt is added to it. */
  lemma MemoGrows(lib: Library, memo: map<nat, string>, c: nat, out: string)
    requires WellFormed(lib) && MemoOk(lib, memo) && c < |lib.prompts|
    requires Plain(lib, c) == Some(out) && Composed(lib, c) <= memo.Keys
    ensures MemoOk(lib, memo[c := out])
  {
  }

  lemma MemoHit(lib: Library, memo: map<nat, string>, c: nat)
    requires WellFormed(lib) && MemoOk(lib, memo) && c in memo
    ensures c < |lib.prompts| && Plain(lib, c) == Some(memo[c]) && memo.Keys + {c} + Composed(lib, c) == memo.Keys
  {
  }

  /** promptBinding.value for a composed prompt; the other bindings do not touch the state. */
  method BindingValue(lib: Library, id: nat, name: string, st: BuildState) returns (r: Result<string, BuildError>)
    requires WellFormed(lib) && id < |lib.prompts| && name in lib.prompts[id].bindings
    requires MemoOk(lib, st.memo) && st.bytes <= MAX_BUILD_BYTES
    modifies st
    ensures st.depth == old(st.depth)
    ensures r.Ok? ==>
              && PlainValue(lib, id, name) == Some(r.value)
              && MemoOk(lib, st.memo) && st.memo.Keys == WithVia(lib, old(st.memo.Keys), id, name)
              && st.bytes == old(st.bytes) + Total(lib, st.memo.Keys) - Total(lib, old(st.memo.Keys))
              && st.bytes <= MAX_BUILD_BYTES
    ensures CanValue(lib, id, name, old(st.memo.Keys), old(st.bytes), old(st.depth)) ==> r.Ok?
    decreases id, 0
  {
    hide MemoOk, WithVia, Composed, Total, NestsWithin, WellFormed, PromptOk, CanBuild, Plain;
    ghost var keys := st.memo.Keys;
    ViaOfSub(lib, keys, id, name);
    match lib.prompts[id].bindings[name]
    case Unbound => return Err(UnboundName);
    case Literal(v) => return Ok(v);
    case Marshalled(out) => return if out.Ok? then Ok(out.value) else Err(MarshalFailed(out.error));
    case List(items, ordered) =>
      var text := ListValue(items, ordered);
      return Ok(text);
    case Sub(c) =>
      if c in st.memo {
        MemoHit(lib, st.memo, c);
        return Ok(st.memo[c]);
      }
      CanValueMeansCanBuild(lib, id, name, keys, st.bytes, st.depth);
      st.depth := st.depth + 1;
      r := BuildNode(lib, c, st);
      st.depth := st.depth - 1;
      if r.Ok? {
        MemoGrows(lib, st.memo, c, r.value);
        st.memo := st.memo[c := r.value];
        assert st.memo.Keys == keys + {c} + Composed(lib, c);
      }
  }

  /** The state of a build of `id` once the bindings `done` have been evaluated. */
  ghost predicate Partway(lib: Library, id: nat, done: set<string>, keys: set<nat>, memo: set<nat>)
    requires WellFormed(lib) && id < |lib.prompts| && done <= lib.prompts[id].bindings.Keys
  {
    && keys <= memo
    && (forall k :: k in memo ==> k in keys || (k < id && exists n :: n in done && Via(lib, id, n, k)))
    && (forall n, k :: n in done && 0 <= k < id && Via(lib, id, n, k) ==> k in memo)
  }

  lemma PartwayStep(lib: Library, id: nat, done: set<string>, keys: set<nat>, memo: set<nat>, name: string)
    requires WellFormed(lib) && id < |lib.prompts| && done <= lib.prompts[id].bindings.Keys
    requires name in lib.prompts[id].bindings && Partway(lib, id, done, keys, memo)
    ensures Partway(lib, id, done + {name}, keys, WithVia(lib, memo, id, name))
    ensures WithVia(lib, memo, id, name) <= keys + Composed(lib, id)
  {
  }

  lemma PartwayDone(lib: Library, id: nat, keys: set<nat>, memo: set<nat>)
    requires WellFormed(lib) && id < |lib.prompts|
    requires Partway(lib, id, lib.prompts[id].bindings.Keys, keys, memo)
    ensures memo == keys + Composed(lib, id)
  {
  }

  /** If the whole build fits, so does each binding, in whatever order they come. */
  lemma EachValueFits(lib: Library, id: nat, done: set<string>, keys: set<nat>, memo: set<nat>, name: string,
                      bytes0: nat, bytes: nat, depth: int)
    requires WellFormed(lib) && id < |lib.prompts| && done <= lib.prompts[id].bindings.Keys
    requires name in lib.prompts[id].bindings && Partway(lib, id, done, keys, memo)
    requires bytes == bytes0 + Total(lib, memo) - Total(lib, keys)
    requires CanBuild(lib, id, keys, bytes0, depth)
    ensures CanValue(lib, id, name, memo, bytes, depth)
  {
    PartwayStep(lib, id, done, keys, memo, name);
    SumMonotone(lib, WithVia(lib, memo, id, name), keys + Composed(lib, id), |lib.prompts|);
    assert NestsWithin(lib, id, MAX_COMPOSITION_DEPTH - depth);
  }

  /** The first half of build: every binding is evaluated, in any map iteration order. */
  method BuildValues(lib: Library, id: nat, st: BuildState) returns (values: map<string, string>, err: Option<BuildError>)
    requires WellFormed(lib) && id < |lib.prompts|
    requires MemoOk(lib, st.memo) && st.bytes <= MAX_BUILD_BYTES
    modifies st
    ensures st.depth == old(st.depth)
    ensures err.None? ==>
              && values.Keys == lib.prompts[id].bindings.Keys
              && (forall n :: n in values ==> PlainValue(lib, id, n) == Some(values[n]))
              && MemoOk(lib, st.memo) && st.memo.Keys == old(st.memo.Keys) + Composed(lib, id)
              && st.bytes == old(st.bytes) + Total(lib, st.memo.Keys) - Total(lib, old(st.memo.Keys))
              && st.bytes <= MAX_BUILD_BYTES
    ensures CanBuild(lib, id, old(st.memo.Keys), old(st.bytes), old(st.depth)) ==> err.None?
    decreases id, 1
  {
    hide MemoOk, WithVia, Composed, Total, NestsWithin, WellFormed, PromptOk, CanBuild, CanValue, Partway, PlainValue;
    ghost var keys, bytes0 := st.memo.Keys, st.bytes;
    values := map[];
    var todo := lib.prompts[id].bindings.Keys;
    PartwayInit(lib, id, keys);
    assert values.Keys == {};
    while todo != {}
      invariant todo <= lib.prompts[id].bindings.Keys && values.Keys == lib.prompts[id].bindings.Keys - todo
      invariant forall n :: n in values ==> PlainValue(lib, id, n) == Some(values[n])
      invariant MemoOk(lib, st.memo) && Partway(lib, id, values.Keys, keys, st.memo.Keys)
      invariant st.bytes == bytes0 + Total(lib, st.memo.Keys) - Total(lib, keys) && st.bytes <= MAX_BUILD_BYTES
      invariant st.depth == old(st.depth)
      decreases todo
    {
      var n :| n in todo;
      todo := todo - {n};
      PartwayStep(lib, id, values.Keys, keys, st.memo.Keys, n);
      if CanBuild(lib, id, keys, bytes0, st.depth) {
        EachValueFits(lib, id, values.Keys, keys, st.memo.Keys, n, bytes0, st.bytes, st.depth);
      }
      var v := BindingValue(lib, id, n, st);
      if v.Err? {
        return values, Some(v.error);
      }
      ghost var done := values.Keys;
      values := values[n := v.value];
      assert values.Keys == done + {n};
    }
    assert values.Keys == lib.prompts[id].bindings.Keys;
    PartwayDone(lib, id, keys, st.memo.Keys);
    err := None;
  }

  lemma PartwayInit(lib: Library, id: nat, keys: set<nat>)
    requires WellFormed(lib) && id < |lib.prompts|
    ensures Partway(lib, id, {}, keys, keys)
  {
  }

  /** With every value at hand, the output and its cost are the plain ones. */
  lemma ValuesMakePlain(lib: Library, id: nat, values: map<string, string>)
    requires WellFormed(lib) && id < |lib.prompts| && values.Keys == lib.prompts[id].bindings.Keys
    requires forall n :: n in values ==> PlainValue(lib, id, n) == Some(values[n])
    ensures var scan := Tokenize(lib.cc, lib.prompts[id].template);
            scan.err.None? && Names(scan.tokens) == values.Keys &&
            Plain(lib, id) == Some(Fill(scan.tokens, values)) &&
            Cost(lib, id) == ByteLen(lib.prompts[id].template) + HoleBytes(scan.tokens, values)
  {
    assert PromptOk(lib.cc, lib.prompts[id], id);
    assert values == PlainValues(lib, id);
  }

  /** build: the values, then one walk of the template. */
  method BuildNode(lib: Library, id: nat, st: BuildState) returns (r: Result<string, BuildError>)
    requires WellFormed(lib) && id < |lib.prompts|
    requires MemoOk(lib, st.memo) && st.bytes <= MAX_BUILD_BYTES
    modifies st
    ensures st.depth == old(st.depth)
    ensures r.Ok? ==>
              && Plain(lib, id) == Some(r.value)
              && MemoOk(lib, st.memo) && st.memo.Keys == old(st.memo.Keys) + Composed(lib, id)
              && st.bytes == old(st.bytes) + Total(lib, st.memo.Keys) - Total(lib, old(st.memo.Keys)) + Cost(lib, id)
              && st.bytes <= MAX_BUILD_BYTES
    ensures CanBuild(lib, id, old(st.memo.Keys), old(st.bytes), old(st.depth)) ==> r.Ok?
    decreases id, 2
  {
    hide MemoOk, Composed, Total, WellFormed, PromptOk, PlainValue, Plain, Cost, Tokenize, Resolve;
    if st.depth > MAX_COMPOSITION_DEPTH {
      return Err(TooDeep);
    }
    var p := lib.prompts[id];
    var values, err := BuildValues(lib, id, st);
    if err.Some? {
      return Err(err.value);
    }
    ValuesMakePlain(lib, id, values);
    st.bytes := st.bytes + ByteLen(p.template);
    if st.bytes > MAX_BUILD_BYTES {
      return Err(TooBig);
    }
    ghost var tokens := Tokenize(lib.cc, p.template).tokens;
    SpenderFills(tokens, values, st.bytes, "");
    assert "" + Fill(tokens, values) == Fill(tokens, values);
    var bytes, out := WalkTemplate(lib.cc, p.template, Spender(values), st.bytes);
    st.bytes := bytes;
    if out.Err? {
      return Err(out.error.error);
    }
    return Ok(out.value);
  }

  /**
   * Build. What it returns is the plain substitution; the lengths of that output and of every distinct composed output
   * together stay within the limit; and for prompts that nest at most 100 deep it succeeds, in every iteration order,
   * exactly when everything is bound and the per-occurrence total fits.
   */
  method BuildPrompt(lib: Library, id: nat) returns (r: Result<string, BuildError>)
    requires WellFormed(lib) && id < |lib.prompts|
    ensures r.Ok? ==> Plain(lib, id) == Some(r.value)
    ensures r.Ok? ==> ByteLen(r.value) + Lengths(lib, Composed(lib, id), |lib.prompts|) <= 64 * 1024 * 1024
    ensures NestsWithin(lib, id, 100) ==>
              (r.Ok? <==> Plain(lib, id).Some? && Total(lib, Composed(lib, id)) + Cost(lib, id) <= 64 * 1024 * 1024)
  {
    var st := new BuildState();
    ghost var none: set<nat> := st.memo.Keys;
    assert none == {} && none + Composed(lib, id) == Composed(lib, id);
    EmptyTotal(lib, |lib.prompts|);
    r := BuildNode(lib, id, st);
    LengthsWithinTotal(lib, Composed(lib, id), |lib.prompts|);
    if r.Ok? {
      OutputWithinCost(lib, id);
    }
  }

  lemma {:induction false} EmptyTotal(lib: Library, n: nat)
    requires WellFormed(lib) && n <= |lib.prompts|
    ensures SumUpTo(lib, {}, n) == 0
  {
    if n > 0 {
      EmptyTotal(lib, n - 1);
    }
  }
}
