/** What a build returns, said of the strings that were bound: the text around each placeholder and what stands there. */
module BuildResults {
  import opened Wrappers
  import opened Utf8
  import opened Template
  import opened Prompts
  import opened Build

  /** The template with every placeholder put down as the text given for it. */
  function WithValues(tokens: seq<Token>, values: map<string, string>): seq<Token> {
    seq(|tokens|, i requires 0 <= i < |tokens| =>
      if tokens[i].Text? then tokens[i]
      else if tokens[i].name in values then Text(values[tokens[i].name]) else Text(""))
  }

  lemma {:induction false} FillIsPrint(tokens: seq<Token>, values: map<string, string>)
    requires Names(tokens) <= values.Keys
    ensures Fill(tokens, values) == Print(WithValues(tokens, values))
  {
    if tokens != [] {
      FillIsPrint(tokens[1..], values);
      assert WithValues(tokens, values)[1..] == WithValues(tokens[1..], values);
    }
  }

  // ---------------------------------------------------------------- what a binding contributes

  function Lines(items: seq<string>, ordered: bool): seq<string> {
    seq(|items|, i requires 0 <= i < |items| => (if ordered then Decimal(i + 1) + ". " else "- ") + items[i])
  }

  /** The reference build, read off the bindings: what each kind of binding puts at its placeholders. */
  lemma PlainMeans(lib: Library, id: nat, values: map<string, string>)
    requires WellFormed(lib) && id < |lib.prompts| && values.Keys == lib.prompts[id].bindings.Keys
    requires forall n :: n in values ==>
               match lib.prompts[id].bindings[n]
               case Unbound => false
               case Literal(v) => values[n] == v
               case Marshalled(out) => out == Ok(values[n])
               case List(items, ordered) => values[n] == JoinLines(Lines(items, ordered))
               case Sub(c) => c < id && Plain(lib, c) == Some(values[n])
    ensures Plain(lib, id) == Some(Print(WithValues(Tokenize(lib.cc, lib.prompts[id].template).tokens, values)))
  {
    var p := lib.prompts[id];
    assert PromptOk(lib.cc, p, id);
    hide Tokenize, Names, Print, WithValues, Plain, Decimal, ListText, JoinLines;
    forall n | n in values
      ensures PlainValue(lib, id, n) == Some(values[n])
    {
      if p.bindings[n].List? {
        var b := p.bindings[n];
        ListTextIsLines(b.items, b.ordered, Lines(b.items, b.ordered));
      }
    }
    ValuesMakePlain(lib, id, values);
    FillIsPrint(Tokenize(lib.cc, p.template).tokens, values);
  }

  /** It fails with a name left unbound, with data that would not marshal, and with a composed prompt that fails. */
  lemma PlainFails(lib: Library, id: nat, name: string)
    requires WellFormed(lib) && id < |lib.prompts| && name in lib.prompts[id].bindings
    requires match lib.prompts[id].bindings[name]
             case Unbound => true
             case Marshalled(out) => out.Err?
             case Sub(c) => c < id && Plain(lib, c).None?
             case _ => false
    ensures Plain(lib, id).None?
  {
    assert PromptOk(lib.cc, lib.prompts[id], id);
    assert PlainValue(lib, id, name).None?;
  }

  /**
   * A build and the builds of the prompts bound in it: literals, marshalled data and list lines stand at their
   * placeholders as they were bound, and a composed prompt as exactly what it builds to by itself.
   */
  method BuildOfParts(lib: Library, id: nat)
    returns (r: Result<string, BuildError>, parts: map<string, Result<string, BuildError>>)
    requires WellFormed(lib) && id < |lib.prompts|
    ensures forall n :: n in parts <==> n in lib.prompts[id].bindings && lib.prompts[id].bindings[n].Sub?
    ensures r.Ok? ==> forall n :: n in lib.prompts[id].bindings ==>
              !lib.prompts[id].bindings[n].Unbound?
              && (lib.prompts[id].bindings[n].Marshalled? ==> lib.prompts[id].bindings[n].out.Ok?)
    ensures r.Ok? ==> forall values: map<string, string> ::
              values.Keys == lib.prompts[id].bindings.Keys
              && (forall n :: n in values ==>
                    match lib.prompts[id].bindings[n]
                    case Unbound => true
                    case Literal(v) => values[n] == v
                    case Marshalled(out) => out == Ok(values[n])
                    case List(items, ordered) => values[n] == JoinLines(Lines(items, ordered))
                    case Sub(_) => parts[n] == Ok(values[n]))
              ==> r.value == Print(WithValues(Tokenize(lib.cc, lib.prompts[id].template).tokens, values))
  {
    var p := lib.prompts[id];
    assert PromptOk(lib.cc, p, id);
    hide Tokenize, Names, Print, WithValues, Plain, Composed, Total, Cost, NestsWithin, Lengths, JoinLines, Lines;
    r := BuildPrompt(lib, id);
    parts := map[];
    var todo := set n | n in p.bindings && p.bindings[n].Sub?;
    while todo != {}
      invariant forall n :: n in todo ==> n in p.bindings && p.bindings[n].Sub?
      invariant forall n :: n in parts <==> n in p.bindings && p.bindings[n].Sub? && n !in todo
      invariant forall n :: n in parts && parts[n].Ok? ==>
                  p.bindings[n].p < id && Plain(lib, p.bindings[n].p) == Some(parts[n].value)
      decreases todo
    {
      var n :| n in todo;
      var part := BuildPrompt(lib, p.bindings[n].p);
      parts, todo := parts[n := part], todo - {n};
    }
    PartsMake(lib, id, r, parts);
  }

  lemma PartsMake(lib: Library, id: nat, r: Result<string, BuildError>, parts: map<string, Result<string, BuildError>>)
    requires WellFormed(lib) && id < |lib.prompts| && (r.Ok? ==> Plain(lib, id) == Some(r.value))
    requires forall n :: n in parts <==> n in lib.prompts[id].bindings && lib.prompts[id].bindings[n].Sub?
    requires forall n :: n in parts && parts[n].Ok? ==>
               lib.prompts[id].bindings[n].p < id && Plain(lib, lib.prompts[id].bindings[n].p) == Some(parts[n].value)
    ensures r.Ok? ==> forall n :: n in lib.prompts[id].bindings ==>
              !lib.prompts[id].bindings[n].Unbound?
              && (lib.prompts[id].bindings[n].Marshalled? ==> lib.prompts[id].bindings[n].out.Ok?)
    ensures r.Ok? ==> forall values: map<string, string> ::
              values.Keys == lib.prompts[id].bindings.Keys
              && (forall n :: n in values ==>
                    match lib.prompts[id].bindings[n]
                    case Unbound => true
                    case Literal(v) => values[n] == v
                    case Marshalled(out) => out == Ok(values[n])
                    case List(items, ordered) => values[n] == JoinLines(Lines(items, ordered))
                    case Sub(_) => parts[n] == Ok(values[n]))
              ==> r.value == Print(WithValues(Tokenize(lib.cc, lib.prompts[id].template).tokens, values))
  {
    var bindings := lib.prompts[id].bindings;
    hide Tokenize, Names, Print, WithValues, Plain, JoinLines, Lines, WellFormed, PromptOk;
    if r.Ok? {
      forall n | n in bindings
        ensures !bindings[n].Unbound? && (bindings[n].Marshalled? ==> bindings[n].out.Ok?)
      {
        if bindings[n].Unbound? || (bindings[n].Marshalled? && bindings[n].out.Err?) {
          PlainFails(lib, id, n);
        }
      }
      forall values: map<string, string> |
          values.Keys == bindings.Keys
          && (forall n :: n in values ==>
                match bindings[n]
                case Unbound => true
                case Literal(v) => values[n] == v
                case Marshalled(out) => out == Ok(values[n])
                case List(items, ordered) => values[n] == JoinLines(Lines(items, ordered))
                case Sub(_) => parts[n] == Ok(values[n]))
        ensures r.value == Print(WithValues(Tokenize(lib.cc, lib.prompts[id].template).tokens, values))
      {
        PlainMeans(lib, id, values);
      }
    }
  }

  // ---------------------------------------------------------------- what a build is charged

  /** The bytes one prompt is charged: its template, and its output less the text the template brought itself. */
  lemma CostMeans(lib: Library, id: nat)
    requires WellFormed(lib) && id < |lib.prompts| && Plain(lib, id).Some?
    ensures var template := lib.prompts[id].template;
            Cost(lib, id) == ByteLen(template) + ByteLen(Plain(lib, id).value)
                             - ByteLen(Print(WithValues(Tokenize(lib.cc, template).tokens, map[])))
  {
    assert PromptOk(lib.cc, lib.prompts[id], id);
    var tokens := Tokenize(lib.cc, lib.prompts[id].template).tokens;
    FillBytes(tokens, PlainValues(lib, id));
    TextIsPrint(tokens);
  }

  lemma {:induction false} TextIsPrint(tokens: seq<Token>)
    ensures ByteLen(Print(WithValues(tokens, map[]))) == TextBytes(tokens)
  {
    if tokens != [] {
      TextIsPrint(tokens[1..]);
      var shown := WithValues(tokens, map[]);
      assert shown[1..] == WithValues(tokens[1..], map[]);
      ByteLenConcat(shown[0].s, Print(shown[1..]));
    }
  }

  // ---------------------------------------------------------------- how deep prompts nest

  /** Each prompt of the path is bound in the one before it. */
  ghost predicate IsPath(lib: Library, path: seq<nat>) {
    forall i :: 0 <= i < |path| - 1 ==>
      path[i] < |lib.prompts| && exists n :: n in lib.prompts[path[i]].bindings
                                             && lib.prompts[path[i]].bindings[n] == Sub(path[i + 1])
  }

  /** Nesting at most `d` deep: no path of compositions has more than `d` links. */
  lemma NestsWithinIff(lib: Library, id: nat, d: nat)
    requires WellFormed(lib) && id < |lib.prompts|
    ensures NestsWithin(lib, id, d) <==> forall path: seq<nat> :: |path| == d + 2 && path[0] == id ==> !IsPath(lib, path)
  {
    hide NestsWithin, IsPath, WellFormed;
    if NestsWithin(lib, id, d) {
      forall path: seq<nat> | |path| == d + 2 && path[0] == id
        ensures !IsPath(lib, path)
      {
        NoLongPath(lib, id, d, path);
      }
    } else {
      var path := LongPath(lib, id, d);
    }
  }

  lemma {:induction false} NoLongPath(lib: Library, id: nat, d: nat, path: seq<nat>)
    requires WellFormed(lib) && id < |lib.prompts| && NestsWithin(lib, id, d)
    requires |path| == d + 2 && path[0] == id
    ensures !IsPath(lib, path)
    decreases d
  {
    hide NestsWithin, IsPath, WellFormed;
    if IsPath(lib, path) {
      var n := FirstLink(lib, path);
      NestsBelow(lib, id, d, n);
      PathTail(lib, path);
      NoLongPath(lib, path[1], d - 1, path[1..]);
    }
  }

  lemma NestsBelow(lib: Library, id: nat, d: nat, n: string)
    requires WellFormed(lib) && id < |lib.prompts| && NestsWithin(lib, id, d)
    requires n in lib.prompts[id].bindings && lib.prompts[id].bindings[n].Sub?
    ensures d > 0 && lib.prompts[id].bindings[n].p < id && NestsWithin(lib, lib.prompts[id].bindings[n].p, d - 1)
  {
    assert PromptOk(lib.cc, lib.prompts[id], id);
    assert NestsWithin(lib, lib.prompts[id].bindings[n].p, d - 1);
  }

  lemma FirstLink(lib: Library, path: seq<nat>) returns (n: string)
    requires |path| > 1 && IsPath(lib, path)
    ensures path[0] < |lib.prompts| && n in lib.prompts[path[0]].bindings
    ensures lib.prompts[path[0]].bindings[n] == Sub(path[1])
  {
    n :| n in lib.prompts[path[0]].bindings && lib.prompts[path[0]].bindings[n] == Sub(path[0 + 1]);
  }

  lemma {:induction false} LongPath(lib: Library, id: nat, d: nat) returns (path: seq<nat>)
    requires WellFormed(lib) && id < |lib.prompts| && !NestsWithin(lib, id, d)
    ensures |path| == d + 2 && path[0] == id && IsPath(lib, path)
    decreases d
  {
    var p := lib.prompts[id];
    assert PromptOk(lib.cc, p, id);
    var n :| n in p.bindings && p.bindings[n].Sub? && !NestsWithin(lib, p.bindings[n].p, d - 1);
    var rest: seq<nat> := [p.bindings[n].p];
    if d > 0 {
      rest := LongPath(lib, p.bindings[n].p, d - 1);
    } else {
      assert IsPath(lib, rest);
    }
    PathHead(lib, id, n, rest);
    path := [id] + rest;
  }

  lemma PathTail(lib: Library, path: seq<nat>)
    requires |path| > 1 && IsPath(lib, path)
    ensures IsPath(lib, path[1..])
  {
    var tail := path[1..];
    forall i | 0 <= i < |tail| - 1
      ensures tail[i] < |lib.prompts| && exists n :: n in lib.prompts[tail[i]].bindings
                                                     && lib.prompts[tail[i]].bindings[n] == Sub(tail[i + 1])
    {
      assert tail[i] == path[i + 1] && tail[i + 1] == path[i + 2];
    }
  }

  lemma PathHead(lib: Library, id: nat, n: string, path: seq<nat>)
    requires id < |lib.prompts| && n in lib.prompts[id].bindings && path != [] && IsPath(lib, path)
    requires lib.prompts[id].bindings[n] == Sub(path[0])
    ensures IsPath(lib, [id] + path)
  {
    var whole := [id] + path;
    forall i | 0 <= i < |whole| - 1
      ensures whole[i] < |lib.prompts| && exists m :: m in lib.prompts[whole[i]].bindings
                                                      && lib.prompts[whole[i]].bindings[m] == Sub(whole[i + 1])
    {
      if i > 0 {
        assert whole[i] == path[i - 1] && whole[i + 1] == path[i];
      }
    }
  }

  // ---------------------------------------------------------------- from template to text

  /** What a prompt made from `template` looks like once the names outside `left` are bound to their literals. */
  ghost predicate BoundSoFar(lib: Library, id: nat, template: string, values: map<string, string>, left: set<string>) {
    && WellFormed(lib) && id < |lib.prompts| && Tokenize(lib.cc, template).err.None?
    && lib.prompts[id].template == Print(Tokenize(lib.cc, template).tokens)
    && lib.prompts[id].bindings.Keys == Names(Tokenize(lib.cc, template).tokens) == values.Keys
    && left <= values.Keys
    && forall n :: n in values ==> lib.prompts[id].bindings[n] == if n in left then Unbound else Literal(values[n])
  }

  lemma BindLiteral(lib: Library, id: nat, template: string, values: map<string, string>, left: set<string>, n: string)
    requires BoundSoFar(lib, id, template, values, left) && n in left
    ensures var r := Bind(lib, id, n, Literal(values[n]), false);
            r.Ok? && r.value.0.cc == lib.cc && r.value.1 < |r.value.0.prompts| &&
            BoundSoFar(r.value.0, r.value.1, template, values, left - {n})
  {
    hide Tokenize, Print, Names;
    BindKeepsLibrary(lib, id, n, Literal(values[n]), false);
    BindsIff(lib, id, n, Literal(values[n]), false);
  }

  /**
   * From template to text: a prompt whose names are all bound to literals builds to its stored template with each
   * placeholder replaced by the string bound to it, exactly when template and replacements fit into 64 MiB.
   */
  method BuildLiterals(lib: Library, template: string, values: map<string, string>)
    returns (r: Result<string, BuildError>)
    requires WellFormed(lib) && Tokenize(lib.cc, template).err.None?
    requires values.Keys == Names(Tokenize(lib.cc, template).tokens)
    ensures var tokens := Tokenize(lib.cc, template).tokens;
            var text := Print(WithValues(tokens, values));
            && (r.Ok? ==> r.value == text)
            && (r.Ok? <==>
                  ByteLen(Print(tokens)) + ByteLen(text) - ByteLen(Print(WithValues(tokens, map[])))
                  <= 64 * 1024 * 1024)
  {
    hide Tokenize, Print, Names, WithValues, BoundSoFar, Plain, Cost, Total, Composed, NestsWithin, Lengths, WellFormed,
      Fresh, Add;
    var made := NewPrompt(lib, template);
    var lib': Library, id: nat := made.value.0, made.value.1;
    FreshIsBoundSoFar(lib, lib', id, template, values);
    var left := values.Keys;
    while left != {}
      invariant left <= values.Keys && lib'.cc == lib.cc && id < |lib'.prompts|
      invariant BoundSoFar(lib', id, template, values, left)
      decreases left
    {
      var n :| n in left;
      BindLiteral(lib', id, template, values, left, n);
      var bound := Bind(lib', id, n, Literal(values[n]), false);
      lib', id, left := bound.value.0, bound.value.1, left - {n};
    }
    LiteralsMake(lib', id, template, values);
    r := BuildPrompt(lib', id);
  }

  lemma FreshIsBoundSoFar(lib: Library, lib': Library, id: nat, template: string, values: map<string, string>)
    requires Tokenize(lib.cc, template).err.None? && values.Keys == Names(Tokenize(lib.cc, template).tokens)
    requires var tokens := Tokenize(lib.cc, template).tokens;
             (lib', id) == Add(lib, Prompt(Print(tokens), Fresh(Names(tokens)))) && WellFormed(lib')
    ensures lib'.cc == lib.cc && id < |lib'.prompts| && BoundSoFar(lib', id, template, values, values.Keys)
  {
    hide Tokenize, Print, Names, WellFormed;
  }

  lemma LiteralsMake(lib: Library, id: nat, template: string, values: map<string, string>)
    requires BoundSoFar(lib, id, template, values, {})
    ensures WellFormed(lib) && id < |lib.prompts|
    ensures var tokens := Tokenize(lib.cc, template).tokens;
            && Plain(lib, id) == Some(Print(WithValues(tokens, values)))
            && NestsWithin(lib, id, 100) && Total(lib, Composed(lib, id)) == 0
            && Cost(lib, id) == ByteLen(Print(tokens)) + ByteLen(Print(WithValues(tokens, values)))
                                - ByteLen(Print(WithValues(tokens, map[])))
  {
    assert PromptOk(lib.cc, lib.prompts[id], id);
    PrintTokenizes(lib.cc, template);
    NothingComposed(lib, id);
    hide Tokenize, Print, Names, WithValues, Plain, Cost, Total, Composed;
    PlainMeans(lib, id, values);
    CostMeans(lib, id);
  }

  lemma NothingComposed(lib: Library, id: nat)
    requires WellFormed(lib) && id < |lib.prompts|
    requires forall n :: n in lib.prompts[id].bindings ==> !lib.prompts[id].bindings[n].Sub?
    ensures Total(lib, Composed(lib, id)) == 0
  {
    assert forall k :: !Reaches(lib, id, k);
    assert Composed(lib, id) == {};
    EmptyTotal(lib, |lib.prompts|);
  }
}
