/** agents/promptbuilder: immutable prompts, numbered in the order they were made, so that a prompt binds only older ones. */
module Prompts {
  import opened Wrappers
  import opened Template

  datatype Binding =
    | Unbound
    | Literal(val: string)
    | Marshalled(out: Result<string, string>)          // what the XML, JSON or YAML marshaller makes of the data
    | List(items: seq<string>, ordered: bool)
    | Sub(p: nat)

  datatype Prompt = Prompt(template: string, bindings: map<string, Binding>)

  /** Every prompt made so far; an index is a *Prompt. */
  datatype Library = Library(cc: CharClass, prompts: seq<Prompt>)

  datatype PromptError =
    | BadPrompt(scan: ScanError) | NoSuchBinding | AlreadyBound | MultiLineItem(index: nat) | NilPrompt

  // ---------------------------------------------------------------- the invariant

  /** The template scans, the bindings are exactly its names, and bound list items are single lines. */
  predicate PromptOk(cc: CharClass, p: Prompt, id: nat) {
    var scan := Tokenize(cc, p.template);
    && scan.err.None? && p.bindings.Keys == Names(scan.tokens)
    && (forall n :: n in p.bindings && p.bindings[n].Sub? ==> p.bindings[n].p < id)
    && (forall n :: n in p.bindings && p.bindings[n].List? ==> AllSingleLine(p.bindings[n].items))
  }

  ghost predicate WellFormed(lib: Library) {
    lib.cc.Valid() && forall i :: 0 <= i < |lib.prompts| ==> PromptOk(lib.cc, lib.prompts[i], i)
  }

  // ---------------------------------------------------------------- making prompts

  /** NewPrompt's resolver: notes the name, and puts the placeholder back. */
  function Collect(m: map<string, Binding>, name: string): (map<string, Binding>, Result<string, ()>) {
    (if name in m then m else m[name := Unbound], Ok(Brace(name)))
  }

  function Add(lib: Library, p: Prompt): (Library, nat) {
    (lib.(prompts := lib.prompts + [p]), |lib.prompts|)
  }

  method NewPrompt(lib: Library, template: string) returns (r: Result<(Library, nat), PromptError>)
    requires WellFormed(lib)
    ensures r.Ok? <==> Tokenize(lib.cc, template).err.None?
    ensures r.Err? ==> r.error == BadPrompt(Tokenize(lib.cc, template).err.value)
    ensures r.Ok? ==>
              var (lib', id) := r.value;
              var p := Prompt(Print(Tokenize(lib.cc, template).tokens), Fresh(Names(Tokenize(lib.cc, template).tokens)));
              (lib', id) == Add(lib, p) && WellFormed(lib')
  {
    hide Tokenize, Resolve, IsName, WellFormed, PromptOk, Print, Names;
    ValidLibrary(lib);
    var m, out := WalkTemplate(lib.cc, template, Collect, map[]);
    ghost var scan := Tokenize(lib.cc, template);
    CollectMeans(scan.tokens, map[], "");
    assert "" + Print(scan.tokens) == Print(scan.tokens);
    if out.Err? {
      return Err(BadPrompt(out.error.scan));
    }
    PrintTokenizes(lib.cc, template);
    assert m == Fresh(Names(scan.tokens));
    AddKeepsWellFormed(lib, Prompt(out.value, m));
    r := Ok(Add(lib, Prompt(out.value, m)));
  }

  lemma ValidLibrary(lib: Library)
    requires WellFormed(lib)
    ensures lib.cc.Valid()
  {
  }

  lemma AddKeepsWellFormed(lib: Library, p: Prompt)
    requires WellFormed(lib) && Tokenize(lib.cc, p.template).err.None?
    requires p.bindings == Fresh(Names(Tokenize(lib.cc, p.template).tokens))
    ensures WellFormed(Add(lib, p).0)
  {
    hide Tokenize, Names;
  }

  function Fresh(names: set<string>): map<string, Binding> {
    map n | n in names :: Unbound
  }

  lemma {:induction false} CollectMeans(tokens: seq<Token>, m: map<string, Binding>, out: string)
    requires forall n :: n in m ==> m[n] == Unbound
    ensures var r := Resolve(tokens, Collect, m, out);
            r.1 == Ok(out + Print(tokens)) && r.0 == Fresh(m.Keys + Names(tokens))
    decreases |tokens|
  {
    if tokens == [] {
      assert m == Fresh(m.Keys + Names(tokens)) && out + Print(tokens) == out;
    } else {
      var rest := tokens[1..];
      match tokens[0]
      case Text(x) =>
        CollectMeans(rest, m, out + x);
        assert out + x + Print(rest) == out + Print(tokens);
      case Hole(n) =>
        var r := Collect(m, n);
        CollectMeans(rest, r.0, out + Brace(n));
        assert out + Brace(n) + Print(rest) == out + Print(tokens);
        assert r.0.Keys + Names(rest) == m.Keys + Names(tokens);
    }
  }

  /**
   * The stored template of a prompt is a fixpoint: walking it again under the identity resolver gives it back, with the
   * same tokens, and its bindings are exactly the names it mentions.
   */
  lemma StoredTemplateIsFixpoint(cc: CharClass, template: string)
    requires cc.Valid() && Tokenize(cc, template).err.None?
    ensures var stored := Print(Tokenize(cc, template).tokens);
            Tokenize(cc, stored) == Tokenize(cc, template) &&
            Walked(Tokenize(cc, stored), Collect, map[], "") ==
            (Fresh(Names(Tokenize(cc, template).tokens)), Ok(stored))
  {
    hide Tokenize, Resolve, IsName;
    PrintTokenizes(cc, template);
    var none: map<string, Binding> := map[];
    CollectMeans(Tokenize(cc, template).tokens, none, "");
    assert none.Keys + Names(Tokenize(cc, template).tokens) == Names(Tokenize(cc, template).tokens);
    assert "" + Print(Tokenize(cc, template).tokens) == Print(Tokenize(cc, template).tokens);
  }

  // ---------------------------------------------------------------- binding

  /** existsAndUnbound. */
  function ExistsAndUnbound(bindings: map<string, Binding>, name: string): Option<PromptError> {
    if name !in bindings then Some(NoSuchBinding)
    else if !bindings[name].Unbound? then Some(AlreadyBound)
    else None
  }

  predicate IsLineBreak(c: char) {
    c == '\n' || c == '\r' || c == '\U{000B}' || c == '\U{000C}' || c == '\U{0085}' || c == '\U{2028}' || c == '\U{2029}'
  }

  predicate SingleLine(s: string) {
    forall i :: 0 <= i < |s| ==> !IsLineBreak(s[i])
  }

  predicate AllSingleLine(items: seq<string>) {
    forall i :: 0 <= i < |items| ==> SingleLine(items[i])
  }

  /** The first list item with a line break in it. */
  function FirstMultiLine(items: seq<string>, i: nat): Option<nat>
    requires i <= |items|
    decreases |items| - i
  {
    if i == |items| then None else if SingleLine(items[i]) then FirstMultiLine(items, i + 1) else Some(i)
  }

  /** The check of bindList reports the first item that breaks a line, and none exactly when no item does. */
  lemma {:induction false} FirstMultiLineFindsTheFirst(items: seq<string>, i: nat)
    requires i <= |items|
    ensures FirstMultiLine(items, i).None? <==> forall j :: i <= j < |items| ==> SingleLine(items[j])
    ensures FirstMultiLine(items, i).Some? ==>
              var k := FirstMultiLine(items, i).value;
              i <= k < |items| && !SingleLine(items[k]) && forall j :: i <= j < k ==> SingleLine(items[j])
    decreases |items| - i
  {
    if i < |items| && SingleLine(items[i]) {
      FirstMultiLineFindsTheFirst(items, i + 1);
    }
  }

  /** bind, with the checks that BindPrompt and the list methods make first. `nil` stands for a nil *Prompt. */
  function Bind(lib: Library, id: nat, name: string, b: Binding, nil: bool): Result<(Library, nat), PromptError>
    requires id < |lib.prompts|
  {
    var p := lib.prompts[id];
    var bad := ExistsAndUnbound(p.bindings, name);
    if bad.Some? then Err(bad.value)
    else if b.Sub? && nil then Err(NilPrompt)
    else if b.List? && FirstMultiLine(b.items, 0).Some? then Err(MultiLineItem(FirstMultiLine(b.items, 0).value))
    else Ok(Add(lib, p.(bindings := p.bindings[name := b])))
  }

  /** Exactly which bindings are accepted, and the errors of the two that every method checks first. */
  lemma BindsIff(lib: Library, id: nat, name: string, b: Binding, nil: bool)
    requires id < |lib.prompts|
    ensures var r, bs := Bind(lib, id, name, b, nil), lib.prompts[id].bindings;
            && (r.Ok? <==>
                  && name in bs && bs[name].Unbound? && !(b.Sub? && nil)
                  && (b.List? ==> forall i, j :: 0 <= i < |b.items| && 0 <= j < |b.items[i]| ==>
                        b.items[i][j] !in
                          {'\n', '\r', '\U{000B}', '\U{000C}', '\U{0085}', '\U{2028}', '\U{2029}'}))
            && (r == Err(NoSuchBinding) <==> name !in bs)
            && (r == Err(AlreadyBound) <==> name in bs && !bs[name].Unbound?)
  {
    if b.List? {
      FirstMultiLineFindsTheFirst(b.items, 0);
      assert forall i :: 0 <= i < |b.items| ==>
          (SingleLine(b.items[i]) <==> forall j :: 0 <= j < |b.items[i]| ==> !IsLineBreak(b.items[i][j]));
    }
  }

  /** Binding adds a prompt and changes none: the library stays well formed, so composition stays acyclic. */
  lemma BindKeepsLibrary(lib: Library, id: nat, name: string, b: Binding, nil: bool)
    requires WellFormed(lib) && id < |lib.prompts| && (b.Sub? ==> b.p < |lib.prompts|)
    ensures var r := Bind(lib, id, name, b, nil);
            r.Ok? ==>
              var (lib', id') := r.value;
              WellFormed(lib') && lib.prompts <= lib'.prompts && id' == |lib.prompts| &&
              lib'.prompts[id'].template == lib.prompts[id].template &&
              lib'.prompts[id'].bindings == lib.prompts[id].bindings[name := b]
  {
    hide SingleLine;
    var r := Bind(lib, id, name, b, nil);
    if b.List? {
      FirstMultiLineFindsTheFirst(b.items, 0);
    }
    if r.Ok? {
      var lib' := r.value.0;
      forall i | 0 <= i < |lib'.prompts|
        ensures PromptOk(lib.cc, lib'.prompts[i], i)
      {
        assert PromptOk(lib.cc, lib.prompts[if i < |lib.prompts| then i else id], if i < |lib.prompts| then i else id);
        if i == |lib.prompts| {
          assert lib'.prompts[i].bindings.Keys == lib.prompts[id].bindings.Keys;
        }
      }
    }
  }

  /** A placeholder is bound once: binding a name again fails, whatever the value. */
  lemma BoundOnce(lib: Library, id: nat, name: string, b: Binding, c: Binding, nil: bool)
    requires id < |lib.prompts| && !b.Unbound? && Bind(lib, id, name, b, false).Ok?
    ensures var (lib', id') := Bind(lib, id, name, b, false).value;
            Bind(lib', id', name, c, nil) == Err(AlreadyBound)
  {
  }

  /** Two placeholders can be bound in either order. */
  lemma BindsCommute(lib: Library, id: nat, m: string, a: Binding, n: string, b: Binding)
    requires id < |lib.prompts| && m != n
    requires Bind(lib, id, m, a, false).Ok? && Bind(lib, id, n, b, false).Ok?
    ensures var (lib1, id1) := Bind(lib, id, m, a, false).value;
            var (lib2, id2) := Bind(lib, id, n, b, false).value;
            var r1, r2 := Bind(lib1, id1, n, b, false), Bind(lib2, id2, m, a, false);
            r1.Ok? && r2.Ok? && r1.value.0.prompts[r1.value.1] == r2.value.0.prompts[r2.value.1]
  {
    var p := lib.prompts[id];
    assert p.bindings[m := a][n := b] == p.bindings[n := b][m := a];
  }

  // ---------------------------------------------------------------- list values

  const DIGITS := "0123456789"

  function Decimal(n: nat): string {
    if n < 10 then [DIGITS[n]] else Decimal(n / 10) + [DIGITS[n % 10]]
  }

  function ListLine(item: string, i: nat, ordered: bool): string {
    if ordered then Decimal(i + 1) + ". " + item else "- " + item
  }

  /** The first `n` lines of a list, joined. */
  function ListText(items: seq<string>, ordered: bool, n: nat): string
    requires n <= |items|
  {
    if n == 0 then ""
    else if n == 1 then ListLine(items[0], 0, ordered)
    else ListText(items, ordered, n - 1) + "\n" + ListLine(items[n - 1], n - 1, ordered)
  }

  /** strings.Join(lines, "\n"). */
  function JoinLines(lines: seq<string>): string {
    if |lines| == 0 then ""
    else if |lines| == 1 then lines[0]
    else JoinLines(lines[..|lines| - 1]) + "\n" + lines[|lines| - 1]
  }

  /** One line an item: its number and a dot, or a dash, then the item. */
  lemma {:induction false} ListTextIsLines(items: seq<string>, ordered: bool, lines: seq<string>)
    requires |lines| <= |items|
    requires forall i :: 0 <= i < |lines| ==>
               lines[i] == (if ordered then Decimal(i + 1) + ". " else "- ") + items[i]
    ensures JoinLines(lines) == ListText(items, ordered, |lines|)
    decreases |lines|
  {
    if |lines| > 1 {
      ListTextIsLines(items, ordered, lines[..|lines| - 1]);
    }
  }

  /** Read back as a decimal number. */
  function DecimalValue(s: string): int {
    if s == "" then 0 else 10 * DecimalValue(s[..|s| - 1]) + (s[|s| - 1] as int - '0' as int)
  }

  /** A number in decimal: digits only, no leading zero, and it reads back as that number. */
  lemma {:induction false} DecimalReadsBack(n: nat)
    ensures var s := Decimal(n);
            && s != "" && DecimalValue(s) == n && (n > 0 ==> s[0] != '0')
            && forall i :: 0 <= i < |s| ==> '0' <= s[i] <= '9'
  {
    var digit := DIGITS[n % 10];
    assert digit as int - '0' as int == n % 10;
    if n < 10 {
      assert Decimal(n)[..0] == "";
    } else {
      DecimalReadsBack(n / 10);
      assert Decimal(n)[..|Decimal(n)| - 1] == Decimal(n / 10);
    }
  }

  /** listBinding.value: the lines are collected in a loop, then joined. */
  method ListValue(items: seq<string>, ordered: bool) returns (r: string)
    ensures r == ListText(items, ordered, |items|)
    ensures r == JoinLines(seq(|items|, i requires 0 <= i < |items| =>
                    (if ordered then Decimal(i + 1) + ". " else "- ") + items[i]))
  {
    ListTextIsLines(items, ordered, seq(|items|, i requires 0 <= i < |items| =>
                      (if ordered then Decimal(i + 1) + ". " else "- ") + items[i]));
    var lines: seq<string> := [];
    for i := 0 to |items|
      invariant |lines| == i && forall j :: 0 <= j < i ==> lines[j] == ListLine(items[j], j, ordered)
    {
      lines := lines + [if ordered then Decimal(i + 1) + ". " + items[i] else "- " + items[i]];
    }
    r := "";
    for i := 0 to |lines|
      invariant r == ListText(items, ordered, i)
    {
      r := if i == 0 then lines[i] else r + "\n" + lines[i];
    }
  }

  function LineBreaks(s: string): nat {
    if s == "" then 0 else (if IsLineBreak(s[|s| - 1]) then 1 else 0) + LineBreaks(s[..|s| - 1])
  }

  lemma {:induction false} LineBreaksConcat(a: string, b: string)
    ensures LineBreaks(a + b) == LineBreaks(a) + LineBreaks(b)
  {
    if b == "" {
      assert a + b == a;
    } else {
      LineBreaksConcat(a, b[..|b| - 1]);
      assert (a + b)[..|a + b| - 1] == a + b[..|b| - 1];
    }
  }

  lemma {:induction false} SingleLineHasNone(s: string)
    requires SingleLine(s)
    ensures LineBreaks(s) == 0
  {
    if s != "" {
      SingleLineHasNone(s[..|s| - 1]);
    }
  }

  lemma {:induction false} DecimalIsSingleLine(n: nat)
    ensures SingleLine(Decimal(n))
  {
    assert SingleLine(DIGITS);
    if n >= 10 {
      DecimalIsSingleLine(n / 10);
    }
  }

  /** Every list bound in a prompt renders as exactly one line an item: n items, n - 1 line breaks. */
  lemma BoundListHasOneLineAnItem(lib: Library, id: nat, name: string)
    requires WellFormed(lib) && id < |lib.prompts| && name in lib.prompts[id].bindings
    requires lib.prompts[id].bindings[name].List? && lib.prompts[id].bindings[name].items != []
    ensures var b := lib.prompts[id].bindings[name];
            LineBreaks(ListText(b.items, b.ordered, |b.items|)) == |b.items| - 1
  {
    var b := lib.prompts[id].bindings[name];
    assert PromptOk(lib.cc, lib.prompts[id], id);
    OneLineAnItem(b.items, b.ordered, |b.items|);
  }

  lemma {:induction false} OneLineAnItem(items: seq<string>, ordered: bool, n: nat)
    requires 0 < n <= |items| && AllSingleLine(items)
    ensures LineBreaks(ListText(items, ordered, n)) == n - 1
  {
    var line := ListLine(items[n - 1], n - 1, ordered);
    DecimalIsSingleLine(n);
    assert SingleLine(line);
    SingleLineHasNone(line);
    if n > 1 {
      OneLineAnItem(items, ordered, n - 1);
      LineBreaksConcat(ListText(items, ordered, n - 1), "\n");
      LineBreaksConcat(ListText(items, ordered, n - 1) + "\n", line);
      assert LineBreaks("\n") == 1 by {
        assert "\n"[..0] == "";
      }
    }
  }
}
