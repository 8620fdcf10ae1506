/** agents/promptbuilder/tokenize.go: the one template walk that both parsing and building use. */
module Template {
  import opened Wrappers

  /** The Unicode tables the walk consults. */
  datatype CharClass = CharClass(isSpace: char -> bool, isLetter: char -> bool, isDigit: char -> bool) {
    /** What the walk relies on: letters and digits are not spaces, and braces are none of the three. */
    ghost predicate Valid() {
      && (forall c :: isSpace(c) ==> !isLetter(c) && !isDigit(c))
      && (forall c | c == '{' || c == '}' :: !isSpace(c) && !isLetter(c) && !isDigit(c))
      && !isSpace('_')
    }

    predicate IsNameChar(c: char) {
      isLetter(c) || isDigit(c) || c == '_'
    }
  }

  // ---------------------------------------------------------------- scanning helpers

  /** The first place where `c` occurs twice in a row, as strings.Index finds "{{" and "}}". */
  function FindPair(s: string, c: char): Option<nat> {
    if |s| < 2 then None
    else if s[0] == c && s[1] == c then Some(0)
    else
      var r := FindPair(s[1..], c);
      if r.Some? then Some(r.value + 1) else None
  }

  lemma {:induction false} FindPairFinds(s: string, c: char)
    ensures FindPair(s, c).Some? ==>
              var i := FindPair(s, c).value;
              i + 2 <= |s| && s[i] == c && s[i + 1] == c && forall j :: 0 <= j < i ==> !(s[j] == c && s[j + 1] == c)
    ensures FindPair(s, c).None? ==> forall j :: 0 <= j < |s| - 1 ==> !(s[j] == c && s[j + 1] == c)
  {
    if |s| >= 2 && !(s[0] == c && s[1] == c) {
      FindPairFinds(s[1..], c);
      assert forall j :: 0 < j < |s| ==> s[j] == s[1..][j - 1];
    }
  }

  /** The first place is the only one FindPair returns. */
  lemma FindPairIs(s: string, c: char, i: nat)
    requires i + 2 <= |s| && s[i] == c && s[i + 1] == c
    requires forall j :: 0 <= j < i ==> !(s[j] == c && s[j + 1] == c)
    ensures FindPair(s, c) == Some(i)
  {
    FindPairFinds(s, c);
  }

  function TrimLeft(cc: CharClass, s: string): string {
    if s != "" && cc.isSpace(s[0]) then TrimLeft(cc, s[1..]) else s
  }

  function TrimRight(cc: CharClass, s: string): string {
    if s != "" && cc.isSpace(s[|s| - 1]) then TrimRight(cc, s[..|s| - 1]) else s
  }

  /** strings.TrimSpace. */
  function Trim(cc: CharClass, s: string): string {
    TrimRight(cc, TrimLeft(cc, s))
  }

  /** Trimming takes away the spaces at both ends and nothing else. */
  lemma TrimMeans(cc: CharClass, before: string, s: string, after: string)
    requires forall i :: 0 <= i < |before| ==> cc.isSpace(before[i])
    requires forall i :: 0 <= i < |after| ==> cc.isSpace(after[i])
    requires s != "" && !cc.isSpace(s[0]) && !cc.isSpace(s[|s| - 1])
    ensures Trim(cc, before + s + after) == s
  {
    assert before + s + after == before + (s + after);
    TrimLeftMeans(cc, before, s + after);
    TrimRightMeans(cc, s, after);
  }

  lemma {:induction false} TrimLeftMeans(cc: CharClass, before: string, s: string)
    requires forall i :: 0 <= i < |before| ==> cc.isSpace(before[i])
    requires s != "" && !cc.isSpace(s[0])
    ensures TrimLeft(cc, before + s) == s
  {
    if before == "" {
      assert before + s == s;
    } else {
      TrimLeftMeans(cc, before[1..], s);
      assert (before + s)[1..] == before[1..] + s;
    }
  }

  lemma {:induction false} TrimRightMeans(cc: CharClass, s: string, after: string)
    requires forall i :: 0 <= i < |after| ==> cc.isSpace(after[i])
    requires s != "" && !cc.isSpace(s[|s| - 1])
    ensures TrimRight(cc, s + after) == s
  {
    if after == "" {
      assert s + after == s;
    } else {
      TrimRightMeans(cc, s, after[..|after| - 1]);
      assert (s + after)[..|s + after| - 1] == s + after[..|after| - 1];
    }
  }

  predicate IsName(cc: CharClass, s: string) {
    s != "" && cc.isLetter(s[0]) && forall i :: 1 <= i < |s| ==> cc.IsNameChar(s[i])
  }

  /** isValidIdentifier. */
  method IsValidIdentifier(cc: CharClass, s: string) returns (ok: bool)
    ensures ok <==> IsName(cc, s)
    ensures ok <==>
              && s != "" && cc.isLetter(s[0])
              && forall i :: 1 <= i < |s| ==> cc.isLetter(s[i]) || cc.isDigit(s[i]) || s[i] == '_'
  {
    if |s| == 0 {
      return false;
    }
    if !cc.isLetter(s[0]) {
      return false;
    }
    for i := 1 to |s|
      invariant forall j :: 1 <= j < i ==> cc.IsNameChar(s[j])
    {
      if !cc.isLetter(s[i]) && !cc.isDigit(s[i]) && s[i] != '_' {
        return false;
      }
    }
    return true;
  }

  // ---------------------------------------------------------------- tokens

  datatype Token = Text(s: string) | Hole(name: string)

  datatype ScanError = Unclosed | BadName(name: string)

  /** The tokens up to the first malformed binding, if there is one. */
  datatype Scan = Scan(tokens: seq<Token>, err: Option<ScanError>)

  /** Where the binding that opens at `start` ends, past its "}}". */
  function HoleEnd(t: string, start: nat): Option<nat>
    requires start <= |t|
  {
    var e := FindPair(t[start..], '}');
    if e.Some? then Some(start + e.value + 2) else None
  }

  lemma HoleEndBounds(t: string)
    requires FindPair(t, '{').Some?
    ensures var start := FindPair(t, '{').value;
            start + 2 <= |t| &&
            (HoleEnd(t, start).Some? ==>
               start + 4 <= HoleEnd(t, start).value <= |t|)
  {
    FindPairFinds(t, '{');
    var start := FindPair(t, '{').value;
    FindPairFinds(t[start..], '}');
  }

  function Tokenize(cc: CharClass, t: string): Scan
    decreases |t|
  {
    if t == "" then Scan([], None)
    else
      var start := FindPair(t, '{');
      if start.None? then Scan([Text(t)], None)
      else
        HoleEndBounds(t);
        var end := HoleEnd(t, start.value);
        var text := Text(t[..start.value]);
        if end.None? then Scan([text], Some(Unclosed))
        else
          var name := Trim(cc, t[start.value + 2..end.value - 2]);
          if !IsName(cc, name) then Scan([text], Some(BadName(name)))
          else
            var rest := Tokenize(cc, t[end.value..]);
            Scan([text, Hole(name)] + rest.tokens, rest.err)
  }

  // ---------------------------------------------------------------- the walk

  datatype WalkError<E> = BadTemplate(scan: ScanError) | Unresolved(error: E)

  /** A resolveFunc: the closure's captured state is threaded through. */
  type Resolver<!S, !E> = (S, string) -> (S, Result<string, E>)

  /** Concatenation over a token list, resolving holes from left to right until one fails. */
  function Resolve<S, E>(tokens: seq<Token>, resolve: Resolver<S, E>, s: S, out: string): (S, Result<string, E>)
    decreases |tokens|
  {
    if tokens == [] then (s, Ok(out))
    else
      match tokens[0]
      case Text(x) => Resolve(tokens[1..], resolve, s, out + x)
      case Hole(name) =>
        var r := resolve(s, name);
        if r.1.Err? then r else Resolve(tokens[1..], resolve, r.0, out + r.1.value)
  }

  /** What a walk yields: its tokens resolved in order, and only then the template's own error. */
  function Walked<S, E>(scan: Scan, resolve: Resolver<S, E>, s: S, out: string): (S, Result<string, WalkError<E>>) {
    var r := Resolve(scan.tokens, resolve, s, out);
    (r.0, if r.1.Err? then Err(Unresolved(r.1.error))
          else if scan.err.Some? then Err(BadTemplate(scan.err.value))
          else Ok(r.1.value))
  }

  lemma {:induction false} ResolveConcat<S, E>(a: seq<Token>, b: seq<Token>, resolve: Resolver<S, E>, s: S, out: string)
    ensures var r := Resolve(a, resolve, s, out);
            Resolve(a + b, resolve, s, out) == if r.1.Err? then r else Resolve(b, resolve, r.0, r.1.value)
    decreases |a|
  {
    if a == [] {
      assert a + b == b;
    } else {
      assert (a + b)[1..] == a[1..] + b;
      match a[0]
      case Text(x) => ResolveConcat(a[1..], b, resolve, s, out + x);
      case Hole(name) =>
        var r := resolve(s, name);
        if r.1.Ok? {
          ResolveConcat(a[1..], b, resolve, r.0, out + r.1.value);
        }
    }
  }

  lemma ResolveText<S, E>(x: string, resolve: Resolver<S, E>, s: S, out: string)
    ensures Resolve([Text(x)], resolve, s, out) == (s, Ok(out + x))
  {
    assert [Text(x)][1..] == [];
  }

  lemma ResolveHole<S, E>(name: string, resolve: Resolver<S, E>, s: S, out: string)
    ensures var r := resolve(s, name);
            Resolve([Hole(name)], resolve, s, out) == if r.1.Err? then r else (r.0, Ok(out + r.1.value))
  {
    assert [Hole(name)][1..] == [];
  }

  /**
   * walkTemplate: one pass, shrinking the template. Since the tokens depend on the template alone, a value that has been
   * written out is never scanned again.
   */
  method WalkTemplate<S, E>(cc: CharClass, template: string, resolve: Resolver<S, E>, s0: S)
    returns (s: S, r: Result<string, WalkError<E>>)
    ensures (s, r) == Walked(Tokenize(cc, template), resolve, s0, "")
  {
    hide FindPair, Trim, IsName, HoleEnd, Resolve;
    var t, result := template, "";
    s := s0;
    while |t| > 0
      invariant Walked(Tokenize(cc, template), resolve, s0, "") == Walked(Tokenize(cc, t), resolve, s, result)
      decreases |t|
    {
      var start := FindPair(t, '{');
      if start.None? {
        ResolveText(t, resolve, s, result);
        result := result + t;
        t := "";
        break;
      }
      HoleEndBounds(t);
      ghost var text := t[..start.value];
      ResolveText(text, resolve, s, result);
      ghost var before := result;
      result := result + t[..start.value];
      var end := HoleEnd(t, start.value);
      if end.None? {
        return s, Err(BadTemplate(Unclosed));
      }
      var name := Trim(cc, t[start.value + 2..end.value - 2]);
      var ok := IsValidIdentifier(cc, name);
      if !ok {
        return s, Err(BadTemplate(BadName(name)));
      }
      ghost var rest := Tokenize(cc, t[end.value..]);
      ResolveHole(name, resolve, s, result);
      ResolveConcat([Text(text)], [Hole(name)] + rest.tokens, resolve, s, before);
      ResolveConcat([Hole(name)], rest.tokens, resolve, s, result);
      assert Tokenize(cc, t).tokens == [Text(text)] + ([Hole(name)] + rest.tokens);
      var res := resolve(s, name);
      s := res.0;
      if res.1.Err? {
        return s, Err(Unresolved(res.1.error));
      }
      result := result + res.1.value;
      t := t[end.value..];
    }
    ResolveNothing(cc, resolve, s, result);
    return s, Ok(result);
  }

  lemma ResolveNothing<S, E>(cc: CharClass, resolve: Resolver<S, E>, s: S, out: string)
    ensures Walked<S, E>(Tokenize(cc, ""), resolve, s, out) == (s, Ok(out))
  {
  }

  // ---------------------------------------------------------------- parsing and printing

  function Print(tokens: seq<Token>): string {
    if tokens == [] then ""
    else (match tokens[0] case Text(x) => x case Hole(n) => Brace(n)) + Print(tokens[1..])
  }

  function Names(tokens: seq<Token>): set<string> {
    if tokens == [] then {} else (if tokens[0].Hole? then {tokens[0].name} else {}) + Names(tokens[1..])
  }

  /** Names are words: no space to trim, no brace to confuse the walk. */
  lemma NamesAreWords(cc: CharClass, name: string)
    requires cc.Valid() && IsName(cc, name)
    ensures Trim(cc, name) == name
    ensures forall i :: 0 <= i < |name| ==> name[i] != '{' && name[i] != '}'
  {
  }

  function Brace(name: string): string {
    "{{" + name + "}}"
  }

  /** Written out again, a binding opens where its text ended, */
  lemma PrintedOpens(text: string, hole: string)
    requires |hole| >= 2 && hole[0] == '{' && hole[1] == '{'
    requires forall j :: 0 <= j < |text| - 1 ==> !(text[j] == '{' && text[j + 1] == '{')
    requires text != "" ==> text[|text| - 1] != '{'
    ensures FindPair(text + hole, '{') == Some(|text|)
  {
    var t := text + hole;
    forall j | 0 <= j < |text|
      ensures !(t[j] == '{' && t[j + 1] == '{')
    {
      assert t[j] == text[j];
    }
    FindPairIs(t, '{', |text|);
  }

  /** and closes right behind what it holds. */
  lemma PrintedCloses(inner: string, rest: string)
    requires forall j :: 0 <= j < |inner| - 1 ==> !(inner[j] == '}' && inner[j + 1] == '}')
    requires inner != "" ==> inner[|inner| - 1] != '}'
    ensures FindPair(Brace(inner) + rest, '}') == Some(2 + |inner|)
  {
    var t := Brace(inner) + rest;
    forall j | 0 <= j < 2 + |inner|
      ensures !(t[j] == '}' && t[j + 1] == '}')
    {
      if j >= 2 {
        assert t[j] == inner[j - 2];
      }
    }
    FindPairIs(t, '}', 2 + |inner|);
  }

  lemma BraceOpens(name: string, rest: string)
    ensures var t := Brace(name) + rest; |t| >= 2 && t[0] == '{' && t[1] == '{'
  {
  }

  lemma PrintedEnds(text: string, inner: string, rest: string)
    requires forall j :: 0 <= j < |inner| - 1 ==> !(inner[j] == '}' && inner[j + 1] == '}')
    requires inner != "" ==> inner[|inner| - 1] != '}'
    ensures HoleEnd(text + (Brace(inner) + rest), |text|) == Some(|text| + |inner| + 4)
  {
    hide FindPair, Brace;
    PrintedCloses(inner, rest);
    assert (text + (Brace(inner) + rest))[|text|..] == Brace(inner) + rest;
  }

  lemma PrintedHole(cc: CharClass, text: string, name: string, rest: string)
    requires cc.Valid() && IsName(cc, name)
    requires forall j :: 0 <= j < |text| - 1 ==> !(text[j] == '{' && text[j + 1] == '{')
    requires text != "" ==> text[|text| - 1] != '{'
    ensures Tokenize(cc, text + (Brace(name) + rest))
            == Scan([Text(text), Hole(name)] + Tokenize(cc, rest).tokens, Tokenize(cc, rest).err)
  {
    NamesAreWords(cc, name);
    hide FindPair, Trim, IsName, Tokenize, Brace, HoleEnd;
    BraceScans(cc, text, name, rest);
  }

  /** What any pair of double braces scans to: the trimmed name between them, or an error that quotes it. */
  lemma BraceScans(cc: CharClass, text: string, inner: string, rest: string)
    requires forall j :: 0 <= j < |text| - 1 ==> !(text[j] == '{' && text[j + 1] == '{')
    requires text != "" ==> text[|text| - 1] != '{'
    requires forall j :: 0 <= j < |inner| - 1 ==> !(inner[j] == '}' && inner[j + 1] == '}')
    requires inner != "" ==> inner[|inner| - 1] != '}'
    ensures Tokenize(cc, text + (Brace(inner) + rest)) ==
            if IsName(cc, Trim(cc, inner))
            then Scan([Text(text), Hole(Trim(cc, inner))] + Tokenize(cc, rest).tokens, Tokenize(cc, rest).err)
            else Scan([Text(text)], Some(BadName(Trim(cc, inner))))
  {
    hide FindPair, Trim, IsName, Tokenize, Brace, HoleEnd;
    var t := text + (Brace(inner) + rest);
    var end := |text| + |inner| + 4;
    BraceShape(text, inner, rest);
    if IsName(cc, Trim(cc, inner)) {
      TokenizeHole(cc, t, |text|, end);
    } else {
      TokenizeBadName(cc, t, |text|, end);
    }
  }

  lemma BraceShape(text: string, inner: string, rest: string)
    requires forall j :: 0 <= j < |text| - 1 ==> !(text[j] == '{' && text[j + 1] == '{')
    requires text != "" ==> text[|text| - 1] != '{'
    requires forall j :: 0 <= j < |inner| - 1 ==> !(inner[j] == '}' && inner[j + 1] == '}')
    requires inner != "" ==> inner[|inner| - 1] != '}'
    ensures var t, end := text + (Brace(inner) + rest), |text| + |inner| + 4;
            && end <= |t| && FindPair(t, '{') == Some(|text|) && HoleEnd(t, |text|) == Some(end)
            && t[..|text|] == text && t[|text| + 2..end - 2] == inner && t[end..] == rest
  {
    hide FindPair, Brace, HoleEnd;
    BraceOpens(inner, rest);
    PrintedOpens(text, Brace(inner) + rest);
    PrintedEnds(text, inner, rest);
    PrintedParts(text, inner, rest);
  }

  /** Spaces around a name do not matter. */
  lemma SpacedHole(cc: CharClass, text: string, before: string, name: string, after: string, rest: string)
    requires cc.Valid()
    requires name != "" && cc.isLetter(name[0])
    requires forall i :: 1 <= i < |name| ==> cc.isLetter(name[i]) || cc.isDigit(name[i]) || name[i] == '_'
    requires forall i :: 0 <= i < |before| ==> cc.isSpace(before[i])
    requires forall i :: 0 <= i < |after| ==> cc.isSpace(after[i])
    requires forall j :: 0 <= j < |text| - 1 ==> !(text[j] == '{' && text[j + 1] == '{')
    requires text != "" ==> text[|text| - 1] != '{'
    ensures Tokenize(cc, text + (Brace(before + name + after) + rest))
            == Scan([Text(text), Hole(name)] + Tokenize(cc, rest).tokens, Tokenize(cc, rest).err)
  {
    NamesAreWords(cc, name);
    TrimMeans(cc, before, name, after);
    var inner := before + name + after;
    assert forall i :: 0 <= i < |inner| ==> inner[i] != '}';
    hide FindPair, Trim, Tokenize, Brace, HoleEnd;
    BraceScans(cc, text, inner, rest);
  }

  /** Text without double braces is one piece of text. */
  lemma TextScans(cc: CharClass, text: string)
    requires forall j :: 0 <= j < |text| - 1 ==> !(text[j] == '{' && text[j + 1] == '{')
    ensures Tokenize(cc, text) == Scan(if text == "" then [] else [Text(text)], None)
  {
    FindPairFinds(text, '{');
  }

  /** Double braces that are never closed are refused. */
  lemma UnclosedScans(cc: CharClass, text: string, rest: string)
    requires forall j :: 0 <= j < |text| - 1 ==> !(text[j] == '{' && text[j + 1] == '{')
    requires text != "" ==> text[|text| - 1] != '{'
    requires forall j :: 0 <= j < |rest| - 1 ==> !(rest[j] == '}' && rest[j + 1] == '}')
    ensures Tokenize(cc, text + ("{{" + rest)) == Scan([Text(text)], Some(Unclosed))
  {
    var tail := "{{" + rest;
    NoClose(rest);
    hide Trim, IsName, FindPair, Tokenize;
    var t := text + tail;
    PrintedOpens(text, tail);
    assert t[|text|..] == tail && t[..|text|] == text;
    TokenizeUnclosed(cc, t, |text|);
  }

  lemma NoClose(rest: string)
    requires forall j :: 0 <= j < |rest| - 1 ==> !(rest[j] == '}' && rest[j + 1] == '}')
    ensures FindPair("{{" + rest, '}').None?
  {
    var tail := "{{" + rest;
    FindPairFinds(tail, '}');
    assert forall j :: 2 <= j < |tail| ==> tail[j] == rest[j - 2];
  }

  /** Tokenize, unfolded once at a binding without an end. */
  lemma TokenizeUnclosed(cc: CharClass, t: string, start: nat)
    requires FindPair(t, '{') == Some(start) && start <= |t| && HoleEnd(t, start).None?
    ensures Tokenize(cc, t) == Scan([Text(t[..start])], Some(Unclosed))
  {
    FindPairFinds(t, '{');
    hide FindPair, Trim, IsName;
  }

  lemma PrintedParts(text: string, name: string, rest: string)
    ensures var t := text + (Brace(name) + rest);
            var end := |text| + |name| + 4;
            end <= |t| && t[..|text|] == text && t[|text| + 2..end - 2] == name && t[end..] == rest
  {
    var t := text + (Brace(name) + rest);
    assert t == text + "{{" + name + "}}" + rest;
  }

  /** Tokenize, unfolded once at a well-formed binding. */
  lemma TokenizeHole(cc: CharClass, t: string, start: nat, end: nat)
    requires FindPair(t, '{') == Some(start) && start <= |t| && HoleEnd(t, start) == Some(end)
    requires start + 4 <= end <= |t| && IsName(cc, Trim(cc, t[start + 2..end - 2]))
    ensures var rest := Tokenize(cc, t[end..]);
            Tokenize(cc, t) == Scan([Text(t[..start]), Hole(Trim(cc, t[start + 2..end - 2]))] + rest.tokens, rest.err)
  {
    hide FindPair, Trim, IsName;
  }

  /** The same at a malformed one. */
  lemma TokenizeBadName(cc: CharClass, t: string, start: nat, end: nat)
    requires FindPair(t, '{') == Some(start) && start <= |t| && HoleEnd(t, start) == Some(end)
    requires start + 4 <= end <= |t| && !IsName(cc, Trim(cc, t[start + 2..end - 2]))
    ensures Tokenize(cc, t) == Scan([Text(t[..start])], Some(BadName(Trim(cc, t[start + 2..end - 2]))))
  {
    hide FindPair, Trim, IsName;
  }

  /** What a successful first step of Tokenize found. */
  lemma TokenizeStep(cc: CharClass, t: string, start: nat, end: nat)
    requires FindPair(t, '{') == Some(start) && start <= |t| && HoleEnd(t, start) == Some(end)
    requires Tokenize(cc, t).err.None?
    ensures start + 4 <= end <= |t|
    ensures var name := Trim(cc, t[start + 2..end - 2]);
            IsName(cc, name) && Tokenize(cc, t[end..]).err.None? &&
            Tokenize(cc, t).tokens == [Text(t[..start])] + ([Hole(name)] + Tokenize(cc, t[end..]).tokens)
    ensures forall j :: 0 <= j < start - 1 ==> !(t[j] == '{' && t[j + 1] == '{')
    ensures start > 0 ==> t[start - 1] != '{'
  {
    HoleEndBounds(t);
    FindPairFinds(t, '{');
    TokenizeGoesOn(cc, t, start, end);
  }

  lemma TokenizeGoesOn(cc: CharClass, t: string, start: nat, end: nat)
    requires FindPair(t, '{') == Some(start) && start <= |t| && HoleEnd(t, start) == Some(end)
    requires Tokenize(cc, t).err.None? && start + 4 <= end <= |t|
    ensures var name := Trim(cc, t[start + 2..end - 2]);
            IsName(cc, name) && Tokenize(cc, t[end..]).err.None? &&
            Tokenize(cc, t).tokens == [Text(t[..start])] + ([Hole(name)] + Tokenize(cc, t[end..]).tokens)
  {
    hide FindPair, Trim, IsName, HoleEnd;
    TokensAssociative(Text(t[..start]), Hole(Trim(cc, t[start + 2..end - 2])), Tokenize(cc, t[end..]).tokens);
  }

  lemma TokensAssociative(a: Token, b: Token, rest: seq<Token>)
    ensures [a, b] + rest == [a] + ([b] + rest)
  {
  }

  /** Parse, print, parse: the tokens of a well-formed template come back, and its names are words. */
  lemma {:induction false} PrintTokenizes(cc: CharClass, t: string)
    requires cc.Valid() && Tokenize(cc, t).err.None?
    ensures Tokenize(cc, Print(Tokenize(cc, t).tokens)) == Tokenize(cc, t)
    ensures forall n :: n in Names(Tokenize(cc, t).tokens) ==> IsName(cc, n)
    decreases |t|
  {
    hide Trim, IsName;
    var start := FindPair(t, '{');
    if t == "" {
    } else if start.None? {
      PrintText(t);
    } else {
      hide Tokenize, Print, Names, Brace;
      HoleEndBounds(t);
      var end := HoleEnd(t, start.value).value;
      TokenizeStep(cc, t, start.value, end);
      var text := t[..start.value];
      var name := Trim(cc, t[start.value + 2..end - 2]);
      var rest := Tokenize(cc, t[end..]);
      PrintTokenizes(cc, t[end..]);
      PrintPair(text, name, rest.tokens);
      PrintedHole(cc, text, name, Print(rest.tokens));
    }
  }

  lemma PrintText(text: string)
    ensures Print([Text(text)]) == text && Names([Text(text)]) == {}
  {
    assert [Text(text)][1..] == [];
  }

  lemma PrintPair(text: string, name: string, rest: seq<Token>)
    ensures Print([Text(text)] + ([Hole(name)] + rest)) == text + (Brace(name) + Print(rest))
    ensures Names([Text(text)] + ([Hole(name)] + rest)) == {name} + Names(rest)
  {
    var tail := [Hole(name)] + rest;
    assert tail[1..] == rest;
    assert ([Text(text)] + tail)[1..] == tail;
  }
}
