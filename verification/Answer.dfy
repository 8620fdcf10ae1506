/** agents/checkpoint/answer.go: the frame that keeps a human answer apart from the prompt around it. */
module Answer {
  import opened Wrappers
  import opened Utf8
  import opened Checkpoint

  // ---------------------------------------------------------------- the literals

  function Ascii(s: string): (b: Bytes)
    requires forall i :: 0 <= i < |s| ==> s[i] as int < 0x80
    ensures |b| == |s| && forall i :: 0 <= i < |s| ==> b[i] as int == s[i] as int
  {
    seq(|s|, i requires 0 <= i < |s| => s[i] as int as byte)
  }

  function Open(): Bytes {
    Ascii("<<<BEGIN HUMAN ANSWER>>>")
  }

  function Close(): Bytes {
    Ascii("<<<END HUMAN ANSWER>>>")
  }

  function Placeholder(): Bytes {
    Ascii("(the human did not provide an answer)")
  }

  /** U+2026 and the word. */
  function Marker(): Bytes {
    [0xE2, 0x80, 0xA6] + Ascii("[truncated]")
  }

  const NEWLINE: byte := 10
  const LT: byte := 60
  const DEFAULT_ANSWER_MAX_BYTES: int := 16384

  /** All that the proofs use of the delimiters: lengths, where '<' stands, and the letter after it. */
  lemma DelimiterFacts()
    ensures |Open()| == 24 && |Close()| == 22
    ensures Open()[3] != Close()[3]
    ensures forall d, i :: d in {Open(), Close()} && 0 <= i < |d| ==> (d[i] == LT <==> i < 3)
    ensures NEWLINE !in Open() && NEWLINE !in Close()
    ensures Marker()[0] !in Open() && Marker()[0] !in Close()
  {
    OpenFacts();
    CloseFacts();
    hide Ascii, Open, Close;
    assert Marker()[0] == 0xE2;
  }

  lemma OpenFacts()
    ensures |Open()| == 24 && Open()[3] == 66
    ensures forall i :: 0 <= i < 24 ==>
              (Open()[i] == LT <==> i < 3) && Open()[i] != NEWLINE && Open()[i] as int < 0x80
  {
  }

  lemma CloseFacts()
    ensures |Close()| == 22 && Close()[3] == 69
    ensures forall i :: 0 <= i < 22 ==>
              (Close()[i] == LT <==> i < 3) && Close()[i] != NEWLINE && Close()[i] as int < 0x80
  {
  }

  lemma LiteralFacts()
    ensures LT !in Placeholder() && |Placeholder()| == 37
    ensures |Marker()| == 14 && Marker()[0] == 0xE2
  {
  }

  // ---------------------------------------------------------------- finding and erasing

  predicate OccursAt(pat: Bytes, s: Bytes, i: int) {
    0 <= i <= |s| - |pat| && s[i..i + |pat|] == pat
  }

  /** strings.Contains. */
  predicate Contains(s: Bytes, pat: Bytes) {
    exists i :: 0 <= i <= |s| && OccursAt(pat, s, i)
  }

  /** The length of the delimiter at `i`, or 0. */
  function DelimAt(s: Bytes, i: int): (n: nat)
    ensures n > 0 ==> 0 <= i && i + n <= |s| && s[i..i + n] in {Open(), Close()}
    ensures n == 0 <==> !OccursAt(Open(), s, i) && !OccursAt(Close(), s, i)
  {
    assert Open() != [] && Close() != [];
    if OccursAt(Open(), s, i) then |Open()|
    else if OccursAt(Close(), s, i) then |Close()|
    else 0
  }

  predicate Clean(s: Bytes) {
    !Contains(s, Open()) && !Contains(s, Close())
  }

  /** strings.ReplaceAll(s, pat, ""): leftmost occurrences that do not overlap. */
  function Erase(s: Bytes, pat: Bytes): Bytes
    requires pat != []
  {
    if |s| < |pat| then s
    else if s[..|pat|] == pat then Erase(s[|pat|..], pat)
    else [s[0]] + Erase(s[1..], pat)
  }

  lemma {:induction false} EraseShortens(s: Bytes, pat: Bytes)
    requires pat != []
    ensures |Erase(s, pat)| <= |s|
    ensures Contains(s, pat) <==> |Erase(s, pat)| < |s|
    ensures !Contains(s, pat) ==> Erase(s, pat) == s
  {
    if |s| >= |pat| {
      if s[..|pat|] == pat {
        EraseShortens(s[|pat|..], pat);
        assert OccursAt(pat, s, 0);
      } else {
        EraseShortens(s[1..], pat);
        ContainsTail(s, pat);
      }
    }
  }

  lemma ContainsTail(s: Bytes, pat: Bytes)
    requires s != [] && !OccursAt(pat, s, 0)
    ensures Contains(s, pat) <==> Contains(s[1..], pat)
  {
    var t := s[1..];
    if Contains(s, pat) {
      var i :| 0 <= i <= |s| && OccursAt(pat, s, i);
      assert forall x {:trigger pat[x]} :: 0 <= x < |pat| ==> t[i - 1..i - 1 + |pat|][x] == s[i..i + |pat|][x] == pat[x];
      assert OccursAt(pat, t, i - 1);
    }
    if Contains(t, pat) {
      var i :| 0 <= i <= |t| && OccursAt(pat, t, i);
      assert forall x {:trigger pat[x]} :: 0 <= x < |pat| ==> s[i + 1..i + 1 + |pat|][x] == t[i..i + |pat|][x] == pat[x];
      assert OccursAt(pat, s, i + 1);
    }
  }

  // ---------------------------------------------------------------- stripping

  function StripPass(s: Bytes): (r: Bytes)
    ensures |r| <= |s|
    ensures !Clean(s) ==> |r| < |s|
  {
    DelimiterFacts();
    EraseShortens(s, Open());
    EraseShortens(Erase(s, Open()), Close());
    Erase(Erase(s, Open()), Close())
  }

  function Stripped(s: Bytes): (r: Bytes)
    ensures Clean(r)
    ensures |r| <= |s|
    decreases |s|
  {
    if Clean(s) then s else Stripped(StripPass(s))
  }

  method StripAnswerDelimiters(text: Bytes) returns (s: Bytes)
    ensures Clean(s) && Reaches(text, s)
    ensures s == Stripped(text)
  {
    StrippedReached(text);
    s := text;
    while Contains(s, Open()) || Contains(s, Close())
      invariant Stripped(s) == Stripped(text)
      decreases |s|
    {
      var was := s;
      assert StripPass(was) == Erase(Erase(was, Open()), Close());
      DelimiterFacts();
      s := Erase(s, Open());
      s := Erase(s, Close());
    }
  }

  // ---------------------------------------------------------------- the result does not depend on the order

  /** `s` without the delimiter at `i`. */
  function Cut(s: Bytes, i: int): Bytes {
    var n := DelimAt(s, i);
    if n == 0 then s else s[..i] + s[i + n..]
  }

  /** `r` is what some sequence of single removals, in any order, can leave of `s`. */
  ghost predicate Reaches(s: Bytes, r: Bytes)
    decreases |s|
  {
    s == r || exists i :: DelimAt(s, i) > 0 && Reaches(Cut(s, i), r)
  }

  lemma OneDelimiterAt(s: Bytes, i: int)
    ensures !(OccursAt(Open(), s, i) && OccursAt(Close(), s, i))
  {
    DelimiterFacts();
    assert OccursAt(Open(), s, i) ==> s[i + 3] == Open()[3];
    assert OccursAt(Close(), s, i) ==> s[i + 3] == Close()[3];
  }

  /** Only its own bytes make a delimiter, and cutting it joins what stands around it. */
  lemma CutMiddle(p: Bytes, d: Bytes, q: Bytes)
    requires d in {Open(), Close()}
    ensures DelimAt(p + d + q, |p|) == |d| > 0 && Cut(p + d + q, |p|) == p + q
  {
    hide Ascii, Open, Close;
    DelimiterFacts();
    var s := p + d + q;
    assert s[|p|..|p| + |d|] == d;
    assert OccursAt(d, s, |p|);
    OneDelimiterAt(s, |p|);
    assert s[..|p|] == p && s[|p| + |d|..] == q;
  }

  lemma DelimitersDoNotOverlap(s: Bytes, i: int, j: int)
    requires DelimAt(s, i) > 0 && DelimAt(s, j) > 0 && i < j
    ensures i + DelimAt(s, i) <= j
  {
    hide Ascii, Open, Close;
    DelimiterFacts();
    var m, n := DelimAt(s, i), DelimAt(s, j);
    var d, e := s[i..i + m], s[j..j + n];
    assert forall k {:trigger s[k]} :: i + 3 <= k < i + m ==> s[k] == d[k - i] != LT;
    assert s[j] == e[0] && s[j + 1] == e[1] && s[j + 2] == e[2];
  }

  /** Two removals commute. */
  lemma RemovalsCommute(s: Bytes, i: int, j: int)
    requires DelimAt(s, i) > 0 && DelimAt(s, j) > 0 && i < j
    ensures DelimAt(Cut(s, i), j - DelimAt(s, i)) > 0 && DelimAt(Cut(s, j), i) > 0
    ensures Cut(Cut(s, i), j - DelimAt(s, i)) == Cut(Cut(s, j), i)
  {
    hide Ascii, Open, Close, OccursAt, DelimAt, Cut;
    DelimitersDoNotOverlap(s, i, j);
    var m, n := DelimAt(s, i), DelimAt(s, j);
    Pieces(s, i, i + m, j, j + n);
    CutsCommute(s[..i], s[i..i + m], s[i + m..j], s[j..j + n], s[j + n..]);
  }

  lemma Pieces(s: Bytes, i: nat, j: nat, k: nat, l: nat)
    requires i <= j <= k <= l <= |s|
    ensures s == s[..i] + s[i..j] + s[j..k] + s[k..l] + s[l..]
  {
    assert s[..i] + s[i..j] == s[..j];
    assert s[..j] + s[j..k] == s[..k];
    assert s[..k] + s[k..l] == s[..l];
  }

  lemma CutsCommute(p: Bytes, d: Bytes, q: Bytes, e: Bytes, t: Bytes)
    requires d in {Open(), Close()} && e in {Open(), Close()}
    ensures var s := p + d + q + e + t;
            && DelimAt(s, |p|) > 0 && DelimAt(s, |p| + |d| + |q|) > 0
            && DelimAt(Cut(s, |p|), |p| + |q|) > 0 && DelimAt(Cut(s, |p| + |d| + |q|), |p|) > 0
            && Cut(Cut(s, |p|), |p| + |q|) == Cut(Cut(s, |p| + |d| + |q|), |p|)
  {
    hide Ascii, Open, Close, OccursAt, DelimAt, Cut;
    CutMiddle(p + d + q, e, t);
    Associative(p + d, q, e);
    Associative(p + d, q + e, t);
    CutMiddle(p, d, q + e + t);
    Associative(p, q, e);
    Associative(p, q + e, t);
    CutMiddle(p + q, e, t);
    Associative(p + d, q, t);
    CutMiddle(p, d, q + t);
    Associative(p, q, t);
  }

  lemma {:induction false} ReachesTransitive(a: Bytes, b: Bytes, c: Bytes)
    requires Reaches(a, b) && Reaches(b, c)
    ensures Reaches(a, c)
    decreases |a|
  {
    if a != b {
      var i :| DelimAt(a, i) > 0 && Reaches(Cut(a, i), b);
      ReachesTransitive(Cut(a, i), b, c);
    }
  }

  lemma {:induction false} ReachesBehind(c: Bytes, a: Bytes, b: Bytes)
    requires Reaches(a, b)
    ensures Reaches(c + a, c + b)
    decreases |a|
  {
    hide Ascii, Open, Close, OccursAt, DelimAt, Cut;
    if a != b {
      var i :| DelimAt(a, i) > 0 && Reaches(Cut(a, i), b);
      var n := DelimAt(a, i);
      var p, d, q := a[..i], a[i..i + n], a[i + n..];
      assert a == p + d + q;
      CutMiddle(p, d, q);
      Associative(c, p, d);
      Associative(c, p + d, q);
      CutMiddle(c + p, d, q);
      Associative(c, p, q);
      ReachesBehind(c, Cut(a, i), b);
    }
  }

  lemma {:induction false} EraseReached(s: Bytes, pat: Bytes)
    requires pat in {Open(), Close()} && pat != []
    ensures Reaches(s, Erase(s, pat))
    decreases |s|
  {
    hide Ascii, Open, Close, DelimAt, Cut, OccursAt, Reaches;
    if |s| < |pat| {
      ReachesItself(s);
    } else if s[..|pat|] == pat {
      var rest := s[|pat|..];
      assert [] + pat + rest == s && [] + rest == rest;
      CutMiddle([], pat, rest);
      EraseReached(rest, pat);
      ReachesByOne(s, 0, Erase(rest, pat));
    } else {
      var rest := s[1..];
      assert [s[0]] + rest == s;
      EraseReached(rest, pat);
      ReachesBehind([s[0]], rest, Erase(rest, pat));
    }
  }

  lemma {:induction false} StrippedReached(s: Bytes)
    ensures Reaches(s, Stripped(s))
    decreases |s|
  {
    hide Ascii, Open, Close, Reaches, Clean;
    if Clean(s) {
      ReachesItself(s);
    } else {
      DelimiterFacts();
      var t := Erase(s, Open());
      EraseReached(s, Open());
      EraseReached(t, Close());
      StrippedReached(StripPass(s));
      ReachesTransitive(s, t, StripPass(s));
      ReachesTransitive(s, StripPass(s), Stripped(s));
    }
  }

  lemma ReachesByOne(s: Bytes, i: int, r: Bytes)
    requires DelimAt(s, i) > 0 && Reaches(Cut(s, i), r)
    ensures Reaches(s, r)
  {
  }

  lemma ReachesItself(s: Bytes)
    ensures Reaches(s, s)
  {
  }

  /** Any two delimiter-free remainders of one text are equal. */
  lemma {:induction false} RemaindersAgree(s: Bytes, r1: Bytes, r2: Bytes)
    requires Reaches(s, r1) && Reaches(s, r2) && Clean(r1) && Clean(r2)
    ensures r1 == r2
    decreases |s|
  {
    hide Ascii, Open, Close;
    if s == r1 || s == r2 {
      CleanMeans(s);
    } else {
      var i :| DelimAt(s, i) > 0 && Reaches(Cut(s, i), r1);
      var j :| DelimAt(s, j) > 0 && Reaches(Cut(s, j), r2);
      if i == j {
        RemaindersAgree(Cut(s, i), r1, r2);
      } else {
        var lo, hi := Min(i, j), Max(i, j);
        RemovalsCommute(s, lo, hi);
        var u := Cut(Cut(s, hi), lo);
        StrippedReached(u);
        RemaindersAgree(Cut(s, i), r1, Stripped(u));
        RemaindersAgree(Cut(s, j), r2, Stripped(u));
      }
    }
  }

  lemma CleanMeans(s: Bytes)
    ensures Clean(s) <==> forall i :: DelimAt(s, i) == 0
  {
    hide Ascii, Open, Close;
    if i :| OccursAt(Open(), s, i) || OccursAt(Close(), s, i) {
      assert DelimAt(s, i) > 0;
    }
  }

  /** Stripping is removal of delimiters and nothing else, and no order of removal leaves anything else. */
  lemma StrippedIsTheRemainder(s: Bytes, r: Bytes)
    ensures r == Stripped(s) <==> Reaches(s, r) && Clean(r)
  {
    StrippedReached(s);
    if Reaches(s, r) && Clean(r) {
      RemaindersAgree(s, r, Stripped(s));
    }
  }

  // ---------------------------------------------------------------- capping and framing

  function Capped(s: Bytes, maxBytes: int): Bytes {
    if maxBytes <= 0 || |s| <= maxBytes then s else Truncated(s, maxBytes) + Marker()
  }

  method CapText(s: Bytes, maxBytes: int) returns (r: Bytes)
    ensures r == Capped(s, maxBytes)
  {
    if maxBytes <= 0 || |s| <= maxBytes {
      return s;
    }
    var kept := TruncateUTF8(s, maxBytes);
    return kept + Marker();
  }

  /** The text between the delimiters; `trim` stands for strings.TrimSpace. */
  function Body(trim: Bytes -> Bytes, s: Bytes, maxBytes: int): Bytes {
    var kept := trim(Stripped(trim(s)));
    if kept == [] then Placeholder() else Capped(kept, maxBytes)
  }

  function Framed(trim: Bytes -> Bytes, s: Bytes, maxBytes: int): Bytes {
    Open() + [NEWLINE] + Body(trim, s, maxBytes) + [NEWLINE] + Close()
  }

  method FrameAnswer(trim: Bytes -> Bytes, s: Bytes, maxBytes: int) returns (framed: Bytes)
    ensures framed == Framed(trim, s, maxBytes)
    ensures exists r :: Reaches(trim(s), r) && Clean(r)
    ensures forall r :: Reaches(trim(s), r) && Clean(r) ==>
              && |framed| >= 48 && framed[..25] == Ascii("<<<BEGIN HUMAN ANSWER>>>\n")
              && framed[|framed| - 23..] == Ascii("\n<<<END HUMAN ANSWER>>>")
              && Frames(framed[25..|framed| - 23], trim(r), maxBytes)
  {
    forall r | Reaches(trim(s), r) && Clean(r)
      ensures Frames(Body(trim, s, maxBytes), trim(r), maxBytes)
    {
      StrippedIsTheRemainder(trim(s), r);
      BodyFrames(trim, s, maxBytes);
    }
    StrippedIsTheRemainder(trim(s), Stripped(trim(s)));
    FrameParts(Body(trim, s, maxBytes));
    var body := StripAnswerDelimiters(trim(s));
    body := trim(body);
    if body == [] {
      body := Placeholder();
    } else {
      body := CapText(body, maxBytes);
    }
    framed := Open() + [NEWLINE] + body + [NEWLINE] + Close();
  }

  /**
   * `body` is what a frame holds of an answer that comes to `kept`: the placeholder if nothing is left, the answer itself
   * if it fits, and otherwise what is left of it before the last place up to the limit where a rune may start, marked.
   */
  ghost predicate Frames(body: Bytes, kept: Bytes, maxBytes: int) {
    if kept == [] then body == Ascii("(the human did not provide an answer)")
    else if maxBytes <= 0 || |kept| <= maxBytes then body == kept
    else
      exists end :: 0 <= end <= maxBytes && body == kept[..end] + [0xE2, 0x80, 0xA6] + Ascii("[truncated]")
                    && (end == 0 || kept[end] as int / 64 != 2)
                    && forall k :: end < k <= maxBytes ==> kept[k] as int / 64 == 2
  }

  lemma BodyFrames(trim: Bytes -> Bytes, s: Bytes, maxBytes: int)
    ensures Frames(Body(trim, s, maxBytes), trim(Stripped(trim(s))), maxBytes)
  {
    hide Ascii, Stripped;
    var kept := trim(Stripped(trim(s)));
    if kept != [] && maxBytes > 0 && |kept| > maxBytes {
      var end := CutPoint(kept, maxBytes);
      Associative(kept[..end], [0xE2, 0x80, 0xA6], Ascii("[truncated]"));
    }
  }

  lemma FrameParts(body: Bytes)
    ensures var f := Open() + [NEWLINE] + body + [NEWLINE] + Close();
            && |f| == |body| + 48 && f[25..|f| - 23] == body
            && f[..25] == Ascii("<<<BEGIN HUMAN ANSWER>>>\n") && f[|f| - 23..] == Ascii("\n<<<END HUMAN ANSWER>>>")
  {
    OpenLine();
    CloseLine();
    hide Ascii, Open, Close;
    var head, tail := Open() + [NEWLINE], [NEWLINE] + Close();
    Associative(head + body, [NEWLINE], Close());
    assert (head + body + tail)[..|head|] == head;
    assert (head + body + tail)[|head + body|..] == tail;
    assert (head + body + tail)[|head|..|head + body|] == body;
  }

  lemma OpenLine()
    ensures Open() + [NEWLINE] == Ascii("<<<BEGIN HUMAN ANSWER>>>\n") && |Open()| == 24
  {
  }

  lemma CloseLine()
    ensures [NEWLINE] + Close() == Ascii("\n<<<END HUMAN ANSWER>>>") && |Close()| == 22
  {
  }

  /** Over-long valid text is cut to the longest run of whole characters that fits. */
  lemma FramesText(body: Bytes, t: string, maxBytes: int) returns (k: nat)
    requires 0 < maxBytes < ByteLen(t) && Frames(body, Encode(t), maxBytes)
    ensures k <= |t| && body == Encode(t[..k]) + Marker()
    ensures ByteLen(t[..k]) <= maxBytes && forall j :: k < j <= |t| ==> ByteLen(t[..j]) > maxBytes
  {
    hide Ascii, EncodeRune, Frames, Truncated, Marker;
    EncodeLength(t);
    FramesCut(body, Encode(t), maxBytes);
    FittingIsLongest(t, maxBytes);
    TruncatedIsLongestPrefix(t, maxBytes);
    k := Fitting(t, maxBytes);
  }

  lemma FramesCut(body: Bytes, kept: Bytes, maxBytes: int)
    requires 0 < maxBytes < |kept| && Frames(body, kept, maxBytes)
    ensures body == Truncated(kept, maxBytes) + Marker()
  {
    hide Ascii;
    var end :| 0 <= end <= maxBytes && body == kept[..end] + [0xE2, 0x80, 0xA6] + Ascii("[truncated]")
               && (end == 0 || kept[end] as int / 64 != 2)
               && forall k :: end < k <= maxBytes ==> kept[k] as int / 64 == 2;
    CutPointIs(kept, maxBytes, end);
    Associative(kept[..end], [0xE2, 0x80, 0xA6], Ascii("[truncated]"));
  }

  lemma CutPointIs(s: Bytes, max: nat, end: nat)
    requires end <= max < |s| && (end == 0 || RuneStart(s[end]))
    requires forall k :: end < k <= max ==> !RuneStart(s[k])
    ensures CutPoint(s, max) == end
  {
    var c := CutPoint(s, max);
    assert c == 0 || RuneStart(s[c]);
  }

  /** Trimming keeps one contiguous piece. */
  ghost predicate Trims(trim: Bytes -> Bytes) {
    forall s :: exists i, j :: 0 <= i <= j <= |s| && trim(s) == s[i..j]
  }

  lemma SliceOccurs(pat: Bytes, s: Bytes, i: int, j: int, k: int)
    requires 0 <= i <= j <= |s| && OccursAt(pat, s[i..j], k)
    ensures OccursAt(pat, s, i + k)
  {
    var t := s[i..j];
    assert forall x {:trigger pat[x]} :: 0 <= x < |pat| ==> s[i + k..i + k + |pat|][x] == t[k + x] == pat[x];
  }

  lemma SliceOfClean(s: Bytes, i: int, j: int)
    requires Clean(s) && 0 <= i <= j <= |s|
    ensures Clean(s[i..j])
  {
    hide Ascii, Open, Close, OccursAt;
    forall pat, k | pat in {Open(), Close()}
      ensures !OccursAt(pat, s[i..j], k)
    {
      if OccursAt(pat, s[i..j], k) {
        SliceOccurs(pat, s, i, j, k);
        OccursInRange(pat, s, i + k);
      }
    }
  }

  lemma OccursInRange(pat: Bytes, s: Bytes, i: int)
    requires OccursAt(pat, s, i)
    ensures Contains(s, pat)
  {
    assert 0 <= i <= |s|;
  }

  lemma OccurrenceBytes(pat: Bytes, s: Bytes, i: int)
    ensures OccursAt(pat, s, i) ==> forall k :: i <= k < i + |pat| ==> s[k] == pat[k - i]
  {
    assert OccursAt(pat, s, i) ==> forall k :: i <= k < i + |pat| ==> s[k] == s[i..i + |pat|][k - i];
  }

  /** An occurrence cannot straddle a byte it does not hold. */
  lemma SeparatedOccurrence(pat: Bytes, a: Bytes, c: byte, b: Bytes, i: int)
    requires pat != [] && c !in pat
    ensures OccursAt(pat, a + [c] + b, i) <==> OccursAt(pat, a, i) || OccursAt(pat, b, i - |a| - 1)
  {
    var s := a + [c] + b;
    OccurrenceBytes(pat, s, i);
    if OccursAt(pat, s, i) {
      assert s[|a|] == c;
      assert i + |pat| <= |a| || i > |a|;
      if i > |a| {
        assert b[i - |a| - 1..i - |a| - 1 + |pat|] == s[i..i + |pat|];
      } else {
        assert a[i..i + |pat|] == s[i..i + |pat|];
      }
    }
    if OccursAt(pat, a, i) {
      assert a[i..i + |pat|] == s[i..i + |pat|];
    }
    if OccursAt(pat, b, i - |a| - 1) {
      assert b[i - |a| - 1..i - |a| - 1 + |pat|] == s[i..i + |pat|];
    }
  }

  /** Cutting and marking cannot put a delimiter together. */
  lemma CappedStaysClean(s: Bytes, maxBytes: int)
    requires Clean(s)
    ensures Clean(Capped(s, maxBytes))
    ensures s != [] ==> Capped(s, maxBytes) != []
    ensures maxBytes > 0 ==> |Capped(s, maxBytes)| <= maxBytes + |Marker()|
  {
    hide Ascii, Open, Close, Marker, OccursAt;
    if maxBytes > 0 && |s| > maxBytes {
      var kept := Truncated(s, maxBytes);
      SliceOfClean(s, 0, CutPoint(s, maxBytes));
      assert kept == s[0..CutPoint(s, maxBytes)];
      DelimiterFacts();
      LiteralFacts();
      assert Marker() == [Marker()[0]] + Marker()[1..];
      assert Capped(s, maxBytes) == kept + [Marker()[0]] + Marker()[1..];
      forall pat, i | pat in {Open(), Close()}
        ensures !OccursAt(pat, Capped(s, maxBytes), i)
      {
        SeparatedOccurrence(pat, kept, Marker()[0], Marker()[1..], i);
        TooLong(pat, Marker()[1..], i - |kept| - 1);
        if OccursAt(pat, kept, i) {
          OccursInRange(pat, kept, i);
        }
      }
    }
  }

  lemma TooLong(pat: Bytes, s: Bytes, i: int)
    requires |pat| > |s|
    ensures !OccursAt(pat, s, i)
  {
  }

  lemma PlaceholderIsClean()
    ensures Clean(Placeholder()) && Placeholder() != []
  {
    hide Ascii, Open, Close, Placeholder;
    DelimiterFacts();
    LiteralFacts();
    var s := Placeholder();
    assert forall pat, i :: pat in {Open(), Close()} && OccursAt(pat, s, i) ==> s[i] == pat[0];
  }

  /** A delimiter holds no delimiter but itself. */
  lemma DelimitersInDelimiters(i: int)
    ensures OccursAt(Open(), Open(), i) <==> i == 0
    ensures OccursAt(Close(), Close(), i) <==> i == 0
    ensures !OccursAt(Open(), Close(), i) && !OccursAt(Close(), Open(), i)
  {
    hide Ascii, Open, Close;
    DelimiterFacts();
    OccurrenceBytes(Close(), Open(), i);
  }

  lemma TrimmedStaysClean(trim: Bytes -> Bytes, s: Bytes)
    requires Trims(trim) && Clean(s)
    ensures Clean(trim(s))
  {
    hide Clean;
    var i, j :| 0 <= i <= j <= |s| && trim(s) == s[i..j];
    SliceOfClean(s, i, j);
  }

  lemma BodyIsClean(trim: Bytes -> Bytes, s: Bytes, maxBytes: int)
    requires Trims(trim)
    ensures Body(trim, s, maxBytes) != [] && Clean(Body(trim, s, maxBytes))
    ensures maxBytes > 0 ==> |Body(trim, s, maxBytes)| <= Max(maxBytes + |Marker()|, |Placeholder()|)
  {
    hide Ascii, Open, Close, Placeholder, Marker, Clean, Stripped, Truncated, Capped, Trims;
    var clean := Stripped(trim(s));
    TrimmedStaysClean(trim, clean);
    CappedStaysClean(trim(clean), maxBytes);
    PlaceholderIsClean();
  }

  /** Whatever the human wrote, the frame opens once, closes once, and holds a non-empty body in between. */
  lemma FrameIsABoundary(trim: Bytes -> Bytes, s: Bytes, maxBytes: int, i: int)
    requires Trims(trim)
    ensures var f, body := Framed(trim, s, maxBytes), Body(trim, s, maxBytes);
            && (OccursAt(Open(), f, i) <==> i == 0)
            && (OccursAt(Close(), f, i) <==> i == |f| - |Close()|)
            && body != [] && Clean(body)
            && f == Open() + [NEWLINE] + body + [NEWLINE] + Close()
            && (maxBytes > 0 ==> |body| <= Max(maxBytes + |Marker()|, |Placeholder()|))
  {
    hide Ascii, Open, Close, Body, OccursAt, Trims, Placeholder, Marker;
    BodyIsClean(trim, s, maxBytes);
    DelimiterFacts();
    var body := Body(trim, s, maxBytes);
    var head := Open() + [NEWLINE] + body;
    var k := i - |head| - 1;
    forall pat | pat in {Open(), Close()}
      ensures !OccursAt(pat, body, i - |Open()| - 1)
      ensures OccursAt(pat, Framed(trim, s, maxBytes), i) <==> OccursAt(pat, Open(), i) || OccursAt(pat, Close(), k)
    {
      SeparatedOccurrence(pat, Open(), NEWLINE, body, i);
      SeparatedOccurrence(pat, head, NEWLINE, Close(), i);
      if OccursAt(pat, body, i - |Open()| - 1) {
        OccursInRange(pat, body, i - |Open()| - 1);
      }
    }
    DelimitersInDelimiters(i);
    DelimitersInDelimiters(k);
  }

  /** An answer that needs no treatment is framed byte for byte. */
  lemma PlainAnswerIsKept(trim: Bytes -> Bytes, s: Bytes, maxBytes: int)
    requires s != [] && Clean(s) && trim(s) == s && (maxBytes <= 0 || |s| <= maxBytes)
    ensures Body(trim, s, maxBytes) == s
  {
    hide Ascii, Open, Close, Placeholder, Marker, Clean;
  }

  // ---------------------------------------------------------------- valid UTF-8 stays valid

  lemma {:induction false} AsciiIsValid(s: string)
    requires forall i :: 0 <= i < |s| ==> s[i] as int < 0x80
    ensures Ascii(s) == Encode(s)
  {
    if s != "" {
      AsciiIsValid(s[1..]);
    }
  }

  lemma MarkerIsValid()
    ensures Valid(Marker())
  {
    var dots := "\U{2026}";
    assert Encode(dots) == EncodeRune(dots[0]) == [0xE2, 0x80, 0xA6];
    AsciiTextIsValid("[truncated]");
    ValidConcat(Encode(dots), Ascii("[truncated]"));
  }

  lemma AsciiTextIsValid(s: string)
    requires forall i :: 0 <= i < |s| ==> s[i] as int < 0x80
    ensures Valid(Ascii(s))
  {
    AsciiIsValid(s);
  }

  lemma CutKeepsValid(s: Bytes, i: int)
    requires Valid(s) && DelimAt(s, i) > 0
    ensures Valid(Cut(s, i))
  {
    hide Ascii, Open, Close, OccursAt, Valid;
    var n := DelimAt(s, i);
    var d := s[i..i + n];
    OpenFacts();
    CloseFacts();
    assert s[i] == d[0] && s[i + n - 1] == d[n - 1];
    ValidWithout(s, i, i + n);
  }

  lemma {:induction false} ReachesKeepsValid(s: Bytes, r: Bytes)
    requires Valid(s) && Reaches(s, r)
    ensures Valid(r)
    decreases |s|
  {
    hide Ascii, Open, Close, OccursAt, Valid, DelimAt, Cut;
    if s != r {
      var i :| DelimAt(s, i) > 0 && Reaches(Cut(s, i), r);
      CutKeepsValid(s, i);
      CutShortens(s, i);
      ReachesKeepsValid(Cut(s, i), r);
    }
  }

  lemma CutShortens(s: Bytes, i: int)
    requires DelimAt(s, i) > 0
    ensures |Cut(s, i)| < |s|
  {
    hide Ascii, Open, Close, OccursAt;
  }

  /** A frame of valid UTF-8 is valid UTF-8, and the cap keeps the longest run of whole characters that fits. */
  lemma FrameKeepsValid(trim: Bytes -> Bytes, s: Bytes, maxBytes: int)
    requires Valid(s) && forall x :: Valid(x) ==> Valid(trim(x))
    ensures Valid(Framed(trim, s, maxBytes))
    ensures Valid(trim(Stripped(trim(s))))
  {
    hide Ascii, Open, Close, Placeholder, Marker, Valid, Reaches, Stripped, Truncated;
    var clean := Stripped(trim(s));
    StrippedReached(trim(s));
    ReachesKeepsValid(trim(s), clean);
    MarkerIsValid();
    LiteralsAreValid();
    if maxBytes > 0 {
      ValidTruncated(trim(clean), maxBytes);
      ValidConcat(Truncated(trim(clean), maxBytes), Marker());
    }
    var body := Body(trim, s, maxBytes);
    ValidConcat(Open(), [NEWLINE]);
    ValidConcat(Open() + [NEWLINE], body);
    ValidConcat(Open() + [NEWLINE] + body, [NEWLINE]);
    ValidConcat(Open() + [NEWLINE] + body + [NEWLINE], Close());
  }

  lemma LiteralsAreValid()
    ensures Valid(Open()) && Valid(Close()) && Valid(Placeholder()) && Valid([NEWLINE])
  {
    hide Valid;
    AsciiTextIsValid("<<<BEGIN HUMAN ANSWER>>>");
    AsciiTextIsValid("<<<END HUMAN ANSWER>>>");
    AsciiTextIsValid("(the human did not provide an answer)");
    AsciiTextIsValid("\n");
    assert Ascii("\n") == [NEWLINE];
  }

  /** On valid text the cap keeps exactly the longest prefix of whole characters that fits. */
  lemma CappedText(t: string, maxBytes: int)
    requires 0 < maxBytes < ByteLen(t)
    ensures var k := Fitting(t, maxBytes);
            && k <= |t| && ByteLen(t[..k]) <= maxBytes
            && (forall j :: k < j <= |t| ==> ByteLen(t[..j]) > maxBytes)
            && Capped(Encode(t), maxBytes) == Encode(t[..k]) + Marker()
  {
    EncodeLength(t);
    FittingIsLongest(t, maxBytes);
    TruncatedIsLongestPrefix(t, maxBytes);
  }

  // ---------------------------------------------------------------- one frame for every pending call

  datatype FramedAnswer = FramedAnswer(id: string, name: string, text: Bytes)

  datatype FrameError = NothingPending | EmptyID

  method FramedAnswers(trim: Bytes -> Bytes, pending: seq<CallValue>, answers: map<string, Bytes>, maxBytes: int)
    returns (r: Result<seq<FramedAnswer>, FrameError>)
    ensures r.Ok? <==> pending != [] && forall i :: 0 <= i < |pending| ==> pending[i].id != ""
    ensures r.Err? ==> (r.error == NothingPending <==> pending == [])
    ensures r.Ok? ==> |r.value| == |pending|
    ensures r.Ok? ==> forall i :: 0 <= i < |pending| ==>
                        var pc := pending[i];
                        r.value[i] == FramedAnswer(pc.id, pc.name, Framed(
                          trim, if pc.id in answers then answers[pc.id] else [],
                          if maxBytes <= 0 then 16384 else maxBytes))
  {
    hide Ascii, Open, Close, Framed;
    if |pending| == 0 {
      return Err(NothingPending);
    }
    var cap := if maxBytes <= 0 then DEFAULT_ANSWER_MAX_BYTES else maxBytes;
    var framed: seq<FramedAnswer> := [];
    for k := 0 to |pending|
      invariant |framed| == k && forall i :: 0 <= i < k ==> pending[i].id != ""
      invariant forall i :: 0 <= i < k ==>
                  framed[i] == FramedAnswer(pending[i].id, pending[i].name, Framed(
                    trim, if pending[i].id in answers then answers[pending[i].id] else [], cap))
    {
      var pc := pending[k];
      if pc.id == "" {
        return Err(EmptyID);
      }
      var text := FrameAnswer(trim, if pc.id in answers then answers[pc.id] else [], cap);
      framed := framed + [FramedAnswer(pc.id, pc.name, text)];
    }
    return Ok(framed);
  }
}
