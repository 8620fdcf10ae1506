/** UTF-8 as Go strings carry it (section 3 of RFC 3629): lengths, encoding and rune boundaries. */
module Utf8 {
  import opened Wrappers

  /** len() of a string: the bytes of its UTF-8 form (section 3 of RFC 3629). */
  function RuneLen(c: char): nat {
    if c as int < 0x80 then 1 else if c as int < 0x800 then 2 else if c as int < 0x10000 then 3 else 4
  }

  function ByteLen(s: string): nat {
    if s == "" then 0 else RuneLen(s[0]) + ByteLen(s[1..])
  }

  lemma {:induction false} ByteLenConcat(a: string, b: string)
    ensures ByteLen(a + b) == ByteLen(a) + ByteLen(b)
  {
    if a == "" {
      assert a + b == b;
    } else {
      ByteLenConcat(a[1..], b);
      assert (a + b)[1..] == a[1..] + b;
    }
  }

  /** The bytes of one character. */
  function EncodeRune(c: char): Bytes {
    var n := c as int;
    if n < 0x80 then [n as byte]
    else if n < 0x800 then [(0xC0 + n / 0x40) as byte, (0x80 + n % 0x40) as byte]
    else if n < 0x10000 then
      [(0xE0 + n / 0x1000) as byte, (0x80 + n / 0x40 % 0x40) as byte, (0x80 + n % 0x40) as byte]
    else
      [(0xF0 + n / 0x40000) as byte, (0x80 + n / 0x1000 % 0x40) as byte, (0x80 + n / 0x40 % 0x40) as byte,
       (0x80 + n % 0x40) as byte]
  }

  function Encode(s: string): Bytes {
    if s == "" then [] else EncodeRune(s[0]) + Encode(s[1..])
  }

  /** utf8.RuneStart: anything but a continuation byte 10xxxxxx. */
  predicate RuneStart(b: byte) {
    b as int / 0x40 != 2
  }

  /** A rune is one starting byte followed by continuation bytes. */
  lemma EncodeRuneShape(c: char)
    ensures |EncodeRune(c)| == RuneLen(c)
    ensures forall i :: 0 <= i < RuneLen(c) ==> (RuneStart(EncodeRune(c)[i]) <==> i == 0)
  {
  }

  lemma SixBits(n: nat)
    ensures n == n / 0x40 * 0x40 + n % 0x40
    ensures n == n / 0x1000 * 0x1000 + n / 0x40 % 0x40 * 0x40 + n % 0x40
    ensures n == n / 0x40000 * 0x40000 + n / 0x1000 % 0x40 * 0x1000 + n / 0x40 % 0x40 * 0x40 + n % 0x40
  {
    var a := n / 0x40;
    var b := a / 0x40;
    assert b == n / 0x1000 && b / 0x40 == n / 0x40000;
  }

  /** What a run of payloads stands for. */
  function Payload(lead: int, rest: Bytes): int {
    if rest == [] then lead else Payload(lead, rest[..|rest| - 1]) * 0x40 + (rest[|rest| - 1] as int - 0x80)
  }

  /** The payload of its bytes is the character (the table in section 3 of RFC 3629). */
  lemma EncodeRuneDecodes(c: char)
    ensures var b, n := EncodeRune(c), c as int;
            && 1 <= |b| <= 4
            && n == Payload(b[0] as int - (if |b| == 1 then 0 else if |b| == 2 then 0xC0 else if |b| == 3 then 0xE0 else 0xF0),
                            b[1..])
            && (n < 0x80 <==> |b| == 1) && (n < 0x800 <==> |b| <= 2) && (n < 0x10000 <==> |b| <= 3)
  {
    SixBits(c as int);
    var b := EncodeRune(c);
    var r := b[1..];
    if |b| == 2 {
      PayloadOf(b[0] as int - 0xC0, r);
    } else if |b| == 3 {
      PayloadOf(b[0] as int - 0xE0, r);
    } else if |b| == 4 {
      PayloadOf(b[0] as int - 0xF0, r);
    }
  }

  lemma PayloadOf(lead: int, r: Bytes)
    requires 1 <= |r| <= 3
    ensures Payload(lead, r) ==
            if |r| == 1 then lead * 0x40 + (r[0] as int - 0x80)
            else if |r| == 2 then lead * 0x1000 + (r[0] as int - 0x80) * 0x40 + (r[1] as int - 0x80)
            else lead * 0x40000 + (r[0] as int - 0x80) * 0x1000 + (r[1] as int - 0x80) * 0x40 + (r[2] as int - 0x80)
  {
    var a := r[..|r| - 1];
    assert Payload(lead, []) == lead;
    if |r| > 1 {
      PayloadOf(lead, a);
    } else {
      assert a == [];
    }
  }

  lemma {:induction false} EncodeLength(s: string)
    ensures |Encode(s)| == ByteLen(s)
  {
    if s != "" {
      EncodeRuneShape(s[0]);
      EncodeLength(s[1..]);
    }
  }

  // ---------------------------------------------------------------- cutting on a rune boundary

  /** The last place up to `max` where a rune of `s` may start. */
  function CutPoint(s: Bytes, max: nat): (end: nat)
    requires max < |s|
    ensures end <= max && (end == 0 || RuneStart(s[end]))
    ensures forall k :: end < k <= max ==> !RuneStart(s[k])
  {
    if max == 0 || RuneStart(s[max]) then max else CutPoint(s, max - 1)
  }

  function Truncated(s: Bytes, max: nat): Bytes {
    if |s| <= max then s else s[..CutPoint(s, max)]
  }

  /** truncateUTF8. */
  method TruncateUTF8(s: Bytes, max: nat) returns (r: Bytes)
    ensures r == Truncated(s, max)
  {
    if |s| <= max {
      return s;
    }
    var end := max;
    while end > 0 && !RuneStart(s[end])
      invariant 0 <= end <= max
      invariant CutPoint(s, max) == CutPoint(s, end)
    {
      end := end - 1;
    }
    return s[..end];
  }

  /** How many characters of `s` fit into `max` bytes, counting from the left. */
  function Fitting(s: string, max: nat): nat {
    if s == "" || RuneLen(s[0]) > max then 0 else 1 + Fitting(s[1..], max - RuneLen(s[0]))
  }

  lemma {:induction false} FittingIsLongest(s: string, max: nat)
    ensures Fitting(s, max) <= |s| && ByteLen(s[..Fitting(s, max)]) <= max
    ensures forall k :: Fitting(s, max) < k <= |s| ==> ByteLen(s[..k]) > max
  {
    if s != "" && RuneLen(s[0]) <= max {
      var rest := max - RuneLen(s[0]);
      FittingIsLongest(s[1..], rest);
      forall k | 0 < k <= |s|
        ensures ByteLen(s[..k]) == RuneLen(s[0]) + ByteLen(s[1..][..k - 1])
      {
        assert s[..k][1..] == s[1..][..k - 1];
      }
    } else if s != "" {
      forall k | 0 < k <= |s|
        ensures ByteLen(s[..k]) > max
      {
        assert s[..k][0] == s[0];
      }
    }
  }

  /** Looking for a cut inside the tail of a concatenation. */
  lemma {:induction false} CutPointShift(a: Bytes, b: Bytes, max: nat)
    requires |a| <= max < |a| + |b| && b != [] && RuneStart(b[0])
    ensures CutPoint(a + b, max) == |a| + CutPoint(b, max - |a|)
    decreases max
  {
    if max > |a| && !RuneStart(b[max - |a|]) {
      CutPointShift(a, b, max - 1);
    }
  }

  lemma {:induction false} CutPointInRune(c: char, rest: Bytes, max: nat)
    requires max < RuneLen(c)
    ensures |EncodeRune(c)| == RuneLen(c) && CutPoint(EncodeRune(c) + rest, max) == 0
    decreases max
  {
    EncodeRuneShape(c);
    if max > 0 {
      CutPointInRune(c, rest, max - 1);
    }
  }

  lemma StartsWithRuneStart(s: string)
    requires s != ""
    ensures Encode(s) != [] && RuneStart(Encode(s)[0])
  {
    EncodeRuneShape(s[0]);
  }

  /** A cut in the tail of a concatenation leaves the head alone. */
  lemma TruncatedTail(a: Bytes, b: Bytes, max: nat)
    requires |a| <= max && (b == [] || RuneStart(b[0]))
    ensures Truncated(a + b, max) == a + Truncated(b, max - |a|)
  {
    if max < |a| + |b| {
      CutPointShift(a, b, max);
      var k := CutPoint(b, max - |a|);
      assert (a + b)[..|a| + k] == a + b[..k];
    }
  }

  lemma ShortIsWhole(s: Bytes, max: nat)
    requires |s| <= max
    ensures Truncated(s, max) == s
  {
  }

  /** A cut inside the first rune leaves nothing. */
  lemma TruncatedInRune(c: char, rest: Bytes, max: nat)
    requires max < RuneLen(c)
    ensures Truncated(EncodeRune(c) + rest, max) == []
  {
    CutPointInRune(c, rest, max);
  }

  lemma EncodePrefix(s: string, k: nat)
    requires 0 < k <= |s|
    ensures Encode(s[..k]) == EncodeRune(s[0]) + Encode(s[1..][..k - 1])
  {
    hide EncodeRune;
    assert s[..k][0] == s[0] && s[..k][1..] == s[1..][..k - 1];
  }

  /** On valid UTF-8 the byte cut is the encoding of the longest prefix of whole characters that fits. */
  lemma {:induction false} TruncatedIsLongestPrefix(s: string, max: nat)
    ensures Fitting(s, max) <= |s|
    ensures Truncated(Encode(s), max) == Encode(s[..Fitting(s, max)])
  {
    hide EncodeRune, Truncated;
    FittingIsLongest(s, max);
    if s == "" {
      ShortIsWhole([], max);
    } else {
      EncodeRuneShape(s[0]);
      var n := RuneLen(s[0]);
      if n <= max {
        TruncatedIsLongestPrefix(s[1..], max - n);
        if s[1..] != "" {
          StartsWithRuneStart(s[1..]);
        }
        TruncatedTail(EncodeRune(s[0]), Encode(s[1..]), max);
        EncodePrefix(s, Fitting(s, max));
      } else {
        TruncatedInRune(s[0], Encode(s[1..]), max);
        assert s[..0] == "";
      }
    }
  }

  // ---------------------------------------------------------------- what stays valid

  ghost predicate Valid(s: Bytes) {
    exists t :: s == Encode(t)
  }

  lemma Associative(a: Bytes, b: Bytes, c: Bytes)
    ensures a + b + c == a + (b + c)
  {
  }

  lemma {:induction false} EncodeConcat(a: string, b: string)
    ensures Encode(a + b) == Encode(a) + Encode(b)
  {
    hide EncodeRune;
    if a == "" {
      assert a + b == b;
    } else {
      EncodeConcat(a[1..], b);
      assert (a + b)[0] == a[0] && (a + b)[1..] == a[1..] + b;
      Associative(EncodeRune(a[0]), Encode(a[1..]), Encode(b));
    }
  }

  lemma ValidConcat(a: Bytes, b: Bytes)
    requires Valid(a) && Valid(b)
    ensures Valid(a + b)
  {
    var t, u :| a == Encode(t) && b == Encode(u);
    EncodeConcat(t, u);
    assert a + b == Encode(t + u);
  }

  /** Text may be cut in two before any starting byte. */
  lemma {:induction false} CutBeforeRune(t: string, i: nat) returns (k: nat)
    requires i < |Encode(t)| && RuneStart(Encode(t)[i])
    ensures k < |t| && Encode(t)[..i] == Encode(t[..k]) && Encode(t)[i..] == Encode(t[k..])
  {
    hide EncodeRune;
    EncodeRuneShape(t[0]);
    var n := RuneLen(t[0]);
    if i < n {
      assert Encode(t)[i] == EncodeRune(t[0])[i];
      k := 0;
      assert t[..0] == "" && t[0..] == t;
    } else {
      var rest := CutBeforeRune(t[1..], i - n);
      k := rest + 1;
      assert t[..k][0] == t[0] && t[..k][1..] == t[1..][..rest] && t[k..] == t[1..][rest..];
    }
  }

  lemma WithoutAsciiHead(t: string)
    requires Encode(t) != [] && Encode(t)[0] < 0x80
    ensures Encode(t)[1..] == Encode(t[1..])
  {
    EncodeRuneShape(t[0]);
    assert Encode(t)[0] == EncodeRune(t[0])[0];
  }

  /** A run of bytes that starts a rune and ends in an ASCII byte can be taken out of valid text. */
  lemma ValidWithout(s: Bytes, i: nat, j: nat)
    requires Valid(s) && i < j <= |s| && RuneStart(s[i]) && s[j - 1] < 0x80
    ensures Valid(s[..i] + s[j..])
  {
    hide EncodeRune;
    var t :| s == Encode(t);
    var k := CutBeforeRune(t, i);
    var l := CutBeforeRune(t, j - 1);
    WithoutAsciiHead(t[l..]);
    assert s[j - 1..][0] == s[j - 1];
    assert s[j..] == s[j - 1..][1..];
    ValidConcat(s[..i], s[j..]);
  }

  lemma ValidTruncated(s: Bytes, max: nat)
    requires Valid(s)
    ensures Valid(Truncated(s, max))
  {
    var t :| s == Encode(t);
    TruncatedIsLongestPrefix(t, max);
  }
}
