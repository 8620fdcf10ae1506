/** store/blob on values: what Put and Delete do to a bucket, and what one List page is. */
module BlobSpec {
  import opened Wrappers

  type Name = Bytes

  // ---------------------------------------------------------------- names in order

  /** Go's `<` on strings: byte by byte. */
  predicate Less(a: Name, b: Name) {
    b != [] && (a == [] || a[0] < b[0] || (a[0] == b[0] && Less(a[1..], b[1..])))
  }

  /** `i` is the first byte in which the names differ, or the end of the shorter one. */
  ghost predicate DiffersFirst(a: Name, b: Name, i: nat) {
    i <= |a| && i < |b| && a[..i] == b[..i] && (i == |a| || a[i] < b[i])
  }

  /** A name comes first if it is smaller at the first byte that differs, or is a proper beginning of the other. */
  lemma {:induction false} LessIff(a: Name, b: Name)
    ensures Less(a, b) <==> exists i: nat :: DiffersFirst(a, b, i)
  {
    if a == [] || b == [] || a[0] != b[0] {
      assert a[..0] == b[..0] == [];
      assert Less(a, b) ==> DiffersFirst(a, b, 0);
      if i: nat :| DiffersFirst(a, b, i) {
        if i > 0 {
          SameHead(a, b, i);
        }
      }
    } else {
      LessIff(a[1..], b[1..]);
      if i: nat :| DiffersFirst(a[1..], b[1..], i) {
        assert a[..i + 1] == [a[0]] + a[1..][..i] && b[..i + 1] == [b[0]] + b[1..][..i];
        assert DiffersFirst(a, b, i + 1);
      }
      if i: nat :| DiffersFirst(a, b, i) {
        assert i > 0;
        assert a[1..][..i - 1] == a[..i][1..] && b[1..][..i - 1] == b[..i][1..];
        assert DiffersFirst(a[1..], b[1..], i - 1);
      }
    }
  }

  lemma SameHead(a: Name, b: Name, i: nat)
    requires 0 < i <= |a| && i <= |b| && a[..i] == b[..i]
    ensures a[0] == b[0]
  {
    assert a[..i][0] == b[..i][0];
  }

  lemma {:induction false} LessTotal(a: Name, b: Name)
    ensures a == b <==> !Less(a, b) && !Less(b, a)
    ensures !(Less(a, b) && Less(b, a))
  {
    if a != [] && b != [] {
      LessTotal(a[1..], b[1..]);
      if a[0] == b[0] && a[1..] == b[1..] {
        assert a == [a[0]] + a[1..] == b;
      }
    }
  }

  lemma {:induction false} LessTransitive(a: Name, b: Name, c: Name)
    requires Less(a, b) && Less(b, c)
    ensures Less(a, c)
  {
    if a != [] && a[0] == b[0] && b[0] == c[0] {
      LessTransitive(a[1..], b[1..], c[1..]);
    }
  }

  ghost predicate Ascending(s: seq<Name>) {
    forall i, j :: 0 <= i < j < |s| ==> Less(s[i], s[j])
  }

  function Elements(s: seq<Name>): set<Name> {
    set n | n in s
  }

  function Insert(s: seq<Name>, n: Name): seq<Name> {
    if s == [] || Less(n, s[0]) then [n] + s else [s[0]] + Insert(s[1..], n)
  }

  lemma {:induction false} InsertKeepsOrder(s: seq<Name>, n: Name)
    requires Ascending(s) && n !in s
    ensures Ascending(Insert(s, n)) && Elements(Insert(s, n)) == Elements(s) + {n}
  {
    if s != [] {
      LessTotal(n, s[0]);
      if Less(n, s[0]) {
        forall i | 0 < i < |s|
          ensures Less(n, s[i])
        {
          LessTransitive(n, s[0], s[i]);
        }
      } else {
        var t := Insert(s[1..], n);
        InsertKeepsOrder(s[1..], n);
        forall i | 0 <= i < |t|
          ensures Less(s[0], t[i])
        {
          assert t[i] in Elements(t);
          if t[i] != n {
            var j :| 0 <= j < |s[1..]| && s[1..][j] == t[i];
            assert s[j + 1] == t[i];
          }
        }
        assert s == [s[0]] + s[1..];
      }
    }
  }

  /** The names of a set in ascending order. */
  ghost function Sorted(names: set<Name>): (r: seq<Name>)
    ensures Ascending(r) && Elements(r) == names
  {
    if names == {} then []
    else
      var n :| n in names;
      var rest := Sorted(names - {n});
      InsertKeepsOrder(rest, n);
      Insert(rest, n)
  }

  lemma {:induction false} AscendingIsUnique(a: seq<Name>, b: seq<Name>)
    requires Ascending(a) && Ascending(b) && Elements(a) == Elements(b)
    ensures a == b
  {
    AscendingLength(a);
    AscendingLength(b);
    if a != [] {
      HeadIsLeast(a, b);
      HeadIsLeast(b, a);
      LessTotal(a[0], b[0]);
      TailElements(a);
      TailElements(b);
      AscendingIsUnique(a[1..], b[1..]);
      assert a == [a[0]] + a[1..];
    }
  }

  lemma HeadIsLeast(a: seq<Name>, b: seq<Name>)
    requires Ascending(a) && a != [] && b != [] && Elements(a) == Elements(b)
    ensures !Less(b[0], a[0])
  {
    assert b[0] in Elements(a);
    LessTotal(a[0], b[0]);
  }

  lemma TailElements(a: seq<Name>)
    requires Ascending(a) && a != []
    ensures Ascending(a[1..]) && Elements(a[1..]) == Elements(a) - {a[0]}
  {
    LessTotal(a[0], a[0]);
    assert forall i :: 0 < i < |a| ==> Less(a[0], a[i]) && a[i] == a[1..][i - 1];
  }

  // ---------------------------------------------------------------- one page

  datatype Entry = Entry(data: Option<Bytes>, gen: nat)

  type Objects = map<Name, Entry>

  datatype Object = Object(name: Name, gen: nat)

  datatype Page = Page(objects: seq<Object>, cursor: Name)

  const DEFAULT_LIST_LIMIT := 100

  function EffectiveLimit(limit: int): nat {
    if limit <= 0 then DEFAULT_LIST_LIMIT else limit
  }

  predicate HasPrefix(n: Name, prefix: Name) {
    |prefix| <= |n| && n[..|prefix|] == prefix
  }

  /** A name matches if it is the prefix and something more. */
  lemma HasPrefixIff(n: Name, prefix: Name)
    ensures HasPrefix(n, prefix) <==> exists rest :: prefix + rest == n
  {
    if HasPrefix(n, prefix) {
      assert prefix + n[|prefix|..] == n;
    }
    if rest :| prefix + rest == n {
      assert n[..|prefix|] == prefix;
    }
  }

  predicate Past(cursor: Name, n: Name) {
    cursor == [] || Less(cursor, n)
  }

  /** What a listing that has come as far as `cursor` still has to show. */
  function Remaining(objects: Objects, prefix: Name, cursor: Name): set<Name> {
    set n | n in objects && HasPrefix(n, prefix) && Past(cursor, n)
  }

  lemma RemainingIsThere(objects: Objects, prefix: Name, cursor: Name)
    ensures Remaining(objects, prefix, cursor) <= objects.Keys
  {
  }

  ghost function PageOf(objects: Objects, prefix: Name, limit: int, cursor: Name): (page: Page)
    ensures |page.objects| == Min(EffectiveLimit(limit), |Sorted(Remaining(objects, prefix, cursor))|)
  {
    var all := Sorted(Remaining(objects, prefix, cursor));
    var n: nat := Min(EffectiveLimit(limit), |all|);
    assert forall i :: 0 <= i < n ==> all[i] in Elements(all);
    Page(seq(n, i requires 0 <= i < n => Object(all[i], objects[all[i]].gen)),
         if n < |all| then all[n - 1] else [])
  }

  /** A page is full, or shows all that is left. */
  lemma PageLength(objects: Objects, prefix: Name, limit: int, cursor: Name)
    ensures |PageOf(objects, prefix, limit, cursor).objects|
            == Min(if limit <= 0 then 100 else limit, |Remaining(objects, prefix, cursor)|)
  {
    AscendingLength(Sorted(Remaining(objects, prefix, cursor)));
  }

  /** Cursors are the empty string when the listing is exhausted, except when the page stops at an empty name. */
  lemma EmptyCursorMeansExhaustedIff(objects: Objects, prefix: Name, limit: int, cursor: Name)
    ensures var page := PageOf(objects, prefix, limit, cursor);
            (page.cursor == [] <==> |page.objects| == |Remaining(objects, prefix, cursor)|)
            <==> !StopsAtEmptyName(objects, prefix, limit, cursor)
  {
    var left := Remaining(objects, prefix, cursor);
    var all := Sorted(left);
    AscendingLength(all);
    var n := |PageOf(objects, prefix, limit, cursor).objects|;
    if [] in left {
      EmptyNameComesFirst(all);
      assert prefix == [];
      assert left == objects.Keys;
    }
    if n < |all| {
      assert all[n - 1] in Elements(all);
      if all[n - 1] == [] {
        LessTotal(all[0], all[n - 1]);
        assert n == 1;
      }
    }
  }

  /** A first page of one, over every object, with an object named "" and others. */
  predicate StopsAtEmptyName(objects: Objects, prefix: Name, limit: int, cursor: Name) {
    cursor == [] && prefix == [] && limit == 1 && [] in objects && |objects| > 1
  }

  lemma EmptyNameComesFirst(all: seq<Name>)
    requires Ascending(all) && [] in all
    ensures all[0] == []
  {
    var i :| 0 <= i < |all| && all[i] == [];
    assert i > 0 ==> Less(all[0], []);
  }

  lemma {:induction false} AscendingLength(all: seq<Name>)
    requires Ascending(all)
    ensures |all| == |Elements(all)|
  {
    if all != [] {
      TailElements(all);
      AscendingLength(all[1..]);
    }
  }

  // ---------------------------------------------------------------- a bucket

  datatype Cond = Cond(doesNotExist: bool, generationMatch: int)

  datatype Error = NotExist | PreconditionFailed

  datatype Bucket = Bucket(nextGen: nat, objects: Objects) {
    /** A create-only write needs the name free, and takes precedence over a generation match. */
    predicate Allows(name: Name, cond: Cond) {
      if cond.doesNotExist then name !in objects
      else if cond.generationMatch != 0 then name in objects && objects[name].gen == cond.generationMatch
      else true
    }

    function Put(name: Name, data: Option<Bytes>, cond: Cond): Bucket {
      if Allows(name, cond) then Bucket(nextGen + 1, objects[name := Entry(data, nextGen)]) else this
    }

    function DeleteError(name: Name, ifGen: int): Option<Error> {
      if name !in objects then Some(if ifGen == 0 then NotExist else PreconditionFailed)
      else if ifGen != 0 && objects[name].gen != ifGen then Some(PreconditionFailed)
      else None
    }

    function Delete(name: Name, ifGen: int): Bucket {
      if DeleteError(name, ifGen).None? then this.(objects := objects - {name}) else this
    }
  }

  /** An unconditional write goes through whatever is there, and gets a generation the bucket did not hold. */
  lemma UnconditionalPutLands(b: Bucket, name: Name, data: Option<Bytes>)
    ensures var b' := b.Put(name, data, Cond(false, 0));
            && b'.objects.Keys == b.objects.Keys + {name} && b'.objects[name] == Entry(data, b.nextGen)
            && (forall n :: n in b.objects && n != name ==> b'.objects[n] == b.objects[n]) && b'.nextGen == b.nextGen + 1
  {
  }

  /** A create-only write lands exactly on a free name, whatever generation it also names. */
  lemma CreateOnlyLandsIff(b: Bucket, name: Name, data: Option<Bytes>, gen: int)
    ensures var b' := b.Put(name, data, Cond(true, gen));
            if name in b.objects then b' == b
            else b'.objects == b.objects[name := Entry(data, b.nextGen)] && b'.nextGen == b.nextGen + 1
  {
  }

  /** A write conditional on a generation lands exactly on the object that carries it. */
  lemma MatchingPutLandsIff(b: Bucket, name: Name, data: Option<Bytes>, gen: int)
    requires gen != 0
    ensures var b' := b.Put(name, data, Cond(false, gen));
            if name in b.objects && b.objects[name].gen == gen
            then b'.objects == b.objects[name := Entry(data, b.nextGen)] && b'.nextGen == b.nextGen + 1
            else b' == b
  {
  }

  /** An empty cursor with an object still to come, two Puts from an empty bucket. */
  lemma EmptyCursorIsNotTheEnd(data: Option<Bytes>)
    ensures var always := Cond(false, 0);
            var b := Bucket(1, map[]).Put([], data, always).Put([97], data, always);
            var page := PageOf(b.objects, [], 1, []);
            && page == Page([Object([], 1)], [])
            && [97] in Remaining(b.objects, [], []) && StopsAtEmptyName(b.objects, [], 1, [])
  {
    var always := Cond(false, 0);
    var b := Bucket(1, map[]).Put([], data, always).Put([97], data, always);
    var left := Remaining(b.objects, [], []);
    var all: seq<Name> := [[], [97]];
    assert left == {[], [97]} == Elements(all);
    AscendingIsUnique(all, Sorted(left));
    assert Sorted(left) == all;
  }
}
