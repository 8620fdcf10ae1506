/** Following List cursors while other callers put and delete objects. */
module BlobPaging {
  import opened Wrappers
  import opened BlobSpec

  /** One List call: the objects it found and the limit it was given. */
  datatype Visit = Visit(objects: Objects, limit: int)

  ghost function FirstPage(prefix: Name, visits: seq<Visit>, cursor: Name): Page
    requires visits != []
  {
    PageOf(visits[0].objects, prefix, visits[0].limit, cursor)
  }

  /** The visits of a caller that follows cursors from `cursor`: each page but the last handed one out. */
  ghost predicate Followed(prefix: Name, visits: seq<Visit>, cursor: Name) {
    |visits| <= 1 ||
    var next := FirstPage(prefix, visits, cursor).cursor;
    next != [] && Followed(prefix, visits[1..], next)
  }

  /** How far those visits got: the cursor of their last page, empty once the listing is exhausted. */
  ghost function Reached(prefix: Name, visits: seq<Visit>, cursor: Name): Name {
    if visits == [] then cursor else Reached(prefix, visits[1..], FirstPage(prefix, visits, cursor).cursor)
  }

  /** The visits of a caller that goes on until it is handed an empty cursor. */
  ghost predicate Complete(prefix: Name, visits: seq<Visit>, cursor: Name) {
    visits != [] && Followed(prefix, visits, cursor) && Reached(prefix, visits, cursor) == []
  }

  /** Everything those pages listed, in the order it was listed. */
  ghost function Listed(prefix: Name, visits: seq<Visit>, cursor: Name): seq<Object> {
    if visits == [] then []
    else
      var page := FirstPage(prefix, visits, cursor);
      page.objects + Listed(prefix, visits[1..], page.cursor)
  }

  /** The visit whose page covers the place of `n` in the order. */
  ghost function Covering(prefix: Name, visits: seq<Visit>, cursor: Name, n: Name): (k: nat)
    requires visits != []
    ensures k < |visits|
  {
    var next := FirstPage(prefix, visits, cursor).cursor;
    if |visits| == 1 || !Less(next, n) then 0 else 1 + Covering(prefix, visits[1..], next, n)
  }

  function Names(objects: seq<Object>): (r: seq<Name>)
    ensures |r| == |objects| && forall i :: 0 <= i < |objects| ==> r[i] == objects[i].name
  {
    seq(|objects|, i requires 0 <= i < |objects| => objects[i].name)
  }

  /** Exactly what one page lists: the remaining names up to its cursor, or all of them if that is empty. */
  lemma PageMeans(objects: Objects, prefix: Name, limit: int, cursor: Name, o: Object)
    requires !StopsAtEmptyName(objects, prefix, limit, cursor)
    ensures var page := PageOf(objects, prefix, limit, cursor);
            o in page.objects <==>
              && o.name in Remaining(objects, prefix, cursor) && objects[o.name].gen == o.gen
              && (page.cursor == [] || !Less(page.cursor, o.name))
  {
    var page := PageOf(objects, prefix, limit, cursor);
    var left := Remaining(objects, prefix, cursor);
    var all := Sorted(left);
    var n := |page.objects|;
    AscendingLength(all);
    EmptyCursorMeansExhaustedIff(objects, prefix, limit, cursor);
    if o in page.objects {
      var i :| 0 <= i < n && page.objects[i] == o;
      assert all[i] in Elements(all);
      LessTotal(all[i], all[n - 1]);
    }
    if o.name in left && objects[o.name].gen == o.gen && (page.cursor == [] || !Less(page.cursor, o.name)) {
      assert o.name in Elements(all);
      var i :| 0 <= i < |all| && all[i] == o.name;
      assert i < n;
      assert page.objects[i] == o;
    }
  }

  lemma PageAscends(objects: Objects, prefix: Name, limit: int, cursor: Name)
    ensures var page := PageOf(objects, prefix, limit, cursor);
            && Ascending(Names(page.objects))
            && (forall o :: o in page.objects ==> HasPrefix(o.name, prefix) && Past(cursor, o.name))
            && (page.cursor != [] ==> forall o :: o in page.objects ==> !Less(page.cursor, o.name))
            && (page.cursor != [] ==> Past(cursor, page.cursor))
  {
    var page := PageOf(objects, prefix, limit, cursor);
    var all := Sorted(Remaining(objects, prefix, cursor));
    var n := |page.objects|;
    forall i | 0 <= i < n
      ensures all[i] in Remaining(objects, prefix, cursor) && !Less(all[n - 1], all[i])
    {
      assert all[i] in Elements(all);
      LessTotal(all[i], all[n - 1]);
    }
  }

  /**
   * No name is listed twice, and the names come in order, whatever is put or deleted between the pages and wherever the
   * caller stops.
   */
  lemma {:induction false} PagesAscend(prefix: Name, visits: seq<Visit>, cursor: Name)
    requires Followed(prefix, visits, cursor)
    ensures Ascending(Names(Listed(prefix, visits, cursor)))
    ensures forall o :: o in Listed(prefix, visits, cursor) ==> HasPrefix(o.name, prefix) && Past(cursor, o.name)
  {
    hide PageOf, Less;
    if visits == [] {
      return;
    }
    var page := FirstPage(prefix, visits, cursor);
    PageAscends(visits[0].objects, prefix, visits[0].limit, cursor);
    if |visits| > 1 {
      var rest := Listed(prefix, visits[1..], page.cursor);
      PagesAscend(prefix, visits[1..], page.cursor);
      forall o | o in rest
        ensures Past(cursor, o.name) && HasPrefix(o.name, prefix)
        ensures forall p :: p in page.objects ==> Less(p.name, o.name)
      {
        if cursor != [] {
          LessTransitive(cursor, page.cursor, o.name);
        }
        forall p | p in page.objects
          ensures Less(p.name, o.name)
        {
          LessTotal(p.name, page.cursor);
          if p.name != page.cursor {
            LessTransitive(p.name, page.cursor, o.name);
          }
        }
      }
      JoinAscends(page.objects, rest);
    } else {
      assert Listed(prefix, visits, cursor) == page.objects + [] == page.objects;
    }
  }

  lemma JoinAscends(a: seq<Object>, b: seq<Object>)
    requires Ascending(Names(a)) && Ascending(Names(b))
    requires forall o, p :: o in b && p in a ==> Less(p.name, o.name)
    ensures Ascending(Names(a + b))
  {
    assert Names(a + b) == Names(a) + Names(b);
  }

  /**
   * Exactly what following the cursors lists, wherever the caller stops: a matching name up to there is listed, with its
   * generation, if and only if it was there when the page covering its place in the order was taken.
   */
  lemma {:induction false} ListedIffPresentWhenCovered(prefix: Name, visits: seq<Visit>, cursor: Name, o: Object)
    requires visits != [] && Followed(prefix, visits, cursor)
    requires !StopsAtEmptyName(visits[0].objects, prefix, visits[0].limit, cursor)
    ensures var at := visits[Covering(prefix, visits, cursor, o.name)].objects;
            o in Listed(prefix, visits, cursor) <==>
              && HasPrefix(o.name, prefix) && Past(cursor, o.name)
              && (Reached(prefix, visits, cursor) == [] || !Less(Reached(prefix, visits, cursor), o.name))
              && o.name in at && at[o.name].gen == o.gen
  {
    hide PageOf, Less;
    var page := FirstPage(prefix, visits, cursor);
    PageMeans(visits[0].objects, prefix, visits[0].limit, cursor, o);
    if |visits| > 1 {
      var next := page.cursor;
      ListedIffPresentWhenCovered(prefix, visits[1..], next, o);
      PageAscends(visits[0].objects, prefix, visits[0].limit, cursor);
      if cursor != [] && Less(next, o.name) {
        LessTransitive(cursor, next, o.name);
      }
      ReachedIsPast(prefix, visits[1..], next);
      var last := Reached(prefix, visits[1..], next);
      if last != [] && last != next && Less(last, o.name) {
        LessTransitive(next, last, o.name);
      }
    } else {
      assert Reached(prefix, visits[1..], page.cursor) == page.cursor;
      assert Listed(prefix, visits, cursor) == page.objects + [] == page.objects;
    }
  }

  /** Cursors only move on. */
  lemma {:induction false} ReachedIsPast(prefix: Name, visits: seq<Visit>, cursor: Name)
    requires cursor != [] && Followed(prefix, visits, cursor)
    ensures var last := Reached(prefix, visits, cursor); last == [] || last == cursor || Less(cursor, last)
  {
    hide PageOf, Less;
    if visits != [] {
      var next := FirstPage(prefix, visits, cursor).cursor;
      PageAscends(visits[0].objects, prefix, visits[0].limit, cursor);
      if |visits| > 1 {
        ReachedIsPast(prefix, visits[1..], next);
        var last := Reached(prefix, visits[1..], next);
        if last != [] && last != next {
          LessTransitive(cursor, next, last);
        }
      }
    }
  }

  /** A matching object present throughout is listed. */
  lemma PresentThroughoutIsListed(prefix: Name, visits: seq<Visit>, n: Name)
    requires Complete(prefix, visits, [])
    requires !StopsAtEmptyName(visits[0].objects, prefix, visits[0].limit, [])
    requires HasPrefix(n, prefix) && forall v :: v in visits ==> n in v.objects
    ensures n in Names(Listed(prefix, visits, []))
  {
    var at := visits[Covering(prefix, visits, [], n)];
    assert at in visits;
    var o := Object(n, at.objects[n].gen);
    ListedIffPresentWhenCovered(prefix, visits, [], o);
    var i :| 0 <= i < |Listed(prefix, visits, [])| && Listed(prefix, visits, [])[i] == o;
    assert Names(Listed(prefix, visits, []))[i] == n;
  }

  /** With nothing written in between, the pages put together are the sorted listing. */
  lemma StillPagesAreTheListing(prefix: Name, visits: seq<Visit>, objects: Objects)
    requires Complete(prefix, visits, []) && forall v :: v in visits ==> v.objects == objects
    requires !StopsAtEmptyName(objects, prefix, visits[0].limit, [])
    ensures Names(Listed(prefix, visits, [])) == Sorted(Remaining(objects, prefix, []))
  {
    assert visits[0] in visits;
    PagesAscend(prefix, visits, []);
    var names := Names(Listed(prefix, visits, []));
    var all := Remaining(objects, prefix, []);
    forall n | n in all
      ensures n in names
    {
      PresentThroughoutIsListed(prefix, visits, n);
    }
    forall i | 0 <= i < |names|
      ensures names[i] in all
    {
      var o := Listed(prefix, visits, [])[i];
      ListedIffPresentWhenCovered(prefix, visits, [], o);
      assert visits[Covering(prefix, visits, [], o.name)] in visits;
    }
    assert Elements(names) == all;
    AscendingIsUnique(names, Sorted(all));
  }
}
