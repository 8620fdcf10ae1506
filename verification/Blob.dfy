/** store/blob/mem.go: the in-memory backend, whose stored bytes are its own. */
module Blob {
  import opened Wrappers
  import opened BlobSpec
  import MemStore

  datatype MemObject = MemObject(data: array?<byte>, gen: nat)

  ghost predicate Owns(m: map<Name, MemObject>, mem: set<object>) {
    forall n :: n in m ==> MemStore.Owned(m[n].data) <= mem
  }

  ghost function Values(m: map<Name, MemObject>, mem: set<object>): (r: Objects)
    requires Owns(m, mem)
    reads mem
    ensures r.Keys == m.Keys && forall n :: n in m ==> r[n].gen == m[n].gen
  {
    map n | n in m :: Entry(MemStore.RawValue(m[n].data), m[n].gen)
  }

  lemma ValuesGrow(m: map<Name, MemObject>, mem: set<object>, name: Name, o: MemObject, mem': set<object>)
    requires Owns(m, mem) && mem <= mem' && MemStore.Owned(o.data) <= mem'
    ensures Owns(m[name := o], mem')
    ensures Values(m[name := o], mem') == Values(m, mem)[name := Entry(MemStore.RawValue(o.data), o.gen)]
  {
  }

  /** slices.Sort. */
  method SortNames(names: seq<Name>) returns (sorted: seq<Name>)
    requires forall i, j :: 0 <= i < j < |names| ==> names[i] != names[j]
    ensures sorted == Sorted(Elements(names))
  {
    sorted := [];
    for k := 0 to |names|
      invariant Ascending(sorted) && Elements(sorted) == Elements(names[..k])
    {
      assert names[k] !in Elements(sorted);
      InsertKeepsOrder(sorted, names[k]);
      assert names[..k + 1] == names[..k] + [names[k]];
      sorted := Insert(sorted, names[k]);
    }
    assert names[..|names|] == names;
    AscendingIsUnique(sorted, Sorted(Elements(names)));
  }

  /** slices.BinarySearch: where `target` is, or would be put. */
  method BinarySearch(names: seq<Name>, target: Name) returns (i: nat, found: bool)
    requires Ascending(names)
    ensures i <= |names|
    ensures forall k :: 0 <= k < i ==> Less(names[k], target)
    ensures forall k :: i <= k < |names| ==> !Less(names[k], target)
    ensures found <==> i < |names| && names[i] == target
  {
    i := 0;
    var j := |names|;
    while i < j
      invariant 0 <= i <= j <= |names|
      invariant forall k :: 0 <= k < i ==> Less(names[k], target)
      invariant forall k :: j <= k < |names| ==> !Less(names[k], target)
    {
      var h := (i + j) / 2;
      if Less(names[h], target) {
        forall k | 0 <= k < h
          ensures Less(names[k], target)
        {
          LessTransitive(names[k], names[h], target);
        }
        i := h + 1;
      } else {
        forall k | h < k < |names|
          ensures !Less(names[k], target)
        {
          if Less(names[k], target) {
            LessTransitive(names[h], names[k], target);
          }
        }
        j := h;
      }
    }
    found := i < |names| && names[i] == target;
  }

  /** A search for the cursor splits the names into those it has passed and those still to come. */
  lemma SearchSplits(names: seq<Name>, cursor: Name, i: nat, found: bool)
    requires Ascending(names) && i <= |names|
    requires forall k :: 0 <= k < i ==> Less(names[k], cursor)
    requires forall k :: i <= k < |names| ==> !Less(names[k], cursor)
    requires found <==> i < |names| && names[i] == cursor
    ensures forall k :: 0 <= k < |names| ==> (Less(cursor, names[k]) <==> k >= if found then i + 1 else i)
  {
    forall k | 0 <= k < |names|
      ensures Less(cursor, names[k]) <==> k >= if found then i + 1 else i
    {
      LessTotal(cursor, names[k]);
    }
  }

  lemma RemainingFrom(objects: Objects, prefix: Name, cursor: Name, names: seq<Name>, start: nat)
    requires names == Sorted(Remaining(objects, prefix, [])) && start <= |names|
    requires forall k :: 0 <= k < |names| ==> (Past(cursor, names[k]) <==> k >= start)
    ensures names[start..] == Sorted(Remaining(objects, prefix, cursor))
  {
    var rest := names[start..];
    forall n | n in Remaining(objects, prefix, cursor)
      ensures n in rest
    {
      assert n in Elements(names);
      var k :| 0 <= k < |names| && names[k] == n;
      assert rest[k - start] == n;
    }
    forall k | 0 <= k < |rest|
      ensures rest[k] in Remaining(objects, prefix, cursor)
    {
      assert names[start + k] in Elements(names);
    }
    assert Elements(rest) == Remaining(objects, prefix, cursor);
    AscendingIsUnique(rest, Sorted(Remaining(objects, prefix, cursor)));
  }

  lemma ElementsOfPrefix(s: seq<Name>, n: nat)
    requires n <= |s|
    ensures Elements(s[..n]) <= Elements(s)
  {
    assert forall m :: m in s[..n] ==> m in s;
  }

  lemma ListedAreThere(objects: Objects, prefix: Name, cursor: Name, names: seq<Name>, start: nat, end: nat)
    requires start <= end <= |names| && names[start..] == Sorted(Remaining(objects, prefix, cursor))
    ensures Elements(names[start..end]) <= objects.Keys
  {
    RemainingIsThere(objects, prefix, cursor);
    ElementsOfPrefix(names[start..], end - start);
    assert names[start..end] == names[start..][..end - start];
  }

  lemma ListedPage(objects: Objects, prefix: Name, limit: int, cursor: Name, names: seq<Name>, start: nat, end: nat,
                   page: Page)
    requires start <= |names| && names[start..] == Sorted(Remaining(objects, prefix, cursor))
    requires end == Min(start + EffectiveLimit(limit), |names|) && |page.objects| == end - start
    requires forall i :: 0 <= i < end - start ==>
               names[start..end][i] in objects
               && page.objects[i] == Object(names[start..end][i], objects[names[start..end][i]].gen)
    requires page.cursor == if end < |names| then names[end - 1] else []
    ensures page == PageOf(objects, prefix, limit, cursor)
    ensures |page.objects| <= if limit <= 0 then 100 else limit
  {
    hide PageOf, Less, Remaining, HasPrefix;
    var rest := names[start..];
    assert names[start..end] == rest[..end - start];
    PageFrom(objects, prefix, limit, cursor, rest, page);
  }

  lemma PageFrom(objects: Objects, prefix: Name, limit: int, cursor: Name, rest: seq<Name>, page: Page)
    requires rest == Sorted(Remaining(objects, prefix, cursor))
    requires |page.objects| == Min(EffectiveLimit(limit), |rest|)
    requires forall i :: 0 <= i < |page.objects| ==>
               rest[i] in objects && page.objects[i] == Object(rest[i], objects[rest[i]].gen)
    requires page.cursor == if |page.objects| < |rest| then rest[|page.objects| - 1] else []
    ensures page == PageOf(objects, prefix, limit, cursor)
  {
    assert page.objects == PageOf(objects, prefix, limit, cursor).objects;
  }

  class Mem {
    var nextGen: nat
    var objects: map<Name, MemObject>
    ghost var mem: set<object>

    ghost predicate Valid()
      reads this
    {
      this !in mem && Owns(objects, mem)
    }

    ghost function Contents(): Bucket
      requires Valid()
      reads this, mem
    {
      Bucket(nextGen, Values(objects, mem))
    }

    constructor ()
      ensures Valid() && mem == {}
      ensures Contents() == Bucket(1, map[])
    {
      nextGen, objects, mem := 1, map[], {};
    }

    /** Stores a copy of `data`. */
    method Put(name: Name, data: array?<byte>, cond: Cond) returns (r: Result<nat, Error>)
      requires Valid()
      modifies this
      ensures Valid() && mem >= old(mem) && fresh(mem - old(mem))
      ensures r == if old(Contents()).Allows(name, cond) then Ok(old(nextGen)) else Err(PreconditionFailed)
      ensures var found := old(Contents()).objects;
              r.Ok? <==> if cond.doesNotExist then name !in found
                         else cond.generationMatch == 0 || (name in found && found[name].gen == cond.generationMatch)
      ensures Contents() == old(Contents()).Put(name, old(MemStore.RawValue(data)), cond)
    {
      var present := name in objects;
      if cond.doesNotExist {
        if present {
          return Err(PreconditionFailed);
        }
      } else if cond.generationMatch != 0 {
        if !present || objects[name].gen != cond.generationMatch {
          return Err(PreconditionFailed);
        }
      }
      hide Owns, Values, MemStore.RawValue;
      var gen := nextGen;
      var copy := MemStore.CloneBytes(data);
      label copied:
      ValuesGrow(objects, mem, name, MemObject(copy, gen), mem + MemStore.Owned(copy));
      nextGen := nextGen + 1;
      objects := objects[name := MemObject(copy, gen)];
      mem := mem + MemStore.Owned(copy);
      assert Values(objects, mem) == old@copied(Values(objects[name := MemObject(copy, gen)], mem + MemStore.Owned(copy)));
      return Ok(gen);
    }

    /** Hands out a copy: nothing the caller gets is memory of the store. */
    method Get(name: Name) returns (data: array?<byte>, gen: nat, ok: bool)
      requires Valid()
      ensures ok <==> name in Contents().objects
      ensures ok ==> Entry(MemStore.RawValue(data), gen) == Contents().objects[name]
      ensures !ok ==> data == null && gen == 0
      ensures data != null ==> fresh(data)
    {
      if name !in objects {
        return null, 0, false;
      }
      data := MemStore.CloneBytes(objects[name].data);
      return data, objects[name].gen, true;
    }

    method Delete(name: Name, ifGen: int) returns (err: Option<Error>)
      requires Valid()
      modifies this`objects
      ensures Valid()
      ensures err == old(Contents()).DeleteError(name, ifGen)
      ensures var found := old(Contents()).objects;
              && (err == Some(NotExist) <==> name !in found && ifGen == 0)
              && (err.None? <==> name in found && (ifGen == 0 || found[name].gen == ifGen))
              && Contents().objects == (if err.None? then found - {name} else found)
      ensures Contents() == old(Contents()).Delete(name, ifGen)
    {
      if name !in objects {
        return Some(if ifGen == 0 then NotExist else PreconditionFailed);
      } else if ifGen != 0 && objects[name].gen != ifGen {
        return Some(PreconditionFailed);
      }
      objects := objects - {name};
      return None;
    }

    /** One page; the order in which the map is walked does not show. */
    method List(prefix: Name, limit: int, cursor: Name) returns (page: Page)
      requires Valid()
      ensures page == PageOf(Contents().objects, prefix, limit, cursor)
      ensures |page.objects| <= if limit <= 0 then 100 else limit
    {
      hide PageOf, Less, MemStore.RawValue, Owns, Values, Mem.Valid, Mem.Contents, Remaining, HasPrefix;
      var cap := EffectiveLimit(limit);
      var names, start := NamesFrom(prefix, cursor);
      var end: nat := Min(start + cap, |names|);
      ListedAreThere(Contents().objects, prefix, cursor, names, start, end);
      var listed := Entries(names[start..end]);
      page := Page(listed, if end < |names| then names[end - 1] else []);
      ListedPage(Contents().objects, prefix, limit, cursor, names, start, end, page);
    }

    /** All matching names in order, and where those past the cursor start. */
    method NamesFrom(prefix: Name, cursor: Name) returns (names: seq<Name>, start: nat)
      requires Valid()
      ensures start <= |names| && names[start..] == Sorted(Remaining(Contents().objects, prefix, cursor))
    {
      hide Less, MemStore.RawValue, Remaining, Owns, Values;
      names := Matching(prefix);
      names := SortNames(names);
      start := 0;
      if cursor != [] {
        var i, found := BinarySearch(names, cursor);
        start := if found then i + 1 else i;
        SearchSplits(names, cursor, i, found);
      }
      RemainingFrom(Contents().objects, prefix, cursor, names, start);
    }

    /** The entries listed for `names`. */
    method Entries(names: seq<Name>) returns (listed: seq<Object>)
      requires Valid() && Elements(names) <= Contents().objects.Keys
      ensures |listed| == |names|
      ensures forall i :: 0 <= i < |names| ==>
                names[i] in Contents().objects && listed[i] == Object(names[i], Contents().objects[names[i]].gen)
    {
      hide MemStore.RawValue;
      assert forall i :: 0 <= i < |names| ==> names[i] in Elements(names);
      listed := [];
      for k := 0 to |names|
        invariant |listed| == k
        invariant forall i :: 0 <= i < k ==> listed[i] == Object(names[i], objects[names[i]].gen)
      {
        listed := listed + [Object(names[k], objects[names[k]].gen)];
      }
    }

    /** The names with the prefix, in whatever order the map yields them. */
    method Matching(prefix: Name) returns (names: seq<Name>)
      requires Valid()
      ensures forall i, j :: 0 <= i < j < |names| ==> names[i] != names[j]
      ensures Elements(names) == Remaining(Contents().objects, prefix, [])
    {
      names := [];
      var left := objects.Keys;
      while left != {}
        invariant left <= objects.Keys
        invariant forall n :: n in names <==> n in objects && n !in left && HasPrefix(n, prefix)
        invariant forall i, j :: 0 <= i < j < |names| ==> names[i] != names[j]
        decreases |left|
      {
        var n :| n in left;
        left := left - {n};
        if HasPrefix(n, prefix) {
          names := names + [n];
        }
      }
    }
  }

  /** A backend keeps its contents while neither it nor its memory is written. */
  twostate lemma ContentsFrame(m: Mem)
    requires old(m.Valid()) && unchanged(m) && unchanged(old(m.mem))
    ensures m.Valid() && m.Contents() == old(m.Contents())
  {
    forall n | n in m.objects
      ensures MemStore.RawValue(m.objects[n].data) == old(MemStore.RawValue(m.objects[n].data))
    {
      assert MemStore.Owned(m.objects[n].data) <= m.mem;
      if m.objects[n].data != null {
        assert m.objects[n].data in m.mem;
      }
    }
  }
}
