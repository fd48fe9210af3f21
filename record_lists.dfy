/** The reducers the user and role screens apply to their lists of records
    keyed by `id`: delete by id, update the records with an id, the next id
    for a new record, the status toggle and the catalogue lookup. */
module RecordLists {
  import opened Js
  import opened Seqs

  function IdOf(r: Record): Value {
    Get(r, "id")
  }

  function Ids(items: seq<Record>): (r: seq<Value>)
    ensures |r| == |items|
    ensures forall i :: 0 <= i < |items| ==> r[i] == IdOf(items[i])
  {
    seq(|items|, i requires 0 <= i < |items| => IdOf(items[i]))
  }

  /** No two records share an id. */
  ghost predicate UniqueIds(items: seq<Record>) {
    forall i, j :: 0 <= i < j < |items| ==> IdOf(items[i]) != IdOf(items[j])
  }

  /** Every id is a number. */
  predicate NumericIds(items: seq<Record>) {
    forall i :: 0 <= i < |items| ==> IdOf(items[i]).Num?
  }

  /** `prev.filter((item) => item.id !== id)`. */
  function RemoveById(items: seq<Record>, id: Value): (r: seq<Record>)
    ensures |r| <= |items|
    ensures forall i :: 0 <= i < |r| ==> IdOf(r[i]) != id
  {
    Filter(items, (item: Record) => IdOf(item) != id)
  }

  /** Deleting removes exactly the records with that id and keeps the others in order. */
  lemma RemoveByIdExact(items: seq<Record>, id: Value)
    ensures forall x :: x in RemoveById(items, id) <==> x in items && IdOf(x) != id
    ensures forall x :: multiset(RemoveById(items, id))[x]
                        == if IdOf(x) != id then multiset(items)[x] else 0
    ensures IsSubsequence(RemoveById(items, id), items)
  {
    forall x
      ensures x in RemoveById(items, id) <==> x in items && IdOf(x) != id
      ensures multiset(RemoveById(items, id))[x] == if IdOf(x) != id then multiset(items)[x] else 0
    {
      FilterMembers(items, (item: Record) => IdOf(item) != id, x);
      FilterCount(items, (item: Record) => IdOf(item) != id, x);
    }
    FilterIsSubsequence(items, (item: Record) => IdOf(item) != id);
  }

  /** Filtering a list with unique ids keeps them unique (and numeric). */
  lemma {:induction false} FilterKeepsIds(items: seq<Record>, p: Record -> bool)
    ensures UniqueIds(items) ==> UniqueIds(Filter(items, p))
    ensures NumericIds(items) ==> NumericIds(Filter(items, p))
    decreases |items|
  {
    if items != [] {
      var rest := items[1..];
      FilterKeepsIds(rest, p);
      var fr := Filter(rest, p);
      forall x | x in fr ensures x in rest {
        FilterMembers(rest, p, x);
      }
      if UniqueIds(items) {
        assert UniqueIds(rest) by {
          forall i, j | 0 <= i < j < |rest| ensures IdOf(rest[i]) != IdOf(rest[j]) {
            assert rest[i] == items[i + 1] && rest[j] == items[j + 1];
          }
        }
        forall k | 0 <= k < |fr| ensures IdOf(fr[k]) != IdOf(items[0]) {
          assert fr[k] in rest;
          var m :| 0 <= m < |rest| && rest[m] == fr[k];
          assert rest[m] == items[m + 1];
        }
      }
      if NumericIds(items) {
        assert NumericIds(rest) by {
          forall i | 0 <= i < |rest| ensures IdOf(rest[i]).Num? {
            assert rest[i] == items[i + 1];
          }
        }
        forall k | 0 <= k < |fr| ensures IdOf(fr[k]).Num? {
          assert fr[k] in rest;
        }
      }
    }
  }

  /** `prev.map((item) => item.id === id ? f(item) : item)`. */
  function MapWhere(items: seq<Record>, id: Value, f: Record -> Record): (r: seq<Record>)
    ensures |r| == |items|
    ensures forall i :: 0 <= i < |items| && IdOf(items[i]) != id ==> r[i] == items[i]
    ensures forall i :: 0 <= i < |items| && IdOf(items[i]) == id ==> r[i] == f(items[i])
  {
    seq(|items|, i requires 0 <= i < |items| => if IdOf(items[i]) == id then f(items[i]) else items[i])
  }

  /** An update that never changes a record's id keeps the list's ids, and so
      their uniqueness and their type. */
  lemma MapWhereKeepsIds(items: seq<Record>, id: Value, f: Record -> Record)
    requires forall x :: IdOf(f(x)) == IdOf(x)
    ensures Ids(MapWhere(items, id, f)) == Ids(items)
    ensures UniqueIds(items) ==> UniqueIds(MapWhere(items, id, f))
    ensures NumericIds(items) ==> NumericIds(MapWhere(items, id, f))
  {
    var r := MapWhere(items, id, f);
    assert forall i :: 0 <= i < |items| ==> IdOf(r[i]) == IdOf(items[i]);
  }

  /** `Math.max(...items.map((u) => u.id))` over a non-empty list of numeric ids. */
  function MaxId(items: seq<Record>): (m: int)
    requires |items| > 0 && NumericIds(items)
    ensures forall i :: 0 <= i < |items| ==> IdOf(items[i]).n <= m
    ensures exists i :: 0 <= i < |items| && IdOf(items[i]) == Num(m)
    decreases |items|
  {
    if |items| == 1 then IdOf(items[0]).n
    else
      var rest := MaxId(items[1..]);
      assert forall i :: 1 <= i < |items| ==> items[i] == items[1..][i - 1];
      if IdOf(items[0]).n >= rest then IdOf(items[0]).n else rest
  }

  /** `Math.max(...ids) + 1`. */
  function NextId(items: seq<Record>): int
    requires |items| > 0 && NumericIds(items)
  {
    MaxId(items) + 1
  }

  /** The new id is larger than every existing id, so it is fresh. */
  lemma NextIdIsFresh(items: seq<Record>)
    requires |items| > 0 && NumericIds(items)
    ensures forall i :: 0 <= i < |items| ==> IdOf(items[i]).n < NextId(items)
    ensures Num(NextId(items)) !in Ids(items)
  {
  }

  /** Appending a record with the next id keeps ids unique and numeric. */
  lemma AppendFreshKeepsIds(items: seq<Record>, added: Record)
    requires |items| > 0 && NumericIds(items)
    requires IdOf(added) == Num(NextId(items))
    ensures UniqueIds(items) ==> UniqueIds(items + [added])
    ensures NumericIds(items + [added])
  {
    NextIdIsFresh(items);
    var r := items + [added];
    assert forall i :: 0 <= i < |items| ==> r[i] == items[i];
  }

  /** `{ ...item, estado: !item.estado }`. */
  function ToggleEstado(item: Record): (r: Record)
    ensures Truthy(Get(r, "estado")) <==> !Truthy(Get(item, "estado"))
    ensures forall k :: k != "estado" ==> Get(r, k) == Get(item, k)
  {
    item["estado" := Bool(!Truthy(Get(item, "estado")))]
  }

  /** Toggling twice restores the status as a boolean. */
  lemma ToggleEstadoTwice(item: Record)
    ensures Get(ToggleEstado(ToggleEstado(item)), "estado") == Bool(Truthy(Get(item, "estado")))
    ensures forall k :: k != "estado" ==> Get(ToggleEstado(ToggleEstado(item)), k) == Get(item, k)
  {
  }

  /** `catalogue.filter((entry) => ids.includes(entry.id))`. */
  function FromCatalogue(catalogue: seq<Record>, ids: seq<Value>): (r: seq<Record>)
    ensures |r| <= |catalogue|
    ensures forall i :: 0 <= i < |r| ==> IdOf(r[i]) in ids
  {
    Filter(catalogue, (entry: Record) => IdOf(entry) in ids)
  }

  /** The assigned entries are exactly the catalogue entries whose id was
      chosen, in catalogue order. */
  lemma FromCatalogueExact(catalogue: seq<Record>, ids: seq<Value>)
    ensures forall x :: x in FromCatalogue(catalogue, ids) <==> x in catalogue && IdOf(x) in ids
    ensures forall x :: multiset(FromCatalogue(catalogue, ids))[x]
                        == if IdOf(x) in ids then multiset(catalogue)[x] else 0
    ensures IsSubsequence(FromCatalogue(catalogue, ids), catalogue)
  {
    forall x
      ensures x in FromCatalogue(catalogue, ids) <==> x in catalogue && IdOf(x) in ids
      ensures multiset(FromCatalogue(catalogue, ids))[x] == if IdOf(x) in ids then multiset(catalogue)[x] else 0
    {
      FilterMembers(catalogue, (entry: Record) => IdOf(entry) in ids, x);
      FilterCount(catalogue, (entry: Record) => IdOf(entry) in ids, x);
    }
    FilterIsSubsequence(catalogue, (entry: Record) => IdOf(entry) in ids);
  }

  /** Records as the array value stored in a field. */
  function Objects(rs: seq<Record>): (v: Value)
    ensures v.Arr? && |v.items| == |rs|
    ensures forall i :: 0 <= i < |rs| ==> v.items[i] == Obj(rs[i])
  {
    Arr(seq(|rs|, i requires 0 <= i < |rs| => Obj(rs[i])))
  }
}
