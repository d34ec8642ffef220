/** The prices service: its Redis keys as fields, its transactions, and the search that
    gathers ids from the indexes, reads the prices once and points every match at its price. */
module PricesService {
  import opened Wrappers
  import opened Prices

  /** What a search answers: each price once, and per query the positions of its matches. */
  ghost predicate Answers(s: State, queries: seq<Query>, items: seq<Price>, matches: map<Query, seq<nat>>) {
    && ItemsStored(s.table, items)
    && (forall i :: 0 <= i < |items| ==> Asked(s, queries, items[i].id))
    && (forall q :: q in matches <==> q in queries)
    && (forall q :: q in matches ==> Points(s, q, items, matches[q]))
  }

  /** Some query looks the id up. */
  ghost predicate Asked(s: State, queries: seq<Query>, id: Id) {
    exists q :: q in queries && id in Candidates(s, q)
  }

  ghost predicate ItemsStored(table: Table, items: seq<Price>) {
    && (forall i :: 0 <= i < |items| ==> items[i].id in table && items[i] == table[items[i].id])
    && (forall i, j :: 0 <= i < j < |items| ==> items[i].id != items[j].id)
  }

  /** The positions of exactly the stored candidates of a query. */
  ghost predicate Points(s: State, q: Query, items: seq<Price>, at: seq<nat>) {
    && (forall k :: 0 <= k < |at| ==> at[k] < |items| && items[at[k]].id in Candidates(s, q))
    && (forall id :: id in Candidates(s, q) && id in s.table ==>
          exists k :: 0 <= k < |at| && at[k] < |items| && items[at[k]].id == id)
  }

  /** A search returns every stored price that meets one of its queries, at the position the
      query's matches give; of an asset query, or of a sku query while the sku index is exact,
      all matches meet it. */
  lemma SearchFinds(s: State, queries: seq<Query>, items: seq<Price>, matches: map<Query, seq<nat>>, q: Query)
    requires AllComplete(s) && Answers(s, queries, items, matches) && q in queries
    ensures forall id :: id in s.table && Meets(s.table[id], q) ==>
              exists k :: 0 <= k < |matches[q]| && matches[q][k] < |items| && items[matches[q][k]] == s.table[id]
    ensures q.ByAsset? || (q.BySku? && Exact(s.table, s.skus, SkuOf)) ==>
              forall k :: 0 <= k < |matches[q]| ==> matches[q][k] < |items| && Meets(items[matches[q][k]], q)
    ensures forall i, j :: 0 <= i < j < |items| ==> items[i] != items[j]
    ensures forall i :: 0 <= i < |items| ==>
              && items[i].id in s.table && items[i] == s.table[items[i].id]
              && exists r :: r in queries && items[i].id in Candidates(s, r)
    ensures forall k :: 0 <= k < |matches[q]| ==> matches[q][k] < |items| && items[matches[q][k]].id in Candidates(s, q)
  {
    hide Candidates;
    assert Points(s, q, items, matches[q]);
    forall id | id in s.table && Meets(s.table[id], q)
      ensures exists k :: 0 <= k < |matches[q]| && matches[q][k] < |items| && items[matches[q][k]] == s.table[id]
    {
      CandidatesComplete(s, q, id);
      var k :| 0 <= k < |matches[q]| && matches[q][k] < |items| && items[matches[q][k]].id == id;
      assert items[matches[q][k]] == s.table[id];
    }
    forall k | 0 <= k < |matches[q]|
      ensures matches[q][k] < |items|
      ensures q.ByAsset? || (q.BySku? && Exact(s.table, s.skus, SkuOf)) ==> Meets(items[matches[q][k]], q)
    {
      CandidatesComplete(s, q, items[matches[q][k]].id);
    }
  }

  class PricesService {
    var table: Table
    var names: set<Entry>
    var skus: set<Entry>
    var items: set<Entry>
    var owners: set<Entry>

    function Now(): State
      reads this
    {
      State(table, names, skus, items, owners)
    }

    constructor ()
      ensures Now() == EMPTY
    {
      table, names, skus, items, owners := map[], {}, {}, {}, {};
    }

    method CleanUp(old_: Price)
      modifies this`names, this`skus, this`items
      ensures names == old(names) - NameOf(old_)
      ensures skus == old(skus) - SkuOf(old_)
      ensures items == old(items) - ItemOf(old_)
    {
      if old_.name.Some? {
        names := names - {Entry(old_.name.value, old_.id)};
      }
      if old_.item.Some? {
        skus := skus - {Entry(old_.item.value.sku, old_.id)};
        items := items - {Entry(old_.item.value.encoded, old_.id)};
      }
    }

    method Store(price: Price)
      modifies this
      ensures table == old(table)[price.id := price]
      ensures names == old(names) + NameOf(price)
      ensures skus == old(skus) + SkuOf(price)
      ensures items == old(items) + ItemOf(price)
      ensures owners == old(owners) + OwnerOf(price)
    {
      table := table[price.id := price];
      if price.name.Some? {
        names := names + {Entry(price.name.value, price.id)};
      }
      if price.item.Some? {
        skus := skus + {Entry(price.item.value.sku, price.id)};
        items := items + {Entry(price.item.value.encoded, price.id)};
      }
      if price.asset.Some? {
        owners := owners + {Entry(price.asset.value.owner, price.id)};
      }
    }

    method SavePriceMulti(price: Price, old_: Option<Price>)
      modifies this
      ensures Now() == Saved(old(Now()), price, old_)
    {
      hide NameOf, SkuOf, ItemOf, OwnerOf;
      if old_.Some? {
        CleanUp(old_.value);
      } else {
        assert names - {} == names && skus - {} == skus && items - {} == items;
      }
      Store(price);
    }

    method DeletePriceMulti(current: Price)
      modifies this
      ensures Now() == Deleted(old(Now()), current)
    {
      if current.item.Some? {
        skus := skus - {Entry(current.item.value.sku, current.id)};
      }
      if current.asset.Some? {
        owners := owners - {Entry(current.asset.value.owner, current.id)};
      }
      table := table - {current.id};
    }

    method SavePrice(price: Price)
      modifies this
      ensures Now() == Step(old(Now()), Save(price))
    {
      var current := if price.id in table then Some(table[price.id]) else None;
      SavePriceMulti(price, current);
    }

    method DeletePrice(id: Id)
      modifies this
      ensures Now() == Step(old(Now()), Delete(id))
    {
      if id !in table {
        return;
      }
      DeletePriceMulti(table[id]);
    }

    /** One priced asset of an inventory that was loaded. */
    method CheckPricedAsset(id: Id, found: Option<Item>, name: Option<Value>)
      modifies this
      ensures Now() == Step(old(Now()), Load(id, found, name))
    {
      if id !in table {
        return;
      }
      var price := table[id];
      if price.item.None? {
        if found.None? {
          DeletePriceMulti(price);
        } else {
          price := price.(item := found, name := name);
          SavePriceMulti(price, Some(price));
        }
      }
    }

    method SMembers(q: Query) returns (ids: seq<Id>)
      ensures forall id :: id in ids <==> id in Candidates(Now(), q)
    {
      ids := [];
      var rest := Candidates(Now(), q);
      while rest != {}
        invariant rest <= Candidates(Now(), q)
        invariant forall id :: id in ids <==> id in Candidates(Now(), q) - rest
      {
        var id :| id in rest;
        ids := ids + [id];
        rest := rest - {id};
      }
    }

    method SearchPrices(queries: seq<Query>) returns (found: seq<Price>, matches: map<Query, seq<nat>>)
      requires Keyed(table)
      ensures Answers(Now(), queries, found, matches)
    {
      var ids, keys := Lookup(queries);
      var idToIndex;
      found, idToIndex := Fetch(keys);
      hide Candidates;
      matches := map[];
      var rest := ids.Keys;
      while rest != {}
        invariant rest <= ids.Keys
        invariant matches.Keys == ids.Keys - rest
        invariant forall q :: q in matches ==> Points(Now(), q, found, matches[q])
      {
        var q :| q in rest;
        assert forall id :: id in ids[q] ==> id in keys;
        var at := Indexes(ids[q], found, idToIndex);
        assert Points(Now(), q, found, at);
        matches := matches[q := at];
        rest := rest - {q};
      }
      assert matches.Keys == ids.Keys;
      assert forall q :: q in matches <==> q in queries;
      forall i | 0 <= i < |found| ensures exists q :: q in queries && found[i].id in Candidates(Now(), q) {
        assert found[i].id in keys;
      }
      assert ItemsStored(table, found);
      assert ItemsStored(Now().table, found);
      assert forall q :: q in matches ==> Points(Now(), q, found, matches[q]);
    }

    /** The ids each query finds, and all of them once. */
    method Lookup(queries: seq<Query>) returns (ids: map<Query, seq<Id>>, keys: seq<Id>)
      ensures forall q :: q in ids <==> q in queries
      ensures forall q :: q in ids ==> forall id :: id in ids[q] <==> id in Candidates(Now(), q)
      ensures forall q, id :: q in ids && id in ids[q] ==> id in keys
      ensures forall id :: id in keys ==> Asked(Now(), queries, id)
      ensures forall i, j :: 0 <= i < j < |keys| ==> keys[i] != keys[j]
    {
      ids, keys := map[], [];
      for n := 0 to |queries|
        invariant forall q :: q in ids <==> q in queries[..n]
        invariant forall q :: q in ids ==> forall id :: id in ids[q] <==> id in Candidates(Now(), q)
        invariant forall q, id :: q in ids && id in ids[q] ==> id in keys
        invariant forall id :: id in keys ==> Asked(Now(), queries, id)
        invariant forall i, j :: 0 <= i < j < |keys| ==> keys[i] != keys[j]
      {
        hide Candidates;
        var q := queries[n];
        assert q in queries;
        var members := SMembers(q);
        keys := AddAll(keys, members);
        ids := ids[q := members];
        assert queries[..n + 1] == queries[..n] + [q];
      }
      assert queries[..|queries|] == queries;
    }

    method Fetch(keys: seq<Id>) returns (found: seq<Price>, idToIndex: map<Id, nat>)
      requires forall i, j :: 0 <= i < j < |keys| ==> keys[i] != keys[j]
      requires Keyed(table)
      ensures ItemsStored(table, found)
      ensures forall i :: 0 <= i < |found| ==> found[i].id in keys
      ensures Indexed(found, idToIndex)
      ensures forall id :: id in keys && id in table ==> id in idToIndex
    {
      found, idToIndex := [], map[];
      for n := 0 to |keys|
        invariant ItemsStored(table, found)
        invariant forall i :: 0 <= i < |found| ==> found[i].id in keys[..n]
        invariant Indexed(found, idToIndex)
        invariant forall id :: id in keys[..n] && id in table ==> id in idToIndex
      {
        var id := keys[n];
        if id in table {
          var price := table[id];
          assert id !in keys[..n];
          idToIndex := idToIndex[price.id := |found|];
          found := found + [price];
        }
        assert keys[..n + 1] == keys[..n] + [id];
      }
      assert keys[..|keys|] == keys;
    }
  }

  ghost predicate Indexed(found: seq<Price>, idToIndex: map<Id, nat>) {
    forall id :: id in idToIndex ==> idToIndex[id] < |found| && found[idToIndex[id]].id == id
  }

  method AddAll(keys: seq<Id>, members: seq<Id>) returns (all: seq<Id>)
    requires forall i, j :: 0 <= i < j < |keys| ==> keys[i] != keys[j]
    ensures forall i, j :: 0 <= i < j < |all| ==> all[i] != all[j]
    ensures forall id :: id in all <==> id in keys || id in members
  {
    all := keys;
    for n := 0 to |members|
      invariant forall i, j :: 0 <= i < j < |all| ==> all[i] != all[j]
      invariant forall id :: id in all <==> id in keys || id in members[..n]
    {
      if members[n] !in all {
        all := all + [members[n]];
      }
      assert members[..n + 1] == members[..n] + [members[n]];
    }
    assert members[..|members|] == members;
  }

  /** The positions of the ids that were found. */
  method Indexes(ids: seq<Id>, found: seq<Price>, idToIndex: map<Id, nat>) returns (at: seq<nat>)
    requires Indexed(found, idToIndex)
    ensures forall k :: 0 <= k < |at| ==> at[k] < |found| && found[at[k]].id in ids
    ensures forall id :: id in ids && id in idToIndex ==>
        exists k :: 0 <= k < |at| && at[k] < |found| && found[at[k]].id == id
  {
    at := [];
    for n := 0 to |ids|
      invariant forall k :: 0 <= k < |at| ==> at[k] < |found| && found[at[k]].id in ids
      invariant forall id :: id in ids[..n] && id in idToIndex ==>
          exists k :: 0 <= k < |at| && at[k] < |found| && found[at[k]].id == id
    {
      var id := ids[n];
      if id in idToIndex {
        ghost var before := at;
        at := at + [idToIndex[id]];
        assert at[|before|] == idToIndex[id];
        assert forall k :: 0 <= k < |before| ==> at[k] == before[k];
      }
      assert ids[..n + 1] == ids[..n] + [id];
    }
    assert ids[..|ids|] == ids;
  }
}
