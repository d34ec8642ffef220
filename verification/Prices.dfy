/** The price table of the item service and its indexes.  A save removes the entries of the
    price it read before and adds those of the new one; both in one transaction. */
module Prices {
  import opened Wrappers

  datatype Id = Id(key: string)

  /** A name, a sku, an encoded item or an owner. */
  datatype Value = Value(text: string)

  /** An item by what the indexes use of it. */
  datatype Item = Item(sku: Value, encoded: Value)

  datatype Asset = Asset(owner: Value, assetid: string)

  datatype Price = Price(id: Id, item: Option<Item>, name: Option<Value>, asset: Option<Asset>, rest: string)

  /** A member of the set at an index key. */
  datatype Entry = Entry(value: Value, id: Id)

  type Table = map<Id, Price>

  datatype State = State(table: Table, names: set<Entry>, skus: set<Entry>, items: set<Entry>, owners: set<Entry>)

  const EMPTY := State(map[], {}, {}, {}, {})

  // ----- the entries of one price

  function NameOf(p: Price): set<Entry> {
    if p.name.Some? then {Entry(p.name.value, p.id)} else {}
  }

  function SkuOf(p: Price): set<Entry> {
    if p.item.Some? then {Entry(p.item.value.sku, p.id)} else {}
  }

  function ItemOf(p: Price): set<Entry> {
    if p.item.Some? then {Entry(p.item.value.encoded, p.id)} else {}
  }

  function OwnerOf(p: Price): set<Entry> {
    if p.asset.Some? then {Entry(p.asset.value.owner, p.id)} else {}
  }

  function Of(entries: Price -> set<Entry>, p: Option<Price>): set<Entry> {
    if p.Some? then entries(p.value) else {}
  }

  // ----- the transactions

  /** `savePriceMulti`: the asset entries of the old price stay. */
  function Saved(s: State, p: Price, old_: Option<Price>): State {
    State(s.table[p.id := p],
          s.names - Of(NameOf, old_) + NameOf(p),
          s.skus - Of(SkuOf, old_) + SkuOf(p),
          s.items - Of(ItemOf, old_) + ItemOf(p),
          s.owners + OwnerOf(p))
  }

  /** `deletePriceMulti`: the name is removed from a key that is never used (the separator is
      missing) and the encoded item from none. */
  function Deleted(s: State, p: Price): State {
    State(s.table - {p.id}, s.names, s.skus - SkuOf(p), s.items, s.owners - OwnerOf(p))
  }

  datatype Op =
    | Save(price: Price)
    | Delete(id: Id)
    | Load(id: Id, found: Option<Item>, name: Option<Value>)   // one priced asset of a loaded inventory

  function Stored(s: State, id: Id): Option<Price> {
    if id in s.table then Some(s.table[id]) else None
  }

  /** An operation that nothing comes in between of. */
  function Step(s: State, op: Op): State {
    match op
    case Save(p) => Saved(s, p, Stored(s, p.id))
    case Delete(id) => if id in s.table then Deleted(s, s.table[id]) else s
    case Load(id, found, name) =>
      if id !in s.table || s.table[id].item.Some? then s
      else if found.None? then Deleted(s, s.table[id])
      else
        // the price read is changed in place, so it also stands for the old one
        var p := s.table[id].(item := found, name := name);
        Saved(s, p, Some(p))
  }

  function Run(s: State, ops: seq<Op>): State
    decreases |ops|
  {
    if ops == [] then s else Run(Step(s, ops[0]), ops[1..])
  }

  // ----- what the indexes say

  predicate Keyed(table: Table) {
    forall id :: id in table ==> table[id].id == id
  }

  /** Every stored price has its entry. */
  predicate Complete(table: Table, index: set<Entry>, entries: Price -> set<Entry>) {
    forall id :: id in table ==> entries(table[id]) <= index
  }

  /** And nothing else has one: the index is the inverse image of the table. */
  predicate Exact(table: Table, index: set<Entry>, entries: Price -> set<Entry>) {
    && Complete(table, index, entries)
    && forall e :: e in index ==> e.id in table && e in entries(table[e.id])
  }

  predicate AllComplete(s: State) {
    && Keyed(s.table)
    && Complete(s.table, s.skus, SkuOf)
    && Complete(s.table, s.names, NameOf)
    && Complete(s.table, s.items, ItemOf)
    && Complete(s.table, s.owners, OwnerOf)
  }

  predicate Inv(s: State) {
    && Keyed(s.table)
    && Exact(s.table, s.skus, SkuOf)
    && Complete(s.table, s.names, NameOf)
    && Complete(s.table, s.items, ItemOf)
    && Complete(s.table, s.owners, OwnerOf)
  }

  /** What is removed belongs to the price that goes. */
  lemma CompleteSaved(table: Table, index: set<Entry>, entries: Price -> set<Entry>, p: Price, gone: set<Entry>)
    requires Keyed(table) && Complete(table, index, entries)
    requires forall e :: e in gone ==> e.id == p.id
    requires forall q, e :: e in entries(q) ==> e.id == q.id
    ensures Complete(table[p.id := p], index - gone + entries(p), entries)
  {
  }

  lemma CompleteDeleted(table: Table, index: set<Entry>, entries: Price -> set<Entry>, id: Id, gone: set<Entry>)
    requires Keyed(table) && Complete(table, index, entries)
    requires forall e :: e in gone ==> e.id == id
    requires forall q, e :: e in entries(q) ==> e.id == q.id
    ensures Complete(table - {id}, index - gone, entries)
  {
  }

  lemma ExactSaved(table: Table, index: set<Entry>, entries: Price -> set<Entry>, p: Price, gone: set<Entry>)
    requires Keyed(table) && Exact(table, index, entries)
    requires forall e :: e in gone ==> e.id == p.id
    requires forall q, e :: e in entries(q) ==> e.id == q.id
    requires p.id in table ==> entries(table[p.id]) <= gone + entries(p)
    ensures Exact(table[p.id := p], index - gone + entries(p), entries)
  {
    CompleteSaved(table, index, entries, p, gone);
  }

  lemma SkusSaved(s: State, p: Price, old_: Option<Price>)
    requires Keyed(s.table) && Exact(s.table, s.skus, SkuOf) && (old_.Some? ==> old_.value.id == p.id)
    requires Of(SkuOf, Stored(s, p.id)) <= Of(SkuOf, old_) + SkuOf(p)
    ensures Exact(Saved(s, p, old_).table, Saved(s, p, old_).skus, SkuOf)
  {
    ExactSaved(s.table, s.skus, SkuOf, p, Of(SkuOf, old_));
  }

  lemma NamesSaved(s: State, p: Price, old_: Option<Price>)
    requires Keyed(s.table) && Complete(s.table, s.names, NameOf) && (old_.Some? ==> old_.value.id == p.id)
    ensures Complete(Saved(s, p, old_).table, Saved(s, p, old_).names, NameOf)
  {
  }

  lemma ItemsSaved(s: State, p: Price, old_: Option<Price>)
    requires Keyed(s.table) && Complete(s.table, s.items, ItemOf) && (old_.Some? ==> old_.value.id == p.id)
    ensures Complete(Saved(s, p, old_).table, Saved(s, p, old_).items, ItemOf)
  {
  }

  lemma OwnersSaved(s: State, p: Price, old_: Option<Price>)
    requires Keyed(s.table) && Complete(s.table, s.owners, OwnerOf)
    ensures Complete(Saved(s, p, old_).table, Saved(s, p, old_).owners, OwnerOf)
  {
  }

  lemma SavedKeepsInv(s: State, p: Price, old_: Option<Price>)
    requires Inv(s) && (old_.Some? ==> old_.value.id == p.id)
    requires Of(SkuOf, Stored(s, p.id)) <= Of(SkuOf, old_) + SkuOf(p)
    ensures Inv(Saved(s, p, old_))
  {
    SkusSaved(s, p, old_);
    NamesSaved(s, p, old_);
    ItemsSaved(s, p, old_);
    OwnersSaved(s, p, old_);
    hide Complete, Exact, Of, NameOf, SkuOf, ItemOf, OwnerOf;
  }

  lemma DeletedKeepsInv(s: State, id: Id)
    requires Inv(s) && id in s.table
    ensures Inv(Deleted(s, s.table[id]))
  {
  }

  lemma StepKeepsInv(s: State, op: Op)
    requires Inv(s)
    ensures Inv(Step(s, op))
  {
    match op
    case Save(p) => SavedKeepsInv(s, p, Stored(s, p.id));
    case Delete(id) => if id in s.table { DeletedKeepsInv(s, id); }
    case Load(id, found, name) =>
      if id in s.table && s.table[id].item.None? {
        if found.None? {
          DeletedKeepsInv(s, id);
        } else {
          assert s.table[id].id == id;
          var p := s.table[id].(item := found, name := name);
          SavedKeepsInv(s, p, Some(p));
        }
      }
  }

  /** Over every sequence of operations the sku index is the inverse image of the table, and
      the other indexes have an entry for every stored price. */
  lemma {:induction false} IndexesAlwaysComplete(s: State, ops: seq<Op>)
    requires Inv(s)
    ensures Inv(Run(s, ops))
    decreases |ops|
  {
    if ops != [] {
      StepKeepsInv(s, ops[0]);
      IndexesAlwaysComplete(Step(s, ops[0]), ops[1..]);
    }
  }

  // ----- what is stored

  /** What an operation makes of what is stored under an id: a save puts its price there, a delete
      takes it out, and an inventory load completes a price without item, or takes it out. */
  function StoredNext(before: Option<Price>, op: Op, id: Id): Option<Price> {
    match op
    case Save(p) => if p.id == id then Some(p) else before
    case Delete(i) => if i == id then None else before
    case Load(i, found, name) =>
      if i != id then before
      else
        match before
        case None => None
        case Some(Price(_, Some(_), _, _, _)) => before
        case Some(Price(i, None, _, asset, rest)) =>
          if found == None then None else Some(Price(i, found, name, asset, rest))
  }

  function StoredAfter(before: Option<Price>, ops: seq<Op>, id: Id): Option<Price> {
    if ops == [] then before else StoredNext(StoredAfter(before, ops[..|ops| - 1], id), ops[|ops| - 1], id)
  }

  /** Over every sequence of operations, what is stored under an id is what those about this id
      make of it. */
  lemma {:induction false} TableFollowsOperations(s: State, ops: seq<Op>, id: Id)
    requires Inv(s)
    ensures Stored(Run(s, ops), id) == StoredAfter(Stored(s, id), ops, id)
    decreases |ops|
  {
    if ops != [] {
      StepStores(s, ops[0], id);
      StepKeepsInv(s, ops[0]);
      TableFollowsOperations(Step(s, ops[0]), ops[1..], id);
      StoredAfterFirst(Stored(s, id), ops, id);
    }
    hide Inv, Step, StoredNext;
  }

  lemma StepStores(s: State, op: Op, id: Id)
    requires Inv(s)
    ensures Stored(Step(s, op), id) == StoredNext(Stored(s, id), op, id)
  {
  }

  lemma {:induction false} StoredAfterFirst(before: Option<Price>, ops: seq<Op>, id: Id)
    requires ops != []
    ensures StoredAfter(before, ops, id) == StoredAfter(StoredNext(before, ops[0], id), ops[1..], id)
  {
    var n := |ops| - 1;
    if n > 0 {
      StoredAfterFirst(before, ops[..n], id);
      assert ops[..n][1..] == ops[1..][..n - 1];
    }
    hide StoredNext;
  }

  // ----- where the indexes are not exact

  /** A save over what is stored leaves the name and item indexes exact. */
  lemma SaveKeepsExact(s: State, p: Price)
    requires Keyed(s.table) && Exact(s.table, s.names, NameOf) && Exact(s.table, s.items, ItemOf)
    ensures var t := Saved(s, p, Stored(s, p.id));
      Exact(t.table, t.names, NameOf) && Exact(t.table, t.items, ItemOf)
  {
    ExactSaved(s.table, s.names, NameOf, p, Of(NameOf, Stored(s, p.id)));
    ExactSaved(s.table, s.items, ItemOf, p, Of(ItemOf, Stored(s, p.id)));
  }

  /** A delete leaves the name and item indexes exact exactly if the price had none, and the owner
      index always. */
  lemma DeleteLeavesEntries(s: State, id: Id)
    requires Keyed(s.table) && id in s.table
    requires Exact(s.table, s.names, NameOf) && Exact(s.table, s.items, ItemOf)
    ensures var t := Deleted(s, s.table[id]);
      && (Exact(t.table, t.names, NameOf) <==> s.table[id].name.None?)
      && (Exact(t.table, t.items, ItemOf) <==> s.table[id].item.None?)
      && (Exact(s.table, s.owners, OwnerOf) ==> Exact(t.table, t.owners, OwnerOf))
  {
    var p := s.table[id];
    var t := Deleted(s, p);
    CompleteDeleted(s.table, s.names, NameOf, id, {});
    CompleteDeleted(s.table, s.items, ItemOf, id, {});
    assert s.names - {} == s.names && s.items - {} == s.items;
    assert NameOf(p) <= s.names && ItemOf(p) <= s.items;
    assert p.name.Some? ==> Entry(p.name.value, id) in NameOf(p);
    assert p.item.Some? ==> Entry(p.item.value.encoded, id) in ItemOf(p);
    assert p.id == id;
    if p.name.None? {
      forall e | e in t.names ensures e.id in t.table && e in NameOf(t.table[e.id]) {
        assert e in s.names;
      }
    }
    if p.item.None? {
      forall e | e in t.items ensures e.id in t.table && e in ItemOf(t.table[e.id]) {
        assert e in s.items;
      }
    }
  }

  /** An asset that changes its owner stays indexed under the old one. */
  lemma OldOwnerStays(s: State, p: Price)
    requires Keyed(s.table) && Exact(s.table, s.owners, OwnerOf) && p.id in s.table
    ensures var t := Saved(s, p, Stored(s, p.id));
      Exact(t.table, t.owners, OwnerOf) <==> OwnerOf(s.table[p.id]) <= OwnerOf(p)
  {
    var t := Saved(s, p, Stored(s, p.id));
    CompleteSaved(s.table, s.owners, OwnerOf, p, {});
    assert s.owners - {} + OwnerOf(p) == t.owners;
    assert OwnerOf(s.table[p.id]) <= s.owners;
    if OwnerOf(s.table[p.id]) <= OwnerOf(p) {
      forall e | e in t.owners ensures e.id in t.table && e in OwnerOf(t.table[e.id]) {
        if e !in OwnerOf(p) { assert e in s.owners; }
      }
    } else {
      var e :| e in OwnerOf(s.table[p.id]) && e !in OwnerOf(p);
      assert e in t.owners && e.id == p.id;
    }
  }

  /** A save whose read is out of date (saves and deletes lock different names, so an
      inventory load can come in between) keeps the sku index exact exactly if what is stored
      by then has the sku it read or writes, or none. */
  lemma StaleSave(s: State, p: Price, read: Option<Price>)
    requires Inv(s) && (read.Some? ==> read.value.id == p.id)
    ensures Exact(Saved(s, p, read).table, Saved(s, p, read).skus, SkuOf)
       <==> Of(SkuOf, Stored(s, p.id)) <= Of(SkuOf, read) + SkuOf(p)
  {
    var t := Saved(s, p, read);
    if Of(SkuOf, Stored(s, p.id)) <= Of(SkuOf, read) + SkuOf(p) {
      SkusSaved(s, p, read);
    } else {
      var e :| e in Of(SkuOf, Stored(s, p.id)) && e !in Of(SkuOf, read) + SkuOf(p);
      assert SkuOf(s.table[p.id]) <= s.skus;
      assert e in t.skus && e.id == p.id;
    }
  }

  /** So does a delete whose read is out of date: it clears the entries of the price it read. */
  lemma StaleDelete(s: State, read: Price)
    requires Inv(s)
    ensures Exact(Deleted(s, read).table, Deleted(s, read).skus, SkuOf)
       <==> Of(SkuOf, Stored(s, read.id)) <= SkuOf(read)
  {
    var t := Deleted(s, read);
    CompleteDeleted(s.table, s.skus, SkuOf, read.id, SkuOf(read));
    if Of(SkuOf, Stored(s, read.id)) <= SkuOf(read) {
      forall e | e in t.skus ensures e.id in t.table && e in SkuOf(t.table[e.id]) {
        assert e in s.skus && e in SkuOf(s.table[e.id]);
      }
    } else {
      var e :| e in Of(SkuOf, Stored(s, read.id)) && e !in SkuOf(read);
      assert SkuOf(s.table[read.id]) <= s.skus;
      assert e in t.skus && e.id == read.id;
    }
  }

  // ----- reads and writes apart

  /** Saves lock one name per price, deletes and inventory loads another. */
  datatype Lock = OfSaves | OfOthers

  /** An operation between its read and its write. */
  datatype Held = Held(lock: Lock, id: Id, read: Option<Price>)

  datatype Interleaved = Interleaved(s: State, running: map<nat, Held>)

  datatype Event =
    | Reads(n: nat, lock: Lock, id: Id)
    | Saves(n: nat, price: Price)
    | Deletes(n: nat)
    | Loads(n: nat, found: Item, name: Option<Value>)
    | Fails(n: nat)

  predicate Enabled(i: Interleaved, e: Event) {
    match e
    case Reads(n, lock, id) =>
      n !in i.running && forall m :: m in i.running ==> !(i.running[m].lock == lock && i.running[m].id == id)
    case Saves(n, price) => n in i.running && i.running[n].lock.OfSaves? && i.running[n].id == price.id
    case Deletes(n) => n in i.running && i.running[n].read.Some?
    case Loads(n, _, _) =>
      n in i.running && i.running[n].lock.OfOthers? && i.running[n].read.Some? && i.running[n].read.value.item.None?
    case Fails(n) => n in i.running
  }

  /** The price an inventory load stores; it was read and changed in place, so it is also the old one. */
  function Loaded(read: Price, found: Item, name: Option<Value>): Price {
    read.(item := Some(found), name := name)
  }

  function Written(i: Interleaved, e: Event): State
    requires Enabled(i, e) && (e.Saves? || e.Deletes? || e.Loads?)
  {
    var read := i.running[e.n].read;
    match e
    case Saves(_, price) => Saved(i.s, price, read)
    case Deletes(_) => Deleted(i.s, read.value)
    case Loads(_, found, name) => Saved(i.s, Loaded(read.value, found, name), Some(Loaded(read.value, found, name)))
  }

  function Next(i: Interleaved, e: Event): Interleaved
    requires Enabled(i, e)
  {
    match e
    case Reads(n, lock, id) => i.(running := i.running[n := Held(lock, id, Stored(i.s, id))])
    case Fails(n) => i.(running := i.running - {n})
    case _ => Interleaved(Written(i, e), i.running - {e.n})
  }

  ghost predicate Runs(i: Interleaved, es: seq<Event>, j: Interleaved)
    decreases |es|
  {
    if es == [] then i == j else Enabled(i, es[0]) && Runs(Next(i, es[0]), es[1..], j)
  }

  /** What is stored by the time of a write has the sku that the operation read or writes, or
      none: then it takes out the entry there is. */
  predicate MeetsGuard(i: Interleaved, e: Event)
    requires Enabled(i, e)
  {
    match e
    case Saves(n, price) => Of(SkuOf, Stored(i.s, price.id)) <= Of(SkuOf, i.running[n].read) + SkuOf(price)
    case Deletes(n) => Of(SkuOf, Stored(i.s, i.running[n].id)) <= Of(SkuOf, i.running[n].read)
    case Loads(n, found, name) =>
      Of(SkuOf, Stored(i.s, i.running[n].id)) <= SkuOf(Loaded(i.running[n].read.value, found, name))
    case _ => true
  }

  /** Operations read what they work on, and nothing stored lacks an entry. */
  predicate Whole(i: Interleaved) {
    && AllComplete(i.s)
    && (forall n :: n in i.running && i.running[n].read.Some? ==> i.running[n].read.value.id == i.running[n].id)
  }

  lemma SavedKeepsComplete(s: State, p: Price, old_: Option<Price>)
    requires AllComplete(s) && (old_.Some? ==> old_.value.id == p.id)
    ensures AllComplete(Saved(s, p, old_))
  {
    CompleteSaved(s.table, s.skus, SkuOf, p, Of(SkuOf, old_));
    hide Complete;
    NamesSaved(s, p, old_);
    ItemsSaved(s, p, old_);
    OwnersSaved(s, p, old_);
  }

  lemma DeletedKeepsComplete(s: State, p: Price)
    requires AllComplete(s)
    ensures AllComplete(Deleted(s, p))
  {
    CompleteDeleted(s.table, s.names, NameOf, p.id, {});
    CompleteDeleted(s.table, s.items, ItemOf, p.id, {});
    CompleteDeleted(s.table, s.skus, SkuOf, p.id, SkuOf(p));
    CompleteDeleted(s.table, s.owners, OwnerOf, p.id, OwnerOf(p));
    assert s.names - {} == s.names && s.items - {} == s.items;
  }

  lemma NextKeepsWhole(i: Interleaved, e: Event)
    requires Whole(i) && Enabled(i, e)
    ensures Whole(Next(i, e))
  {
    if e.Saves? {
      SavedKeepsComplete(i.s, e.price, i.running[e.n].read);
    } else if e.Deletes? {
      DeletedKeepsComplete(i.s, i.running[e.n].read.value);
    } else if e.Loads? {
      var p := Loaded(i.running[e.n].read.value, e.found, e.name);
      SavedKeepsComplete(i.s, p, Some(p));
    }
    hide Complete;
  }

  /** However operations interleave, every stored price has all its entries: a search by name,
      sku or item always finds it. */
  lemma {:induction false} AlwaysComplete(i: Interleaved, es: seq<Event>, j: Interleaved)
    requires Whole(i) && Runs(i, es, j)
    ensures Whole(j)
    decreases |es|
  {
    if es != [] {
      NextKeepsWhole(i, es[0]);
      AlwaysComplete(Next(i, es[0]), es[1..], j);
    }
  }

  /** A write leaves the sku index exact exactly if it meets its guard. */
  lemma WriteKeepsSkusExactly(i: Interleaved, e: Event)
    requires Whole(i) && Enabled(i, e) && Exact(i.s.table, i.s.skus, SkuOf)
    ensures Exact(Next(i, e).s.table, Next(i, e).s.skus, SkuOf) <==> MeetsGuard(i, e)
  {
    if e.Saves? {
      StaleSave(i.s, e.price, i.running[e.n].read);
    } else if e.Deletes? {
      StaleDelete(i.s, i.running[e.n].read.value);
    } else if e.Loads? {
      var p := Loaded(i.running[e.n].read.value, e.found, e.name);
      StaleSave(i.s, p, Some(p));
    }
    hide Exact, Complete, Saved, Deleted;
  }

  ghost predicate GuardedRun(i: Interleaved, es: seq<Event>, j: Interleaved)
    decreases |es|
  {
    if es == [] then i == j
    else Enabled(i, es[0]) && MeetsGuard(i, es[0]) && GuardedRun(Next(i, es[0]), es[1..], j)
  }

  /** Over every run in which each write meets its guard the sku index is the inverse image of
      the price table. */
  lemma {:induction false} SkusExactWhileGuarded(i: Interleaved, es: seq<Event>, j: Interleaved)
    requires Whole(i) && Exact(i.s.table, i.s.skus, SkuOf) && GuardedRun(i, es, j)
    ensures Runs(i, es, j) && Whole(j) && Exact(j.s.table, j.s.skus, SkuOf)
    decreases |es|
  {
    if es != [] {
      hide Exact, Whole, MeetsGuard;
      NextKeepsWhole(i, es[0]);
      WriteKeepsSkusExactly(i, es[0]);
      SkusExactWhileGuarded(Next(i, es[0]), es[1..], j);
    }
  }

  /** With reads and writes apart, too, a write stores its price, takes out the price read, or puts
      the item found into the price read. */
  lemma WriteStores(i: Interleaved, e: Event)
    requires Whole(i) && Enabled(i, e) && (e.Saves? || e.Deletes? || e.Loads?)
    ensures var id, read := i.running[e.n].id, i.running[e.n].read;
      Next(i, e).s.table == match e
        case Saves(_, price) => i.s.table[id := price]
        case Deletes(_) => i.s.table - {id}
        case Loads(_, found, name) =>
          i.s.table[id := Price(id, Some(found), name, read.value.asset, read.value.rest)]
  {
  }

  /** An operation that has written, or that fails, is over, and its lock is free. */
  lemma OperationEnds(i: Interleaved, n: nat, e: Event)
    requires n in i.running && Enabled(i, e)
    requires e == Fails(n) || ((e.Saves? || e.Deletes? || e.Loads?) && e.n == n)
    ensures Enabled(i, Fails(n)) && Next(i, Fails(n)).s == i.s
    ensures Next(i, e).running == i.running - {n}
    ensures (e.Saves? ==> i.running[n].lock == OfSaves) && (e.Loads? ==> i.running[n].lock == OfOthers)
  {
  }

  /** All operations lock the same name. */
  predicate OneLock(es: seq<Event>, lock: Lock) {
    forall k :: 0 <= k < |es| && es[k].Reads? ==> es[k].lock == lock
  }

  /** Who holds a lock is alone with its id, so what it read is what is stored. */
  predicate Alone(i: Interleaved, lock: Lock) {
    && (forall n :: n in i.running ==>
          i.running[n].lock == lock && i.running[n].read == Stored(i.s, i.running[n].id))
    && (forall m, n :: m in i.running && n in i.running && i.running[m].id == i.running[n].id ==> m == n)
  }

  lemma NextKeepsAlone(i: Interleaved, e: Event, lock: Lock)
    requires Whole(i) && Alone(i, lock) && Enabled(i, e) && (e.Reads? ==> e.lock == lock)
    ensures Alone(Next(i, e), lock)
  {
    if e.Saves? || e.Deletes? || e.Loads? {
      WriteStores(i, e);
      var id := i.running[e.n].id;
      forall n | n in Next(i, e).running ensures i.running[n].id != id {
        assert n != e.n;
      }
    }
    hide *;
    AloneNext(i, e, lock);
  }

  lemma AloneNext(i: Interleaved, e: Event, lock: Lock)
    requires Alone(i, lock) && Enabled(i, e) && (e.Reads? ==> e.lock == lock)
    requires e.Saves? || e.Deletes? || e.Loads? ==>
      forall n :: n in i.running && i.running[n].id != i.running[e.n].id ==>
        Stored(Next(i, e).s, i.running[n].id) == Stored(i.s, i.running[n].id)
    ensures Alone(Next(i, e), lock)
  {
    hide Saved, Deleted, Loaded;
  }

  /** If all operations locked the same name, as saves do among themselves, every write would meet
      its guard, and the sku index would always be exact. */
  lemma {:induction false} OneLockIsEnough(i: Interleaved, es: seq<Event>, j: Interleaved, lock: Lock)
    requires Whole(i) && Alone(i, lock) && Runs(i, es, j) && OneLock(es, lock)
    ensures GuardedRun(i, es, j)
    decreases |es|
  {
    if es != [] {
      hide Whole, Alone, MeetsGuard, Complete;
      NextKeepsWhole(i, es[0]);
      NextKeepsAlone(i, es[0], lock);
      AloneMeetsGuard(i, es[0], lock);
      assert forall k :: 0 <= k < |es[1..]| ==> es[1..][k] == es[k + 1];
      OneLockIsEnough(Next(i, es[0]), es[1..], j, lock);
    }
  }

  lemma AloneMeetsGuard(i: Interleaved, e: Event, lock: Lock)
    requires Whole(i) && Alone(i, lock) && Enabled(i, e)
    ensures MeetsGuard(i, e)
  {
    if e.Saves? || e.Deletes? || e.Loads? {
      CurrentReadMeetsGuard(i, e);
    }
  }

  /** An operation whose read is still current meets its guard. */
  lemma CurrentReadMeetsGuard(i: Interleaved, e: Event)
    requires Whole(i) && Enabled(i, e) && (e.Saves? || e.Deletes? || e.Loads?)
    requires i.running[e.n].read == Stored(i.s, i.running[e.n].id)
    ensures MeetsGuard(i, e)
  {
  }

  lemma Then(i: Interleaved, es: seq<Event>, j: Interleaved, e: Event) returns (es': seq<Event>, j': Interleaved)
    requires Runs(i, es, j) && Enabled(j, e)
    ensures es' == es + [e] && j' == Next(j, e) && Runs(i, es', j')
  {
    es', j' := es + [e], Next(j, e);
    RunsThen(i, es, j, e);
  }

  lemma {:induction false} RunsThen(i: Interleaved, es: seq<Event>, j: Interleaved, e: Event)
    requires Runs(i, es, j) && Enabled(j, e)
    ensures Runs(i, es + [e], Next(j, e))
    decreases |es|
  {
    if es == [] {
      assert [e][1..] == [];
    } else {
      RunsThen(Next(i, es[0]), es[1..], j, e);
      assert (es + [e])[1..] == es[1..] + [e];
    }
  }

  lemma RunsNothing(i: Interleaved)
    ensures Runs(i, [], i)
  {
  }

  /** A price is saved while a delete of the price before it is under way: the delete takes the
      price out and leaves the entry of the new sku. */
  lemma StaleDeleteLeavesEntry(p: Price, q: Price) returns (es: seq<Event>, j: Interleaved)
    requires p.id == q.id && p.item.Some? && q.item.Some? && p.item.value.sku != q.item.value.sku
    ensures Runs(Interleaved(EMPTY, map[]), es, j)
    ensures j.s.table == map[] && Entry(q.item.value.sku, q.id) in j.s.skus
  {
    var i := Interleaved(EMPTY, map[]);
    RunsNothing(i);
    hide Runs;
    es, j := Then(i, [], i, Reads(0, OfSaves, p.id));
    es, j := Then(i, es, j, Saves(0, p));
    assert j.s.table == map[p.id := p] && j.running == map[];
    es, j := Then(i, es, j, Reads(0, OfOthers, p.id));
    assert j.running == map[0 := Held(OfOthers, p.id, Some(p))];
    es, j := Then(i, es, j, Reads(1, OfSaves, q.id));
    es, j := Then(i, es, j, Saves(1, q));
    assert j.s.table == map[p.id := q] && 0 in j.running && j.running[0].read == Some(p);
    assert Entry(q.item.value.sku, q.id) in j.s.skus;
    es, j := Then(i, es, j, Deletes(0));
  }

  // ----- searching

  datatype Query = ByName(name: Value) | BySku(sku: Value) | ByItem(encoded: Value) | ByAsset(id: Id)

  function IdsWith(index: set<Entry>, value: Value): set<Id> {
    set e | e in index && e.value == value :: e.id
  }

  /** The ids a query looks up. */
  function Candidates(s: State, q: Query): set<Id> {
    match q
    case ByName(name) => IdsWith(s.names, name)
    case BySku(sku) => IdsWith(s.skus, sku)
    case ByItem(encoded) => IdsWith(s.items, encoded)
    case ByAsset(id) => {id}
  }

  predicate Meets(p: Price, q: Query) {
    match q
    case ByName(name) => p.name == Some(name)
    case BySku(sku) => p.item.Some? && p.item.value.sku == sku
    case ByItem(encoded) => p.item.Some? && p.item.value.encoded == encoded
    case ByAsset(id) => p.id == id
  }

  /** Every stored price that meets a query is among its candidates, and of an asset query, or
      of a sku query while the sku index is exact, every stored candidate meets it. */
  lemma CandidatesComplete(s: State, q: Query, id: Id)
    requires AllComplete(s) && id in s.table
    ensures Meets(s.table[id], q) ==> id in Candidates(s, q)
    ensures q.ByAsset? || (q.BySku? && Exact(s.table, s.skus, SkuOf)) ==>
        (id in Candidates(s, q) ==> Meets(s.table[id], q))
  {
    var p := s.table[id];
    assert p.id == id;
    assert NameOf(p) <= s.names && SkuOf(p) <= s.skus && ItemOf(p) <= s.items;
    match q
    case ByName(name) => if Meets(p, q) { assert Entry(name, id) in s.names; }
    case BySku(sku) => if Meets(p, q) { assert Entry(sku, id) in s.skus; }
    case ByItem(encoded) => if Meets(p, q) { assert Entry(encoded, id) in s.items; }
    case ByAsset(i) =>
  }

  /** Whatever ran since there was no price, with reads and writes apart: a stored price is among
      the candidates of every query that it meets, and while each write met its guard, the
      stored candidates of a sku query meet it. */
  lemma SearchableFromTheStart(es: seq<Event>, j: Interleaved, q: Query, id: Id)
    requires Runs(Interleaved(EMPTY, map[]), es, j) && id in j.s.table
    ensures Meets(j.s.table[id], q) ==> id in Candidates(j.s, q)
    ensures GuardedRun(Interleaved(EMPTY, map[]), es, j) && q.BySku? && id in Candidates(j.s, q) ==>
        Meets(j.s.table[id], q)
  {
    var i := Interleaved(EMPTY, map[]);
    AlwaysComplete(i, es, j);
    if GuardedRun(i, es, j) {
      SkusExactWhileGuarded(i, es, j);
    }
    CandidatesComplete(j.s, q, id);
    hide Runs, GuardedRun, Candidates, Meets;
  }
}
