/** The bot manager's inventories service: the cached hash of an inventory, its update under a
    lock, and how the items of an exchange are recorded as lost and gained. */
module InventoriesService {
  import opened Wrappers
  import opened InventoryUpdates

  class CachedInventory {
    var items: Option<Items>      // the `item:` fields, if the key exists
    var published: seq<Changed>   // events queued in the same transactions

    constructor (items: Option<Items>)
      ensures this.items == items && published == []
    {
      this.items, published := items, [];
    }

    method UpdateInventory(lost: seq<AssetId>, gained: seq<Item>)
      modifies this
      ensures Outcome(items, published) ==
        var outcome := Updated(old(items), lost, gained);
        Outcome(outcome.items, old(published) + outcome.events)
    {
      if items.None? {
        // it is fetched as a whole when it is asked for
        return;
      }
      var cached := items.value;

      var newlyLost := FindLost(cached, lost);
      var newlyGained := FindGained(cached, gained);
      if |newlyLost| > 0 || |newlyGained| > 0 {
        published := published + [Changed(newlyGained, newlyLost)];
      }
      cached := HMSet(cached, gained);
      items := Some(cached - SetOf(lost));
    }
  }

  method HMSet(cached: Items, gained: seq<Item>) returns (items: Items)
    ensures items == Added(cached, gained)
  {
    items := cached;
    for i := 0 to |gained|
      invariant items == Added(cached, gained[..i])
    {
      assert gained[..i + 1][..i] == gained[..i];
      items := items[gained[i].assetid := gained[i]];
    }
    assert gained[..|gained|] == gained;
  }

  method FindLost(cached: Items, lost: seq<AssetId>) returns (newlyLost: seq<Item>)
    ensures newlyLost == NewlyLost(cached, lost)
  {
    newlyLost := [];
    for i := 0 to |lost|
      invariant newlyLost == NewlyLost(cached, lost[..i])
    {
      assert lost[..i + 1][..i] == lost[..i];
      if lost[i] in cached {
        newlyLost := newlyLost + [cached[lost[i]]];
      }
    }
    assert lost[..|lost|] == lost;
  }

  method FindGained(cached: Items, gained: seq<Item>) returns (newlyGained: seq<Item>)
    ensures newlyGained == NewlyGained(cached, gained)
  {
    newlyGained := [];
    for i := 0 to |gained|
      invariant newlyGained == NewlyGained(cached, gained[..i])
    {
      assert gained[..i + 1][..i] == gained[..i];
      if gained[i].assetid !in cached {
        newlyGained := newlyGained + [gained[i]];
      }
    }
    assert gained[..|gained|] == gained;
  }

  // ----- the items of an exchange

  datatype SteamID = SteamID(id64: int)

  datatype Inventory = Inventory(steamid: SteamID, appid: int, contextid: string)

  /** An exchanged item as it was sent, with the ids it got. */
  datatype Exchanged = Exchanged(
    item: Item, newAssetid: Option<AssetId>, newContextid: Option<string>,
    rollbackAssetid: Option<AssetId>, rollbackContextid: Option<string>)

  class ExchangeItem {
    var item: Item
    var newAssetid: Option<AssetId>
    var newContextid: Option<string>
    var rollbackAssetid: Option<AssetId>
    var rollbackContextid: Option<string>

    ghost function Value(): Exchanged
      reads this
    {
      Exchanged(item, newAssetid, newContextid, rollbackAssetid, rollbackContextid)
    }

    constructor (e: Exchanged)
      ensures Value() == e
    {
      item, newAssetid, newContextid := e.item, e.newAssetid, e.newContextid;
      rollbackAssetid, rollbackContextid := e.rollbackAssetid, e.rollbackContextid;
    }
  }

  predicate RolledBack(e: Exchanged) {
    e.rollbackAssetid.Some? || e.rollbackContextid.Some?
  }

  predicate Moved(e: Exchanged) {
    !RolledBack(e) && (e.newAssetid.Some? || e.newContextid.Some?)
  }

  function Place(steamid: SteamID, item: Item): Inventory {
    Inventory(steamid, item.appid, item.contextid)
  }

  /** The item once it moved to the receiver. */
  function AsMoved(e: Exchanged): Item {
    e.item.(assetid := Or(e.newAssetid, e.item.assetid), contextid := Or(e.newContextid, e.item.contextid))
  }

  /** The item once it was given back. */
  function AsReturned(e: Exchanged): Item {
    e.item.(assetid := Or(e.rollbackAssetid, e.item.assetid), contextid := Or(e.rollbackContextid, e.item.contextid))
  }

  type LostItems = map<Inventory, seq<AssetId>>
  type GainedItems = map<Inventory, seq<Item>>

  function Get<T>(m: map<Inventory, seq<T>>, k: Inventory): seq<T> {
    if k in m then m[k] else []
  }

  function Push<T>(m: map<Inventory, seq<T>>, k: Inventory, x: T): map<Inventory, seq<T>> {
    m[k := Get(m, k) + [x]]
  }

  /** Which assets an item makes an inventory lose. */
  predicate Loses(e: Exchanged, receiver: SteamID, sender: SteamID, k: Inventory, id: AssetId) {
    || ((RolledBack(e) || Moved(e)) && k == Place(sender, e.item) && id == e.item.assetid)
    || (RolledBack(e) && k == Place(receiver, AsMoved(e)) && id == AsMoved(e).assetid)
  }

  predicate Gains(e: Exchanged, receiver: SteamID, sender: SteamID, k: Inventory, item: Item) {
    || (RolledBack(e) && k == Place(sender, AsReturned(e)) && item == AsReturned(e))
    || (Moved(e) && k == Place(receiver, AsMoved(e)) && item == AsMoved(e))
  }

  function RecordLost(lost: LostItems, e: Exchanged, receiver: SteamID, sender: SteamID): LostItems {
    if RolledBack(e) then
      // given back: what arrived goes again, and what was sent returns
      Push(Push(lost, Place(receiver, AsMoved(e)), AsMoved(e).assetid), Place(sender, e.item), e.item.assetid)
    else if Moved(e) then Push(lost, Place(sender, e.item), e.item.assetid)
    else lost
  }

  function RecordGained(gained: GainedItems, e: Exchanged, receiver: SteamID, sender: SteamID): GainedItems {
    if RolledBack(e) then Push(gained, Place(sender, AsReturned(e)), AsReturned(e))
    else if Moved(e) then Push(gained, Place(receiver, AsMoved(e)), AsMoved(e))
    else gained
  }

  /** What is pushed comes last at its key. */
  lemma PushAppends<T>(m: map<Inventory, seq<T>>, k: Inventory, x: T, j: Inventory)
    ensures Get(Push(m, k, x), j) == if j == k then Get(m, j) + [x] else Get(m, j)
  {
  }

  lemma Pushed<T>(m: map<Inventory, seq<T>>, k: Inventory, x: T)
    ensures forall j, y :: y in Get(Push(m, k, x), j) <==> y in Get(m, j) || (j == k && y == x)
  {
  }

  lemma RecordContents(lost: LostItems, gained: GainedItems, e: Exchanged, receiver: SteamID, sender: SteamID)
    ensures forall k, id ::
              id in Get(RecordLost(lost, e, receiver, sender), k) <==>
                id in Get(lost, k) || Loses(e, receiver, sender, k, id)
    ensures forall k, item ::
              item in Get(RecordGained(gained, e, receiver, sender), k) <==>
                item in Get(gained, k) || Gains(e, receiver, sender, k, item)
  {
    var held, sent := Place(receiver, AsMoved(e)), Place(sender, e.item);
    Pushed(lost, held, AsMoved(e).assetid);
    Pushed(Push(lost, held, AsMoved(e).assetid), sent, e.item.assetid);
    Pushed(lost, sent, e.item.assetid);
    Pushed(gained, Place(sender, AsReturned(e)), AsReturned(e));
    Pushed(gained, Place(receiver, AsMoved(e)), AsMoved(e));
    hide Push, Get, Place, AsMoved, AsReturned;
  }

  /** One item is recorded, and changed to where it ends up. */
  method RecordItem(x: ExchangeItem, receiver: SteamID, sender: SteamID, lost: LostItems, gained: GainedItems)
    returns (lost': LostItems, gained': GainedItems)
    modifies x
    ensures lost' == RecordLost(lost, old(x.Value()), receiver, sender)
    ensures gained' == RecordGained(gained, old(x.Value()), receiver, sender)
    ensures var e := old(x.Value());
      x.item == if RolledBack(e) then AsReturned(e) else if Moved(e) then AsMoved(e) else e.item
    ensures var e := old(x.Value());
      x.Value() == if GivenBack(e) || HasNewIds(e) then Exchanged(x.item, None, None, None, None) else e
  {
    hide Push;
    lost', gained' := lost, gained;
    if x.rollbackAssetid.Some? || x.rollbackContextid.Some? {
      // given back: what arrived goes again, and what was sent returns
      lost' := Push(lost', Inventory(receiver, x.item.appid, Or(x.newContextid, x.item.contextid)),
        Or(x.newAssetid, x.item.assetid));
      lost' := Push(lost', Inventory(sender, x.item.appid, x.item.contextid), x.item.assetid);
      if x.rollbackAssetid.Some? {
        x.item := x.item.(assetid := x.rollbackAssetid.value);
        x.rollbackAssetid := None;
      }
      if x.rollbackContextid.Some? {
        x.item := x.item.(contextid := x.rollbackContextid.value);
        x.rollbackContextid := None;
      }
      x.newAssetid, x.newContextid := None, None;
      gained' := Push(gained', Place(sender, x.item), x.item);
    } else if x.newAssetid.Some? || x.newContextid.Some? {
      lost' := Push(lost', Inventory(sender, x.item.appid, x.item.contextid), x.item.assetid);
      if x.newAssetid.Some? {
        x.item := x.item.(assetid := x.newAssetid.value);
        x.newAssetid := None;
      }
      if x.newContextid.Some? {
        x.item := x.item.(contextid := x.newContextid.value);
        x.newContextid := None;
      }
      gained' := Push(gained', Place(receiver, x.item), x.item);
    }
  }

  ghost predicate Are(xs: seq<ExchangeItem>, from: nat, es: seq<Exchanged>)
    reads xs
  {
    |es| == |xs| && forall i :: from <= i < |xs| ==> xs[i].Value() == es[i]
  }

  ghost predicate LostRecorded(lost: LostItems, lost': LostItems, es: seq<Exchanged>, receiver: SteamID,
                               sender: SteamID)
  {
    forall k, id :: id in Get(lost', k) <==>
      id in Get(lost, k) || exists i :: 0 <= i < |es| && Loses(es[i], receiver, sender, k, id)
  }

  ghost predicate GainedRecorded(gained: GainedItems, gained': GainedItems, es: seq<Exchanged>, receiver: SteamID,
                                 sender: SteamID)
  {
    forall k, item :: item in Get(gained', k) <==>
      item in Get(gained, k) || exists i :: 0 <= i < |es| && Gains(es[i], receiver, sender, k, item)
  }

  function RecordAllLost(lost: LostItems, es: seq<Exchanged>, receiver: SteamID, sender: SteamID): LostItems {
    if es == [] then lost
    else RecordLost(RecordAllLost(lost, es[..|es| - 1], receiver, sender), es[|es| - 1], receiver, sender)
  }

  function RecordAllGained(gained: GainedItems, es: seq<Exchanged>, receiver: SteamID, sender: SteamID): GainedItems {
    if es == [] then gained
    else RecordGained(RecordAllGained(gained, es[..|es| - 1], receiver, sender), es[|es| - 1], receiver, sender)
  }

  /** The records hold what some item of the exchange loses or gains, and what they held before. */
  lemma {:induction false} RecordAllContents(lost: LostItems, gained: GainedItems, es: seq<Exchanged>,
                                             receiver: SteamID, sender: SteamID)
    ensures LostRecorded(lost, RecordAllLost(lost, es, receiver, sender), es, receiver, sender)
    ensures GainedRecorded(gained, RecordAllGained(gained, es, receiver, sender), es, receiver, sender)
  {
    if es != [] {
      var front, last := es[..|es| - 1], es[|es| - 1];
      RecordAllContents(lost, gained, front, receiver, sender);
      RecordContents(RecordAllLost(lost, front, receiver, sender), RecordAllGained(gained, front, receiver, sender),
        last, receiver, sender);
      assert forall i :: 0 <= i < |front| ==> front[i] == es[i];
      hide Loses, Gains, Get, RecordLost, RecordGained;
    }
  }

  /** `addItems` for one side of an exchange. */
  method RecordItems(xs: seq<ExchangeItem>, receiver: SteamID, sender: SteamID, lost: LostItems, gained: GainedItems,
                     ghost es: seq<Exchanged>)
    returns (lost': LostItems, gained': GainedItems)
    requires Are(xs, 0, es) && forall i, j :: 0 <= i < j < |xs| ==> xs[i] != xs[j]
    modifies xs
    ensures lost' == RecordAllLost(lost, es, receiver, sender)
    ensures gained' == RecordAllGained(gained, es, receiver, sender)
  {
    lost', gained' := lost, gained;
    for n := 0 to |xs|
      invariant Are(xs, n, es)
      invariant lost' == RecordAllLost(lost, es[..n], receiver, sender)
      invariant gained' == RecordAllGained(gained, es[..n], receiver, sender)
    {
      hide RecordLost, RecordGained;
      assert es[..n + 1][..n] == es[..n];
      lost', gained' := RecordItem(xs[n], receiver, sender, lost', gained');
    }
    assert es[..|xs|] == es;
  }

  // ----- both sides of an exchange

  datatype Exchange = Exchange(ours: SteamID, theirs: SteamID, received: seq<Exchanged>, sent: seq<Exchanged>)

  function AllLost(x: Exchange): LostItems {
    RecordAllLost(RecordAllLost(map[], x.received, x.ours, x.theirs), x.sent, x.theirs, x.ours)
  }

  function AllGained(x: Exchange): GainedItems {
    RecordAllGained(RecordAllGained(map[], x.received, x.ours, x.theirs), x.sent, x.theirs, x.ours)
  }

  /** We receive the received items from the partner, who receives the sent ones from us. */
  method HandleAddInventoryItems(received: seq<ExchangeItem>, sent: seq<ExchangeItem>, ghost x: Exchange,
                                 ours: SteamID, theirs: SteamID)
    returns (lost: LostItems, gained: GainedItems)
    requires Are(received, 0, x.received) && Are(sent, 0, x.sent) && ours == x.ours && theirs == x.theirs
    requires forall i, j :: 0 <= i < j < |received| ==> received[i] != received[j]
    requires forall i, j :: 0 <= i < j < |sent| ==> sent[i] != sent[j]
    requires forall i, j :: 0 <= i < |received| && 0 <= j < |sent| ==> received[i] != sent[j]
    modifies received, sent
    ensures lost == AllLost(x) && gained == AllGained(x)
  {
    hide RecordAllLost, RecordAllGained;
    lost, gained := RecordItems(received, ours, theirs, map[], map[], x.received);
    assert Are(sent, 0, x.sent);
    lost, gained := RecordItems(sent, theirs, ours, lost, gained, x.sent);
  }

  ghost predicate SomeLoses(x: Exchange, k: Inventory, id: AssetId) {
    || (exists i :: 0 <= i < |x.received| && Loses(x.received[i], x.ours, x.theirs, k, id))
    || (exists i :: 0 <= i < |x.sent| && Loses(x.sent[i], x.theirs, x.ours, k, id))
  }

  ghost predicate SomeGains(x: Exchange, k: Inventory, item: Item) {
    || (exists i :: 0 <= i < |x.received| && Gains(x.received[i], x.ours, x.theirs, k, item))
    || (exists i :: 0 <= i < |x.sent| && Gains(x.sent[i], x.theirs, x.ours, k, item))
  }

  lemma GetNothing<T>()
    ensures forall k :: Get<T>(map[], k) == []
  {
  }

  lemma ExchangeContents(x: Exchange)
    ensures forall k, id :: id in Get(AllLost(x), k) <==> SomeLoses(x, k, id)
    ensures forall k, item :: item in Get(AllGained(x), k) <==> SomeGains(x, k, item)
  {
    var lost := RecordAllLost(map[], x.received, x.ours, x.theirs);
    var gained := RecordAllGained(map[], x.received, x.ours, x.theirs);
    RecordAllContents(map[], map[], x.received, x.ours, x.theirs);
    RecordAllContents(lost, gained, x.sent, x.theirs, x.ours);
    GetNothing<AssetId>();
    GetNothing<Item>();
    hide Loses, Gains, Get, RecordAllLost, RecordAllGained;
  }

  // ----- where items end up

  /** An inventory after the update for what was recorded. */
  function Final(items: Items, x: Exchange, k: Inventory): Items {
    After(items, Get(AllLost(x), k), Get(AllGained(x), k))
  }

  /** What an inventory holds in the end: nothing an item made it lose, everything else an
      item made it gain, and otherwise what it held. */
  lemma FinalContents(items: Items, x: Exchange, k: Inventory, id: AssetId)
    ensures id in Final(items, x, k) <==>
      !SomeLoses(x, k, id) && (id in items || exists item :: SomeGains(x, k, item) && item.assetid == id)
  {
    AddedContents(items, Get(AllGained(x), k));
    ExchangeContents(x);
    hide SomeLoses, SomeGains, AllLost, AllGained;
    if item :| SomeGains(x, k, item) && item.assetid == id {
      assert item in Get(AllGained(x), k);
    }
  }

  /** Where an item of either side should be: a moved item gone from its sender and with its
      receiver under its new id; a returned one gone from both and back with its sender under
      the id it got then.  An arrival fails only if some item makes that inventory lose that id. */
  ghost predicate EndsUpRight(e: Exchanged, receiver: SteamID, sender: SteamID, theirs: Items, ours: Items,
                              x: Exchange) {
    var sent, held, back := Place(sender, e.item), Place(receiver, AsMoved(e)), Place(sender, AsReturned(e));
    && (Moved(e) || RolledBack(e) ==> e.item.assetid !in Final(theirs, x, sent))
    && (Moved(e) ==> (AsMoved(e).assetid in Final(ours, x, held) <==> !SomeLoses(x, held, AsMoved(e).assetid)))
    && (RolledBack(e) ==> AsMoved(e).assetid !in Final(ours, x, held))
    && (RolledBack(e) ==> (AsReturned(e).assetid in Final(theirs, x, back) <==>
        !SomeLoses(x, back, AsReturned(e).assetid)))
  }

  lemma EndsUp(e: Exchanged, receiver: SteamID, sender: SteamID, theirs: Items, ours: Items, x: Exchange)
    requires forall k, id :: Loses(e, receiver, sender, k, id) ==> SomeLoses(x, k, id)
    requires forall k, item :: Gains(e, receiver, sender, k, item) ==> SomeGains(x, k, item)
    ensures EndsUpRight(e, receiver, sender, theirs, ours, x)
  {
    var sent, held, back := Place(sender, e.item), Place(receiver, AsMoved(e)), Place(sender, AsReturned(e));
    FinalContents(theirs, x, sent, e.item.assetid);
    FinalContents(ours, x, held, AsMoved(e).assetid);
    FinalContents(theirs, x, back, AsReturned(e).assetid);
    assert Moved(e) || RolledBack(e) ==> Loses(e, receiver, sender, sent, e.item.assetid);
    assert RolledBack(e) ==> Loses(e, receiver, sender, held, AsMoved(e).assetid);
    assert Moved(e) ==> Gains(e, receiver, sender, held, AsMoved(e));
    assert RolledBack(e) ==> Gains(e, receiver, sender, back, AsReturned(e));
    hide Loses, Gains, Final, SomeLoses, SomeGains, Place, AsMoved, AsReturned, Moved, RolledBack;
  }

  /** Every item of an exchange ends up where it should, whatever the inventories held before. */
  lemma ItemsEndUpRight(theirs: Items, ours: Items, x: Exchange)
    ensures forall i :: 0 <= i < |x.received| ==> EndsUpRight(x.received[i], x.ours, x.theirs, theirs, ours, x)
    ensures forall i :: 0 <= i < |x.sent| ==> EndsUpRight(x.sent[i], x.theirs, x.ours, ours, theirs, x)
  {
    forall i | 0 <= i < |x.received| ensures EndsUpRight(x.received[i], x.ours, x.theirs, theirs, ours, x) {
      hide EndsUpRight, Loses, Gains;
      EndsUp(x.received[i], x.ours, x.theirs, theirs, ours, x);
    }
    forall i | 0 <= i < |x.sent| ensures EndsUpRight(x.sent[i], x.theirs, x.ours, ours, theirs, x) {
      hide EndsUpRight, Loses, Gains;
      EndsUp(x.sent[i], x.theirs, x.ours, ours, theirs, x);
    }
  }

  // ----- on the fields of the items

  /** The item is in the exchange, and this is who received and who sent it. */
  predicate Between(x: Exchange, e: Exchanged, receiver: SteamID, sender: SteamID) {
    || (e in x.received && receiver == x.ours && sender == x.theirs)
    || (e in x.sent && receiver == x.theirs && sender == x.ours)
  }

  predicate GivenBack(e: Exchanged) {
    e.rollbackAssetid != None || e.rollbackContextid != None
  }

  predicate HasNewIds(e: Exchanged) {
    e.newAssetid != None || e.newContextid != None
  }

  function Newest<T>(newer: Option<T>, before: T): T {
    match newer
    case None => before
    case Some(value) => value
  }

  /** The sender of an item that moved or was given back lost the original; the receiver of one
      that was given back lost what it had become. */
  predicate Takes(e: Exchanged, receiver: SteamID, sender: SteamID, k: Inventory, id: AssetId) {
    || ((GivenBack(e) || HasNewIds(e)) && k.steamid == sender && k.appid == e.item.appid
        && k.contextid == e.item.contextid && id == e.item.assetid)
    || (GivenBack(e) && k.steamid == receiver && k.appid == e.item.appid
        && k.contextid == Newest(e.newContextid, e.item.contextid) && id == Newest(e.newAssetid, e.item.assetid))
  }

  /** An item that was given back is with its sender, under its rollback ids; one that moved is
      with its receiver, under its new ids. */
  predicate Gives(e: Exchanged, receiver: SteamID, sender: SteamID, k: Inventory, item: Item) {
    && k.appid == item.appid == e.item.appid && k.contextid == item.contextid && item.details == e.item.details
    && if GivenBack(e) then
         && k.steamid == sender
         && item.assetid == Newest(e.rollbackAssetid, e.item.assetid)
         && item.contextid == Newest(e.rollbackContextid, e.item.contextid)
       else
         && HasNewIds(e) && k.steamid == receiver
         && item.assetid == Newest(e.newAssetid, e.item.assetid)
         && item.contextid == Newest(e.newContextid, e.item.contextid)
  }

  lemma RecordsOnFields(e: Exchanged, receiver: SteamID, sender: SteamID, k: Inventory, id: AssetId, item: Item)
    ensures Loses(e, receiver, sender, k, id) <==> Takes(e, receiver, sender, k, id)
    ensures Gains(e, receiver, sender, k, item) <==> Gives(e, receiver, sender, k, item)
  {
  }

  /** What is recorded for an inventory is exactly what some item takes from it or gives to it. */
  lemma RecordedExactly(x: Exchange, k: Inventory, id: AssetId, item: Item)
    ensures id in Get(AllLost(x), k) <==>
      exists e, receiver, sender :: Between(x, e, receiver, sender) && Takes(e, receiver, sender, k, id)
    ensures item in Get(AllGained(x), k) <==>
      exists e, receiver, sender :: Between(x, e, receiver, sender) && Gives(e, receiver, sender, k, item)
  {
    ExchangeContents(x);
    forall e, receiver, sender
      ensures Loses(e, receiver, sender, k, id) <==> Takes(e, receiver, sender, k, id)
      ensures Gains(e, receiver, sender, k, item) <==> Gives(e, receiver, sender, k, item)
    {
      RecordsOnFields(e, receiver, sender, k, id, item);
    }
    hide Takes, Gives, Loses, Gains, AllLost, AllGained;
    LosersBetween(x, k, id);
    GainersBetween(x, k, item);
  }

  lemma LosersBetween(x: Exchange, k: Inventory, id: AssetId)
    ensures SomeLoses(x, k, id) <==>
      exists e, receiver, sender :: Between(x, e, receiver, sender) && Loses(e, receiver, sender, k, id)
  {
    hide Loses;
    if i :| 0 <= i < |x.received| && Loses(x.received[i], x.ours, x.theirs, k, id) {
      assert Between(x, x.received[i], x.ours, x.theirs);
    }
    if i :| 0 <= i < |x.sent| && Loses(x.sent[i], x.theirs, x.ours, k, id) {
      assert Between(x, x.sent[i], x.theirs, x.ours);
    }
  }

  lemma GainersBetween(x: Exchange, k: Inventory, item: Item)
    ensures SomeGains(x, k, item) <==>
      exists e, receiver, sender :: Between(x, e, receiver, sender) && Gains(e, receiver, sender, k, item)
  {
    hide Gains;
    if i :| 0 <= i < |x.received| && Gains(x.received[i], x.ours, x.theirs, k, item) {
      assert Between(x, x.received[i], x.ours, x.theirs);
    }
    if i :| 0 <= i < |x.sent| && Gains(x.sent[i], x.theirs, x.ours, k, item) {
      assert Between(x, x.sent[i], x.theirs, x.ours);
    }
  }

  /** Some item of the exchange takes the asset from the inventory. */
  ghost predicate Taken(x: Exchange, k: Inventory, id: AssetId) {
    exists e, receiver, sender :: Between(x, e, receiver, sender) && Takes(e, receiver, sender, k, id)
  }

  /** Where an item given back ends up: the sender does not have it under its old id, nor the
      receiver under its new one, and the sender has it under the id it got then, unless some
      item of the exchange takes that very asset away. */
  lemma GivenBackEndsUp(items: Items, x: Exchange, e: Exchanged, receiver: SteamID, sender: SteamID)
    requires Between(x, e, receiver, sender) && GivenBack(e)
    ensures var appid := e.item.appid;
      var assetid := Newest(e.rollbackAssetid, e.item.assetid);
      var contextid := Newest(e.rollbackContextid, e.item.contextid);
      var back := Inventory(sender, appid, contextid);
      && e.item.assetid !in Final(items, x, Inventory(sender, appid, e.item.contextid))
      && Newest(e.newAssetid, e.item.assetid)
           !in Final(items, x, Inventory(receiver, appid, Newest(e.newContextid, e.item.contextid)))
      && (assetid in Final(items, x, back) <==> !Taken(x, back, assetid))
      && e.item.(assetid := assetid, contextid := contextid) in Get(AllGained(x), back)
  {
    var appid := e.item.appid;
    var assetid, contextid := Newest(e.rollbackAssetid, e.item.assetid), Newest(e.rollbackContextid, e.item.contextid);
    var was, became := e.item.assetid, Newest(e.newAssetid, e.item.assetid);
    var k1 := Inventory(sender, appid, e.item.contextid);
    var k2 := Inventory(receiver, appid, Newest(e.newContextid, e.item.contextid));
    var back := Inventory(sender, appid, contextid);
    var item := e.item.(assetid := assetid, contextid := contextid);
    assert Takes(e, receiver, sender, k1, was) && Takes(e, receiver, sender, k2, became);
    assert Gives(e, receiver, sender, back, item);
    hide Takes, Gives, Between, GivenBack;
    TakenIsGone(items, x, k1, was);
    TakenIsGone(items, x, k2, became);
    TakenIsGone(items, x, back, assetid);
    GivenIsThere(items, x, back, item);
  }

  /** And one that moved: the sender has lost it, and the receiver has it under its new ids. */
  lemma MovedEndsUp(items: Items, x: Exchange, e: Exchanged, receiver: SteamID, sender: SteamID)
    requires Between(x, e, receiver, sender) && !GivenBack(e) && HasNewIds(e)
    ensures var appid := e.item.appid;
      var assetid := Newest(e.newAssetid, e.item.assetid);
      var contextid := Newest(e.newContextid, e.item.contextid);
      var held := Inventory(receiver, appid, contextid);
      && e.item.assetid !in Final(items, x, Inventory(sender, appid, e.item.contextid))
      && (assetid in Final(items, x, held) <==> !Taken(x, held, assetid))
      && e.item.(assetid := assetid, contextid := contextid) in Get(AllGained(x), held)
  {
    var appid := e.item.appid;
    var assetid, contextid := Newest(e.newAssetid, e.item.assetid), Newest(e.newContextid, e.item.contextid);
    var sent, held := Inventory(sender, appid, e.item.contextid), Inventory(receiver, appid, contextid);
    var item := e.item.(assetid := assetid, contextid := contextid);
    assert Takes(e, receiver, sender, sent, e.item.assetid);
    assert Gives(e, receiver, sender, held, item);
    hide Takes, Gives, Between;
    TakenIsGone(items, x, sent, e.item.assetid);
    TakenIsGone(items, x, held, assetid);
    GivenIsThere(items, x, held, item);
  }

  lemma TakenIsGone(items: Items, x: Exchange, k: Inventory, id: AssetId)
    ensures Taken(x, k, id) <==> SomeLoses(x, k, id)
    ensures Taken(x, k, id) ==> id !in Final(items, x, k)
  {
    LosersBetween(x, k, id);
    forall e, receiver, sender ensures Loses(e, receiver, sender, k, id) <==> Takes(e, receiver, sender, k, id) {
      RecordsOnFields(e, receiver, sender, k, id, e.item);
    }
    FinalContents(items, x, k, id);
    hide Takes, Loses, Final, SomeLoses;
  }

  lemma GivenIsThere(items: Items, x: Exchange, k: Inventory, item: Item)
    requires exists e, receiver, sender :: Between(x, e, receiver, sender) && Gives(e, receiver, sender, k, item)
    ensures item in Get(AllGained(x), k)
    ensures item.assetid in Final(items, x, k) <==> !SomeLoses(x, k, item.assetid)
  {
    RecordedExactly(x, k, item.assetid, item);
    ExchangeContents(x);
    FinalContents(items, x, k, item.assetid);
    hide Takes, Gives, Final, SomeLoses, SomeGains, AllGained, AllLost;
  }
}
