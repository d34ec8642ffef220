/** Updates of cached inventories: what a trade or an exchange makes of the cached items, and
    which changes it announces.  Messages are delivered at least once and in any order. */
module InventoryUpdates {
  import opened Wrappers

  datatype AssetId = AssetId(id: string)

  datatype Item = Item(assetid: AssetId, contextid: string, appid: int, details: string)

  type Items = map<AssetId, Item>

  datatype Changed = Changed(gained: seq<Item>, lost: seq<Item>)

  datatype Outcome = Outcome(items: Option<Items>, events: seq<Changed>)

  // ----- what an update does

  /** `hmset`: of two gained items with one id the last counts. */
  function Added(items: Items, gained: seq<Item>): Items {
    if gained == [] then items
    else
      var last := gained[|gained| - 1];
      Added(items, gained[..|gained| - 1])[last.assetid := last]
  }

  function IdsOf(gained: seq<Item>): set<AssetId> {
    set item | item in gained :: item.assetid
  }

  function SetOf(lost: seq<AssetId>): set<AssetId> {
    set id | id in lost
  }

  function After(items: Items, lost: seq<AssetId>, gained: seq<Item>): Items {
    Added(items, gained) - SetOf(lost)
  }

  function NewlyLost(items: Items, lost: seq<AssetId>): seq<Item> {
    if lost == [] then []
    else
      var last := lost[|lost| - 1];
      NewlyLost(items, lost[..|lost| - 1]) + (if last in items then [items[last]] else [])
  }

  function NewlyGained(items: Items, gained: seq<Item>): seq<Item> {
    if gained == [] then []
    else
      var last := gained[|gained| - 1];
      NewlyGained(items, gained[..|gained| - 1]) + (if last.assetid in items then [] else [last])
  }

  function Announced(items: Items, lost: seq<AssetId>, gained: seq<Item>): seq<Changed> {
    var g, l := NewlyGained(items, gained), NewlyLost(items, lost);
    if g == [] && l == [] then [] else [Changed(g, l)]
  }

  /** An inventory that is not cached is not updated. */
  function Updated(cached: Option<Items>, lost: seq<AssetId>, gained: seq<Item>): Outcome {
    match cached
    case None => Outcome(None, [])
    case Some(items) => Outcome(Some(After(items, lost, gained)), Announced(items, lost, gained))
  }

  // ----- contents

  lemma {:induction false} AddedContents(items: Items, gained: seq<Item>)
    ensures Added(items, gained).Keys == items.Keys + IdsOf(gained)
    ensures forall id :: id in items && id !in IdsOf(gained) ==> Added(items, gained)[id] == items[id]
    ensures forall id :: id in IdsOf(gained) ==>
        Added(items, gained)[id] in gained && Added(items, gained)[id].assetid == id
  {
    if gained != [] {
      var front, last := gained[..|gained| - 1], gained[|gained| - 1];
      AddedContents(items, front);
      assert gained == front + [last];
      assert IdsOf(gained) == IdsOf(front) + {last.assetid};
    }
  }

  lemma {:induction false} NewlyLostContents(items: Items, lost: seq<AssetId>)
    requires forall id :: id in items ==> items[id].assetid == id
    ensures forall item :: item in NewlyLost(items, lost) <==>
        item.assetid in lost && item.assetid in items && items[item.assetid] == item
  {
    if lost != [] {
      NewlyLostContents(items, lost[..|lost| - 1]);
      assert lost == lost[..|lost| - 1] + [lost[|lost| - 1]];
    }
  }

  lemma {:induction false} NewlyGainedContents(items: Items, gained: seq<Item>)
    ensures forall item :: item in NewlyGained(items, gained) <==> item in gained && item.assetid !in items
  {
    if gained != [] {
      NewlyGainedContents(items, gained[..|gained| - 1]);
      assert gained == gained[..|gained| - 1] + [gained[|gained| - 1]];
    }
  }

  predicate Keyed(items: Items) {
    forall id :: id in items ==> items[id].assetid == id
  }

  /** The result is (old + gained) - lost, by asset id. */
  lemma AfterIsUnionMinusLost(items: Items, lost: seq<AssetId>, gained: seq<Item>)
    requires Keyed(items)
    ensures var after := After(items, lost, gained);
      && Keyed(after)
      && after.Keys == (items.Keys + IdsOf(gained)) - SetOf(lost)
      && (forall id :: id in after ==> if id in IdsOf(gained) then after[id] in gained else after[id] == items[id])
  {
    AddedContents(items, gained);
  }

  // ----- what is announced

  function AllLost(events: seq<Changed>): set<AssetId> {
    set i, item | 0 <= i < |events| && item in events[i].lost :: item.assetid
  }

  function AllGained(events: seq<Changed>): set<AssetId> {
    set i, item | 0 <= i < |events| && item in events[i].gained :: item.assetid
  }

  lemma AnnouncedIds(items: Items, lost: seq<AssetId>, gained: seq<Item>)
    requires Keyed(items)
    ensures AllLost(Announced(items, lost, gained)) == SetOf(lost) * items.Keys
    ensures AllGained(Announced(items, lost, gained)) == IdsOf(gained) - items.Keys
  {
    NewlyLostContents(items, lost);
    NewlyGainedContents(items, gained);
    var events := Announced(items, lost, gained);
    var g, l := NewlyGained(items, gained), NewlyLost(items, lost);
    forall id | id in SetOf(lost) * items.Keys ensures id in AllLost(events) {
      assert items[id] in l;
      assert events == [Changed(g, l)] && items[id] in events[0].lost;
    }
    forall id | id in IdsOf(gained) - items.Keys ensures id in AllGained(events) {
      var item :| item in gained && item.assetid == id;
      assert item in g;
      assert events == [Changed(g, l)] && item in events[0].gained;
    }
  }

  /** The lost items announced are always those that are gone; the gained ones are those that
      are new exactly if everything both gained and lost was there before. */
  lemma AnnouncesDifferences(items: Items, lost: seq<AssetId>, gained: seq<Item>)
    requires Keyed(items)
    ensures var after, events := After(items, lost, gained), Announced(items, lost, gained);
      && AllLost(events) == items.Keys - after.Keys
      && (AllGained(events) == after.Keys - items.Keys <==> IdsOf(gained) * SetOf(lost) <= items.Keys)
  {
    AnnouncedIds(items, lost, gained);
    AfterIsUnionMinusLost(items, lost, gained);
    var after, events := After(items, lost, gained), Announced(items, lost, gained);
    if AllGained(events) == after.Keys - items.Keys {
      forall id | id in IdsOf(gained) * SetOf(lost) ensures id in items.Keys {
        assert id !in after.Keys - items.Keys;
        assert id !in IdsOf(gained) - items.Keys;
      }
    }
  }

  /** The same update again changes nothing, and announces nothing exactly if nothing was both
      gained and lost. */
  lemma RedeliveryChangesNothing(items: Items, lost: seq<AssetId>, gained: seq<Item>)
    requires Keyed(items)
    ensures var once := After(items, lost, gained);
      && After(once, lost, gained) == once
      && (Announced(once, lost, gained) == [] <==> IdsOf(gained) !! SetOf(lost))
  {
    var once := After(items, lost, gained);
    AfterIsUnionMinusLost(items, lost, gained);
    AddedTwice(items, lost, gained);
    AnnouncedIds(once, lost, gained);
    if Announced(once, lost, gained) == [] {
      assert AllGained([]) == {};
      assert IdsOf(gained) - once.Keys == {};
      forall id | id in IdsOf(gained) ensures id in once {
        assert id !in IdsOf(gained) - once.Keys;
      }
    } else {
      NewlyGainedContents(once, gained);
      NewlyLostContents(once, lost);
      SomethingAnnounced(once, lost, gained);
    }
  }

  lemma SomethingAnnounced(items: Items, lost: seq<AssetId>, gained: seq<Item>)
    requires Keyed(items) && Announced(items, lost, gained) != []
    ensures (exists id :: id in lost && id in items) || exists item :: item in gained && item.assetid !in items
  {
    NewlyGainedContents(items, gained);
    NewlyLostContents(items, lost);
    var g, l := NewlyGained(items, gained), NewlyLost(items, lost);
    if l != [] { assert l[0] in l; } else { assert g[0] in g; }
  }

  lemma {:induction false} AddedOver(items: Items, others: Items, gained: seq<Item>)
    ensures forall id :: id in IdsOf(gained) ==>
              && id in Added(items, gained) && id in Added(others, gained)
              && Added(items, gained)[id] == Added(others, gained)[id]
  {
    if gained != [] {
      var front, last := gained[..|gained| - 1], gained[|gained| - 1];
      AddedOver(items, others, front);
      assert gained == front + [last];
      assert IdsOf(gained) == IdsOf(front) + {last.assetid};
    }
  }

  lemma AddedTwice(items: Items, lost: seq<AssetId>, gained: seq<Item>)
    ensures After(After(items, lost, gained), lost, gained) == After(items, lost, gained)
  {
    AddedContents(items, gained);
    AddedContents(After(items, lost, gained), gained);
    AddedOver(items, After(items, lost, gained), gained);
  }

  /** The updates for a trade (which only loses items) and for its exchange details end in the
      same items in either order, exactly if whatever the details gain and the trade lost the
      details lose as well; new asset ids are new, so this holds. */
  lemma TradeAndDetailsCommute(items: Items, tradeLost: seq<AssetId>, lost: seq<AssetId>, gained: seq<Item>)
    ensures After(After(items, tradeLost, []), lost, gained) == After(After(items, lost, gained), tradeLost, [])
       <==> IdsOf(gained) * SetOf(tradeLost) <= SetOf(lost)
  {
    var mid, mid' := After(items, tradeLost, []), After(items, lost, gained);
    var a, b := After(mid, lost, gained), After(mid', tradeLost, []);
    assert IdsOf([]) == {};
    forall id
      ensures id in a <==> id !in SetOf(lost) && (id in IdsOf(gained) || (id in items && id !in SetOf(tradeLost)))
      ensures id in b <==> id !in SetOf(lost) && id !in SetOf(tradeLost) && (id in IdsOf(gained) || id in items)
      ensures id in a && id in b ==> a[id] == b[id]
    {
      AfterAt(items, tradeLost, [], id);
      AfterAt(items, lost, gained, id);
      AfterAt(mid, lost, gained, id);
      AfterAt(mid', tradeLost, [], id);
      hide After, IdsOf, SetOf;
    }
    hide After, IdsOf, SetOf;
    if a == b {
      assert forall id :: id in IdsOf(gained) * SetOf(tradeLost) && id !in SetOf(lost) ==> id in a;
    }
    if IdsOf(gained) * SetOf(tradeLost) <= SetOf(lost) {
      assert a == b;
    }
  }

  lemma AfterAt(items: Items, lost: seq<AssetId>, gained: seq<Item>, id: AssetId)
    ensures id in After(items, lost, gained) <==> id !in SetOf(lost) && (id in IdsOf(gained) || id in items)
    ensures id in IdsOf(gained) ==> id in Added(map[], gained)
    ensures id in After(items, lost, gained) ==>
              After(items, lost, gained)[id] == if id in IdsOf(gained) then Added(map[], gained)[id] else items[id]
  {
    AddedContents(items, gained);
    AddedOver(items, map[], gained);
  }

  /** In either order the two updates of a trade announce the same losses and gains, if the
      ids gained are new. */
  lemma TradeAndDetailsAnnounceTheSame(items: Items, tradeLost: seq<AssetId>, lost: seq<AssetId>, gained: seq<Item>)
    requires Keyed(items) && IdsOf(gained) !! SetOf(tradeLost) && IdsOf(gained) !! items.Keys
    ensures var first, second := Announced(items, tradeLost, []), Announced(After(items, tradeLost, []), lost, gained);
      var first', second' := Announced(items, lost, gained), Announced(After(items, lost, gained), tradeLost, []);
      && AllLost(first) + AllLost(second) == AllLost(first') + AllLost(second') ==
          (SetOf(tradeLost) + SetOf(lost)) * items.Keys
      && AllGained(first) + AllGained(second) == AllGained(first') + AllGained(second') == IdsOf(gained)
  {
    AfterIsUnionMinusLost(items, tradeLost, []);
    AfterIsUnionMinusLost(items, lost, gained);
    AnnouncedIds(items, tradeLost, []);
    AnnouncedIds(After(items, tradeLost, []), lost, gained);
    AnnouncedIds(items, lost, gained);
    AnnouncedIds(After(items, lost, gained), tradeLost, []);
    assert IdsOf([]) == {};
    hide After, Announced, AllLost, AllGained, IdsOf, SetOf;
  }

  // ----- redelivery after other updates

  datatype Update = Update(lost: seq<AssetId>, gained: seq<Item>)

  /** What an update, or the last of several that is about it, does to an asset id. */
  datatype Effect = Nothing | Gone | Is(item: Item)

  function AfterAll(items: Items, us: seq<Update>): Items {
    if us == [] then items
    else After(AfterAll(items, us[..|us| - 1]), us[|us| - 1].lost, us[|us| - 1].gained)
  }

  function EffectOf(u: Update, id: AssetId): Effect {
    if id in SetOf(u.lost) then Gone
    else if id in IdsOf(u.gained) then
      AddedContents(map[], u.gained);
      Is(Added(map[], u.gained)[id])
    else Nothing
  }

  function LastEffect(us: seq<Update>, id: AssetId): Effect {
    if us == [] then Nothing
    else if EffectOf(us[|us| - 1], id) != Nothing then EffectOf(us[|us| - 1], id)
    else LastEffect(us[..|us| - 1], id)
  }

  function Find(items: Items, id: AssetId): Option<Item> {
    if id in items then Some(items[id]) else None
  }

  function Stands(before: Option<Item>, effect: Effect): Option<Item> {
    match effect
    case Nothing => before
    case Gone => None
    case Is(item) => Some(item)
  }

  lemma {:induction false} AfterAllAt(items: Items, us: seq<Update>, id: AssetId)
    ensures Find(AfterAll(items, us), id) == Stands(Find(items, id), LastEffect(us, id))
  {
    if us != [] {
      var front, last := us[..|us| - 1], us[|us| - 1];
      AfterAllAt(items, front, id);
      AfterAt(AfterAll(items, front), last.lost, last.gained, id);
    }
  }

  lemma {:induction false} AfterAllKeyed(items: Items, us: seq<Update>)
    requires Keyed(items)
    ensures Keyed(AfterAll(items, us))
  {
    if us != [] {
      var front, last := us[..|us| - 1], us[|us| - 1];
      AfterAllKeyed(items, front);
      AfterIsUnionMinusLost(AfterAll(items, front), last.lost, last.gained);
    }
  }

  /** What stands for an id before and after an update is delivered again. */
  lemma RedeliveredAt(items: Items, u: Update, us: seq<Update>, id: AssetId)
    ensures var before := AfterAll(After(items, u.lost, u.gained), us);
      && Find(before, id) == Stands(Stands(Find(items, id), EffectOf(u, id)), LastEffect(us, id))
      && Find(After(before, u.lost, u.gained), id) == Stands(Find(before, id), EffectOf(u, id))
  {
    AfterAllAt(After(items, u.lost, u.gained), us, id);
    AfterAt(items, u.lost, u.gained, id);
    AfterAt(AfterAll(After(items, u.lost, u.gained), us), u.lost, u.gained, id);
  }

  /** An update that is delivered again after others changes nothing exactly if for each of its
      ids the last of the others that is about the id left it as this one does. */
  lemma RedeliveryAfterOthers(items: Items, u: Update, us: seq<Update>)
    ensures var before := AfterAll(After(items, u.lost, u.gained), us);
      After(before, u.lost, u.gained) == before <==>
      forall id :: EffectOf(u, id) != Nothing ==> LastEffect(us, id) == Nothing || LastEffect(us, id) == EffectOf(u, id)
  {
    var before := AfterAll(After(items, u.lost, u.gained), us);
    var again := After(before, u.lost, u.gained);
    forall id
      ensures Find(again, id) == Find(before, id) <==>
              (EffectOf(u, id) != Nothing ==> LastEffect(us, id) == Nothing || LastEffect(us, id) == EffectOf(u, id))
    {
      RedeliveredAt(items, u, us, id);
    }
    hide After, AfterAll, EffectOf, LastEffect;
    SameItems(again, before);
  }

  lemma SameItems(a: Items, b: Items)
    ensures a == b <==> forall id :: Find(a, id) == Find(b, id)
  {
    if forall id :: Find(a, id) == Find(b, id) {
      forall id ensures id in a <==> id in b {
        assert Find(a, id) == Find(b, id);
      }
      forall id | id in a ensures a[id] == b[id] {
        assert Find(a, id) == Find(b, id);
      }
    }
  }

  /** It announces as lost what the others brought back, and as gained what the others took
      away again or it loses itself. */
  lemma RedeliveryAnnounces(items: Items, u: Update, us: seq<Update>, id: AssetId)
    requires Keyed(items)
    ensures var events := Announced(AfterAll(After(items, u.lost, u.gained), us), u.lost, u.gained);
      && (id in AllLost(events) <==> id in SetOf(u.lost) && LastEffect(us, id).Is?)
      && (id in AllGained(events) <==>
            id in IdsOf(u.gained) && (LastEffect(us, id).Gone? || (LastEffect(us, id).Nothing? && id in SetOf(u.lost))))
  {
    var before := AfterAll(After(items, u.lost, u.gained), us);
    AfterIsUnionMinusLost(items, u.lost, u.gained);
    AfterAllKeyed(After(items, u.lost, u.gained), us);
    AnnouncedIds(before, u.lost, u.gained);
    RedeliveredAt(items, u, us, id);
    hide After, AfterAll, Announced, AllLost, AllGained, IdsOf, SetOf, LastEffect;
  }
}
