/** The pending service: the loops that build transactions and follow relations, and what
    the pending offers of somebody add up to. */
module PendingService {
  import opened Wrappers
  import opened Collections
  import opened PendingOffers

  // ----- transactions

  function SaveCommands(bot: SteamID, offers: seq<Offer>): seq<Command> {
    if offers == [] then []
    else
      var last := offers[|offers| - 1];
      SaveCommands(bot, offers[..|offers| - 1]) + [SetOffer(bot, last), SetRelation(last.partner, last.id, bot)]
  }

  function DeleteCommands(bot: SteamID, offers: seq<Offer>, n: nat): seq<Command>
    requires n <= |offers|
  {
    if n == 0 then []
    else
      var offer := offers[n - 1];
      DeleteCommands(bot, offers, n - 1) +
      [DelRelations(offer.partner, IdsOf(offers)), DelOffer(bot, offer.id), DelRelations(offer.partner, {offer.id})]
  }

  lemma {:induction false} ExecConcat(t: Tables, a: seq<Command>, b: seq<Command>)
    ensures Exec(t, a + b) == Exec(Exec(t, a), b)
  {
    if b == [] {
      assert a + b == a;
    } else {
      assert (a + b)[..|a + b| - 1] == a + b[..|b| - 1];
      ExecConcat(t, a, b[..|b| - 1]);
    }
  }

  lemma ExecTwo(t: Tables, c: Command, d: Command)
    ensures Exec(t, [c, d]) == Apply(Apply(t, c), d)
  {
    assert [c][..0] == [] && Exec(t, [c]) == Apply(t, c);
    assert [c, d][..1] == [c] && [c, d][1] == d;
  }

  lemma ExecThree(t: Tables, c: Command, d: Command, e: Command)
    ensures Exec(t, [c, d, e]) == Apply(Apply(Apply(t, c), d), e)
  {
    ExecTwo(t, c, d);
    assert [c, d, e][..2] == [c, d];
  }

  lemma AddThenUpdate<K, V>(m: map<K, V>, n: map<K, V>, k: K, v: V)
    ensures (m + n)[k := v] == m + n[k := v]
  {
  }

  lemma {:induction false} SaveCommandsSave(t: Tables, bot: SteamID, offers: seq<Offer>)
    ensures Exec(t, SaveCommands(bot, offers)) == Saved(t, bot, offers)
  {
    if offers != [] {
      var front, last := offers[..|offers| - 1], offers[|offers| - 1];
      var c, d := SetOffer(bot, last), SetRelation(last.partner, last.id, bot);
      SaveCommandsSave(t, bot, front);
      ExecConcat(t, SaveCommands(bot, front), [c, d]);
      ExecTwo(Saved(t, bot, front), c, d);
      AddThenUpdate(t.bots, OfferEntries(bot, front), Key(bot, last.id), last);
      AddThenUpdate(t.partners, RelationEntries(bot, front), Key(last.partner, last.id), bot);
    }
  }

  lemma KeysOneMore(steamid: SteamID, ids: set<OfferId>, id: OfferId)
    ensures Keys(steamid, ids + {id}) == Keys(steamid, ids) + {Key(steamid, id)}
  {
  }

  /** The offers of one partner lose their relations at once and their entries one by one. */
  lemma {:induction false} DeleteCommandsDelete(t: Tables, bot: SteamID, partner: SteamID, offers: seq<Offer>, n: nat)
    requires n <= |offers| && forall i :: 0 <= i < |offers| ==> offers[i].partner == partner
    ensures var u := Exec(t, DeleteCommands(bot, offers, n));
      && u.bots == t.bots - Keys(bot, IdsOf(offers[..n]))
      && u.partners == if n == 0 then t.partners else t.partners - Keys(partner, IdsOf(offers))
  {
    if n > 0 {
      var offer := offers[n - 1];
      DeleteCommandsDelete(t, bot, partner, offers, n - 1);
      var c, d, e := DelRelations(partner, IdsOf(offers)), DelOffer(bot, offer.id), DelRelations(partner, {offer.id});
      ExecConcat(t, DeleteCommands(bot, offers, n - 1), [c, d, e]);
      ExecThree(Exec(t, DeleteCommands(bot, offers, n - 1)), c, d, e);
      assert offers[..n] == offers[..n - 1] + [offer];
      assert IdsOf(offers[..n]) == IdsOf(offers[..n - 1]) + {offer.id};
      KeysOneMore(bot, IdsOf(offers[..n - 1]), offer.id);
      assert offer.id in IdsOf(offers);
      KeysOneMore(partner, IdsOf(offers), offer.id);
      assert IdsOf(offers) + {offer.id} == IdsOf(offers);
      assert Keys(partner, {offer.id}) <= Keys(partner, IdsOf(offers));
    }
  }

  lemma DeletesAll(t: Tables, bot: SteamID, partner: SteamID, offers: seq<Offer>)
    requires offers != [] && forall i :: 0 <= i < |offers| ==> offers[i].partner == partner
    ensures Exec(t, DeleteCommands(bot, offers, |offers|)) == Deleted(t, bot, partner, IdsOf(offers))
  {
    DeleteCommandsDelete(t, bot, partner, offers, |offers|);
    assert offers[..|offers|] == offers;
  }

  class Multi {
    var commands: seq<Command>

    constructor ()
      ensures commands == []
    {
      commands := [];
    }

    method Queue(c: Command)
      modifies this
      ensures commands == old(commands) + [c]
    {
      commands := commands + [c];
    }
  }

  class Redis {
    var tables: Tables

    constructor ()
      ensures tables == INIT.tables
    {
      tables := INIT.tables;
    }

    method Exec(multi: Multi)
      modifies this
      ensures tables == PendingOffers.Exec(old(tables), multi.commands)
    {
      ghost var before := tables;
      for i := 0 to |multi.commands|
        invariant tables == PendingOffers.Exec(before, multi.commands[..i])
        invariant multi.commands == old(multi.commands)
      {
        assert multi.commands[..i + 1][..i] == multi.commands[..i];
        tables := Apply(tables, multi.commands[i]);
      }
      assert multi.commands[..|multi.commands|] == multi.commands;
    }
  }

  method SaveOffers(multi: Multi, bot: SteamID, offers: seq<Offer>)
    modifies multi
    ensures multi.commands == old(multi.commands) + SaveCommands(bot, offers)
  {
    for i := 0 to |offers|
      invariant multi.commands == old(multi.commands) + SaveCommands(bot, offers[..i])
    {
      assert offers[..i + 1][..i] == offers[..i];
      multi.Queue(SetOffer(bot, offers[i]));
      multi.Queue(SetRelation(offers[i].partner, offers[i].id, bot));
    }
    assert offers[..|offers|] == offers;
  }

  method DeleteOffers(multi: Multi, bot: SteamID, offers: seq<Offer>)
    modifies multi
    ensures multi.commands == old(multi.commands) + DeleteCommands(bot, offers, |offers|)
  {
    for i := 0 to |offers|
      invariant multi.commands == old(multi.commands) + DeleteCommands(bot, offers, i)
    {
      var offer := offers[i];
      multi.Queue(DelRelations(offer.partner, IdsOf(offers)));
      multi.Queue(DelOffer(bot, offer.id));
      multi.Queue(DelRelations(offer.partner, {offer.id}));
    }
  }

  /** An event about an offer; `active` when its state is Active or CreatedNeedsConfirmation. */
  method HandleOffers(redis: Redis, bot: SteamID, offer: Offer, active: bool)
    modifies redis
    ensures redis.tables == if active then Saved(old(redis.tables), bot, [offer])
                            else Deleted(old(redis.tables), bot, offer.partner, {offer.id})
  {
    var multi := new Multi();
    var offers := [offer];
    SaveCommandsSave(redis.tables, bot, offers);
    DeletesAll(redis.tables, bot, offer.partner, offers);
    assert IdsOf(offers) == {offer.id};
    if active {
      SaveOffers(multi, bot, offers);
      assert multi.commands == SaveCommands(bot, offers);
    } else {
      DeleteOffers(multi, bot, offers);
      assert multi.commands == DeleteCommands(bot, offers, |offers|);
    }
    redis.Exec(multi);
  }

  // ----- polls

  /** The offers that are no longer polled, by partner. */
  ghost predicate Groups(existing: map<OfferId, Offer>, seen: set<OfferId>, polled: set<OfferId>,
                         missing: map<SteamID, seq<Offer>>) {
    && (forall p, o :: p in missing && o in missing[p] ==>
          o.partner == p && o.id in seen && o.id in existing && o.id !in polled && existing[o.id] == o)
    && (forall p :: p in missing ==> missing[p] != [])
    && (forall id :: id in seen && id in existing && id !in polled ==>
          existing[id].partner in missing && existing[id] in missing[existing[id].partner])
  }

  /** So a partner has a group exactly if it has offers that are no longer polled, and the group
      holds exactly those. */
  lemma GroupsExactly(existing: map<OfferId, Offer>, polled: set<OfferId>, missing: map<SteamID, seq<Offer>>,
                      p: SteamID)
    requires (forall id :: id in existing ==> existing[id].id == id) && Groups(existing, existing.Keys, polled, missing)
    ensures p in missing <==> exists id :: id in existing && existing[id].partner == p && id !in polled
    ensures p in missing ==> forall o ::
              o in missing[p] <==> o.id in existing && existing[o.id] == o && o.partner == p && o.id !in polled
  {
    if p in missing {
      var o := missing[p][0];
      assert o in missing[p] && o.id in existing && existing[o.id].partner == p;
      forall o: Offer | o.id in existing && existing[o.id] == o && o.partner == p && o.id !in polled
        ensures o in missing[p]
      {
        assert existing[o.id] in missing[existing[o.id].partner];
      }
    }
  }

  method GroupMissing(existing: map<OfferId, Offer>, newIds: set<OfferId>) returns (missing: map<SteamID, seq<Offer>>)
    requires forall id :: id in existing ==> existing[id].id == id
    ensures Groups(existing, existing.Keys, newIds, missing)
  {
    missing := map[];
    var rest := existing.Keys;
    while rest != {}
      invariant rest <= existing.Keys
      invariant Groups(existing, existing.Keys - rest, newIds, missing)
    {
      var id :| id in rest;
      if id !in newIds {
        var offer := existing[id];
        var others := if offer.partner in missing then missing[offer.partner] else [];
        missing := missing[offer.partner := others + [offer]];
      }
      rest := rest - {id};
    }
  }

  ghost function RelationsOf(missing: map<SteamID, seq<Offer>>, partners: set<SteamID>): set<Key> {
    set p, o | p in partners && p in missing && o in missing[p] :: Key(p, o.id)
  }

  lemma GroupsCover(existing: map<OfferId, Offer>, polled: set<OfferId>, missing: map<SteamID, seq<Offer>>)
    requires forall id :: id in existing ==> existing[id].id == id
    requires Groups(existing, existing.Keys, polled, missing)
    ensures RelationsOf(missing, missing.Keys) == MissingRelations(existing, polled)
  {
  }

  lemma RelationsOneMore(missing: map<SteamID, seq<Offer>>, partners: set<SteamID>, p: SteamID)
    requires p in missing
    ensures RelationsOf(missing, partners + {p}) == RelationsOf(missing, partners) + Keys(p, IdsOf(missing[p]))
  {
  }

  /** What the deletes of some groups amount to. */
  ghost predicate GroupsDeleted(t: Tables, u: Tables, bot: SteamID, relations: set<Key>) {
    NotOf(u.bots, bot) == NotOf(t.bots, bot) && u.partners == t.partners - relations
  }

  lemma DeletesOneMore(t: Tables, cs: seq<Command>, bot: SteamID, missing: map<SteamID, seq<Offer>>,
                       done: set<SteamID>, p: SteamID)
    requires p in missing && missing[p] != [] && forall i :: 0 <= i < |missing[p]| ==> missing[p][i].partner == p
    requires GroupsDeleted(t, Exec(t, cs), bot, RelationsOf(missing, done))
    ensures GroupsDeleted(t, Exec(t, cs + DeleteCommands(bot, missing[p], |missing[p]|)), bot,
        RelationsOf(missing, done + {p}))
  {
    ExecConcat(t, cs, DeleteCommands(bot, missing[p], |missing[p]|));
    DeletesAll(Exec(t, cs), bot, p, missing[p]);
    RelationsOneMore(missing, done, p);
    hide RelationsOf, IdsOf, Exec;
  }

  method DeleteGroups(multi: Multi, bot: SteamID, missing: map<SteamID, seq<Offer>>, ghost t: Tables)
    requires forall p :: p in missing ==> missing[p] != []
    requires forall p, i :: p in missing && 0 <= i < |missing[p]| ==> missing[p][i].partner == p
    requires multi.commands == []
    modifies multi
    ensures GroupsDeleted(t, Exec(t, multi.commands), bot, RelationsOf(missing, missing.Keys))
  {
    var rest := missing.Keys;
    assert RelationsOf(missing, missing.Keys - rest) == {};
    hide RelationsOf;
    while rest != {}
      invariant rest <= missing.Keys
      invariant GroupsDeleted(t, Exec(t, multi.commands), bot, RelationsOf(missing, missing.Keys - rest))
    {
      hide Exec, GroupsDeleted;
      var p :| p in rest;
      DeletesOneMore(t, multi.commands, bot, missing, missing.Keys - rest, p);
      DeleteOffers(multi, bot, missing[p]);
      assert missing.Keys - rest + {p} == missing.Keys - (rest - {p});
      rest := rest - {p};
    }
    assert missing.Keys - rest == missing.Keys;
  }

  lemma ReplacesAll(t: Tables, cs: seq<Command>, bot: SteamID, existing: map<OfferId, Offer>, offers: seq<Offer>)
    requires GroupsDeleted(t, Exec(t, cs), bot, MissingRelations(existing, IdsOf(offers)))
    ensures Exec(t, cs + [DelBot(bot)] + SaveCommands(bot, offers)) == Replaced(t, bot, existing, offers)
  {
    ExecConcat(t, cs + [DelBot(bot)], SaveCommands(bot, offers));
    assert (cs + [DelBot(bot)])[..|cs|] == cs;
    SaveCommandsSave(Exec(t, cs + [DelBot(bot)]), bot, offers);
    hide MissingRelations, IdsOf, OfferEntries, RelationEntries;
  }

  method ReadTable(redis: Redis, bot: SteamID) returns (existing: map<OfferId, Offer>)
    ensures existing == TableOf(redis.tables.bots, bot)
  {
    existing := TableOf(redis.tables.bots, bot);
  }

  /** `savePolledOffers` after its read: whatever the tables have become since, the bot's is replaced. */
  method SavePolledOffers(redis: Redis, bot: SteamID, existing: map<OfferId, Offer>, offers: seq<Offer>)
    requires forall id :: id in existing ==> existing[id].id == id
    modifies redis
    ensures redis.tables == Replaced(old(redis.tables), bot, existing, offers)
  {
    ghost var t := redis.tables;
    var newIds := {};
    for i := 0 to |offers|
      invariant newIds == IdsOf(offers[..i])
    {
      assert offers[..i + 1] == offers[..i] + [offers[i]];
      newIds := newIds + {offers[i].id};
    }
    assert offers[..|offers|] == offers;
    var missing := GroupMissing(existing, newIds);
    GroupsCover(existing, newIds, missing);
    var multi := new Multi();
    DeleteGroups(multi, bot, missing, t);
    hide Groups, IdsOf, MissingRelations, RelationsOf, Exec, GroupsDeleted, Replaced, SaveCommands;
    ReplacesAll(t, multi.commands, bot, existing, offers);
    multi.Queue(DelBot(bot));
    SaveOffers(multi, bot, offers);
    redis.Exec(multi);
  }

  // ----- the partner query

  /** `hgetall` of a partner's key. */
  function RelationsWith(partners: map<Key, SteamID>, partner: SteamID): map<OfferId, SteamID> {
    map k | k in partners && k.steamid == partner :: k.id := partners[k]
  }

  ghost function Found(relations: map<OfferId, SteamID>, bots: map<Key, Offer>, ids: set<OfferId>): set<Owned> {
    set id | id in ids && id in relations && Key(relations[id], id) in bots ::
      Owned(relations[id], bots[Key(relations[id], id)])
  }

  lemma FoundOneMore(relations: map<OfferId, SteamID>, bots: map<Key, Offer>, ids: set<OfferId>, id: OfferId)
    requires id in relations
    ensures var k := Key(relations[id], id);
      Found(relations, bots, ids + {id}) ==
      Found(relations, bots, ids) + (if k in bots then {Owned(relations[id], bots[k])} else {})
  {
  }

  /** The offer ids of the relations, by bot. */
  ghost predicate ByBot(relations: map<OfferId, SteamID>, seen: set<OfferId>, groups: map<SteamID, seq<OfferId>>) {
    && (forall b, id :: b in groups && id in groups[b] ==> id in seen && id in relations && relations[id] == b)
    && (forall id :: id in seen && id in relations ==> relations[id] in groups && id in groups[relations[id]])
    && (forall b :: b in groups ==> forall i, j :: 0 <= i < j < |groups[b]| ==> groups[b][i] != groups[b][j])
  }

  lemma ByBotOneMore(relations: map<OfferId, SteamID>, seen: set<OfferId>, groups: map<SteamID, seq<OfferId>>,
                     id: OfferId)
    requires id in relations && id !in seen && ByBot(relations, seen, groups)
    ensures var b := relations[id];
      ByBot(relations, seen + {id}, groups[b := (if b in groups then groups[b] else []) + [id]])
  {
  }

  method GroupRelations(relations: map<OfferId, SteamID>) returns (steamid64ToIds: map<SteamID, seq<OfferId>>)
    ensures ByBot(relations, relations.Keys, steamid64ToIds)
  {
    steamid64ToIds := map[];
    var rest := relations.Keys;
    while rest != {}
      invariant rest <= relations.Keys
      invariant ByBot(relations, relations.Keys - rest, steamid64ToIds)
    {
      hide ByBot;
      var id :| id in rest;
      var b := relations[id];
      ByBotOneMore(relations, relations.Keys - rest, steamid64ToIds, id);
      steamid64ToIds := steamid64ToIds[b := (if b in steamid64ToIds then steamid64ToIds[b] else []) + [id]];
      assert relations.Keys - rest + {id} == relations.Keys - (rest - {id});
      rest := rest - {id};
    }
    assert relations.Keys - rest == relations.Keys;
  }

  ghost function IdSet(ids: seq<OfferId>, n: nat): set<OfferId>
    requires n <= |ids|
  {
    set j | 0 <= j < n :: ids[j]
  }

  lemma IdSetOneMore(ids: seq<OfferId>, n: nat)
    requires n < |ids|
    ensures IdSet(ids, n + 1) == IdSet(ids, n) + {ids[n]}
  {
  }

  ghost function OfBots(relations: map<OfferId, SteamID>, bots: set<SteamID>): set<OfferId> {
    set id | id in relations && relations[id] in bots
  }

  lemma OnceMore(offers: seq<Owned>, o: Owned)
    requires Distinct(offers) && o !in set x | x in offers
    ensures Distinct(offers + [o])
  {
  }

  lemma FoundHasIds(relations: map<OfferId, SteamID>, bots: map<Key, Offer>, ids: set<OfferId>)
    requires forall k :: k in bots ==> bots[k].id == k.id
    ensures forall o :: o in Found(relations, bots, ids) ==> o.offer.id in ids
  {
  }

  /** The `hmget` of one bot's table, skipping what is not there. */
  method Follow(relations: map<OfferId, SteamID>, bots: map<Key, Offer>, b: SteamID, ids: seq<OfferId>,
                ghost done: set<OfferId>, offers: seq<Owned>)
    returns (offers': seq<Owned>)
    requires forall k :: k in bots ==> bots[k].id == k.id
    requires forall id :: id in ids ==> id in relations && relations[id] == b && id !in done
    requires forall i, j :: 0 <= i < j < |ids| ==> ids[i] != ids[j]
    requires (set o | o in offers) == Found(relations, bots, done) && Distinct(offers)
    ensures (set o | o in offers') == Found(relations, bots, done + IdSet(ids, |ids|)) && Distinct(offers')
  {
    offers' := offers;
    assert done + IdSet(ids, 0) == done;
    for j := 0 to |ids|
      invariant (set o | o in offers') == Found(relations, bots, done + IdSet(ids, j)) && Distinct(offers')
    {
      assert ids[j] in ids;
      assert ids[j] !in done + IdSet(ids, j);
      FoundHasIds(relations, bots, done + IdSet(ids, j));
      FoundOneMore(relations, bots, done + IdSet(ids, j), ids[j]);
      IdSetOneMore(ids, j);
      assert done + IdSet(ids, j) + {ids[j]} == done + IdSet(ids, j + 1);
      hide Found, IdSet;
      var k := Key(b, ids[j]);
      if k in bots {
        ghost var before := set o | o in offers';
        assert Owned(b, bots[k]) !in before;
        OnceMore(offers', Owned(b, bots[k]));
        offers' := offers' + [Owned(b, bots[k])];
        assert (set o | o in offers') == before + {Owned(b, bots[k])};
      }
    }
  }

  /** Each offer found is returned once. */
  method GetPendingPartnerOffers(partners: map<Key, SteamID>, bots: map<Key, Offer>,
                                 partner: SteamID) returns (offers: seq<Owned>)
    requires forall k :: k in bots ==> bots[k].id == k.id
    ensures (set o | o in offers) == PartnerQuery(partners, bots, partner) && Distinct(offers)
  {
    var relations := RelationsWith(partners, partner);
    var groups := GroupRelations(relations);
    offers := [];
    var rest := groups.Keys;
    assert OfBots(relations, groups.Keys - rest) == {};
    while rest != {}
      invariant rest <= groups.Keys
      invariant (set o | o in offers) == Found(relations, bots, OfBots(relations, groups.Keys - rest))
      invariant Distinct(offers)
    {
      hide Found, Distinct;
      var b :| b in rest;
      assert OfBots(relations, groups.Keys - rest) + IdSet(groups[b], |groups[b]|) ==
          OfBots(relations, groups.Keys - (rest - {b}));
      offers := Follow(relations, bots, b, groups[b], OfBots(relations, groups.Keys - rest), offers);
      rest := rest - {b};
    }
    assert OfBots(relations, groups.Keys - rest) == relations.Keys;
    FollowsAll(partners, bots, partner);
  }

  lemma FollowsAll(partners: map<Key, SteamID>, bots: map<Key, Offer>, partner: SteamID)
    ensures var relations := RelationsWith(partners, partner);
      Found(relations, bots, relations.Keys) == PartnerQuery(partners, bots, partner)
  {
    var relations := RelationsWith(partners, partner);
    forall x | x in PartnerQuery(partners, bots, partner) ensures x in Found(relations, bots, relations.Keys) {
      var k :| k in partners && k.steamid == partner && Key(partners[k], k.id) in bots
        && x == Owned(partners[k], bots[Key(partners[k], k.id)]);
      assert k == Key(partner, k.id);
      assert relations[k.id] == partners[k];
    }
    forall x | x in Found(relations, bots, relations.Keys) ensures x in PartnerQuery(partners, bots, partner) {
      var id :| id in relations && Key(relations[id], id) in bots
                && x == Owned(relations[id], bots[Key(relations[id], id)]);
      assert Key(partner, id) in partners;
    }
  }

  // ----- pending assets

  datatype AssetKey = AssetKey(steamid: SteamID, appid: int, contextid: string, assetid: string)

  type Assets = map<AssetKey, int>

  function Count(m: Assets, key: AssetKey): int {
    if key in m then m[key] else 0
  }

  /** A key that is not in a record counts as nothing. */
  lemma CountIs(m: Assets, key: AssetKey, other: AssetKey, n: int)
    ensures Count(map[], key) == 0
    ensures Count(m[other := n], key) == if key == other then n else Count(m, key)
    ensures Count(m - {other}, key) == if key == other then 0 else Count(m, key)
  {
  }

  function KeyOf(item: Item, steamid: SteamID): AssetKey {
    AssetKey(steamid, item.appid, item.contextid, item.assetid)
  }

  function AmountOf(item: Item): int {
    if item.amount.Some? then item.amount.value else 1
  }

  /** How much of an asset is among items of one owner. */
  function Total(items: seq<Item>, steamid: SteamID, key: AssetKey): int {
    if items == [] then 0
    else
      var last := items[|items| - 1];
      Total(items[..|items| - 1], steamid, key) + (if KeyOf(last, steamid) == key then AmountOf(last) else 0)
  }

  method AddItems(added: Assets, items: seq<Item>, steamid: SteamID) returns (added': Assets)
    ensures forall key :: Count(added', key) == Count(added, key) + Total(items, steamid, key)
  {
    added' := added;
    for j := 0 to |items|
      invariant forall key :: Count(added', key) == Count(added, key) + Total(items[..j], steamid, key)
    {
      assert items[..j + 1][..j] == items[..j];
      var key := KeyOf(items[j], steamid);
      added' := added'[key := Count(added', key) + AmountOf(items[j])];
    }
    assert items[..|items|] == items;
  }

  /** What an offer brings the partner or the owner. */
  function Gain(o: Owned, steamid: SteamID, key: AssetKey): int {
    if o.offer.partner == steamid then Total(o.offer.give, o.owner, key)
    else Total(o.offer.receive, o.offer.partner, key)
  }

  function Loss(o: Owned, steamid: SteamID, key: AssetKey): int {
    if o.offer.partner == steamid then Total(o.offer.receive, o.offer.partner, key)
    else Total(o.offer.give, o.owner, key)
  }

  function Gains(offers: seq<Owned>, steamid: SteamID, key: AssetKey): int {
    if offers == [] then 0
    else
      var o := offers[|offers| - 1];
      Gains(offers[..|offers| - 1], steamid, key) + Gain(o, steamid, key)
  }

  function Losses(offers: seq<Owned>, steamid: SteamID, key: AssetKey): int {
    if offers == [] then 0
    else
      var o := offers[|offers| - 1];
      Losses(offers[..|offers| - 1], steamid, key) + Loss(o, steamid, key)
  }

  method AddOffer(gain: Assets, lose: Assets, o: Owned, steamid: SteamID) returns (gain': Assets, lose': Assets)
    ensures forall key :: Count(gain', key) == Count(gain, key) + Gain(o, steamid, key)
    ensures forall key :: Count(lose', key) == Count(lose, key) + Loss(o, steamid, key)
  {
    gain', lose' := gain, lose;
    if o.offer.partner != steamid {
      lose' := AddItems(lose', o.offer.give, o.owner);
      gain' := AddItems(gain', o.offer.receive, o.offer.partner);
    } else {
      gain' := AddItems(gain', o.offer.give, o.owner);
      lose' := AddItems(lose', o.offer.receive, o.offer.partner);
    }
  }

  method GetPendingAssets(offers: seq<Owned>, steamid: SteamID) returns (gain: Assets, lose: Assets)
    ensures forall key :: Count(gain, key) == Gains(offers, steamid, key)
    ensures forall key :: Count(lose, key) == Losses(offers, steamid, key)
    ensures (forall i :: 0 <= i < |offers| ==> offers[i].owner == steamid && offers[i].offer.partner != steamid) ==>
              forall key :: Count(lose, key) == Given(offers, key) && Count(gain, key) == Received(offers, key)
    ensures (forall i :: 0 <= i < |offers| ==> offers[i].offer.partner == steamid) ==>
              forall key :: Count(gain, key) == Given(offers, key) && Count(lose, key) == Received(offers, key)
  {
    gain, lose := map[], map[];
    for i := 0 to |offers|
      invariant forall key :: Count(gain, key) == Gains(offers[..i], steamid, key)
      invariant forall key :: Count(lose, key) == Losses(offers[..i], steamid, key)
    {
      assert offers[..i + 1][..i] == offers[..i];
      gain, lose := AddOffer(gain, lose, offers[i], steamid);
    }
    assert offers[..|offers|] == offers;
    forall key
      ensures (forall i :: 0 <= i < |offers| ==> offers[i].owner == steamid && offers[i].offer.partner != steamid) ==>
                && Losses(offers, steamid, key) == Given(offers, key)
                && Gains(offers, steamid, key) == Received(offers, key)
      ensures (forall i :: 0 <= i < |offers| ==> offers[i].offer.partner == steamid) ==>
                && Gains(offers, steamid, key) == Given(offers, key)
                && Losses(offers, steamid, key) == Received(offers, key)
    {
      if forall i :: 0 <= i < |offers| ==> offers[i].owner == steamid && offers[i].offer.partner != steamid {
        OwnerLosesWhatIsGiven(offers, steamid, key);
      }
      if forall i :: 0 <= i < |offers| ==> offers[i].offer.partner == steamid {
        PartnerGainsWhatIsGiven(offers, steamid, key);
      }
    }
  }

  // ----- on the items

  /** The items of all offers that go to the partner, under their owners, and the ones that come
      from it: each item with who has it. */
  ghost function Given(offers: seq<Owned>, key: AssetKey): int {
    if offers == [] then 0
    else
      var o := offers[|offers| - 1];
      Given(offers[..|offers| - 1], key) + Total(o.offer.give, o.owner, key)
  }

  ghost function Received(offers: seq<Owned>, key: AssetKey): int {
    if offers == [] then 0
    else
      var o := offers[|offers| - 1];
      Received(offers[..|offers| - 1], key) + Total(o.offer.receive, o.offer.partner, key)
  }

  /** Asked by the owner of all the offers, it loses what is given and gains what is received. */
  lemma {:induction false} OwnerLosesWhatIsGiven(offers: seq<Owned>, steamid: SteamID, key: AssetKey)
    requires forall i :: 0 <= i < |offers| ==> offers[i].owner == steamid && offers[i].offer.partner != steamid
    ensures Losses(offers, steamid, key) == Given(offers, key)
    ensures Gains(offers, steamid, key) == Received(offers, key)
  {
    if offers != [] {
      OwnerLosesWhatIsGiven(offers[..|offers| - 1], steamid, key);
    }
  }

  /** Asked by their partner, it is the other way around. */
  lemma {:induction false} PartnerGainsWhatIsGiven(offers: seq<Owned>, steamid: SteamID, key: AssetKey)
    requires forall i :: 0 <= i < |offers| ==> offers[i].offer.partner == steamid
    ensures Gains(offers, steamid, key) == Given(offers, key)
    ensures Losses(offers, steamid, key) == Received(offers, key)
  {
    if offers != [] {
      PartnerGainsWhatIsGiven(offers[..|offers| - 1], steamid, key);
    }
  }

  /** The positions of an asset among the items that `steamid` has. */
  ghost function At(items: seq<Item>, steamid: SteamID, key: AssetKey): set<nat> {
    set i: nat | i < |items| && key.steamid == steamid && items[i].appid == key.appid
                 && items[i].contextid == key.contextid && items[i].assetid == key.assetid
  }

  /** An item without amount counts as one: of such items the total is how many there are. */
  lemma {:induction false} TotalCountsItems(items: seq<Item>, steamid: SteamID, key: AssetKey)
    requires forall i :: 0 <= i < |items| ==> items[i].amount == None || items[i].amount == Some(1)
    ensures Total(items, steamid, key) == |At(items, steamid, key)|
  {
    if items != [] {
      var n := |items| - 1;
      TotalCountsItems(items[..n], steamid, key);
      assert At(items, steamid, key) == At(items[..n], steamid, key) + if n in At(items, steamid, key) then {n} else {};
    }
  }

  /** And any amount counts as it is, wherever the item stands. */
  lemma {:induction false} TotalAddsAmounts(items: seq<Item>, i: nat, amount: int, steamid: SteamID, key: AssetKey)
    requires i < |items| && items[i].amount == Some(amount)
    ensures Total(items, steamid, key) - Total(items[i := items[i].(amount := None)], steamid, key)
         == if i in At(items, steamid, key) then amount - 1 else 0
  {
    var n := |items| - 1;
    var single := items[i := items[i].(amount := None)];
    if i < n {
      TotalAddsAmounts(items[..n], i, amount, steamid, key);
      assert single[..n] == items[..n][i := items[i].(amount := None)];
    } else {
      assert single[..n] == items[..n];
    }
  }

  /** What a partner stands to gain is what the bots on the other side stand to lose, and the other way around. */
  lemma {:induction false} GainsMirrorLosses(offers: seq<Owned>, partner: SteamID, bot: SteamID, key: AssetKey)
    requires partner != bot && forall i :: 0 <= i < |offers| ==> offers[i].offer.partner == partner
    ensures Gains(offers, partner, key) == Losses(offers, bot, key)
    ensures Losses(offers, partner, key) == Gains(offers, bot, key)
  {
    if offers != [] {
      GainsMirrorLosses(offers[..|offers| - 1], partner, bot, key);
    }
  }
}
