/** The pending offers of bots: a table of active offers per bot, and per partner a table
    that tells which bot an offer belongs to.  Trade events write both tables in one
    transaction; a poll reads the table of its bot and later replaces it in another, so
    any number of events and other polls can come in between, whether or not the poll
    still holds its lock.  Tables are kept as one map, keyed by owner and offer id. */
module PendingOffers {
  import opened Wrappers

  datatype SteamID = SteamID(id64: int)
  datatype OfferId = OfferId(number: int)
  datatype Key = Key(steamid: SteamID, id: OfferId)

  datatype Item = Item(appid: int, contextid: string, assetid: string, amount: Option<int>)

  datatype Offer = Offer(id: OfferId, partner: SteamID, give: seq<Item>, receive: seq<Item>)

  datatype Parties = Parties(one: SteamID, other: SteamID)

  /** Steam fixes the parties of an offer by its id. */
  type Registry = OfferId -> Parties

  predicate Between(parties: Parties, a: SteamID, b: SteamID) {
    a != b && (parties == Parties(a, b) || parties == Parties(b, a))
  }

  // ----- transactions

  datatype Command =
    | SetOffer(bot: SteamID, offer: Offer)
    | SetRelation(partner: SteamID, id: OfferId, bot: SteamID)
    | DelOffer(bot: SteamID, id: OfferId)
    | DelRelations(partner: SteamID, ids: set<OfferId>)
    | DelBot(bot: SteamID)

  datatype Tables = Tables(bots: map<Key, Offer>, partners: map<Key, SteamID>)

  function Keys(steamid: SteamID, ids: set<OfferId>): set<Key> {
    set id | id in ids :: Key(steamid, id)
  }

  function NotOf(bots: map<Key, Offer>, bot: SteamID): map<Key, Offer> {
    map k | k in bots && k.steamid != bot :: bots[k]
  }

  function Apply(t: Tables, c: Command): Tables {
    match c
    case SetOffer(bot, offer) => Tables(t.bots[Key(bot, offer.id) := offer], t.partners)
    case SetRelation(partner, id, bot) => Tables(t.bots, t.partners[Key(partner, id) := bot])
    case DelOffer(bot, id) => Tables(t.bots - {Key(bot, id)}, t.partners)
    case DelRelations(partner, ids) => Tables(t.bots, t.partners - Keys(partner, ids))
    case DelBot(bot) => Tables(NotOf(t.bots, bot), t.partners)
  }

  function Exec(t: Tables, cs: seq<Command>): Tables {
    if cs == [] then t else Apply(Exec(t, cs[..|cs| - 1]), cs[|cs| - 1])
  }

  // ----- what transactions amount to

  function OfferEntries(bot: SteamID, offers: seq<Offer>): map<Key, Offer> {
    if offers == [] then map[]
    else
      var last := offers[|offers| - 1];
      OfferEntries(bot, offers[..|offers| - 1])[Key(bot, last.id) := last]
  }

  function RelationEntries(bot: SteamID, offers: seq<Offer>): map<Key, SteamID> {
    if offers == [] then map[]
    else
      var last := offers[|offers| - 1];
      RelationEntries(bot, offers[..|offers| - 1])[Key(last.partner, last.id) := bot]
  }

  function IdsOf(offers: seq<Offer>): set<OfferId> {
    set o | o in offers :: o.id
  }

  function Saved(t: Tables, bot: SteamID, offers: seq<Offer>): Tables {
    Tables(t.bots + OfferEntries(bot, offers), t.partners + RelationEntries(bot, offers))
  }

  function Deleted(t: Tables, bot: SteamID, partner: SteamID, ids: set<OfferId>): Tables {
    Tables(t.bots - Keys(bot, ids), t.partners - Keys(partner, ids))
  }

  /** Relations of offers that were in the table when it was read and are not polled. */
  function MissingRelations(existing: map<OfferId, Offer>, polled: set<OfferId>): set<Key> {
    set id | id in existing && id !in polled :: Key(existing[id].partner, id)
  }

  function Replaced(t: Tables, bot: SteamID, existing: map<OfferId, Offer>, offers: seq<Offer>): Tables {
    Saved(Tables(NotOf(t.bots, bot), t.partners - MissingRelations(existing, IdsOf(offers))), bot, offers)
  }

  function TableOf(bots: map<Key, Offer>, bot: SteamID): map<OfferId, Offer> {
    map k | k in bots && k.steamid == bot :: k.id := bots[k]
  }

  // ----- the state machine

  datatype Poll = Poll(bot: SteamID, existing: map<OfferId, Offer>)

  datatype State = State(tables: Tables, polls: map<nat, Poll>)

  datatype Event =
    | OfferEvent(bot: SteamID, offer: Offer, active: bool)
    | PollReads(n: nat, bot: SteamID)
    | PollWrites(n: nat, offers: seq<Offer>)
    | PollFails(n: nat)

  const INIT := State(Tables(map[], map[]), map[])

  predicate Enabled(registry: Registry, s: State, e: Event) {
    match e
    case OfferEvent(bot, offer, _) => Between(registry(offer.id), bot, offer.partner)
    case PollReads(n, _) => n !in s.polls
    case PollWrites(n, offers) =>
      n in s.polls && forall i :: 0 <= i < |offers| ==>
        Between(registry(offers[i].id), s.polls[n].bot, offers[i].partner)
    case PollFails(n) => n in s.polls
  }

  function Step(registry: Registry, s: State, e: Event): State
    requires Enabled(registry, s, e)
  {
    match e
    case OfferEvent(bot, offer, active) =>
      s.(tables := if active then Saved(s.tables, bot, [offer]) else Deleted(s.tables, bot, offer.partner, {offer.id}))
    case PollReads(n, bot) => s.(polls := s.polls[n := Poll(bot, TableOf(s.tables.bots, bot))])
    case PollWrites(n, offers) =>
      State(Replaced(s.tables, s.polls[n].bot, s.polls[n].existing, offers), s.polls - {n})
    case PollFails(n) => s.(polls := s.polls - {n})
  }

  ghost predicate Runs(registry: Registry, s: State, es: seq<Event>, t: State)
    decreases |es|
  {
    if es == [] then s == t
    else Enabled(registry, s, es[0]) && Runs(registry, Step(registry, s, es[0]), es[1..], t)
  }

  /** An offer may stand between two different parties whichever of them the bot is. */
  lemma BetweenEither(one: SteamID, other: SteamID, bot: SteamID, partner: SteamID)
    requires one != other
    ensures Between(Parties(one, other), bot, partner) <==>
      (bot == one && partner == other) || (bot == other && partner == one)
    ensures !Between(Parties(one, one), bot, partner)
  {
  }

  /** A poll takes the table of its bot when it reads, changes nothing until it writes, and is over
      after its write and when it fails. */
  lemma PollEnds(registry: Registry, s: State, n: nat, bot: SteamID, offers: seq<Offer>)
    requires n !in s.polls && forall i :: 0 <= i < |offers| ==> Between(registry(offers[i].id), bot, offers[i].partner)
    ensures Enabled(registry, s, PollReads(n, bot))
    ensures var t := Step(registry, s, PollReads(n, bot));
      && t.tables == s.tables && t.polls == s.polls[n := Poll(bot, TableOf(s.tables.bots, bot))]
      && Enabled(registry, t, PollFails(n)) && Step(registry, t, PollFails(n)) == s
      && Enabled(registry, t, PollWrites(n, offers)) && Step(registry, t, PollWrites(n, offers)).polls == s.polls
  {
    var t := Step(registry, s, PollReads(n, bot));
    assert t.polls - {n} == s.polls;
    hide TableOf, Replaced, Between;
  }

  /** An event of an active offer puts it with its bot and its bot with its partner, one of any other
      offer takes both out, and nothing else changes. */
  lemma OfferEventExactly(registry: Registry, s: State, bot: SteamID, offer: Offer, active: bool, k: Key)
    requires Between(registry(offer.id), bot, offer.partner)
    ensures var t := Step(registry, s, OfferEvent(bot, offer, active));
      var ofBot, ofPartner := k == Key(bot, offer.id), k == Key(offer.partner, offer.id);
      && t.polls == s.polls
      && (ofBot && active ==> k in t.tables.bots && t.tables.bots[k] == offer)
      && (ofBot && !active ==> k !in t.tables.bots)
      && (!ofBot ==> (k in t.tables.bots <==> k in s.tables.bots))
      && (!ofBot && k in t.tables.bots ==> t.tables.bots[k] == s.tables.bots[k])
      && (ofPartner && active ==> k in t.tables.partners && t.tables.partners[k] == bot)
      && (ofPartner && !active ==> k !in t.tables.partners)
      && (!ofPartner ==> (k in t.tables.partners <==> k in s.tables.partners))
      && (!ofPartner && k in t.tables.partners ==> t.tables.partners[k] == s.tables.partners[k])
  {
    assert [offer][..0] == [];
    assert OfferEntries(bot, [offer]) == map[Key(bot, offer.id) := offer];
    assert RelationEntries(bot, [offer]) == map[Key(offer.partner, offer.id) := bot];
    assert Keys(bot, {offer.id}) == {Key(bot, offer.id)};
    assert Keys(offer.partner, {offer.id}) == {Key(offer.partner, offer.id)};
  }

  lemma TableOfExactly(bots: map<Key, Offer>, bot: SteamID, id: OfferId)
    ensures id in TableOf(bots, bot) <==> Key(bot, id) in bots
    ensures Key(bot, id) in bots ==> TableOf(bots, bot)[id] == bots[Key(bot, id)]
  {
    if Key(bot, id) in bots {
      var k := Key(bot, id);
      assert k.steamid == bot && k.id == id;
    }
  }

  // ----- what always holds

  /** Every offer of a bot has its relation. */
  predicate Linked(t: Tables) {
    forall k :: k in t.bots ==>
      var relation := Key(t.bots[k].partner, k.id);
      relation in t.partners && t.partners[relation] == k.steamid
  }

  predicate OffersFit(registry: Registry, bots: map<Key, Offer>) {
    forall k :: k in bots ==> bots[k].id == k.id && Between(registry(k.id), k.steamid, bots[k].partner)
  }

  predicate RelationsFit(registry: Registry, partners: map<Key, SteamID>) {
    forall k :: k in partners ==> Between(registry(k.id), partners[k], k.steamid)
  }

  predicate PollFits(registry: Registry, poll: Poll) {
    forall id :: id in poll.existing ==>
      poll.existing[id].id == id && Between(registry(id), poll.bot, poll.existing[id].partner)
  }

  predicate TablesInv(registry: Registry, t: Tables) {
    Linked(t) && OffersFit(registry, t.bots) && RelationsFit(registry, t.partners)
  }

  predicate Inv(registry: Registry, s: State) {
    && TablesInv(registry, s.tables)
    && forall n :: n in s.polls ==> PollFits(registry, s.polls[n])
  }

  /** Offers handed to one bot. */
  predicate GivenTo(registry: Registry, bot: SteamID, offers: seq<Offer>) {
    forall i :: 0 <= i < |offers| ==> Between(registry(offers[i].id), bot, offers[i].partner)
  }

  lemma {:induction false} EntriesOf(bot: SteamID, offers: seq<Offer>)
    ensures forall k :: k in OfferEntries(bot, offers) <==> k.steamid == bot && k.id in IdsOf(offers)
    ensures forall k :: k in OfferEntries(bot, offers) ==>
              OfferEntries(bot, offers)[k] in offers && OfferEntries(bot, offers)[k].id == k.id
    ensures forall k :: k in RelationEntries(bot, offers) ==> RelationEntries(bot, offers)[k] == bot
    ensures forall k :: k in RelationEntries(bot, offers) <==>
              exists i :: 0 <= i < |offers| && k == Key(offers[i].partner, offers[i].id)
  {
    if offers != [] {
      var front, last := offers[..|offers| - 1], offers[|offers| - 1];
      EntriesOf(bot, front);
      assert offers == front + [last];
      assert IdsOf(offers) == IdsOf(front) + {last.id};
    }
  }

  /** Two bots never share a relation: its partner and offer determine the bot. */
  lemma OneBotPerRelation(parties: Parties, a: SteamID, b: SteamID, partner: SteamID)
    requires Between(parties, a, partner) && Between(parties, b, partner)
    ensures a == b
  {
  }

  lemma EntriesFit(registry: Registry, bot: SteamID, offers: seq<Offer>)
    requires GivenTo(registry, bot, offers)
    ensures OffersFit(registry, OfferEntries(bot, offers)) && RelationsFit(registry, RelationEntries(bot, offers))
    ensures Linked(Tables(OfferEntries(bot, offers), RelationEntries(bot, offers)))
  {
    EntriesOf(bot, offers);
  }

  /** Writing one group of tables over another. */
  lemma SavedKeepsInv(registry: Registry, t: Tables, bot: SteamID, offers: seq<Offer>)
    requires TablesInv(registry, t) && GivenTo(registry, bot, offers)
    ensures TablesInv(registry, Saved(t, bot, offers))
  {
    EntriesFit(registry, bot, offers);
    hide OfferEntries, RelationEntries, GivenTo;
    var u := Saved(t, bot, offers);
    assert OffersFit(registry, u.bots) && RelationsFit(registry, u.partners) by {
      hide Linked, Between;
    }
    forall k | k in u.bots
      ensures Key(u.bots[k].partner, k.id) in u.partners && u.partners[Key(u.bots[k].partner, k.id)] == k.steamid
    {
      var relation := Key(u.bots[k].partner, k.id);
      assert relation in u.partners;
      OneBotPerRelation(registry(k.id), k.steamid, u.partners[relation], relation.steamid);
    }
  }

  /** Removing offers of one bot together with their relations. */
  lemma RemovedKeepsInv(registry: Registry, t: Tables, u: Tables, bot: SteamID)
    requires TablesInv(registry, t)
    requires u.bots.Keys <= t.bots.Keys && u.partners.Keys <= t.partners.Keys
    requires forall k :: k in u.bots ==> u.bots[k] == t.bots[k]
    requires forall k :: k in u.partners ==> u.partners[k] == t.partners[k]
    requires forall k :: k in t.partners && k !in u.partners && t.partners[k] == bot ==>
               Key(bot, k.id) !in u.bots
    requires forall k :: k in t.partners && k !in u.partners ==> t.partners[k] == bot
    ensures TablesInv(registry, u)
  {
  }

  lemma DeletedKeepsInv(registry: Registry, t: Tables, bot: SteamID, offer: Offer)
    requires TablesInv(registry, t) && Between(registry(offer.id), bot, offer.partner)
    ensures TablesInv(registry, Deleted(t, bot, offer.partner, {offer.id}))
  {
  }

  lemma ReplacedKeepsInv(registry: Registry, t: Tables, poll: Poll, offers: seq<Offer>)
    requires TablesInv(registry, t) && PollFits(registry, poll) && GivenTo(registry, poll.bot, offers)
    ensures TablesInv(registry, Replaced(t, poll.bot, poll.existing, offers))
  {
    var missing := MissingRelations(poll.existing, IdsOf(offers));
    var u := Tables(NotOf(t.bots, poll.bot), t.partners - missing);
    forall k | k in t.partners && k !in u.partners ensures t.partners[k] == poll.bot && Key(poll.bot, k.id) !in u.bots {
      assert k in missing;
      OneBotPerRelation(registry(k.id), t.partners[k], poll.bot, k.steamid);
    }
    RemovedKeepsInv(registry, t, u, poll.bot);
    SavedKeepsInv(registry, u, poll.bot, offers);
  }

  lemma StepKeepsInv(registry: Registry, s: State, e: Event)
    requires Enabled(registry, s, e) && Inv(registry, s)
    ensures Inv(registry, Step(registry, s, e))
  {
    match e
    case OfferEvent(bot, offer, active) =>
      if active {
        SavedKeepsInv(registry, s.tables, bot, [offer]);
      } else {
        DeletedKeepsInv(registry, s.tables, bot, offer);
      }
    case PollReads(n, bot) =>
      assert PollFits(registry, Poll(bot, TableOf(s.tables.bots, bot))) by {
        hide Linked, RelationsFit;
        forall id | id in TableOf(s.tables.bots, bot) ensures Key(bot, id) in s.tables.bots {}
      }
    case PollWrites(n, offers) =>
      assert PollFits(registry, s.polls[n]);
      ReplacedKeepsInv(registry, s.tables, s.polls[n], offers);
    case PollFails(n) =>
  }

  /** In every run, every offer of every bot has its relation. */
  lemma {:induction false} AlwaysLinked(registry: Registry, s: State, es: seq<Event>, t: State)
    requires Inv(registry, s) && Runs(registry, s, es, t)
    ensures Inv(registry, t) && Linked(t.tables)
    decreases |es|
  {
    if es != [] {
      StepKeepsInv(registry, s, es[0]);
      AlwaysLinked(registry, Step(registry, s, es[0]), es[1..], t);
    }
  }

  /** No other bot has an entry for the id with the same partner. */
  predicate SoleOwner(bots: map<Key, Offer>, bot: SteamID, offer: Offer) {
    forall k :: k in bots && k.id == offer.id && bots[k].partner == offer.partner ==> k.steamid == bot
  }

  /** Fixed parties are what links need: saving or deleting an offer leaves every offer linked
      exactly if no other bot has an offer of that id with that partner. */
  lemma LinksNeedSoleOwners(t: Tables, bot: SteamID, offer: Offer)
    requires Linked(t) && forall k :: k in t.bots ==> t.bots[k].id == k.id
    ensures Linked(Saved(t, bot, [offer])) <==> SoleOwner(t.bots, bot, offer)
    ensures Linked(Deleted(t, bot, offer.partner, {offer.id})) <==> SoleOwner(t.bots, bot, offer)
  {
    SavedOne(t, bot, offer);
    SaveLinks(t, bot, offer);
    DeleteLinks(t, bot, offer);
  }

  lemma SavedOne(t: Tables, bot: SteamID, offer: Offer)
    ensures Saved(t, bot, [offer]) ==
      Tables(t.bots[Key(bot, offer.id) := offer], t.partners[Key(offer.partner, offer.id) := bot])
  {
    assert [offer][..0] == [] && [offer][0] == offer;
    assert OfferEntries(bot, [offer]) == map[Key(bot, offer.id) := offer];
    assert RelationEntries(bot, [offer]) == map[Key(offer.partner, offer.id) := bot];
  }

  lemma SaveLinks(t: Tables, bot: SteamID, offer: Offer)
    requires Linked(t)
    ensures Linked(Tables(t.bots[Key(bot, offer.id) := offer], t.partners[Key(offer.partner, offer.id) := bot]))
       <==> SoleOwner(t.bots, bot, offer)
  {
    var u := Tables(t.bots[Key(bot, offer.id) := offer], t.partners[Key(offer.partner, offer.id) := bot]);
    if k :| k in t.bots && k.id == offer.id && t.bots[k].partner == offer.partner && k.steamid != bot {
      assert k in u.bots && u.bots[k] == t.bots[k] && u.partners[Key(u.bots[k].partner, k.id)] == bot;
    } else {
      forall k | k in u.bots
        ensures Key(u.bots[k].partner, k.id) in u.partners && u.partners[Key(u.bots[k].partner, k.id)] == k.steamid
      {
      }
    }
  }

  lemma DeleteLinks(t: Tables, bot: SteamID, offer: Offer)
    requires Linked(t) && forall k :: k in t.bots ==> t.bots[k].id == k.id
    ensures Linked(Deleted(t, bot, offer.partner, {offer.id})) <==> SoleOwner(t.bots, bot, offer)
  {
    var u := Deleted(t, bot, offer.partner, {offer.id});
    assert Keys(bot, {offer.id}) == {Key(bot, offer.id)};
    assert Keys(offer.partner, {offer.id}) == {Key(offer.partner, offer.id)};
    if k :| k in t.bots && k.id == offer.id && t.bots[k].partner == offer.partner && k.steamid != bot {
      assert k in u.bots && Key(u.bots[k].partner, k.id) !in u.partners;
    } else {
      forall k | k in u.bots
        ensures Key(u.bots[k].partner, k.id) in u.partners && u.partners[Key(u.bots[k].partner, k.id)] == k.steamid
      {
      }
    }
  }

  // ----- the partner query

  datatype Owned = Owned(owner: SteamID, offer: Offer)

  /** What following the relations of a partner into the bot tables gives; dangling ones give nothing. */
  function PartnerQuery(partners: map<Key, SteamID>, bots: map<Key, Offer>, partner: SteamID): set<Owned> {
    set k | k in partners && k.steamid == partner && Key(partners[k], k.id) in bots ::
      Owned(partners[k], bots[Key(partners[k], k.id)])
  }

  /** All offers with the partner in all bot tables. */
  function FullScan(bots: map<Key, Offer>, partner: SteamID): set<Owned> {
    set k | k in bots && bots[k].partner == partner :: Owned(k.steamid, bots[k])
  }

  /** On one state the query returns exactly what a full scan would. */
  lemma QueryIsFullScan(registry: Registry, t: Tables, partner: SteamID)
    requires TablesInv(registry, t)
    ensures PartnerQuery(t.partners, t.bots, partner) == FullScan(t.bots, partner)
  {
    QueryWithOldRelations(registry, t, t.bots, partner);
    forall owned | owned in FullScan(t.bots, partner) ensures owned in PartnerQuery(t.partners, t.bots, partner) {
      var k :| k in t.bots && t.bots[k].partner == partner && owned == Owned(k.steamid, t.bots[k]);
      assert Key(partner, k.id) in t.partners;
    }
  }

  /** So it finds over every run from the start, whatever dangles. */
  lemma QueryAlwaysFindsAll(registry: Registry, es: seq<Event>, t: State, partner: SteamID)
    requires Runs(registry, INIT, es, t)
    ensures PartnerQuery(t.tables.partners, t.tables.bots, partner) == FullScan(t.tables.bots, partner)
  {
    AlwaysLinked(registry, INIT, es, t);
    QueryIsFullScan(registry, t.tables, partner);
  }

  /** The relations are read first, each bot table later (`bots` holds each as it was read):
      only offers a scan of these tables finds are returned, and all of those that were
      there already when the relations were read. */
  lemma QueryWithOldRelations(registry: Registry, then_: Tables, bots: map<Key, Offer>, partner: SteamID)
    requires TablesInv(registry, then_) && OffersFit(registry, bots)
    ensures PartnerQuery(then_.partners, bots, partner) <= FullScan(bots, partner)
    ensures forall k :: k in bots && k in then_.bots && bots[k].partner == partner ==>
              Owned(k.steamid, bots[k]) in PartnerQuery(then_.partners, bots, partner)
  {
    forall owned | owned in PartnerQuery(then_.partners, bots, partner) ensures owned in FullScan(bots, partner) {
      var k :| k in then_.partners && k.steamid == partner && Key(then_.partners[k], k.id) in bots
        && owned == Owned(then_.partners[k], bots[Key(then_.partners[k], k.id)]);
      var entry := Key(then_.partners[k], k.id);
      assert Between(registry(k.id), entry.steamid, bots[entry].partner);
      assert Between(registry(k.id), entry.steamid, partner);
    }
    forall k | k in bots && k in then_.bots && bots[k].partner == partner
      ensures Owned(k.steamid, bots[k]) in PartnerQuery(then_.partners, bots, partner)
    {
      assert Between(registry(k.id), k.steamid, then_.bots[k].partner);
      assert then_.bots[k].partner == partner;
      assert Key(partner, k.id) in then_.partners;
    }
  }

  // ----- a poll that meets an event

  /** Of the relations of its bot a poll keeps exactly those of polled offers and those of
      offers that were not in the table it read, dangling ones among them. */
  lemma PollKeepsDangling(registry: Registry, t: Tables, poll: Poll, offers: seq<Offer>, k: Key)
    requires TablesInv(registry, t) && PollFits(registry, poll) && GivenTo(registry, poll.bot, offers)
    requires k in t.partners && t.partners[k] == poll.bot
    ensures k in Replaced(t, poll.bot, poll.existing, offers).partners <==>
      k.id in IdsOf(offers) || k.id !in poll.existing
  {
    EntriesOf(poll.bot, offers);
    assert Between(registry(k.id), poll.bot, k.steamid);
    if k.id in IdsOf(offers) {
      var i :| 0 <= i < |offers| && offers[i].id == k.id;
      OneBotPerRelation(registry(k.id), offers[i].partner, k.steamid, poll.bot);
      assert k == Key(offers[i].partner, offers[i].id);
    } else if k.id in poll.existing {
      OneBotPerRelation(registry(k.id), poll.existing[k.id].partner, k.steamid, poll.bot);
      assert k in MissingRelations(poll.existing, IdsOf(offers));
    }
  }

  lemma {:induction false} Extend(registry: Registry, s: State, es: seq<Event>, t: State, e: Event)
    requires Runs(registry, s, es, t) && Enabled(registry, t, e)
    ensures Runs(registry, s, es + [e], Step(registry, t, e))
    decreases |es|
  {
    if es == [] {
      assert [e][1..] == [];
    } else {
      Extend(registry, Step(registry, s, es[0]), es[1..], t, e);
      assert (es + [e])[1..] == es[1..] + [e];
    }
  }

  lemma EmptyPollForgets(bot: SteamID, offer: Offer)
    ensures var t := Replaced(Saved(INIT.tables, bot, [offer]), bot, map[], []);
      t.bots == map[] && Key(offer.partner, offer.id) in t.partners
  {
  }

  /** An offer that arrives between a poll's read and its write is lost from the bot table,
      and its relation is left dangling. */
  lemma PollLosesNewOffer(registry: Registry, bot: SteamID, offer: Offer) returns (es: seq<Event>, t: State)
    requires Between(registry(offer.id), bot, offer.partner)
    ensures es == [PollReads(0, bot)] + [OfferEvent(bot, offer, true)] + [PollWrites(0, [])]
    ensures Runs(registry, INIT, es, t)
    ensures t.tables.bots == map[] && Key(offer.partner, offer.id) in t.tables.partners
  {
    var e1, e2, e3 := PollReads(0, bot), OfferEvent(bot, offer, true), PollWrites(0, []);
    var s1 := State(INIT.tables, map[0 := Poll(bot, map[])]);
    var s2 := State(Saved(INIT.tables, bot, [offer]), s1.polls);
    t := State(Replaced(Saved(INIT.tables, bot, [offer]), bot, map[], []), map[]);
    hide *;
    LosingSteps(registry, bot, offer);
    EmptyPollForgets(bot, offer);
    RunsNone(registry, INIT);
    Extend(registry, INIT, [], INIT, e1);
    assert [] + [e1] == [e1];
    Extend(registry, INIT, [e1], s1, e2);
    Extend(registry, INIT, [e1] + [e2], s2, e3);
    es := [e1] + [e2] + [e3];
  }

  lemma RunsNone(registry: Registry, s: State)
    ensures Runs(registry, s, [], s)
  {
  }

  lemma LosingSteps(registry: Registry, bot: SteamID, offer: Offer)
    requires Between(registry(offer.id), bot, offer.partner)
    ensures var polls := map[0 := Poll(bot, map[])];
      var saved := Saved(INIT.tables, bot, [offer]);
      && Enabled(registry, INIT, PollReads(0, bot))
      && Step(registry, INIT, PollReads(0, bot)) == State(INIT.tables, polls)
      && var s1 := State(INIT.tables, polls);
      && Enabled(registry, s1, OfferEvent(bot, offer, true))
      && Step(registry, s1, OfferEvent(bot, offer, true)) == State(saved, polls)
      && var s2 := State(saved, polls);
      && Enabled(registry, s2, PollWrites(0, []))
      && Step(registry, s2, PollWrites(0, [])) == State(Replaced(saved, bot, map[], []), map[])
  {
  }
}
