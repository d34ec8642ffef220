/** What pending offers add up to on both sides: a partner finds its offers through the
    relations, the bots find theirs in their own tables. */
module PendingAssets {
  import opened Collections
  import opened PendingOffers
  import opened PendingService

  lemma {:induction false} SumsConcat(a: seq<Owned>, b: seq<Owned>, steamid: SteamID, key: AssetKey)
    ensures Gains(a + b, steamid, key) == Gains(a, steamid, key) + Gains(b, steamid, key)
    ensures Losses(a + b, steamid, key) == Losses(a, steamid, key) + Losses(b, steamid, key)
  {
    if b == [] {
      assert a + b == a;
    } else {
      assert (a + b)[..|a + b| - 1] == a + b[..|b| - 1];
      SumsConcat(a, b[..|b| - 1], steamid, key);
    }
  }

  lemma SumsOne(o: Owned, steamid: SteamID, key: AssetKey)
    ensures Gains([o], steamid, key) == Gain(o, steamid, key) && Losses([o], steamid, key) == Loss(o, steamid, key)
  {
    assert Gains([], steamid, key) == 0 && Losses([], steamid, key) == 0;
    assert [o][..0] == [];
  }

  ghost predicate Same(a: seq<Owned>, b: seq<Owned>) {
    forall o :: o in a <==> o in b
  }

  lemma NothingIn(a: seq<Owned>)
    ensures a == [] || exists o :: o in a
  {
    if a != [] { assert a[0] in a; }
  }

  /** The same offers, each once, add up to the same in any order. */
  lemma {:induction false} SumsOfSame(a: seq<Owned>, b: seq<Owned>, steamid: SteamID, key: AssetKey)
    requires Distinct(a) && Distinct(b) && Same(a, b)
    ensures Gains(a, steamid, key) == Gains(b, steamid, key) && Losses(a, steamid, key) == Losses(b, steamid, key)
    decreases |a|
  {
    if a == [] {
      assert forall o :: o !in b;
      NothingIn(b);
    } else {
      var x := a[|a| - 1];
      assert x in a;
      var i :| 0 <= i < |b| && b[i] == x;
      var rest := b[..i] + b[i + 1..];
      assert b == b[..i] + [x] + b[i + 1..];
      SameWithoutOne(a, b, i);
      SumsOfSame(a[..|a| - 1], rest, steamid, key);
      SumsConcat(b[..i], [x], steamid, key);
      SumsConcat(b[..i] + [x], b[i + 1..], steamid, key);
      SumsConcat(b[..i], b[i + 1..], steamid, key);
      SumsOne(x, steamid, key);
    }
  }

  lemma WithoutOne(b: seq<Owned>, i: nat)
    requires Distinct(b) && i < |b|
    ensures Distinct(b[..i] + b[i + 1..]) && forall o :: o in b[..i] + b[i + 1..] <==> o in b && o != b[i]
  {
    var rest := b[..i] + b[i + 1..];
    assert forall k :: 0 <= k < |rest| ==> rest[k] == if k < i then b[k] else b[k + 1];
    forall o | o in b && o != b[i] ensures o in rest {
      var k :| 0 <= k < |b| && b[k] == o;
      assert rest[if k < i then k else k - 1] == o;
    }
  }

  lemma SameWithoutOne(a: seq<Owned>, b: seq<Owned>, i: nat)
    requires Distinct(a) && Distinct(b) && Same(a, b)
    requires a != [] && i < |b| && b[i] == a[|a| - 1]
    ensures var rest := b[..i] + b[i + 1..];
      Distinct(a[..|a| - 1]) && Distinct(rest) && Same(a[..|a| - 1], rest)
  {
    var n := |a| - 1;
    WithoutOne(a, n);
    WithoutOne(b, i);
    var front, rest := a[..n], b[..i] + b[i + 1..];
    assert a[..n] + a[n + 1..] == front;
    assert forall o :: o in front <==> o in a && o != a[n];
    assert forall o :: o in rest <==> o in b && o != a[n];
    hide Distinct;
  }

  function WithPartner(offers: seq<Owned>, partner: SteamID): seq<Owned> {
    if offers == [] then []
    else
      var last := offers[|offers| - 1];
      WithPartner(offers[..|offers| - 1], partner) + (if last.offer.partner == partner then [last] else [])
  }

  lemma {:induction false} WithPartnerContents(offers: seq<Owned>, partner: SteamID)
    ensures forall o :: o in WithPartner(offers, partner) <==> o in offers && o.offer.partner == partner
    ensures Distinct(offers) ==> Distinct(WithPartner(offers, partner))
  {
    if offers != [] {
      WithPartnerContents(offers[..|offers| - 1], partner);
      assert offers == offers[..|offers| - 1] + [offers[|offers| - 1]];
    }
  }

  /** `getPendingBotOffers`: the offers of one bot, each once. */
  ghost predicate Scans(bots: map<Key, Offer>, bot: SteamID, offers: seq<Owned>) {
    Distinct(offers) && forall o :: o in offers <==>
      exists k :: k in bots && k.steamid == bot && o == Owned(bot, bots[k])
  }

  /** What the bots lose, or gain, by their offers with a partner, over their own tables. */
  function BotsLosses(bots: seq<SteamID>, scans: seq<seq<Owned>>, partner: SteamID, key: AssetKey): int
    requires |bots| == |scans|
  {
    if bots == [] then 0
    else
      var n := |bots| - 1;
      BotsLosses(bots[..n], scans[..n], partner, key) + Losses(WithPartner(scans[n], partner), bots[n], key)
  }

  function BotsGains(bots: seq<SteamID>, scans: seq<seq<Owned>>, partner: SteamID, key: AssetKey): int
    requires |bots| == |scans|
  {
    if bots == [] then 0
    else
      var n := |bots| - 1;
      BotsGains(bots[..n], scans[..n], partner, key) + Gains(WithPartner(scans[n], partner), bots[n], key)
  }

  function AllWithPartner(scans: seq<seq<Owned>>, partner: SteamID): seq<Owned> {
    if scans == [] then []
    else AllWithPartner(scans[..|scans| - 1], partner) + WithPartner(scans[|scans| - 1], partner)
  }

  ghost predicate AllScanned(t: Tables, bots: seq<SteamID>, scans: seq<seq<Owned>>) {
    && |bots| == |scans|
    && (forall i, j :: 0 <= i < j < |bots| ==> bots[i] != bots[j])
    && (forall i :: 0 <= i < |bots| ==> Scans(t.bots, bots[i], scans[i]))
  }

  lemma {:induction false} AllWithPartnerContents(t: Tables, bots: seq<SteamID>, scans: seq<seq<Owned>>,
                                                  partner: SteamID)
    requires AllScanned(t, bots, scans)
    ensures Distinct(AllWithPartner(scans, partner))
    ensures forall o :: o in AllWithPartner(scans, partner) <==>
              && o.owner in bots && o.offer.partner == partner
              && exists k :: k in t.bots && k.steamid == o.owner && t.bots[k] == o.offer
  {
    if scans != [] {
      var n := |scans| - 1;
      AllWithPartnerContents(t, bots[..n], scans[..n], partner);
      WithPartnerContents(scans[n], partner);
      assert bots == bots[..n] + [bots[n]];
      assert Scans(t.bots, bots[n], scans[n]);
      var front, last := AllWithPartner(scans[..n], partner), WithPartner(scans[n], partner);
      forall o | o in last ensures o !in front {
        assert o.owner == bots[n];
      }
      OnceEach(front, last);
    }
  }

  lemma OnceEach(a: seq<Owned>, b: seq<Owned>)
    requires Distinct(a) && Distinct(b) && forall o :: o in b ==> o !in a
    ensures Distinct(a + b)
  {
    forall i, j | 0 <= i < j < |a + b| ensures (a + b)[i] != (a + b)[j] {
      if i < |a| <= j { assert b[j - |a|] in b; }
    }
  }

  lemma {:induction false} AllSumsMirror(registry: Registry, t: Tables, bots: seq<SteamID>, scans: seq<seq<Owned>>,
                                         partner: SteamID, key: AssetKey)
    requires OffersFit(registry, t.bots) && AllScanned(t, bots, scans)
    ensures Gains(AllWithPartner(scans, partner), partner, key) == BotsLosses(bots, scans, partner, key)
    ensures Losses(AllWithPartner(scans, partner), partner, key) == BotsGains(bots, scans, partner, key)
  {
    if scans != [] {
      var n := |scans| - 1;
      var last := WithPartner(scans[n], partner);
      ScansMirror(registry, t, bots[n], scans[n], partner, key);
      assert AllScanned(t, bots[..n], scans[..n]);
      AllSumsMirror(registry, t, bots[..n], scans[..n], partner, key);
      SumsConcat(AllWithPartner(scans[..n], partner), last, partner, key);
      hide Gains, Losses, AllScanned, WithPartner;
    }
  }

  lemma ScansMirror(registry: Registry, t: Tables, bot: SteamID, scan: seq<Owned>, partner: SteamID, key: AssetKey)
    requires OffersFit(registry, t.bots) && Scans(t.bots, bot, scan)
    ensures Gains(WithPartner(scan, partner), partner, key) == Losses(WithPartner(scan, partner), bot, key)
    ensures Losses(WithPartner(scan, partner), partner, key) == Gains(WithPartner(scan, partner), bot, key)
  {
    var offers := WithPartner(scan, partner);
    WithPartnerContents(scan, partner);
    if partner == bot {
      NoOfferWithItself(registry, t, partner, scan, offers);
    } else {
      assert forall i :: 0 <= i < |offers| ==> offers[i] in offers;
      GainsMirrorLosses(offers, partner, bot, key);
    }
  }

  lemma NoOfferWithItself(registry: Registry, t: Tables, bot: SteamID, scan: seq<Owned>, offers: seq<Owned>)
    requires OffersFit(registry, t.bots) && Scans(t.bots, bot, scan)
    requires forall o :: o in offers <==> o in scan && o.offer.partner == bot
    ensures offers == []
  {
    forall o | o in scan ensures o.offer.partner != bot {
      var k :| k in t.bots && k.steamid == bot && o == Owned(bot, t.bots[k]);
      assert Between(registry(k.id), k.steamid, t.bots[k].partner);
    }
    NothingIn(offers);
  }

  /** What a partner stands to gain, by following its relations, is what all bots stand to lose
      by their own tables to that partner, asset by asset, and the other way around. */
  lemma IndexesAgreeOnAssets(registry: Registry, t: Tables, partner: SteamID, offers: seq<Owned>, bots: seq<SteamID>,
                             scans: seq<seq<Owned>>, key: AssetKey)
    requires TablesInv(registry, t) && (set o | o in offers) == PartnerQuery(t.partners, t.bots, partner)
    requires Distinct(offers)
    requires AllScanned(t, bots, scans) && forall k :: k in t.bots ==> k.steamid in bots
    ensures Gains(offers, partner, key) == BotsLosses(bots, scans, partner, key)
    ensures Losses(offers, partner, key) == BotsGains(bots, scans, partner, key)
  {
    var all := AllWithPartner(scans, partner);
    AllWithPartnerContents(t, bots, scans, partner);
    QueryIsFullScan(registry, t, partner);
    forall o ensures o in offers <==> o in all {
      assert o in offers <==> o in FullScan(t.bots, partner) by { assert o in offers <==> o in set x | x in offers; }
    }
    SumsOfSame(offers, all, partner, key);
    AllSumsMirror(registry, t, bots, scans, partner, key);
  }
}
