/** The service that keeps the current listings of one account: its Redis keys as
    fields, one method for each read or transaction, tied to the steps of ListingsRefresh. */
module CurrentListingsService {
  import opened Wrappers
  import opened ListingsRefresh

  class CurrentListingsService {
    var current: RedisHash
    var temps: map<nat, RedisHash>
    var tempKeys: Keys
    var deleted: set<Id>
    var keep: set<Id>
    // continuations: of the limiter slot, of the pages being handled, of a delete-all
    var slot: Slot
    var pages: map<nat, Page>
    var wipe: Option<Keys>
    ghost var started: Keys

    ghost function Now(): State
      reads this
    {
      State(current, temps, tempKeys, deleted, keep, slot, pages, wipe, started)
    }

    constructor ()
      ensures Now() == INIT
    {
      current, temps, tempKeys, deleted, keep := map[], map[], {}, {}, {};
      slot, pages, wipe, started := Free, map[], None, {};
    }

    method RefreshListings(time: nat)
      modifies this
      ensures Now() == Step(old(Now()), Start(time))
    {
      var hash := if time in temps then temps[time] else map[];
      temps := temps[time := hash[Placeholder := EMPTY]];
      tempKeys := tempKeys + {time};
      started := started + {time};
    }

    /** The tracked temp hashes that exist. */
    method GetTempKeys() returns (keys: Keys)
      ensures keys == TempKeys(Now())
    {
      keys := {};
      var rest := tempKeys;
      while rest != {}
        invariant rest <= tempKeys && keys == set t | t in tempKeys - rest && t in temps
        decreases rest
      {
        var key :| key in rest;
        if key in temps {
          keys := keys + {key};
        }
        rest := rest - {key};
      }
    }

    /** The transaction of `saveTempListings`, with the keys read before. */
    method SaveTempListings(keys: Keys, listings: Listings)
      modifies this`temps, this`deleted
      ensures temps == SaveIn(old(temps), keys, listings) && deleted == old(deleted) - listings.Keys
    {
      var rest := keys;
      SavingInNone(temps, listings);
      assert keys - rest == {};
      while rest != {}
        invariant rest <= keys && deleted == old(deleted)
        invariant temps == SaveIn(old(temps), keys - rest, listings)
        decreases rest
      {
        var key :| key in rest;
        SavingInOneMore(old(temps), keys - rest, key, listings);
        assert keys - (rest - {key}) == keys - rest + {key};
        hide SaveIn, HSet;
        temps := temps[key := HSet(if key in temps then temps[key] else map[], listings)];
        rest := rest - {key};
      }
      assert keys - rest == keys;
      deleted := deleted - listings.Keys;
    }

    /** The transaction of `deleteTempListings`, with the keys read before. */
    method DeleteTempListings(keys: Keys, ids: set<Id>)
      modifies this`temps, this`deleted
      ensures temps == DeleteIn(old(temps), keys, ids) && deleted == old(deleted) + ids
    {
      var rest := keys;
      DeletingInNone(temps, ids);
      assert keys - rest == {};
      while rest != {}
        invariant rest <= keys && deleted == old(deleted)
        invariant temps == DeleteIn(old(temps), keys - rest, ids)
        decreases rest
      {
        var key :| key in rest;
        DeletingInOneMore(old(temps), keys - rest, key, ids);
        assert keys - (rest - {key}) == keys - rest + {key};
        hide DeleteIn;
        if key in temps {
          var hash := temps[key] - Fields(ids);
          temps := if hash == map[] then temps - {key} else temps[key := hash];
        }
        rest := rest - {key};
      }
      assert keys - rest == keys;
      deleted := deleted + ids;
    }

    /** `handleListingsResponse`, up to its read of the deleted listings. */
    method HandleListingsResponse(p: nat, results: Listings)
      requires p !in pages
      modifies this`pages
      ensures Now() == Step(old(Now()), PageReads(p, results))
    {
      var listings := map id | id in results && id !in deleted :: results[id];
      if listings != map[] {
        pages := pages[p := Compared(listings)];
      }
    }

    method ReadTempKeysForPage(p: nat)
      requires p in pages && pages[p].Compared?
      modifies this`pages
      ensures Now() == Step(old(Now()), PageKeys(p))
    {
      var keys := GetTempKeys();
      pages := pages[p := Keyed(pages[p].listings, keys)];
    }

    method SavePage(p: nat)
      requires p in pages && pages[p].Keyed?
      modifies this
      ensures Now() == Step(old(Now()), PageSaves(p))
    {
      hide SaveIn;
      SaveTempListings(pages[p].keys, pages[p].listings);
      pages := pages - {p};
    }

    method HandleListingsFetched(time: nat)
      modifies this`current, this`tempKeys
      ensures Now() == Step(old(Now()), Done(time))
    {
      if time !in temps {
        tempKeys := tempKeys - {time};
        return;
      }
      current := temps[time];
      current := current - {Placeholder};
      tempKeys := tempKeys - {time};
    }

    /** `handleCreatedListings`, up to its read of the temp keys. */
    method HandleCreatedListings(listings: Listings)
      requires slot.Free?
      modifies this`slot
      ensures Now() == Step(old(Now()), CreateKeys(listings))
    {
      if listings == map[] {
        slot := Creating(listings);
        return;
      }
      var keys := GetTempKeys();
      slot := CreateKeyed(listings, keys);
    }

    method SaveCreatedInTemps()
      requires slot.CreateKeyed?
      modifies this
      ensures Now() == Step(old(Now()), CreateTemps)
    {
      hide SaveIn;
      SaveTempListings(slot.keys, slot.created);
      slot := Creating(slot.created);
    }

    method SaveCreated()
      requires slot.Creating?
      modifies this
      ensures Now() == Step(old(Now()), CreateCurrent)
    {
      current := HSet(current, slot.created);
      slot := Free;
    }

    /** `deleteListings`, up to the request. */
    method ReadKeepFlags(ids: set<Id>)
      requires slot.Free?
      modifies this`slot
      ensures Now() == Step(old(Now()), DeleteRequest(ids))
    {
      slot := Requesting(ids - keep, ids);
    }

    /** `deleteListings`, after the request succeeded. */
    method ReadTempKeysForDelete()
      requires slot.Requesting?
      modifies this`slot
      ensures Now() == Step(old(Now()), DeleteKeys)
    {
      if slot.remove == {} {
        slot := Deleting(slot.remove, slot.ids);
        return;
      }
      var keys := GetTempKeys();
      slot := DeleteKeyed(slot.remove, slot.ids, keys);
    }

    method DeleteInTemps()
      requires slot.DeleteKeyed?
      modifies this
      ensures Now() == Step(old(Now()), DeleteTemps)
    {
      hide DeleteIn;
      DeleteTempListings(slot.keys, slot.remove);
      slot := Deleting(slot.remove, slot.ids);
    }

    method DeleteInCurrent()
      requires slot.Deleting?
      modifies this
      ensures Now() == Step(old(Now()), DeleteCurrent)
    {
      current := current - Fields(slot.remove);
      keep := keep - slot.ids;
      slot := Free;
    }

    /** `updateListings`, after the request was answered: what is answered goes over what is there. */
    method OverwriteListings(answers: map<Id, Answer>)
      requires slot.Free?
      modifies this`slot
      ensures Now() == Step(old(Now()), UpdateReads(answers))
    {
      var overwritten: Listings := map[];
      var rest := answers.Keys;
      OverwrittenNone(current, answers);
      while rest != {}
        invariant rest <= answers.Keys && overwritten == Overwritten(current, answers - rest)
        decreases rest
      {
        hide Overwritten, Over;
        var id :| id in rest;
        OverwrittenOneMore(current, answers, rest, id);
        if Item(id) in current {
          overwritten := overwritten[id := Over(current[Item(id)], answers[id])];
        }
        rest := rest - {id};
      }
      assert answers - rest == answers;
      slot := Overwriting(overwritten);
    }

    /** The script, which writes only what still exists. */
    method UpdateExisting()
      requires slot.Overwriting?
      modifies this
      ensures Now() == Step(old(Now()), UpdateCurrent)
    {
      var updated := slot.overwritten;
      var written := map id | id in updated && Item(id) in current :: updated[id];
      current := HSet(current, written);
      slot := Updating(written);
    }

    method ReadTempKeysForUpdate()
      requires slot.Updating?
      modifies this`slot
      ensures Now() == Step(old(Now()), UpdateKeys)
    {
      if slot.written == map[] {
        slot := Free;
        return;
      }
      var keys := GetTempKeys();
      slot := UpdateKeyed(slot.written, keys);
    }

    method SaveUpdatedInTemps()
      requires slot.UpdateKeyed?
      modifies this
      ensures Now() == Step(old(Now()), UpdateTemps)
    {
      hide SaveIn;
      SaveTempListings(slot.keys, slot.written);
      slot := Free;
    }

    /** `deleteAllListings`, after the requests succeeded. */
    method ReadTempKeysForDeleteAll()
      requires wipe.None?
      modifies this`wipe
      ensures Now() == Step(old(Now()), WipeKeys)
    {
      var keys := GetTempKeys();
      wipe := Some(keys);
    }

    method DeleteAllListings()
      requires wipe.Some?
      modifies this
      ensures Now() == Step(old(Now()), Wipe)
    {
      current := map[];
      temps := temps - wipe.value;
      wipe := None;
    }

    /** A step that was given up: a request that failed, or a page. */
    method GiveUp()
      modifies this`slot
      ensures Now() == Step(old(Now()), SlotFails)
    {
      slot := Free;
    }

    method GiveUpPage(p: nat)
      modifies this`pages
      ensures Now() == Step(old(Now()), PageFails(p))
    {
      pages := pages - {p};
    }

    method DeleteArchivedListings(ids: set<Id>)
      modifies this`current
      ensures Now() == Step(old(Now()), DeleteArchived(ids))
    {
      current := current - Fields(ids);
    }

    method FlagListings(ids: set<Id>)
      modifies this`keep
      ensures Now() == Step(old(Now()), Flag(ids))
    {
      keep := keep + ids;
    }

    method Perform(e: Event)
      requires Enabled(Now(), e)
      modifies this
      ensures Now() == Step(old(Now()), e)
    {
      hide Step;
      match e
      case Start(time) => RefreshListings(time);
      case PageReads(p, results) => HandleListingsResponse(p, results);
      case PageKeys(p) => ReadTempKeysForPage(p);
      case PageSaves(p) => SavePage(p);
      case PageFails(p) => GiveUpPage(p);
      case Done(time) => HandleListingsFetched(time);
      case CreateKeys(listings) => HandleCreatedListings(listings);
      case CreateTemps => SaveCreatedInTemps();
      case CreateCurrent => SaveCreated();
      case DeleteRequest(ids) => ReadKeepFlags(ids);
      case DeleteKeys => ReadTempKeysForDelete();
      case DeleteTemps => DeleteInTemps();
      case DeleteCurrent => DeleteInCurrent();
      case UpdateReads(answers) => OverwriteListings(answers);
      case UpdateCurrent => UpdateExisting();
      case UpdateKeys => ReadTempKeysForUpdate();
      case UpdateTemps => SaveUpdatedInTemps();
      case SlotFails => GiveUp();
      case DeleteArchived(ids) => DeleteArchivedListings(ids);
      case Flag(ids) => FlagListings(ids);
      case WipeKeys => ReadTempKeysForDeleteAll();
      case Wipe => DeleteAllListings();
    }

    /** Whatever is called in whatever order, with start times that are not reused and refreshes
        that end once: a delete is final exactly if it barred the listing. */
    method PerformAll(es: seq<Event>)
      requires CanRun(Now(), es)
      modifies this
      ensures Now() == Run(old(Now()), es)
      ensures old(Now()) == INIT && OrderedRun(INIT, es) && slot.Deleting? ==>
                forall id :: id in slot.remove ==>
                  (StaysAway(Step(Now(), DeleteCurrent), id) <==> Barred(Step(Now(), DeleteCurrent), id))
      decreases |es|
    {
      hide Step, StaysAway, Barred, OrderedRun, Enabled;
      ghost var start := Now();
      if es != [] {
        PerformAll(es[..|es|-1]);
        Perform(es[|es|-1]);
      }
      if start == INIT && OrderedRun(INIT, es) && slot.Deleting? {
        assert Reachable(Now());
        forall id | id in slot.remove
          ensures StaysAway(Step(Now(), DeleteCurrent), id) <==> Barred(Step(Now(), DeleteCurrent), id)
        {
          DeletedStaysDeletedExactly(Now(), id);
        }
      }
    }

    /** A refresh from its start to its final copy, and what runs beside it. */
    method Refresh(time: nat, es: seq<Event>)
      requires Reachable(Now()) && time !in started && OrderedWhile(Step(Now(), Start(time)), es, time)
      requires CanRun(Step(Now(), Start(time)), es)
      modifies this
      ensures forall id :: Get(current, id) == LastSaved(Step(old(Now()), Start(time)), es, time, id)
    {
      hide Step, CanRun, Reachable, OrderedWhile, LastSaved, Get, OrderedRun;
      ghost var before := Now();
      RefreshListings(time);
      PerformAll(es);
      HandleListingsFetched(time);
      forall id ensures Get(current, id) == LastSaved(Step(before, Start(time)), es, time, id) {
        RefreshCopiesExactlyWhatWasSaved(before, time, es, id);
      }
    }
  }

  lemma OverwrittenNone(current: RedisHash, answers: map<Id, Answer>)
    ensures Overwritten(current, answers - answers.Keys) == map[]
  {
  }

  lemma OverwrittenOneMore(current: RedisHash, answers: map<Id, Answer>, rest: set<Id>, id: Id)
    requires id in rest && rest <= answers.Keys
    ensures var before := Overwritten(current, answers - rest);
      Overwritten(current, answers - (rest - {id})) ==
      if Item(id) in current then before[id := Over(current[Item(id)], answers[id])] else before
  {
    assert (answers - (rest - {id})).Keys == (answers - rest).Keys + {id};
    hide Over;
  }

  lemma SavingInNone(temps: map<nat, RedisHash>, listings: Listings)
    ensures SaveIn(temps, {}, listings) == temps
  {
  }

  lemma SavingInOneMore(temps: map<nat, RedisHash>, done: Keys, key: nat, listings: Listings)
    requires key !in done
    ensures var before := SaveIn(temps, done, listings);
      SaveIn(temps, done + {key}, listings) ==
      before[key := HSet(if key in before then before[key] else map[], listings)]
  {
    hide HSet;
  }

  lemma DeletingInNone(temps: map<nat, RedisHash>, ids: set<Id>)
    ensures DeleteIn(temps, {}, ids) == temps
  {
  }

  lemma DeletingInOneMore(temps: map<nat, RedisHash>, done: Keys, key: nat, ids: set<Id>)
    requires key !in done
    ensures var before := DeleteIn(temps, done, ids);
      DeleteIn(temps, done + {key}, ids) ==
      if key !in before then before
      else if before[key] - Fields(ids) == map[] then before - {key}
      else before[key := before[key] - Fields(ids)]
  {
    hide Fields;
  }

  predicate CanRun(s: State, es: seq<Event>) {
    es == [] || (CanRun(s, es[..|es|-1]) && Enabled(Run(s, es[..|es|-1]), es[|es|-1]))
  }
}
