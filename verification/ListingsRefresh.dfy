/** The Redis side of the current listings of one account: refreshes that build a temp copy
    page by page while listings are created, updated and deleted, the final copy, and
    delete-all.  One step is one read, transaction or script: whoever writes to the temp
    hashes reads which there are in a step before, and a page is compared with the deleted
    listings in yet another step.  Creates, updates and deletes share a limiter of one slot,
    which `slot` models; delete-all has its own, which `wipe` models. */
module ListingsRefresh {
  import opened Wrappers

  datatype Id = Id(name: string)

  /** Fields of a Redis hash of listings; the placeholder keeps a temp hash non-empty. */
  datatype Field = Placeholder | Item(id: Id)

  datatype Listing = Listing(details: string, archived: bool)

  /** What an answer to an update says of a listing. */
  datatype Answer = Answer(details: Option<string>, archived: Option<bool>)

  type Listings = map<Id, Listing>
  type RedisHash = map<Field, Listing>
  type Keys = set<nat>

  const EMPTY := Listing("", false)

  /** A page being handled: compared with the deleted listings, then with the temp keys read. */
  datatype Page = Compared(listings: Listings) | Keyed(listings: Listings, keys: Keys)

  /** What holds the limiter slot, between which of its steps. */
  datatype Slot =
    | Free
    | CreateKeyed(created: Listings, keys: Keys)           // temp keys read, temps not yet written
    | Creating(created: Listings)                          // temps saved, current not yet
    | Requesting(remove: set<Id>, ids: set<Id>)            // keep flags read, request sent
    | DeleteKeyed(remove: set<Id>, ids: set<Id>, keys: Keys)
    | Deleting(remove: set<Id>, ids: set<Id>)              // temps cleared, current not yet
    | Overwriting(overwritten: Listings)                   // current read and overwritten, not yet written
    | Updating(written: Listings)                          // current written, temp keys not yet read
    | UpdateKeyed(written: Listings, keys: Keys)

  datatype State = State(
    current: RedisHash,
    temps: map<nat, RedisHash>,      // the temp hashes that exist, by start time
    tempKeys: Keys,             // those tracked for saves and deletes
    deleted: set<Id>,
    keep: set<Id>,
    slot: Slot,
    pages: map<nat, Page>,
    wipe: Option<Keys>,         // the temp keys a delete-all has read
    started: Keys)              // start times used so far; no step reads this

  datatype Event =
    | Start(time: nat)
    | PageReads(p: nat, results: Listings)
    | PageKeys(p: nat)
    | PageSaves(p: nat)
    | PageFails(p: nat)
    | Done(time: nat)
    | CreateKeys(listings: Listings)
    | CreateTemps
    | CreateCurrent
    | DeleteRequest(ids: set<Id>)
    | DeleteKeys
    | DeleteTemps
    | DeleteCurrent
    | UpdateReads(answers: map<Id, Answer>)
    | UpdateCurrent
    | UpdateKeys
    | UpdateTemps
    | SlotFails
    | DeleteArchived(ids: set<Id>)
    | Flag(ids: set<Id>)
    | WipeKeys
    | Wipe

  const INIT := State(map[], map[], {}, {}, {}, Free, map[], None, {})

  // ----- Redis

  function Fields(ids: set<Id>): set<Field> {
    set id | id in ids :: Item(id)
  }

  function AsHash(listings: Listings): RedisHash {
    map id | id in listings :: Item(id) := listings[id]
  }

  function HSet(h: RedisHash, listings: Listings): RedisHash {
    h + AsHash(listings)
  }

  function Get(h: RedisHash, id: Id): Option<Listing> {
    if Item(id) in h then Some(h[Item(id)]) else None
  }

  /** `getTempKeys`: the tracked temp hashes that exist. */
  function TempKeys(s: State): Keys {
    set t | t in s.tempKeys && t in s.temps
  }

  /** `hmset` on some temp hashes, which makes those that are gone. */
  function SaveIn(temps: map<nat, RedisHash>, keys: Keys, listings: Listings): map<nat, RedisHash> {
    map t | t in temps.Keys + keys ::
      if t in keys then HSet(if t in temps then temps[t] else map[], listings) else temps[t]
  }

  /** `hdel` on some temp hashes; Redis drops a hash left empty. */
  function DeleteIn(temps: map<nat, RedisHash>, keys: Keys, ids: set<Id>): map<nat, RedisHash> {
    map t | t in temps && !(t in keys && temps[t] - Fields(ids) == map[]) ::
      if t in keys then temps[t] - Fields(ids) else temps[t]
  }

  // ----- the steps

  /** The transaction of `saveTempListings`. */
  function SaveTemps(s: State, keys: Keys, listings: Listings): State {
    s.(temps := SaveIn(s.temps, keys, listings), deleted := s.deleted - listings.Keys)
  }

  /** The transaction of `deleteTempListings`. */
  function DeleteTempsOf(s: State, keys: Keys, remove: set<Id>): State {
    s.(temps := DeleteIn(s.temps, keys, remove), deleted := s.deleted + remove)
  }

  function RefreshStarts(s: State, t: nat): State {
    var hash := if t in s.temps then s.temps[t] else map[];
    s.(temps := s.temps[t := hash[Placeholder := EMPTY]], tempKeys := s.tempKeys + {t},
       started := s.started + {t})
  }

  function NotDeleted(results: Listings, deleted: set<Id>): Listings {
    map id | id in results && id !in deleted :: results[id]
  }

  /** `handleListingsResponse`: listings just deleted are left out; nothing is saved of none. */
  function PageCompared(s: State, p: nat, results: Listings): State {
    var listings := NotDeleted(results, s.deleted);
    if listings == map[] then s else s.(pages := s.pages[p := Compared(listings)])
  }

  function PageSaved(s: State, p: nat): State
    requires p in s.pages && s.pages[p].Keyed?
  {
    SaveTemps(s, s.pages[p].keys, s.pages[p].listings).(pages := s.pages - {p})
  }

  /** `handleListingsFetched`. */
  function RefreshEnds(s: State, t: nat): State {
    if t in s.temps then s.(current := s.temps[t] - {Placeholder}, tempKeys := s.tempKeys - {t})
    else s.(tempKeys := s.tempKeys - {t})
  }

  /** The listings there are, with what was answered over them. */
  function Overwritten(current: RedisHash, answers: map<Id, Answer>): Listings {
    map id | id in answers && Item(id) in current :: Over(current[Item(id)], answers[id])
  }

  function Over(listing: Listing, answer: Answer): Listing {
    Listing(if answer.details.Some? then answer.details.value else listing.details,
            if answer.archived.Some? then answer.archived.value else listing.archived)
  }

  /** The update script writes only listings that still exist and reports which. */
  function Existing(updated: Listings, current: RedisHash): Listings {
    map id | id in updated && Item(id) in current :: updated[id]
  }

  predicate Enabled(s: State, e: Event) {
    match e
    case PageReads(p, _) => p !in s.pages
    case PageKeys(p) => p in s.pages && s.pages[p].Compared?
    case PageSaves(p) => p in s.pages && s.pages[p].Keyed?
    case CreateKeys(_) => s.slot.Free?
    case CreateTemps => s.slot.CreateKeyed?
    case CreateCurrent => s.slot.Creating?
    case DeleteRequest(_) => s.slot.Free?
    case DeleteKeys => s.slot.Requesting?
    case DeleteTemps => s.slot.DeleteKeyed?
    case DeleteCurrent => s.slot.Deleting?
    case UpdateReads(_) => s.slot.Free?
    case UpdateCurrent => s.slot.Overwriting?
    case UpdateKeys => s.slot.Updating?
    case UpdateTemps => s.slot.UpdateKeyed?
    case WipeKeys => s.wipe.None?
    case Wipe => s.wipe.Some?
    case _ => true
  }

  function Step(s: State, e: Event): State {
    if !Enabled(s, e) then s else
    match e
    case Start(t) => RefreshStarts(s, t)
    case PageReads(p, results) => PageCompared(s, p, results)
    case PageKeys(p) => s.(pages := s.pages[p := Keyed(s.pages[p].listings, TempKeys(s))])
    case PageSaves(p) => PageSaved(s, p)
    case PageFails(p) => s.(pages := s.pages - {p})
    case Done(t) => RefreshEnds(s, t)
    case CreateKeys(listings) =>
      s.(slot := if listings == map[] then Creating(listings) else CreateKeyed(listings, TempKeys(s)))
    case CreateTemps => SaveTemps(s, s.slot.keys, s.slot.created).(slot := Creating(s.slot.created))
    case CreateCurrent => s.(current := HSet(s.current, s.slot.created), slot := Free)
    case DeleteRequest(ids) => s.(slot := Requesting(ids - s.keep, ids))
    case DeleteKeys =>
      var remove, ids := s.slot.remove, s.slot.ids;
      s.(slot := if remove == {} then Deleting(remove, ids) else DeleteKeyed(remove, ids, TempKeys(s)))
    case DeleteTemps => DeleteTempsOf(s, s.slot.keys, s.slot.remove).(slot := Deleting(s.slot.remove, s.slot.ids))
    case DeleteCurrent => s.(current := s.current - Fields(s.slot.remove), keep := s.keep - s.slot.ids, slot := Free)
    case UpdateReads(answers) => s.(slot := Overwriting(Overwritten(s.current, answers)))
    case UpdateCurrent =>
      var written := Existing(s.slot.overwritten, s.current);
      s.(current := HSet(s.current, written), slot := Updating(written))
    case UpdateKeys =>
      var written := s.slot.written;
      s.(slot := if written == map[] then Free else UpdateKeyed(written, TempKeys(s)))
    case UpdateTemps => SaveTemps(s, s.slot.keys, s.slot.written).(slot := Free)
    case SlotFails => s.(slot := Free)
    case DeleteArchived(ids) => s.(current := s.current - Fields(ids))
    case Flag(ids) => s.(keep := s.keep + ids)
    case WipeKeys => s.(wipe := Some(TempKeys(s)))
    case Wipe => s.(current := map[], temps := s.temps - s.wipe.value, wipe := None)
  }

  function Run(s: State, es: seq<Event>): State {
    if es == [] then s else Step(Run(s, es[..|es|-1]), es[|es|-1])
  }

  /** A refresh has a start time of its own and ends at most once. */
  predicate InOrder(s: State, e: Event) {
    && (e.Start? ==> e.time !in s.started)
    && (e.Done? ==> e.time in s.tempKeys)
  }

  predicate OrderedRun(s: State, es: seq<Event>) {
    es == [] || (OrderedRun(s, es[..|es|-1]) && InOrder(Run(s, es[..|es|-1]), es[|es|-1]))
  }

  /** Reached by any interleaving in which start times are not reused and no refresh ends twice. */
  ghost predicate Reachable(s: State) {
    exists es :: OrderedRun(INIT, es) && s == Run(INIT, es)
  }

  // ----- what holds in every reachable state

  /** The temp keys that some write under way was told. */
  predicate Told(s: State, t: nat) {
    || (exists p :: p in s.pages && s.pages[p].Keyed? && t in s.pages[p].keys)
    || (s.slot.CreateKeyed? && t in s.slot.keys)
    || (s.slot.UpdateKeyed? && t in s.slot.keys)
  }

  /** Temp hashes belong to refreshes that were started. */
  ghost predicate TempsStarted(s: State) {
    s.temps.Keys <= s.started && s.tempKeys <= s.started && forall t :: Told(s, t) ==> t in s.started
  }

  /** Nothing is written of no listings. */
  predicate NeverEmpty(s: State) {
    && (forall p :: p in s.pages ==> s.pages[p].listings != map[])
    && (s.slot.CreateKeyed? ==> s.slot.created != map[])
    && (s.slot.UpdateKeyed? ==> s.slot.written != map[])
  }

  lemma StepKeepsTempsStarted(s: State, e: Event)
    requires TempsStarted(s)
    ensures TempsStarted(Step(s, e))
  {
  }

  lemma StepKeepsNeverEmpty(s: State, e: Event)
    requires NeverEmpty(s)
    ensures NeverEmpty(Step(s, e))
  {
  }

  lemma {:induction false} ReachableFacts(s: State)
    requires Reachable(s)
    ensures TempsStarted(s) && NeverEmpty(s)
  {
    var es :| OrderedRun(INIT, es) && s == Run(INIT, es);
    RunKeepsFacts(INIT, es);
  }

  lemma {:induction false} RunKeepsFacts(s: State, es: seq<Event>)
    requires TempsStarted(s) && NeverEmpty(s)
    ensures TempsStarted(Run(s, es)) && NeverEmpty(Run(s, es))
  {
    if es != [] {
      hide TempsStarted, NeverEmpty, Step;
      RunKeepsFacts(s, es[..|es|-1]);
      StepKeepsTempsStarted(Run(s, es[..|es|-1]), es[|es|-1]);
      StepKeepsNeverEmpty(Run(s, es[..|es|-1]), es[|es|-1]);
    }
  }

  // ----- one refresh

  /** Refresh `t` runs: its temp hash is tracked, exists and keeps its placeholder. */
  predicate Running(s: State, t: nat) {
    t in s.tempKeys && t in s.temps && Placeholder in s.temps[t]
  }

  /** Neither the end of refresh `t` nor a delete-all that was told of it. */
  predicate Spares(s: State, e: Event, t: nat) {
    e != Done(t) && (e.Wipe? && s.wipe.Some? ==> t !in s.wipe.value)
  }

  predicate OrderedWhile(s: State, es: seq<Event>, t: nat) {
    es == [] ||
    (OrderedWhile(s, es[..|es|-1], t)
     && InOrder(Run(s, es[..|es|-1]), es[|es|-1]) && Spares(Run(s, es[..|es|-1]), es[|es|-1], t))
  }

  /** What step `e` does to listing `id` in the temp hash of refresh `t`. */
  datatype Effect = Nothing | Saves(listing: Listing) | Removes

  function EffectOf(s: State, e: Event, t: nat, id: Id): Effect {
    match e
    case PageSaves(p) =>
      if Enabled(s, e) && t in s.pages[p].keys && id in s.pages[p].listings then Saves(s.pages[p].listings[id])
      else Nothing
    case CreateTemps =>
      if s.slot.CreateKeyed? && t in s.slot.keys && id in s.slot.created then Saves(s.slot.created[id]) else Nothing
    case UpdateTemps =>
      if s.slot.UpdateKeyed? && t in s.slot.keys && id in s.slot.written then Saves(s.slot.written[id]) else Nothing
    case DeleteTemps =>
      if s.slot.DeleteKeyed? && t in s.slot.keys && id in s.slot.remove then Removes else Nothing
    case _ => Nothing
  }

  function After(before: Option<Listing>, effect: Effect): Option<Listing> {
    match effect
    case Nothing => before
    case Saves(listing) => Some(listing)
    case Removes => None
  }

  /** The listing as it was last saved to the refresh during `es` and not removed since. */
  function LastSaved(s: State, es: seq<Event>, t: nat, id: Id): Option<Listing> {
    if es == [] then None
    else After(LastSaved(s, es[..|es|-1], t, id), EffectOf(Run(s, es[..|es|-1]), es[|es|-1], t, id))
  }

  lemma SaveInAt(temps: map<nat, RedisHash>, keys: Keys, listings: Listings, t: nat, id: Id)
    requires t in temps
    ensures var saved := SaveIn(temps, keys, listings);
      && t in saved && (Placeholder in temps[t] ==> Placeholder in saved[t])
      && Get(saved[t], id) == if t in keys && id in listings then Some(listings[id]) else Get(temps[t], id)
  {
  }

  lemma DeleteInAt(temps: map<nat, RedisHash>, keys: Keys, ids: set<Id>, t: nat, id: Id)
    requires t in temps && Placeholder in temps[t]
    ensures var left := DeleteIn(temps, keys, ids);
      && t in left && Placeholder in left[t]
      && Get(left[t], id) == if t in keys && id in ids then None else Get(temps[t], id)
  {
    assert Placeholder in temps[t] - Fields(ids);
  }

  predicate Writes(e: Event) {
    e.PageSaves? || e.CreateTemps? || e.UpdateTemps? || e.DeleteTemps?
  }

  lemma WriteKeepsRunning(s: State, e: Event, t: nat, id: Id)
    requires Running(s, t) && Writes(e) && Enabled(s, e)
    ensures var s' := Step(s, e);
      Running(s', t) && Get(s'.temps[t], id) == After(Get(s.temps[t], id), EffectOf(s, e, t, id))
  {
    hide SaveIn, DeleteIn, Get;
    match e
    case PageSaves(p) => SaveInAt(s.temps, s.pages[p].keys, s.pages[p].listings, t, id);
    case CreateTemps => SaveInAt(s.temps, s.slot.keys, s.slot.created, t, id);
    case UpdateTemps => SaveInAt(s.temps, s.slot.keys, s.slot.written, t, id);
    case DeleteTemps => DeleteInAt(s.temps, s.slot.keys, s.slot.remove, t, id);
  }

  lemma StepKeepsRunning(s: State, e: Event, t: nat, id: Id)
    requires Running(s, t) && (e.Start? ==> e.time != t) && Spares(s, e, t)
    ensures var s' := Step(s, e);
      Running(s', t) && Get(s'.temps[t], id) == After(Get(s.temps[t], id), EffectOf(s, e, t, id))
  {
    if Writes(e) && Enabled(s, e) {
      hide *;
      WriteKeepsRunning(s, e, t, id);
    } else {
      hide SaveIn, DeleteIn, Get, SaveTemps, DeleteTempsOf;
      assert EffectOf(s, e, t, id) == Nothing;
      hide EffectOf;
    }
  }

  lemma StepKeepsStarted(s: State, e: Event)
    ensures s.started <= Step(s, e).started
  {
  }

  lemma {:induction false} RunKeepsRunning(s: State, t: nat, es: seq<Event>, id: Id)
    requires Running(s, t) && t in s.started && s.temps[t] == map[Placeholder := EMPTY] && OrderedWhile(s, es, t)
    ensures var f := Run(s, es); Running(f, t) && t in f.started && Get(f.temps[t], id) == LastSaved(s, es, t, id)
  {
    if es != [] {
      var f := Run(s, es[..|es|-1]);
      RunKeepsRunning(s, t, es[..|es|-1], id);
      StepKeepsRunning(f, es[|es|-1], t, id);
      StepKeepsStarted(f, es[|es|-1]);
      hide Running, Get, EffectOf, Step;
    }
  }

  lemma StartRuns(s: State, t: nat)
    requires TempsStarted(s) && t !in s.started
    ensures var s0 := Step(s, Start(t));
      Running(s0, t) && t in s0.started && s0.temps[t] == map[Placeholder := EMPTY]
  {
  }

  /** A refresh leaves each listing exactly as it was last created, updated or found on a page
      of any refresh by a write that was told of the refresh, and not the listings deleted
      after that by a delete told of it, whatever ran beside it. */
  lemma RefreshCopiesExactlyWhatWasSaved(s: State, t: nat, es: seq<Event>, id: Id)
    requires Reachable(s) && t !in s.started && OrderedWhile(Step(s, Start(t)), es, t)
    ensures var s0 := Step(s, Start(t));
      Get(Step(Run(s0, es), Done(t)).current, id) == LastSaved(s0, es, t, id)
  {
    ReachableFacts(s);
    StartRuns(s, t);
    RunKeepsRunning(Step(s, Start(t)), t, es, id);
  }

  /** Whoever reads the temp keys while a refresh runs is told of it. */
  lemma RunningIsTold(s: State, t: nat)
    requires Running(s, t)
    ensures t in TempKeys(s)
  {
  }

  /** The create under way holds the listing and was told of the refresh. */
  predicate CreatesIn(slot: Slot, t: nat, id: Id) {
    slot.CreateKeyed? && t in slot.keys && id in slot.created
  }

  /** A listing created by a write that was told of a refresh survives its final copy. */
  lemma CreatedDuringRefreshSurvives(s: State, t: nat, es: seq<Event>, i: nat, id: Id)
    requires Reachable(s) && t !in s.started && OrderedWhile(Step(s, Start(t)), es, t)
    requires var s0 := Step(s, Start(t));
      && i < |es| && es[i].CreateTemps? && CreatesIn(Run(s0, es[..i]).slot, t, id)
      && forall j :: i < j < |es| ==> !EffectOf(Run(s0, es[..j]), es[j], t, id).Removes?
    ensures Item(id) in Step(Run(Step(s, Start(t)), es), Done(t)).current
  {
    RefreshCopiesExactlyWhatWasSaved(s, t, es, id);
    SavedAndKept(Step(s, Start(t)), es, t, i, id);
  }

  lemma {:induction false} SavedAndKept(s: State, es: seq<Event>, t: nat, i: nat, id: Id)
    requires i < |es| && EffectOf(Run(s, es[..i]), es[i], t, id).Saves?
    requires forall j :: i < j < |es| ==> !EffectOf(Run(s, es[..j]), es[j], t, id).Removes?
    ensures LastSaved(s, es, t, id).Some?
  {
    hide EffectOf, Run, Step;
    var n := |es| - 1;
    if i < n {
      assert forall j :: 0 <= j < n ==> es[..n][..j] == es[..j] && es[..n][j] == es[j];
      SavedAndKept(s, es[..n], t, i, id);
    }
  }

  // ----- deletes

  /** Nothing under way holds listing `id`, it is kept off pages, and no running refresh has it. */
  predicate Barred(s: State, id: Id) {
    && id in s.deleted
    && (forall t :: t in s.tempKeys && t in s.temps ==> Item(id) !in s.temps[t])
    && (forall p :: p in s.pages ==> id !in s.pages[p].listings)
    && (s.slot.CreateKeyed? || s.slot.Creating? ==> id !in s.slot.created)
    && (s.slot.Updating? || s.slot.UpdateKeyed? ==> id !in s.slot.written)
  }

  predicate Recreates(e: Event, id: Id) {
    e.CreateKeys? && id in e.listings
  }

  predicate NeverRecreates(es: seq<Event>, id: Id) {
    forall i :: 0 <= i < |es| ==> !Recreates(es[i], id)
  }

  /** Whatever happens in order, without creating the listing again, it does not come back. */
  ghost predicate StaysAway(s: State, id: Id) {
    forall es :: OrderedRun(s, es) && NeverRecreates(es, id) ==> Item(id) !in Run(s, es).current
  }

  lemma SavingOthers(temps: map<nat, RedisHash>, keys: Keys, listings: Listings, id: Id)
    requires id !in listings
    ensures var saved := SaveIn(temps, keys, listings);
      forall t :: t in saved && Item(id) in saved[t] ==> t in temps && Item(id) in temps[t]
  {
  }

  lemma DeletingOthers(temps: map<nat, RedisHash>, keys: Keys, ids: set<Id>, id: Id)
    ensures var left := DeleteIn(temps, keys, ids);
      forall t :: t in left && Item(id) in left[t] ==> t in temps && Item(id) in temps[t]
  {
  }

  /** Writes to the temp hashes do not bring in what they do not hold. */
  lemma WriteKeepsBarred(s: State, e: Event, id: Id)
    requires Barred(s, id) && Writes(e) && Enabled(s, e)
    ensures Barred(Step(s, e), id) && Step(s, e).current == s.current
  {
    match e
    case PageSaves(p) => SavingOthers(s.temps, s.pages[p].keys, s.pages[p].listings, id);
    case CreateTemps => SavingOthers(s.temps, s.slot.keys, s.slot.created, id);
    case UpdateTemps => SavingOthers(s.temps, s.slot.keys, s.slot.written, id);
    case DeleteTemps => DeletingOthers(s.temps, s.slot.keys, s.slot.remove, id);
    hide SaveIn, DeleteIn;
  }

  lemma StepKeepsBarred(s: State, e: Event, id: Id)
    requires Barred(s, id) && Item(id) !in s.current && TempsStarted(s) && InOrder(s, e) && !Recreates(e, id)
    ensures Barred(Step(s, e), id) && Item(id) !in Step(s, e).current
  {
    if Writes(e) && Enabled(s, e) {
      WriteKeepsBarred(s, e, id);
      hide *;
    } else if OfSlot(e) {
      SlotKeepsBarred(s, e, id);
      hide *;
    } else {
      hide SaveTemps, DeleteTempsOf, Told, HSet, Existing;
    }
  }

  predicate OfSlot(e: Event) {
    || e.CreateKeys? || e.CreateTemps? || e.CreateCurrent?
    || e.DeleteRequest? || e.DeleteKeys? || e.DeleteTemps? || e.DeleteCurrent?
    || e.UpdateReads? || e.UpdateCurrent? || e.UpdateKeys? || e.UpdateTemps? || e.SlotFails?
  }

  lemma SlotKeepsBarred(s: State, e: Event, id: Id)
    requires Barred(s, id) && Item(id) !in s.current && OfSlot(e) && !(Writes(e) && Enabled(s, e)) && !Recreates(e, id)
    ensures Barred(Step(s, e), id) && Item(id) !in Step(s, e).current
  {
    hide SaveTemps, DeleteTempsOf, PageSaved, PageCompared, RefreshEnds, RefreshStarts;
    var t := Step(s, e);
    assert t.temps == s.temps && t.tempKeys == s.tempKeys && t.pages == s.pages && t.deleted == s.deleted;
  }

  lemma {:induction false} RunKeepsBarred(s: State, es: seq<Event>, id: Id)
    requires Barred(s, id) && Item(id) !in s.current && TempsStarted(s) && NeverEmpty(s)
    requires OrderedRun(s, es) && NeverRecreates(es, id)
    ensures Barred(Run(s, es), id) && Item(id) !in Run(s, es).current
  {
    if es != [] {
      var n := |es| - 1;
      assert !Recreates(es[n], id) && NeverRecreates(es[..n], id);
      hide Barred, Step, InOrder, TempsStarted, NeverEmpty, Recreates, NeverRecreates;
      RunKeepsBarred(s, es[..n], id);
      RunKeepsFacts(s, es[..n]);
      StepKeepsBarred(Run(s, es[..n]), es[n], id);
    }
  }

  // ----- and exactly when a deleted listing can come back

  lemma Extend(s: State, es: seq<Event>, t: State, e: Event) returns (es': seq<Event>, t': State)
    requires OrderedRun(s, es) && t == Run(s, es) && InOrder(t, e)
    ensures es' == es + [e] && t' == Step(t, e) && OrderedRun(s, es') && t' == Run(s, es')
  {
    es', t' := es + [e], Step(t, e);
    assert es'[..|es'|-1] == es && es'[|es'|-1] == e;
  }

  lemma FreshNat(used: set<nat>) returns (n: nat)
    ensures n !in used
  {
    var most := Most(used);
    n := most + 1;
  }

  lemma {:induction false} Most(used: set<nat>) returns (n: nat)
    ensures forall m :: m in used ==> m <= n
  {
    if used == {} {
      n := 0;
    } else {
      var m :| m in used;
      n := Most(used - {m});
      if n < m { n := m; }
      assert forall k :: k in used ==> k == m || k in used - {m};
    }
  }

  /** A run in order, without creating the listing, that ends with the listing among the current. */
  ghost predicate ComesBack(s: State, id: Id) {
    exists es :: OrderedRun(s, es) && NeverRecreates(es, id) && Item(id) in Run(s, es).current
  }

  lemma ComesBackAfter(s: State, e: Event, id: Id)
    requires InOrder(s, e) && !Recreates(e, id) && ComesBack(Step(s, e), id)
    ensures ComesBack(s, id)
  {
    var es :| OrderedRun(Step(s, e), es) && NeverRecreates(es, id) && Item(id) in Run(Step(s, e), es).current;
    RunAfter(s, e, es);
    assert NeverRecreates([e] + es, id);
  }

  lemma {:induction false} RunAfter(s: State, e: Event, es: seq<Event>)
    requires InOrder(s, e) && OrderedRun(Step(s, e), es)
    ensures OrderedRun(s, [e] + es) && Run(s, [e] + es) == Run(Step(s, e), es)
  {
    if es == [] {
      assert [e] + es == [e] && [e][..0] == [];
    } else {
      RunAfter(s, e, es[..|es|-1]);
      assert ([e] + es)[..|[e] + es|-1] == [e] + es[..|es|-1];
      hide Step, InOrder;
    }
  }

  lemma EndBringsBack(s: State, t: nat, id: Id)
    requires t in s.tempKeys && t in s.temps && Item(id) in s.temps[t]
    ensures ComesBack(s, id)
  {
    ComesBackNow(Step(s, Done(t)), id);
    ComesBackAfter(s, Done(t), id);
  }

  lemma ComesBackNow(s: State, id: Id)
    requires Item(id) in s.current
    ensures ComesBack(s, id)
  {
    assert OrderedRun(s, []) && NeverRecreates([], id) && Run(s, []) == s;
  }

  /** A page that holds the listing, is told of a running refresh, and is saved. */
  lemma SaveBringsBack(s: State, p: nat, t: nat, id: Id)
    requires Running(s, t) && p in s.pages && s.pages[p].Keyed? && t in s.pages[p].keys && id in s.pages[p].listings
    ensures ComesBack(s, id)
  {
    SaveInAt(s.temps, s.pages[p].keys, s.pages[p].listings, t, id);
    EndBringsBack(Step(s, PageSaves(p)), t, id);
    ComesBackAfter(s, PageSaves(p), id);
  }

  /** A page that holds the listing is saved to a refresh that starts now. */
  lemma PageBringsBack(s: State, p: nat, id: Id)
    requires TempsStarted(s) && p in s.pages && s.pages[p].Compared? && id in s.pages[p].listings
    ensures ComesBack(s, id)
  {
    hide ComesBack;
    var t := FreshNat(s.started);
    StartRuns(s, t);
    var s1 := Step(s, Start(t));
    RunningIsTold(s1, t);
    var s2 := Step(s1, PageKeys(p));
    SaveBringsBack(s2, p, t, id);
    ComesBackAfter(s1, PageKeys(p), id);
    ComesBackAfter(s, Start(t), id);
  }

  /** Without being kept off pages the listing comes back with the next page that has it. */
  lemma NextPageBringsBack(s: State, id: Id)
    requires TempsStarted(s) && id !in s.deleted
    ensures ComesBack(s, id)
  {
    hide ComesBack;
    var p := FreshNat(s.pages.Keys);
    var results := map[id := EMPTY];
    var s1 := Step(s, PageReads(p, results));
    assert id in NotDeleted(results, s.deleted);
    StepKeepsTempsStarted(s, PageReads(p, results));
    PageBringsBack(s1, p, id);
    ComesBackAfter(s, PageReads(p, results), id);
  }

  /** A page told of temp keys before takes the listing off the deleted ones when it is saved. */
  lemma KeyedPageBringsBack(s: State, p: nat, id: Id)
    requires TempsStarted(s) && p in s.pages && s.pages[p].Keyed? && id in s.pages[p].listings
    ensures ComesBack(s, id)
  {
    hide ComesBack;
    StepKeepsTempsStarted(s, PageSaves(p));
    NextPageBringsBack(Step(s, PageSaves(p)), id);
    ComesBackAfter(s, PageSaves(p), id);
  }

  /** Once the delete of an active listing has completed, whatever happens in order without
      creating it again does not bring it back, exactly if then it is kept off pages, no
      running refresh has it, and no page that holds it is still to be saved. */
  lemma DeletedStaysDeletedExactly(s: State, id: Id)
    requires Reachable(s) && s.slot.Deleting? && id in s.slot.remove
    ensures StaysAway(Step(s, DeleteCurrent), id) <==> Barred(Step(s, DeleteCurrent), id)
  {
    var t := Step(s, DeleteCurrent);
    ReachableFacts(s);
    StepKeepsTempsStarted(s, DeleteCurrent);
    StepKeepsNeverEmpty(s, DeleteCurrent);
    assert Item(id) !in t.current && t.slot.Free?;
    if Barred(t, id) {
      forall es | OrderedRun(t, es) && NeverRecreates(es, id) ensures Item(id) !in Run(t, es).current {
        RunKeepsBarred(t, es, id);
      }
    } else {
      UnbarredComesBack(t, id);
    }
  }

  lemma UnbarredComesBack(s: State, id: Id)
    requires TempsStarted(s) && s.slot.Free? && !Barred(s, id)
    ensures ComesBack(s, id)
  {
    if id !in s.deleted {
      NextPageBringsBack(s, id);
    } else if t :| t in s.tempKeys && t in s.temps && Item(id) in s.temps[t] {
      EndBringsBack(s, t, id);
    } else {
      var p :| p in s.pages && id in s.pages[p].listings;
      if s.pages[p].Compared? { PageBringsBack(s, p, id); } else { KeyedPageBringsBack(s, p, id); }
    }
  }

  /** What makes a delete final is settled when it writes to the temp hashes: every running
      refresh that has the listing was there when it read the temp keys, and no page that
      holds the listing is between its comparison and its save. */
  lemma DeleteBarsExactly(s: State, id: Id)
    requires s.slot.DeleteKeyed? && id in s.slot.remove
    ensures Barred(Step(s, DeleteTemps), id) <==>
      && (forall t :: t in TempKeys(s) && t !in s.slot.keys ==> Item(id) !in s.temps[t])
      && (forall p :: p in s.pages ==> id !in s.pages[p].listings)
  {
    var s' := Step(s, DeleteTemps);
    forall t | t in s.tempKeys && t in s'.temps
      ensures Item(id) in s'.temps[t] <==> t !in s.slot.keys && Item(id) in s.temps[t]
    {
    }
    forall t | t in TempKeys(s) && t !in s.slot.keys ensures t in s'.temps {
    }
  }

  lemma {:induction false} BarredUntilDeleted(s: State, es: seq<Event>, id: Id)
    requires TempsStarted(s) && NeverEmpty(s) && s.slot.Deleting? && Barred(s, id) && OrderedRun(s, es)
    requires forall i :: 0 <= i < |es| ==> es[i] != DeleteCurrent && es[i] != SlotFails
    ensures Barred(Run(s, es), id) && Run(s, es).slot == s.slot
  {
    if es != [] {
      var f := Run(s, es[..|es|-1]);
      BarredUntilDeleted(s, es[..|es|-1], id);
      RunKeepsFacts(s, es[..|es|-1]);
      BarredWhileDeleting(f, es[|es|-1], id);
      hide Barred, Step, InOrder, TempsStarted, NeverEmpty;
    }
  }

  lemma BarredWhileDeleting(s: State, e: Event, id: Id)
    requires TempsStarted(s) && s.slot.Deleting? && Barred(s, id) && InOrder(s, e) && e != DeleteCurrent
    requires e != SlotFails
    ensures Barred(Step(s, e), id) && Step(s, e).slot == s.slot
  {
    if Writes(e) && Enabled(s, e) {
      WriteKeepsBarred(s, e, id);
      hide Barred, SaveIn, DeleteIn;
    } else {
      hide SaveTemps, DeleteTempsOf, Told;
    }
  }

  /** So a delete that met neither is final once it completes, whatever comes between. */
  lemma DeleteIsFinal(s: State, es: seq<Event>, id: Id)
    requires Reachable(s) && s.slot.DeleteKeyed? && id in s.slot.remove
    requires forall t :: t in TempKeys(s) && t !in s.slot.keys ==> Item(id) !in s.temps[t]
    requires forall p :: p in s.pages ==> id !in s.pages[p].listings
    requires OrderedRun(Step(s, DeleteTemps), es)
    requires forall i :: 0 <= i < |es| ==> es[i] != DeleteCurrent && es[i] != SlotFails
    ensures StaysAway(Step(Run(Step(s, DeleteTemps), es), DeleteCurrent), id)
  {
    var s1 := Step(s, DeleteTemps);
    ReachableFacts(s);
    StepKeepsTempsStarted(s, DeleteTemps);
    StepKeepsNeverEmpty(s, DeleteTemps);
    DeleteBarsExactly(s, id);
    assert s1.slot.Deleting? && id in s1.slot.remove;
    hide Barred, TempsStarted, NeverEmpty, Enabled;
    BarredUntilDeleted(s1, es, id);
    RunKeepsFacts(s1, es);
    BarredDeleteIsFinal(Run(s1, es), id);
  }

  lemma BarredDeleteIsFinal(s: State, id: Id)
    requires TempsStarted(s) && NeverEmpty(s) && s.slot.Deleting? && id in s.slot.remove && Barred(s, id)
    ensures StaysAway(Step(s, DeleteCurrent), id)
  {
    var t := Step(s, DeleteCurrent);
    StepKeepsTempsStarted(s, DeleteCurrent);
    StepKeepsNeverEmpty(s, DeleteCurrent);
    assert Barred(t, id) && Item(id) !in t.current;
    forall es | OrderedRun(t, es) && NeverRecreates(es, id) ensures Item(id) !in Run(t, es).current {
      RunKeepsBarred(t, es, id);
    }
  }

  // ----- what an update writes

  /** The update goes on: it neither writes nor fails. */
  predicate UpdateGoesOn(es: seq<Event>) {
    forall i :: 0 <= i < |es| ==> es[i] != UpdateCurrent && es[i] != SlotFails
  }

  lemma {:induction false} UpdateHoldsSlot(s: State, answers: map<Id, Answer>, es: seq<Event>)
    requires s.slot.Free? && UpdateGoesOn(es)
    ensures Run(Step(s, UpdateReads(answers)), es).slot == Step(s, UpdateReads(answers)).slot
  {
    if es != [] {
      UpdateHoldsSlot(s, answers, es[..|es| - 1]);
      SlotStays(Run(Step(s, UpdateReads(answers)), es[..|es| - 1]), es[|es| - 1]);
      hide Step, Overwritten;
    }
    hide Overwritten;
  }

  lemma SlotStays(s: State, e: Event)
    requires s.slot.Overwriting? && e != UpdateCurrent && e != SlotFails
    ensures Step(s, e).slot == s.slot
  {
    hide SaveIn, DeleteIn, NotDeleted, HSet, Overwritten, Existing, Fields, TempKeys;
  }

  /** An update writes exactly the listings that it was answered about, that were there when they
      were read and that still are: with each property that was answered, and each other as read. */
  lemma UpdateWritesAnswers(s: State, answers: map<Id, Answer>, es: seq<Event>, id: Id)
    requires s.slot.Free? && UpdateGoesOn(es)
    ensures var u := Run(Step(s, UpdateReads(answers)), es);
      Get(Step(u, UpdateCurrent).current, id) ==
      if id in answers && Item(id) in s.current && Item(id) in u.current then
        var read, answer := s.current[Item(id)], answers[id];
        Some(Listing(match answer.details { case Some(details) => details case None => read.details },
                     match answer.archived { case Some(archived) => archived case None => read.archived }))
      else Get(u.current, id)
  {
    UpdateHoldsSlot(s, answers, es);
    hide Run;
  }

  // ----- which listings a delete takes

  /** The delete goes on: it neither completes nor fails. */
  predicate DeleteGoesOn(es: seq<Event>) {
    forall i :: 0 <= i < |es| ==> es[i] != DeleteCurrent && es[i] != SlotFails
  }

  /** The limiter slot is held by the delete, whatever runs beside it. */
  lemma {:induction false} DeleteHoldsSlot(s: State, ids: set<Id>, es: seq<Event>)
    requires s.slot.Free? && DeleteGoesOn(es)
    ensures var slot := Run(Step(s, DeleteRequest(ids)), es).slot;
      && (slot.Requesting? || slot.DeleteKeyed? || slot.Deleting?)
      && slot.remove == ids - s.keep && slot.ids == ids
      && (slot.DeleteKeyed? ==> slot.remove != {})
  {
    if es != [] {
      DeleteHoldsSlot(s, ids, es[..|es| - 1]);
      DeleteGoesOnce(Run(Step(s, DeleteRequest(ids)), es[..|es| - 1]), es[|es| - 1]);
      hide Step;
    }
  }

  lemma DeleteGoesOnce(s: State, e: Event)
    requires s.slot.Requesting? || s.slot.DeleteKeyed? || s.slot.Deleting?
    requires e != DeleteCurrent && e != SlotFails && (s.slot.DeleteKeyed? ==> s.slot.remove != {})
    ensures var slot := Step(s, e).slot;
      && (slot.Requesting? || slot.DeleteKeyed? || slot.Deleting?)
      && slot.remove == s.slot.remove && slot.ids == s.slot.ids
      && (slot.DeleteKeyed? ==> slot.remove != {})
  {
    hide SaveIn, DeleteIn, NotDeleted, HSet, Overwritten, Existing, Fields, TempKeys;
  }

  function GetTemp(s: State, t: nat, id: Id): Option<Listing> {
    if t in s.temps then Get(s.temps[t], id) else None
  }

  /** The steps of a delete after its request. */
  predicate OfDelete(e: Event) {
    e.DeleteKeys? || e.DeleteTemps? || e.DeleteCurrent?
  }

  /** A listing that was flagged to be kept when the delete was requested, or that it does not
      name, is left by each of its steps as it was: in the current listings, in the temp hashes
      and among the deleted ids. */
  lemma FlaggedIsKept(s: State, ids: set<Id>, es: seq<Event>, e: Event, id: Id)
    requires s.slot.Free? && DeleteGoesOn(es) && OfDelete(e) && (id in s.keep || id !in ids)
    ensures var before := Run(Step(s, DeleteRequest(ids)), es);
      var after := Step(before, e);
      && Get(after.current, id) == Get(before.current, id)
      && (id in after.deleted <==> id in before.deleted)
      && (forall t :: GetTemp(after, t, id) == GetTemp(before, t, id))
      && (id !in ids ==> (id in after.keep <==> id in before.keep))
  {
    DeleteHoldsSlot(s, ids, es);
    hide *;
    SparedByDelete(Run(Step(s, DeleteRequest(ids)), es), e, id);
  }

  lemma SparedByDelete(s: State, e: Event, id: Id)
    requires OfDelete(e) && (s.slot.Requesting? || s.slot.DeleteKeyed? || s.slot.Deleting?) && id !in s.slot.remove
    ensures var after := Step(s, e);
      && Get(after.current, id) == Get(s.current, id)
      && (id in after.deleted <==> id in s.deleted)
      && (forall t :: GetTemp(after, t, id) == GetTemp(s, t, id))
      && (id !in s.slot.ids ==> (id in after.keep <==> id in s.keep))
  {
    if e.DeleteTemps? && s.slot.DeleteKeyed? {
      SparedInTemps(s.temps, s.slot.keys, s.slot.remove, id);
      hide DeleteIn;
    }
  }

  lemma SparedInTemps(temps: map<nat, RedisHash>, keys: Keys, ids: set<Id>, id: Id)
    requires id !in ids
    ensures var after := DeleteIn(temps, keys, ids);
      forall t :: (if t in after then Get(after[t], id) else None) == (if t in temps then Get(temps[t], id) else None)
  {
    forall t ensures (if t in DeleteIn(temps, keys, ids) then Get(DeleteIn(temps, keys, ids)[t], id) else None)
                  == (if t in temps then Get(temps[t], id) else None)
    {
      if t in temps && Item(id) in temps[t] {
        assert Item(id) in temps[t] - Fields(ids);
      }
    }
  }

  /** A listing that it names and that was not flagged then is gone from the current listings
      after it; before that it was removed from every temp hash that was there when the temp keys
      were read, and noted as deleted.  The flags of all that it names are cleared. */
  lemma UnflaggedIsDeleted(s: State, ids: set<Id>, es: seq<Event>, id: Id)
    requires s.slot.Free? && DeleteGoesOn(es) && id in ids
    ensures var u := Run(Step(s, DeleteRequest(ids)), es);
      && (u.slot.Deleting? ==> id !in Step(u, DeleteCurrent).keep)
      && (id !in s.keep ==>
            && (u.slot.Deleting? ==> Item(id) !in Step(u, DeleteCurrent).current && DeletedInTemps(s, ids, es, id)))
  {
    DeleteHoldsSlot(s, ids, es);
    if id !in s.keep && Run(Step(s, DeleteRequest(ids)), es).slot.Deleting? {
      TempsBeforeCurrent(s, ids, es, id);
    }
    hide Run;
  }

  /** Some step of the delete noted the listing as deleted and took it out of the temp hashes. */
  ghost predicate DeletedInTemps(s: State, ids: set<Id>, es: seq<Event>, id: Id) {
    exists i, k :: 0 <= i < k < |es| && TakesOut(s, ids, es, i, k, id)
  }

  /** Step `i` read the temp keys and step `k` was the write. */
  ghost predicate TakesOut(s: State, ids: set<Id>, es: seq<Event>, i: nat, k: nat, id: Id)
    requires i < k < |es|
  {
    var told := Run(Step(s, DeleteRequest(ids)), es[..i]);
    var after := Step(Run(Step(s, DeleteRequest(ids)), es[..k]), es[k]);
    && es[i] == DeleteKeys && es[k] == DeleteTemps
    && id in after.deleted && forall t :: t in told.tempKeys && t in told.temps ==> GetTemp(after, t, id) == None
  }

  lemma {:induction false} TempsBeforeCurrent(s: State, ids: set<Id>, es: seq<Event>, id: Id)
    requires s.slot.Free? && DeleteGoesOn(es) && id in ids && id !in s.keep
    requires Run(Step(s, DeleteRequest(ids)), es).slot.Deleting?
    ensures DeletedInTemps(s, ids, es, id)
  {
    var n := |es| - 1;
    var s0 := Step(s, DeleteRequest(ids));
    assert es != [];
    var u := Run(s0, es[..n]);
    DeleteHoldsSlot(s, ids, es[..n]);
    if u.slot.Deleting? {
      TempsBeforeCurrent(s, ids, es[..n], id);
      var i, k :| 0 <= i < k < n && TakesOut(s, ids, es[..n], i, k, id);
      assert es[..n][..i] == es[..i] && es[..n][..k] == es[..k];
      hide Run, Step;
      assert TakesOut(s, ids, es, i, k, id);
    } else {
      assert id in u.slot.remove;
      SlotWithout(u, es[n]);
      var i := KeysWereRead(s, ids, es[..n]);
      assert es[..n][..i] == es[..i];
      hide Run;
      assert TakesOut(s, ids, es, i, n, id);
    }
  }

  lemma SlotWithout(u: State, e: Event)
    requires u.slot.Requesting? || u.slot.DeleteKeyed?
    requires u.slot.remove != {} && Step(u, e).slot.Deleting?
    ensures u.slot.DeleteKeyed? && e == DeleteTemps
  {
  }

  /** The temp keys of a delete are those there were at some step of it. */
  lemma {:induction false} KeysWereRead(s: State, ids: set<Id>, es: seq<Event>) returns (i: nat)
    requires s.slot.Free? && DeleteGoesOn(es) && Run(Step(s, DeleteRequest(ids)), es).slot.DeleteKeyed?
    ensures i < |es| && es[i] == DeleteKeys
    ensures var told := Run(Step(s, DeleteRequest(ids)), es[..i]);
      Run(Step(s, DeleteRequest(ids)), es).slot.keys == set t | t in told.tempKeys && t in told.temps
  {
    var n := |es| - 1;
    assert es != [];
    DeleteHoldsSlot(s, ids, es[..n]);
    var u := Run(Step(s, DeleteRequest(ids)), es[..n]);
    if u.slot.DeleteKeyed? {
      i := KeysWereRead(s, ids, es[..n]);
      assert es[..n][..i] == es[..i];
    } else {
      i := n;
    }
    hide Run;
  }

  // ----- delete-all

  /** Whatever happens in order, the end of refresh `t` changes nothing. */
  ghost predicate EndsForNothing(s: State, t: nat) {
    forall es :: OrderedRun(s, es) ==> Step(Run(s, es), Done(t)).current == Run(s, es).current
  }

  predicate Gone(s: State, t: nat) {
    t in s.started && t !in s.temps && !Told(s, t)
  }

  lemma StepKeepsGone(s: State, e: Event, t: nat)
    requires Gone(s, t) && InOrder(s, e)
    ensures Gone(Step(s, e), t)
  {
  }

  lemma {:induction false} RunKeepsGone(s: State, es: seq<Event>, t: nat)
    requires Gone(s, t) && OrderedRun(s, es)
    ensures Gone(Run(s, es), t)
  {
    if es != [] {
      hide Gone, Step, InOrder;
      RunKeepsGone(s, es[..|es|-1], t);
      StepKeepsGone(Run(s, es[..|es|-1]), es[|es|-1], t);
    }
  }

  /** A refresh that runs at a delete-all never changes the current listings, exactly if no
      write under way was told of it before: such a write makes its temp hash again. */
  lemma DeletedAllStaysDeletedExactly(s: State, t: nat)
    requires Reachable(s) && s.wipe.Some? && t in s.wipe.value && t in s.tempKeys
    ensures EndsForNothing(Step(s, Wipe), t) <==> !Told(Step(s, Wipe), t)
  {
    var w := Step(s, Wipe);
    ReachableFacts(s);
    StepKeepsNeverEmpty(s, Wipe);
    assert t in w.started && t !in w.temps && w.current == map[];
    if Told(w, t) {
      var e := LateWrite(w, t);
      LateWriteIsCopied(w, t, e);
    } else {
      forall es | OrderedRun(w, es) ensures Step(Run(w, es), Done(t)).current == Run(w, es).current {
        RunKeepsGone(w, es, t);
      }
    }
  }

  lemma LateWrite(s: State, t: nat) returns (e: Event)
    requires Told(s, t) && NeverEmpty(s) && t !in s.temps
    ensures Enabled(s, e) && InOrder(s, e) && Step(s, e).current == s.current
    ensures t in Step(s, e).temps && Placeholder !in Step(s, e).temps[t] && Step(s, e).temps[t] != map[]
  {
    if p :| p in s.pages && s.pages[p].Keyed? && t in s.pages[p].keys {
      e := PageSaves(p);
      SavedIsNotEmpty(s.temps, s.pages[p].keys, s.pages[p].listings, t);
    } else if s.slot.CreateKeyed? {
      e := CreateTemps;
      SavedIsNotEmpty(s.temps, s.slot.keys, s.slot.created, t);
    } else {
      e := UpdateTemps;
      SavedIsNotEmpty(s.temps, s.slot.keys, s.slot.written, t);
    }
    hide SaveIn;
  }

  lemma SavedIsNotEmpty(temps: map<nat, RedisHash>, keys: Keys, listings: Listings, t: nat)
    requires t in keys && t !in temps && listings != map[]
    ensures var saved := SaveIn(temps, keys, listings); t in saved && Placeholder !in saved[t] && saved[t] != map[]
  {
    var id :| id in listings;
    assert Item(id) in SaveIn(temps, keys, listings)[t];
  }

  lemma LateWriteIsCopied(s: State, t: nat, e: Event)
    requires Enabled(s, e) && InOrder(s, e) && s.current == map[] && Step(s, e).current == s.current
    requires t in Step(s, e).temps && Placeholder !in Step(s, e).temps[t] && Step(s, e).temps[t] != map[]
    ensures !EndsForNothing(s, t)
  {
    var es := [e];
    assert es[..0] == [];
    assert Run(s, es) == Step(s, e) && OrderedRun(s, es);
    var hash := Step(s, e).temps[t];
    assert hash - {Placeholder} == hash;
    assert Step(Run(s, es), Done(t)).current != Run(s, es).current;
  }

  // ----- why runs must be in order

  /** While nothing under way was told of it, the temp hash of a refresh that ended stays as it is. */
  predicate Left(s: State, t: nat, hash: RedisHash) {
    t in s.started && t !in s.tempKeys && !Told(s, t) && t in s.temps && s.temps[t] == hash && hash != map[]
    && (s.slot.DeleteKeyed? ==> t !in s.slot.keys) && (s.wipe.Some? ==> t !in s.wipe.value)
  }

  lemma SavingElsewhere(temps: map<nat, RedisHash>, keys: Keys, listings: Listings, t: nat)
    requires t in temps && t !in keys
    ensures t in SaveIn(temps, keys, listings) && SaveIn(temps, keys, listings)[t] == temps[t]
  {
  }

  lemma DeletingElsewhere(temps: map<nat, RedisHash>, keys: Keys, ids: set<Id>, t: nat)
    requires t in temps && t !in keys
    ensures t in DeleteIn(temps, keys, ids) && DeleteIn(temps, keys, ids)[t] == temps[t]
  {
  }

  lemma WriteKeepsLeft(s: State, e: Event, t: nat, hash: RedisHash)
    requires Left(s, t, hash) && Writes(e) && Enabled(s, e)
    ensures Left(Step(s, e), t, hash)
  {
    match e
    case PageSaves(p) => SavingElsewhere(s.temps, s.pages[p].keys, s.pages[p].listings, t);
    case CreateTemps => SavingElsewhere(s.temps, s.slot.keys, s.slot.created, t);
    case UpdateTemps => SavingElsewhere(s.temps, s.slot.keys, s.slot.written, t);
    case DeleteTemps => DeletingElsewhere(s.temps, s.slot.keys, s.slot.remove, t);
    hide SaveIn, DeleteIn;
  }

  lemma OtherKeepsUntold(s: State, e: Event, t: nat)
    requires !Told(s, t) && t !in TempKeys(s) && !(Writes(e) && Enabled(s, e))
    ensures !Told(Step(s, e), t)
  {
    hide SaveTemps, DeleteTempsOf;
  }

  lemma StepKeepsLeft(s: State, e: Event, t: nat, hash: RedisHash)
    requires Left(s, t, hash) && InOrder(s, e)
    ensures Left(Step(s, e), t, hash)
  {
    if Writes(e) && Enabled(s, e) {
      WriteKeepsLeft(s, e, t, hash);
      hide *;
    } else {
      OtherKeepsUntold(s, e, t);
      hide SaveTemps, DeleteTempsOf, Told;
    }
  }

  lemma {:induction false} RunKeepsLeft(s: State, es: seq<Event>, t: nat, hash: RedisHash)
    requires Left(s, t, hash) && OrderedRun(s, es)
    ensures Left(Run(s, es), t, hash)
  {
    if es != [] {
      hide Left, Step, InOrder;
      RunKeepsLeft(s, es[..|es|-1], t, hash);
      StepKeepsLeft(Run(s, es[..|es|-1]), es[|es|-1], t, hash);
    }
  }

  /** A final copy that runs again (a retried job), and a refresh that starts at the time of one
      that ended, take the current listings back to what the first final copy left: exactly
      the listings it did not have are dropped, and those deleted since come back. */
  lemma EndingTwiceTakesBack(s: State, t: nat, es: seq<Event>)
    requires Running(s, t) && t in s.started && Left(Step(s, Done(t)), t, s.temps[t])
    requires OrderedRun(Step(s, Done(t)), es)
    ensures var first, later := Step(s, Done(t)), Run(Step(s, Done(t)), es);
      && Step(later, Done(t)).current == first.current
      && Step(Step(later, Start(t)), Done(t)).current == first.current
      && (forall id :: Item(id) in later.current ==>
            (Item(id) !in Step(later, Done(t)).current <==> Item(id) !in s.temps[t]))
  {
    RunKeepsLeft(Step(s, Done(t)), es, t, s.temps[t]);
    hide Run, OrderedRun;
  }

  // ----- the failing runs, from the start

  /** A listing is on a page read before its delete; the page is saved after it, and the
      listing is back. */
  lemma PageReadBeforeDeleteRevivesListing(id: Id, listing: Listing) returns (es: seq<Event>, s: State)
    ensures OrderedRun(INIT, es) && s == Run(INIT, es) && s.slot.Deleting? && s.slot.remove == {id}
    ensures Item(id) in s.current && Item(id) !in Step(s, DeleteCurrent).current
    ensures !Barred(Step(s, DeleteCurrent), id) && ComesBack(Step(s, DeleteCurrent), id)
  {
    es, s := ListingExists(id, listing);
    var l := map[id := listing];
    hide Run, OrderedRun, SaveIn, DeleteIn;
    assert NotDeleted(l, {}) == l && id in l;
    es, s := Extend(INIT, es, s, PageReads(0, l));
    assert s.pages == map[0 := Compared(l)] && s.slot.Free? && s.keep == {};
    es, s := Extend(INIT, es, s, DeleteRequest({id}));
    assert s.slot == Requesting({id}, {id});
    es, s := Extend(INIT, es, s, DeleteKeys);
    es, s := Extend(INIT, es, s, DeleteTemps);
    HeldPageBringsBack(es, s, id);
  }

  lemma HeldPageBringsBack(es: seq<Event>, s: State, id: Id)
    requires OrderedRun(INIT, es) && s == Run(INIT, es) && s.slot.Deleting?
    requires 0 in s.pages && id in s.pages[0].listings
    ensures !Barred(Step(s, DeleteCurrent), id) && ComesBack(Step(s, DeleteCurrent), id)
  {
    assert Reachable(s);
    ReachableFacts(s);
    StepKeepsTempsStarted(s, DeleteCurrent);
    UnbarredComesBack(Step(s, DeleteCurrent), id);
  }

  lemma RunNothing()
    ensures OrderedRun(INIT, []) && Run(INIT, []) == INIT
  {
  }

  lemma Orderly(s: State, e: Event)
    requires !e.Start? && !e.Done?
    ensures InOrder(s, e)
  {
  }

  lemma CreateStep1(l: Listings)
    requires l != map[]
    ensures Step(INIT, CreateKeys(l)) == INIT.(slot := CreateKeyed(l, {}))
  {
    assert TempKeys(INIT) == {};
  }

  lemma CreateStep2(l: Listings)
    ensures Step(INIT.(slot := CreateKeyed(l, {})), CreateTemps) == INIT.(slot := Creating(l))
  {
    assert SaveIn(map[], {}, l) == map[];
    hide SaveIn;
  }

  lemma CreateStep3(id: Id, listing: Listing)
    ensures Step(INIT.(slot := Creating(map[id := listing])), CreateCurrent)
         == INIT.(current := map[Item(id) := listing])
  {
    OneHash(id, listing);
    hide AsHash;
  }

  lemma OneHash(id: Id, listing: Listing)
    ensures AsHash(map[id := listing]) == map[Item(id) := listing]
    ensures map[] + AsHash(map[id := listing]) == map[Item(id) := listing]
    ensures map[Placeholder := EMPTY] + AsHash(map[id := listing]) == map[Placeholder := EMPTY][Item(id) := listing]
  {
  }

  /** A listing is created, without a refresh. */
  lemma ListingExists(id: Id, listing: Listing) returns (es: seq<Event>, s: State)
    ensures OrderedRun(INIT, es) && s == Run(INIT, es)
    ensures s == INIT.(current := map[Item(id) := listing])
  {
    var l := map[id := listing];
    hide *;
    RunNothing();
    assert id in l;
    CreateStep1(l);
    Orderly(INIT, CreateKeys(l));
    es, s := Extend(INIT, [], INIT, CreateKeys(l));
    CreateStep2(l);
    Orderly(s, CreateTemps);
    es, s := Extend(INIT, es, s, CreateTemps);
    CreateStep3(id, listing);
    Orderly(s, CreateCurrent);
    es, s := Extend(INIT, es, s, CreateCurrent);
  }

  /** A refresh starts between a create's two accesses to the temp hashes: the listing is created
      and then dropped by the final copy of that refresh. */
  lemma KeysReadBeforeStartLosesCreated(id: Id, listing: Listing) returns (es: seq<Event>, s: State)
    ensures OrderedRun(INIT, es) && s == Run(INIT, es) && Running(s, 0)
    ensures Get(s.current, id) == Some(listing) && Get(Step(s, Done(0)).current, id) == None
  {
    var l := map[id := listing];
    assert Run(INIT, []) == INIT && OrderedRun(INIT, []);
    hide Run, OrderedRun;
    es, s := Extend(INIT, [], INIT, CreateKeys(l));
    assert id in l;
    es, s := Extend(INIT, es, s, Start(0));
    es, s := Extend(INIT, es, s, CreateTemps);
    assert s.temps == map[0 := map[Placeholder := EMPTY]];
    es, s := Extend(INIT, es, s, CreateCurrent);
  }

  /** A refresh with the listing ends, the listing is deleted, and a refresh that starts at the
      same time, or ends a second time, brings it back. */
  lemma ReusedStartTimeRevivesDeleted(id: Id, listing: Listing) returns (es: seq<Event>, s: State)
    ensures OrderedRun(INIT, es) && s == Run(INIT, es) && s.slot.Deleting? && s.slot.remove == {id}
    ensures var t := Step(s, DeleteCurrent);
      && Item(id) !in t.current
      && Item(id) in Step(Step(t, Start(0)), Done(0)).current && Item(id) in Step(t, Done(0)).current
  {
    es, s := RefreshEnded(id, listing);
    hide Run, OrderedRun, SaveIn, DeleteIn;
    es, s := Extend(INIT, es, s, DeleteRequest({id}));
    es, s := Extend(INIT, es, s, DeleteKeys);
    assert TempKeys(INIT.(temps := map[0 := map[Placeholder := EMPTY, Item(id) := listing]])) == {};
    es, s := Extend(INIT, es, s, DeleteTemps);
    NothingDeletedIn(map[0 := map[Placeholder := EMPTY, Item(id) := listing]], {id});
  }

  lemma NothingDeletedIn(temps: map<nat, RedisHash>, ids: set<Id>)
    ensures DeleteIn(temps, {}, ids) == temps
  {
  }

  const STARTED := INIT.(temps := map[0 := map[Placeholder := EMPTY]], tempKeys := {0}, started := {0})

  function Saved(id: Id, listing: Listing): State {
    STARTED.(temps := map[0 := map[Placeholder := EMPTY][Item(id) := listing]])
  }

  lemma RefreshStep1()
    ensures InOrder(INIT, Start(0)) && Step(INIT, Start(0)) == STARTED
  {
  }

  lemma RefreshStep2(l: Listings)
    requires l != map[]
    ensures Step(STARTED, PageReads(0, l)) == STARTED.(pages := map[0 := Compared(l)])
  {
    assert NotDeleted(l, {}) == l;
  }

  lemma RefreshStep3(l: Listings)
    ensures Step(STARTED.(pages := map[0 := Compared(l)]), PageKeys(0)) == STARTED.(pages := map[0 := Keyed(l, {0})])
  {
    assert TempKeys(STARTED.(pages := map[0 := Compared(l)])) == {0};
    hide TempKeys;
  }

  lemma RefreshStep4(id: Id, listing: Listing)
    ensures Step(STARTED.(pages := map[0 := Keyed(map[id := listing], {0})]), PageSaves(0)) == Saved(id, listing)
  {
    var l := map[id := listing];
    var s := STARTED.(pages := map[0 := Keyed(l, {0})]);
    OneSavedIn(id, listing);
    assert Enabled(s, PageSaves(0)) && Step(s, PageSaves(0)) == PageSaved(s, 0);
    PageOneSaved(s, l, Saved(id, listing).temps);
  }

  lemma PageOneSaved(s: State, l: Listings, temps: map<nat, RedisHash>)
    requires s.pages == map[0 := Keyed(l, {0})] && SaveIn(s.temps, {0}, l) == temps && s.deleted == {}
    ensures PageSaved(s, 0) == s.(temps := temps, pages := map[])
  {
    assert s.pages - {0} == map[] && {} - l.Keys == {};
    hide SaveIn;
  }

  lemma RefreshStep5(id: Id, listing: Listing)
    ensures InOrder(Saved(id, listing), Done(0))
    ensures Step(Saved(id, listing), Done(0))
         == Saved(id, listing).(current := map[Item(id) := listing], tempKeys := {})
  {
    assert map[Placeholder := EMPTY][Item(id) := listing] - {Placeholder} == map[Item(id) := listing];
  }

  lemma RefreshEnded(id: Id, listing: Listing) returns (es: seq<Event>, s: State)
    ensures OrderedRun(INIT, es) && s == Run(INIT, es)
    ensures s == INIT.(temps := map[0 := map[Placeholder := EMPTY][Item(id) := listing]],
                       current := map[Item(id) := listing], started := {0})
  {
    var l := map[id := listing];
    assert id in l;
    hide InOrder, OrderedRun, Run, Step;
    RunNothing();
    RefreshStep1();
    es, s := Extend(INIT, [], INIT, Start(0));
    RefreshStep2(l);
    Orderly(s, PageReads(0, l));
    es, s := Extend(INIT, es, s, PageReads(0, l));
    RefreshStep3(l);
    Orderly(s, PageKeys(0));
    es, s := Extend(INIT, es, s, PageKeys(0));
    RefreshStep4(id, listing);
    Orderly(s, PageSaves(0));
    es, s := Extend(INIT, es, s, PageSaves(0));
    RefreshStep5(id, listing);
    es, s := Extend(INIT, es, s, Done(0));
  }

  lemma OneSavedIn(id: Id, listing: Listing)
    ensures SaveIn(map[0 := map[Placeholder := EMPTY]], {0}, map[id := listing])
         == map[0 := map[Placeholder := EMPTY][Item(id) := listing]]
  {
    OneHash(id, listing);
    hide AsHash;
  }
}
