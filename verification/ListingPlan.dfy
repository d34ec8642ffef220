/** The planner of the listings manager, on values: what a plan makes of the desired
    listings, given the listings that exist and the inventory.  ManageListings holds the
    code that computes it in place. */
module ListingPlan {
  import opened Wrappers

  datatype Hash = Hash(digest: string)
  datatype Id = Id(name: string)

  datatype Error = DuplicateListing | InvalidItem | ItemDoesNotExist | CapExceeded | InvalidCurrencies | Unknown

  datatype Content = Content(quantity: Option<int>, keys: Option<int>, metal: Option<real>, details: Option<string>)

  datatype Desired = Desired(
    hash: Hash, id: Option<Id>, content: Content, error: Option<Error>, lastAttemptedAt: Option<int>)

  datatype Inventory = Inventory(refresh: int, currentTime: int, lastUpdate: int)

  datatype Change = Change(id: Id, duplicate: bool)

  datatype Action = Create | Update | Nothing

  /** `compareCurrentAndDesired`; comparing object hashes compares what is hashed. */
  function Compare(desired: Content, current: Content): Action {
    if Or(desired.quantity, 1) != Or(current.quantity, 1) then Create
    else if (Or(desired.keys, 0), Or(desired.metal, 0.0), Or(desired.details, ""))
         != (Or(current.keys, 0), Or(current.metal, 0.0), Or(current.details, "")) then Update
    else Nothing
  }

  // ----- which desired listing keeps which id

  predicate Claims(d: Desired) {
    d.id.Some? && d.error != Some(DuplicateListing)
  }

  /** An earlier desired listing claims the same id. */
  predicate TakenBefore(ds: seq<Desired>, i: nat)
    requires i < |ds|
  {
    exists j :: 0 <= j < i && Claims(ds[j]) && ds[j].id == ds[i].id
  }

  function After(ds: seq<Desired>, current: map<Id, Content>, i: nat): Desired
    requires i < |ds|
  {
    var d := ds[i];
    if d.id.None? then d
    else if !Claims(d) then d.(id := None)
    else if TakenBefore(ds, i) then d.(id := None, error := Some(DuplicateListing))
    else if d.id.value !in current then d.(id := None)
    else d
  }

  function ChangeOf(ds: seq<Desired>, current: map<Id, Content>, i: nat): Option<Change>
    requires i < |ds|
  {
    var d := ds[i];
    if d.id.None? then None
    else if !Claims(d) then Some(Change(d.id.value, false))
    else if TakenBefore(ds, i) then Some(Change(d.id.value, true))
    else if d.id.value !in current then Some(Change(d.id.value, false))
    else None
  }

  function Planned(ds: seq<Desired>, current: map<Id, Content>): seq<Desired> {
    seq(|ds|, i requires 0 <= i < |ds| => After(ds, current, i))
  }

  // ----- what is queued

  /** Whether the last pass queues a listing for creation. */
  predicate Retry(d: Desired, inventory: Option<Inventory>) {
    match d.error
    case None => d.id.None?
    case Some(InvalidItem) => false
    case Some(DuplicateListing) => false
    case Some(ItemDoesNotExist) => !AttemptedSince(d, inventory)
    case Some(_) => true
  }

  /** It was attempted after the inventory was last refreshed, give or take a second. */
  predicate AttemptedSince(d: Desired, inventory: Option<Inventory>) {
    && inventory.Some?
    && d.lastAttemptedAt.Some? && d.lastAttemptedAt.value != 0
    && var i := inventory.value;
       d.lastAttemptedAt.value > i.lastUpdate + Tolerance(i)
  }

  /** How far the clocks may differ, and a second. */
  function Tolerance(i: Inventory): nat {
    Abs(i.refresh - i.currentTime) + 1
  }

  function Abs(x: int): nat {
    if x < 0 then -x else x
  }

  /** What the listing it keeps needs. */
  function Needs(d: Desired, current: map<Id, Content>): Action {
    if d.id.Some? && d.id.value in current then Compare(d.content, current[d.id.value]) else Nothing
  }

  predicate InCreate(d: Desired, current: map<Id, Content>, inventory: Option<Inventory>) {
    Retry(d, inventory) || Needs(d, current).Create?
  }

  predicate InUpdate(d: Desired, current: map<Id, Content>, inventory: Option<Inventory>) {
    !Retry(d, inventory) && Needs(d, current).Update?
  }

  function CreateSet(ds: seq<Desired>, current: map<Id, Content>, inventory: Option<Inventory>): set<Hash> {
    set i | 0 <= i < |ds| && InCreate(After(ds, current, i), current, inventory) :: ds[i].hash
  }

  function UpdateSet(ds: seq<Desired>, current: map<Id, Content>, inventory: Option<Inventory>): set<Hash> {
    set i | 0 <= i < |ds| && InUpdate(After(ds, current, i), current, inventory) :: ds[i].hash
  }

  predicate Held(ds: seq<Desired>, current: map<Id, Content>, id: Id) {
    exists i :: 0 <= i < |ds| && After(ds, current, i).id == Some(id)
  }

  function RemoveSet(ds: seq<Desired>, current: map<Id, Content>): set<Id> {
    set id | id in current && !Held(ds, current, id)
  }

  /** Hashes are the fields of one Redis hash. */
  ghost predicate DistinctHashes(ds: seq<Desired>) {
    forall i, j :: 0 <= i < j < |ds| ==> ds[i].hash != ds[j].hash
  }

  function Changes(ds: seq<Desired>, current: map<Id, Content>): map<Hash, Change> {
    ChangesUpTo(ds, current, |ds|)
  }

  function ChangesUpTo(ds: seq<Desired>, current: map<Id, Content>, n: nat): map<Hash, Change>
    requires n <= |ds|
  {
    if n == 0 then map[]
    else
      var m := ChangesUpTo(ds, current, n - 1);
      match ChangeOf(ds, current, n - 1)
      case None => m
      case Some(c) => m[ds[n - 1].hash := c]
  }

  lemma {:induction false} ChangesAt(ds: seq<Desired>, current: map<Id, Content>, n: nat)
    requires n <= |ds| && DistinctHashes(ds)
    ensures forall i :: 0 <= i < n ==>
              (ds[i].hash in ChangesUpTo(ds, current, n) <==> ChangeOf(ds, current, i).Some?)
    ensures forall i :: 0 <= i < n && ChangeOf(ds, current, i).Some? ==>
              ChangesUpTo(ds, current, n)[ds[i].hash] == ChangeOf(ds, current, i).value
    ensures forall h :: h in ChangesUpTo(ds, current, n) ==> exists i :: 0 <= i < n && ds[i].hash == h
  {
    if n > 0 { ChangesAt(ds, current, n - 1); }
  }

  // ----- what a plan guarantees

  /** No two desired listings hold one id after a plan, and a held id is a current listing. */
  lemma HeldIdsAreUniqueAndCurrent(ds: seq<Desired>, current: map<Id, Content>)
    ensures forall i :: 0 <= i < |ds| && After(ds, current, i).id.Some? ==> After(ds, current, i).id.value in current
    ensures forall i, j :: 0 <= i < j < |ds| && After(ds, current, i).id.Some? && After(ds, current, j).id.Some? ==>
              After(ds, current, i).id != After(ds, current, j).id
  {
    forall i, j | 0 <= i < j < |ds| && After(ds, current, i).id.Some? && After(ds, current, j).id.Some?
      ensures After(ds, current, i).id != After(ds, current, j).id
    {
      assert TakenBefore(ds, j) || !(Claims(ds[i]) && ds[i].id == ds[j].id);
    }
  }

  /** The current listings split into those held by exactly one desired listing and those removed. */
  lemma CurrentSplitsIntoHeldAndRemoved(ds: seq<Desired>, current: map<Id, Content>, id: Id)
    requires id in current
    ensures id in RemoveSet(ds, current) <==> forall i :: 0 <= i < |ds| ==> After(ds, current, i).id != Some(id)
    ensures id !in RemoveSet(ds, current) <==>
              exists i :: 0 <= i < |ds| && After(ds, current, i).id == Some(id)
                       && forall j :: 0 <= j < |ds| && After(ds, current, j).id == Some(id) ==> j == i
  {
    HeldIdsAreUniqueAndCurrent(ds, current);
    if i :| 0 <= i < |ds| && After(ds, current, i).id == Some(id) {
      assert forall j :: 0 <= j < |ds| && After(ds, current, j).id == Some(id) ==> j == i;
    }
  }

  /** A claimed current listing is never removed: its first claimant keeps it. */
  lemma FirstClaimantKeepsListing(ds: seq<Desired>, current: map<Id, Content>, i: nat)
    requires i < |ds| && Claims(ds[i]) && ds[i].id.value in current
    ensures ds[i].id.value !in RemoveSet(ds, current)
    ensures !TakenBefore(ds, i) ==> After(ds, current, i) == ds[i]
    decreases i
  {
    if TakenBefore(ds, i) {
      var j :| 0 <= j < i && Claims(ds[j]) && ds[j].id == ds[i].id;
      FirstClaimantKeepsListing(ds, current, j);
    } else {
      assert After(ds, current, i).id == ds[i].id;
    }
  }

  /** Who claims an id that an earlier one claims loses it, is marked duplicate and is not queued,
      whether or not the listing still exists. */
  lemma LaterClaimantsAreMarked(ds: seq<Desired>, current: map<Id, Content>, inventory: Option<Inventory>, i: nat,
                                j: nat)
    requires DistinctHashes(ds) && i < j < |ds| && Claims(ds[i]) && Claims(ds[j]) && ds[i].id == ds[j].id
    ensures After(ds, current, j) == ds[j].(id := None, error := Some(DuplicateListing))
    ensures ds[j].hash !in CreateSet(ds, current, inventory) && ds[j].hash !in UpdateSet(ds, current, inventory)
    ensures ds[j].hash in Changes(ds, current) && Changes(ds, current)[ds[j].hash] == Change(ds[i].id.value, true)
  {
    assert TakenBefore(ds, j);
    ChangesAt(ds, current, |ds|);
    QueuesAreDisjoint(ds, current, inventory);
    hide ChangesUpTo, CreateSet, UpdateSet;
  }

  /** Nothing is queued twice, and nothing marked duplicate or invalid without a listing is queued. */
  lemma QueuesAreDisjoint(ds: seq<Desired>, current: map<Id, Content>, inventory: Option<Inventory>)
    requires DistinctHashes(ds)
    ensures CreateSet(ds, current, inventory) !! UpdateSet(ds, current, inventory)
    ensures forall i :: 0 <= i < |ds| && After(ds, current, i).error == Some(DuplicateListing) ==>
              ds[i].hash !in CreateSet(ds, current, inventory) && ds[i].hash !in UpdateSet(ds, current, inventory)
  {
    forall i | 0 <= i < |ds| && After(ds, current, i).error == Some(DuplicateListing)
      ensures ds[i].hash !in CreateSet(ds, current, inventory) && ds[i].hash !in UpdateSet(ds, current, inventory)
    {
      assert After(ds, current, i).id.None?;
    }
  }

  /** A listing without error is left alone exactly when it keeps a current listing with its own content. */
  lemma LeftAloneExactlyWhenInSync(ds: seq<Desired>, current: map<Id, Content>, inventory: Option<Inventory>, i: nat)
    requires DistinctHashes(ds) && i < |ds| && After(ds, current, i).error.None?
    ensures ds[i].hash !in CreateSet(ds, current, inventory) && ds[i].hash !in UpdateSet(ds, current, inventory)
       <==> var d := After(ds, current, i);
            d.id.Some? && d.id.value in current && Compare(d.content, current[d.id.value]).Nothing?
  {
    HeldIdsAreUniqueAndCurrent(ds, current);
    var d := After(ds, current, i);
    assert InCreate(d, current, inventory) ==> ds[i].hash in CreateSet(ds, current, inventory);
    assert InUpdate(d, current, inventory) ==> ds[i].hash in UpdateSet(ds, current, inventory);
  }

  /** Who holds what after a plan: a current id stays with the first listing that has it and is
      not marked duplicate, and later ones that are not yet are marked; nothing else changes. */
  lemma HeldExactly(ds: seq<Desired>, current: map<Id, Content>, i: nat, id: Id)
    requires i < |ds|
    ensures var later := exists j :: 0 <= j < i && ds[j].id == Some(id) && ds[j].error != Some(DuplicateListing);
      && (After(ds, current, i).id == Some(id) <==>
            ds[i].id == Some(id) && ds[i].error != Some(DuplicateListing) && id in current && !later)
      && (ds[i].id == Some(id) ==>
            After(ds, current, i).error == if later then Some(DuplicateListing) else ds[i].error)
    ensures ds[i].id == None ==> After(ds, current, i) == ds[i]
    ensures After(ds, current, i) == ds[i].(id := After(ds, current, i).id, error := After(ds, current, i).error)
  {
    if j :| 0 <= j < i && ds[j].id == Some(id) && ds[j].error != Some(DuplicateListing) {
      assert Claims(ds[j]);
    }
  }

  /** A listing without error, or with one that is not tried again, that keeps a current listing is
      created anew exactly if the quantities differ, and updated exactly if they agree and the
      prices or the details differ. */
  lemma KeptListingNeeds(ds: seq<Desired>, current: map<Id, Content>, inventory: Option<Inventory>, i: nat, id: Id)
    requires DistinctHashes(ds) && i < |ds| && After(ds, current, i).id == Some(id) && id in current
    requires ds[i].error == None || ds[i].error == Some(InvalidItem)
    ensures var d, c := ds[i].content, current[id];
      var quantities := match (d.quantity, c.quantity)
        case (None, None) => true
        case (Some(x), None) => x == 1
        case (None, Some(y)) => y == 1
        case (Some(x), Some(y)) => x == y;
      var keys := match (d.keys, c.keys)
        case (None, None) => true
        case (Some(x), None) => x == 0
        case (None, Some(y)) => y == 0
        case (Some(x), Some(y)) => x == y;
      var metal := match (d.metal, c.metal)
        case (None, None) => true
        case (Some(x), None) => x == 0.0
        case (None, Some(y)) => y == 0.0
        case (Some(x), Some(y)) => x == y;
      var details := match (d.details, c.details)
        case (None, None) => true
        case (Some(x), None) => x == ""
        case (None, Some(y)) => y == ""
        case (Some(x), Some(y)) => x == y;
      && (ds[i].hash in CreateSet(ds, current, inventory) <==> !quantities)
      && (ds[i].hash in UpdateSet(ds, current, inventory) <==> quantities && !(keys && metal && details))
  {
    var d := After(ds, current, i);
    assert InCreate(d, current, inventory) <==> ds[i].hash in CreateSet(ds, current, inventory);
    assert InUpdate(d, current, inventory) <==> ds[i].hash in UpdateSet(ds, current, inventory);
    hide CreateSet, UpdateSet;
  }

  /** An item that did not exist is tried again once the inventory was updated after the last
      attempt, or if nothing is known of either; without a listing it is left alone exactly
      while the attempt is later than the last update by more than the clocks may differ.
      Invalid and duplicate listings without a listing are never tried again. */
  lemma MissingItemsAreTriedAgain(ds: seq<Desired>, current: map<Id, Content>, inventory: Option<Inventory>, i: nat)
    requires DistinctHashes(ds) && i < |ds| && After(ds, current, i).error.Some?
    ensures var d := After(ds, current, i);
      var created, updated := ds[i].hash in CreateSet(ds, current, inventory),
          ds[i].hash in UpdateSet(ds, current, inventory);
      match d.error.value
      case ItemDoesNotExist =>
        && (inventory.None? || d.lastAttemptedAt.None? || d.lastAttemptedAt.value <= inventory.value.lastUpdate ==>
            created)
        && (d.id.None? && inventory.Some? && d.lastAttemptedAt.Some? && d.lastAttemptedAt.value > 0 ==>
              (!created <==>
                 var i := inventory.value;
                 && d.lastAttemptedAt.value > i.lastUpdate + 1 + i.refresh - i.currentTime
                 && d.lastAttemptedAt.value > i.lastUpdate + 1 + i.currentTime - i.refresh))
      case InvalidItem => d.id.None? ==> !created && !updated
      case DuplicateListing => d.id.None? ==> !created && !updated
      case _ => created
  {
    var d := After(ds, current, i);
    assert InCreate(d, current, inventory) <==> ds[i].hash in CreateSet(ds, current, inventory);
    assert InUpdate(d, current, inventory) <==> ds[i].hash in UpdateSet(ds, current, inventory);
    hide After, CreateSet, UpdateSet;
  }

  /** A change names the id that the listing had, and says duplicate exactly if an earlier listing
      has that id and neither is marked yet. */
  lemma ChangeExactly(ds: seq<Desired>, current: map<Id, Content>, i: nat)
    requires i < |ds|
    ensures ChangeOf(ds, current, i).Some? <==> ds[i].id.Some? && After(ds, current, i).id.None?
    ensures ChangeOf(ds, current, i).Some? ==>
              && Some(ChangeOf(ds, current, i).value.id) == ds[i].id
              && (ChangeOf(ds, current, i).value.duplicate <==>
                    ds[i].error != Some(DuplicateListing) && After(ds, current, i).error == Some(DuplicateListing))
  {
  }

  lemma AfterAgain(ds: seq<Desired>, current: map<Id, Content>, i: nat)
    requires i < |ds|
    ensures After(Planned(ds, current), current, i) == After(ds, current, i)
    ensures ChangeOf(Planned(ds, current), current, i).None?
  {
  }

  lemma {:induction false} NoChangesAgain(ds: seq<Desired>, current: map<Id, Content>, n: nat)
    requires n <= |ds|
    ensures ChangesUpTo(Planned(ds, current), current, n) == map[]
  {
    if n > 0 {
      NoChangesAgain(ds, current, n - 1);
      AfterAgain(ds, current, n - 1);
    }
  }

  /** Planning again over the result of a plan, with the same listings and inventory,
      queues the same listings and changes nothing. */
  lemma PlanningIsAFixpoint(ds: seq<Desired>, current: map<Id, Content>, inventory: Option<Inventory>)
    ensures var ps := Planned(ds, current);
      && Planned(ps, current) == ps
      && CreateSet(ps, current, inventory) == CreateSet(ds, current, inventory)
      && UpdateSet(ps, current, inventory) == UpdateSet(ds, current, inventory)
      && RemoveSet(ps, current) == RemoveSet(ds, current)
      && Changes(ps, current) == map[]
  {
    var ps := Planned(ds, current);
    forall i | 0 <= i < |ds| ensures After(ps, current, i) == After(ds, current, i) && ps[i].hash == ds[i].hash {
      AfterAgain(ds, current, i);
    }
    assert forall i :: 0 <= i < |ds| ==> After(ps, current, i) == ps[i];
    assert forall id :: Held(ps, current, id) <==> Held(ds, current, id);
    NoChangesAgain(ds, current, |ds|);
  }

  /** The planned listings, as they are read back from the hash, in whatever order. */
  ghost predicate ReadBack(es: seq<Desired>, ps: seq<Desired>) {
    DistinctHashes(es) && forall d :: d in es <==> d in ps
  }

  lemma ReadBackAfter(ds: seq<Desired>, current: map<Id, Content>, es: seq<Desired>, i: nat)
    requires ReadBack(es, Planned(ds, current)) && i < |es|
    ensures After(es, current, i) == es[i] && ChangeOf(es, current, i).None?
  {
    var ps := Planned(ds, current);
    HeldIdsAreUniqueAndCurrent(ds, current);
    assert es[i] in es;
    var k :| 0 <= k < |ps| && ps[k] == es[i];
    assert ps[k] == After(ds, current, k);
    if es[i].id.Some? {
      forall j | 0 <= j < i ensures es[j].id != es[i].id {
        assert es[j] in es;
        var l :| 0 <= l < |ps| && ps[l] == es[j];
        assert es[j].hash != es[i].hash;
        assert k != l && ps[l] == After(ds, current, l);
      }
      assert !TakenBefore(es, i);
    }
    hide Planned;
  }

  lemma {:induction false} NoChangesReadBack(ds: seq<Desired>, current: map<Id, Content>, es: seq<Desired>, n: nat)
    requires ReadBack(es, Planned(ds, current)) && n <= |es|
    ensures ChangesUpTo(es, current, n) == map[]
  {
    if n > 0 {
      hide ChangeOf, Planned, ReadBack;
      NoChangesReadBack(ds, current, es, n - 1);
      ReadBackAfter(ds, current, es, n - 1);
    }
  }

  /** A second plan over the stored result, with the same listings and inventory and in whatever
      order the listings are read, queues the same listings and changes nothing. */
  lemma PlanningAgainInAnyOrder(ds: seq<Desired>, current: map<Id, Content>, inventory: Option<Inventory>,
                                es: seq<Desired>)
    requires ReadBack(es, Planned(ds, current))
    ensures Planned(es, current) == es
    ensures Changes(es, current) == map[]
    ensures RemoveSet(es, current) == RemoveSet(ds, current)
    ensures CreateSet(es, current, inventory) == CreateSet(ds, current, inventory)
    ensures UpdateSet(es, current, inventory) == UpdateSet(ds, current, inventory)
  {
    var ps := Planned(ds, current);
    forall i | 0 <= i < |es| ensures After(es, current, i) == es[i] { ReadBackAfter(ds, current, es, i); }
    NoChangesReadBack(ds, current, es, |es|);
    forall i | 0 <= i < |ds| ensures ps[i] == After(ds, current, i) && ps[i].hash == ds[i].hash && ps[i] in es {
      assert ps[i] in ps;
    }
    forall i | 0 <= i < |es|
      ensures exists k :: 0 <= k < |ds| && After(ds, current, k) == es[i] && ds[k].hash == es[i].hash
    {
      assert es[i] in es;
      var k :| 0 <= k < |ps| && ps[k] == es[i];
      assert After(ds, current, k) == es[i];
    }
    hide After, InCreate, InUpdate, Planned;
    SameQueues(ds, current, inventory, es);
  }

  lemma SameQueues(ds: seq<Desired>, current: map<Id, Content>, inventory: Option<Inventory>, es: seq<Desired>)
    requires forall i :: 0 <= i < |es| ==> After(es, current, i) == es[i]
    requires forall i :: 0 <= i < |ds| ==> After(ds, current, i) in es && After(ds, current, i).hash == ds[i].hash
    requires forall i :: 0 <= i < |es| ==>
               exists k :: 0 <= k < |ds| && After(ds, current, k) == es[i] && ds[k].hash == es[i].hash
    ensures RemoveSet(es, current) == RemoveSet(ds, current)
    ensures CreateSet(es, current, inventory) == CreateSet(ds, current, inventory)
    ensures UpdateSet(es, current, inventory) == UpdateSet(ds, current, inventory)
  {
    hide After, InCreate, InUpdate;
    forall i | 0 <= i < |ds|
      ensures exists k :: 0 <= k < |es| && After(es, current, k) == After(ds, current, i) && es[k].hash == ds[i].hash
    {
      var d := After(ds, current, i);
      assert d in es;
      var k :| 0 <= k < |es| && es[k] == d;
      assert After(es, current, k) == d;
    }
    assert forall id :: Held(es, current, id) <==> Held(ds, current, id);
  }

  // ----- applying the changes to what is stored by then

  function ApplyOne(d: Desired, changes: map<Hash, Change>): Desired {
    if d.hash in changes && d.id == Some(changes[d.hash].id) then
      if changes[d.hash].duplicate then d.(id := None, error := Some(DuplicateListing)) else d.(id := None)
    else d
  }

  /** The locked read-modify-write of `updateDesired` with the mutation of a plan. */
  function Apply(stored: map<Hash, Desired>, changes: map<Hash, Change>): map<Hash, Desired> {
    map h | h in stored :: if h in changes then ApplyOne(stored[h], changes) else stored[h]
  }

  ghost predicate Stores(stored: map<Hash, Desired>, ds: seq<Desired>) {
    && (forall h :: h in stored ==> stored[h].hash == h)
    && (forall i :: 0 <= i < |ds| ==> ds[i].hash in stored && stored[ds[i].hash] == ds[i])
  }

  /** If nothing was stored in between, the store ends up with exactly the planned listings. */
  lemma ApplyingChangesStoresThePlan(stored: map<Hash, Desired>, ds: seq<Desired>, current: map<Id, Content>)
    requires DistinctHashes(ds) && Stores(stored, ds)
    ensures Stores(Apply(stored, Changes(ds, current)), Planned(ds, current))
  {
    ChangesAt(ds, current, |ds|);
    var changes := Changes(ds, current);
    hide ChangesUpTo;
    forall i | 0 <= i < |ds| ensures Apply(stored, changes)[ds[i].hash] == After(ds, current, i) {
      assert stored[ds[i].hash] == ds[i];
    }
  }

  /** A listing that was given another id, or lost its id, or was removed since the plan
      read it, is not touched and not brought back; every other one holds its old id no more. */
  lemma StaleChangesAreSkipped(stored: map<Hash, Desired>, ds: seq<Desired>, current: map<Id, Content>)
    requires DistinctHashes(ds) && forall h :: h in stored ==> stored[h].hash == h
    ensures var stored' := Apply(stored, Changes(ds, current));
      && stored'.Keys == stored.Keys
      && (forall i :: 0 <= i < |ds| && ds[i].hash in stored && stored[ds[i].hash].id != ds[i].id ==>
            stored'[ds[i].hash] == stored[ds[i].hash])
      && (forall i :: 0 <= i < |ds| && ds[i].hash in stored && stored[ds[i].hash].id == ds[i].id ==>
            stored'[ds[i].hash].id == After(ds, current, i).id)
  {
    ChangesAt(ds, current, |ds|);
  }
}
