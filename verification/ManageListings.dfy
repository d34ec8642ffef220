/** The planner as the listings manager runs it: passes over the desired listings, which
    it changes in place, and the maps and sets it fills.  Maps from hash to listing are
    kept as their sets of hashes, lists of listings of one id as positions. */
module ManageListings {
  import opened Wrappers
  import opened ListingPlan

  class DesiredListing {
    const hash: Hash
    const content: Content
    const lastAttemptedAt: Option<int>
    var id: Option<Id>
    var error: Option<Error>

    ghost function Value(): Desired
      reads this
    {
      Desired(hash, id, content, error, lastAttemptedAt)
    }

    constructor (d: Desired)
      ensures Value() == d
    {
      hash, content, lastAttemptedAt, id, error := d.hash, d.content, d.lastAttemptedAt, d.id, d.error;
    }

    method SetID(id: Option<Id>)
      modifies this`id
      ensures Value() == old(Value()).(id := id)
    {
      this.id := id;
    }

    method SetError(error: Option<Error>)
      modifies this`error
      ensures Value() == old(Value()).(error := error)
    {
      this.error := error;
    }
  }

  /** The objects `desired` have the values `ds`. */
  ghost predicate Are(desired: seq<DesiredListing>, ds: seq<Desired>)
    reads desired
  {
    |ds| == |desired| && forall i :: 0 <= i < |ds| ==> desired[i].Value() == ds[i]
  }

  ghost predicate DistinctObjects(desired: seq<DesiredListing>) {
    forall i, j :: 0 <= i < j < |desired| ==> desired[i] != desired[j] && desired[i].hash != desired[j].hash
  }

  /** The hashes of the listings at some positions. */
  ghost function HashesOf(ds: seq<Desired>, at: set<nat>): set<Hash> {
    set j | j in at && j < |ds| :: ds[j].hash
  }

  // ----- first pass

  ghost function Matched(d: Desired, current: map<Id, Content>): Desired {
    if d.id.Some? && (!Claims(d) || d.id.value !in current) then d.(id := None) else d
  }

  ghost predicate Dropped(d: Desired, current: map<Id, Content>) {
    d.id.Some? && (!Claims(d) || d.id.value !in current)
  }

  ghost predicate Finds(d: Desired, current: map<Id, Content>, action: Action) {
    Claims(d) && d.id.value in current && Compare(d.content, current[d.id.value]) == action
  }

  /** Per id, the positions below `n` that claim it, in order. */
  ghost predicate ClaimsListed(ds: seq<Desired>, n: nat, duplicates: map<Id, seq<nat>>)
    requires n <= |ds|
  {
    && (forall j :: 0 <= j < n && Claims(ds[j]) ==> ds[j].id.value in duplicates && j in duplicates[ds[j].id.value])
    && (forall id :: id in duplicates ==> ListedFor(ds, n, id, duplicates[id]))
  }

  ghost predicate ListedFor(ds: seq<Desired>, n: nat, id: Id, list: seq<nat>)
    requires n <= |ds|
  {
    && list != []
    && (forall k :: 0 <= k < |list| ==> list[k] < n && Claims(ds[list[k]]) && ds[list[k]].id == Some(id))
    && (forall k, l :: 0 <= k < l < |list| ==> list[k] < list[l])
  }

  function ListClaim(duplicates: map<Id, seq<nat>>, id: Id, i: nat): map<Id, seq<nat>> {
    duplicates[id := if id in duplicates then duplicates[id] + [i] else [i]]
  }

  lemma ListedForMore(ds: seq<Desired>, i: nat, id: Id, list: seq<nat>)
    requires i < |ds| && ListedFor(ds, i, id, list)
    ensures ListedFor(ds, i + 1, id, list)
    ensures Claims(ds[i]) && ds[i].id == Some(id) ==> ListedFor(ds, i + 1, id, list + [i])
  {
  }

  lemma ListedForNew(ds: seq<Desired>, i: nat, id: Id)
    requires i < |ds| && Claims(ds[i]) && ds[i].id == Some(id)
    ensures ListedFor(ds, i + 1, id, [i])
  {
  }

  lemma ListOneMore(ds: seq<Desired>, i: nat, duplicates: map<Id, seq<nat>>)
    requires i < |ds| && ClaimsListed(ds, i, duplicates) && Claims(ds[i])
    ensures var id := ds[i].id.value;
      ClaimsListed(ds, i + 1, ListClaim(duplicates, id, i))
  {
    var id := ds[i].id.value;
    var duplicates' := ListClaim(duplicates, id, i);
    hide ListedFor;
    forall x | x in duplicates' ensures ListedFor(ds, i + 1, x, duplicates'[x]) {
      if x in duplicates {
        ListedForMore(ds, i, x, duplicates[x]);
      } else {
        ListedForNew(ds, i, x);
      }
    }
    assert duplicates'[id][|duplicates'[id]| - 1] == i;
    forall j | 0 <= j < i && Claims(ds[j]) ensures ds[j].id.value in duplicates' && j in duplicates'[ds[j].id.value] {
      assert j in duplicates[ds[j].id.value];
    }
  }

  lemma ListSkips(ds: seq<Desired>, i: nat, duplicates: map<Id, seq<nat>>)
    requires i < |ds| && ClaimsListed(ds, i, duplicates) && !Claims(ds[i])
    ensures ClaimsListed(ds, i + 1, duplicates)
  {
  }

  ghost function FindsAt(ds: seq<Desired>, n: nat, current: map<Id, Content>, action: Action): set<nat>
    requires n <= |ds|
  {
    set j: nat | j < n && Finds(ds[j], current, action)
  }

  ghost function DroppedAt(ds: seq<Desired>, n: nat, current: map<Id, Content>): set<nat>
    requires n <= |ds|
  {
    set j: nat | j < n && Dropped(ds[j], current)
  }

  lemma AtOneMore(ds: seq<Desired>, i: nat, current: map<Id, Content>, action: Action)
    requires i < |ds| && DistinctHashes(ds)
    ensures HashesOf(ds, FindsAt(ds, i + 1, current, action)) ==
      HashesOf(ds, FindsAt(ds, i, current, action)) + (if Finds(ds[i], current, action) then {ds[i].hash} else {})
    ensures HashesOf(ds, DroppedAt(ds, i + 1, current)) ==
      HashesOf(ds, DroppedAt(ds, i, current)) + (if Dropped(ds[i], current) then {ds[i].hash} else {})
  {
  }

  /** What the first pass has done to the positions below `n`. */
  ghost predicate Checked(ds: seq<Desired>, n: nat, current: map<Id, Content>, create: set<Hash>, update: set<Hash>,
                          changes: map<Hash, Change>)
    requires n <= |ds|
  {
    && create == HashesOf(ds, FindsAt(ds, n, current, Create))
    && update == HashesOf(ds, FindsAt(ds, n, current, Update))
    && changes.Keys == HashesOf(ds, DroppedAt(ds, n, current))
    && forall j :: 0 <= j < n && Dropped(ds[j], current) ==>
         ds[j].hash in changes && changes[ds[j].hash] == Change(ds[j].id.value, false)
  }

  lemma CheckedOneMore(ds: seq<Desired>, i: nat, current: map<Id, Content>, create: set<Hash>, update: set<Hash>,
                       changes: map<Hash, Change>)
    requires i < |ds| && DistinctHashes(ds) && Checked(ds, i, current, create, update, changes)
    ensures Checked(ds, i + 1, current,
      if Finds(ds[i], current, Create) then create + {ds[i].hash} else create,
      if Finds(ds[i], current, Update) then update + {ds[i].hash} else update,
      if Dropped(ds[i], current) then changes[ds[i].hash := Change(ds[i].id.value, false)] else changes)
  {
    AtOneMore(ds, i, current, Create);
    AtOneMore(ds, i, current, Update);
    hide HashesOf, FindsAt, DroppedAt, Finds;
  }

  ghost function MatchedUpTo(ds: seq<Desired>, n: nat, current: map<Id, Content>): seq<Desired>
    requires n <= |ds|
  {
    seq(|ds|, i requires 0 <= i < |ds| => if i < n then Matched(ds[i], current) else ds[i])
  }


  lemma MatchedOneMore(ds: seq<Desired>, i: nat, current: map<Id, Content>)
    requires i < |ds|
    ensures |MatchedUpTo(ds, i, current)| == |ds| && MatchedUpTo(ds, i, current)[i] == ds[i]
    ensures MatchedUpTo(ds, i + 1, current) == MatchedUpTo(ds, i, current)[i := Matched(ds[i], current)]
  {
  }

  /** What the first pass has established below `i`. */
  ghost predicate FirstPass(ds: seq<Desired>, i: nat, desired: seq<DesiredListing>, current: map<Id, Content>,
                            create: set<Hash>, update: set<Hash>, changes: map<Hash, Change>,
                            duplicates: map<Id, seq<nat>>)
    reads desired
  {
    && i <= |ds| == |desired| && DistinctObjects(desired) && DistinctHashes(ds)
    && Are(desired, MatchedUpTo(ds, i, current))
    && Checked(ds, i, current, create, update, changes)
    && ClaimsListed(ds, i, duplicates)
  }

  lemma FirstPassStarts(ds: seq<Desired>, desired: seq<DesiredListing>, current: map<Id, Content>)
    requires |ds| == |desired| && DistinctObjects(desired) && DistinctHashes(ds) && Are(desired, ds)
    ensures FirstPass(ds, 0, desired, current, {}, {}, map[], map[])
  {
  }

  method MatchListing(d: DesiredListing, current: map<Id, Content>) returns (dropped: Option<Id>, action: Action)
    modifies d
    ensures d.Value() == Matched(old(d.Value()), current)
    ensures dropped == if Dropped(old(d.Value()), current) then old(d.id) else None
    ensures Finds(old(d.Value()), current, Create) <==> action == Create
    ensures Finds(old(d.Value()), current, Update) <==> action == Update
  {
    dropped, action := None, Nothing;
    if d.id.Some? {
      var id := d.id.value;
      if d.error == Some(DuplicateListing) || id !in current {
        d.SetID(None);
        dropped := Some(id);
      } else {
        action := Compare(d.content, current[id]);
      }
    }
  }

  /** The callback of the first pass, for the listing at position `i`. */
  method CheckListing(desired: seq<DesiredListing>, i: nat, current: map<Id, Content>, create: set<Hash>,
                      update: set<Hash>, changes: map<Hash, Change>, duplicates: map<Id, seq<nat>>,
                      ghost ds: seq<Desired>)
    returns (create': set<Hash>, update': set<Hash>, changes': map<Hash, Change>, duplicates': map<Id, seq<nat>>)
    requires i < |ds| && FirstPass(ds, i, desired, current, create, update, changes, duplicates)
    modifies desired
    ensures FirstPass(ds, i + 1, desired, current, create', update', changes', duplicates')
  {
    create', update', changes', duplicates' := create, update, changes, duplicates;
    CheckedOneMore(ds, i, current, create, update, changes);
    MatchedOneMore(ds, i, current);
    var d := desired[i];
    assert d.Value() == ds[i];
    hide Checked, ClaimsListed, MatchedUpTo, DistinctHashes, Matched;
    if d.id.Some? && d.error != Some(DuplicateListing) {
      ListOneMore(ds, i, duplicates);
      duplicates' := ListClaim(duplicates, d.id.value, i);
    } else {
      ListSkips(ds, i, duplicates);
    }
    var dropped, action := MatchListing(d, current);
    if dropped.Some? {
      changes' := changes[d.hash := Change(dropped.value, false)];
    }
    if action == Create {
      create' := create + {d.hash};
    } else if action == Update {
      update' := update + {d.hash};
    }
  }

  /** Goes through all desired listings and checks whether their listing is still there. */
  method CheckListings(desired: seq<DesiredListing>, current: map<Id, Content>, ghost ds: seq<Desired>)
    returns (create: set<Hash>, update: set<Hash>, changes: map<Hash, Change>, duplicates: map<Id, seq<nat>>)
    requires |ds| == |desired| && DistinctObjects(desired) && DistinctHashes(ds) && Are(desired, ds)
    modifies desired
    ensures FirstPass(ds, |ds|, desired, current, create, update, changes, duplicates)
  {
    hide *;
    create, update, changes, duplicates := {}, {}, map[], map[];
    FirstPassStarts(ds, desired, current);
    var i := 0;
    while i < |desired|
      invariant i <= |ds|
      invariant FirstPass(ds, i, desired, current, create, update, changes, duplicates)
    {
      create, update, changes, duplicates := CheckListing(desired, i, current, create, update, changes, duplicates, ds);
      i := i + 1;
    }
  }

  // ----- second pass

  /** The positions that claim an id of `ids` which an earlier one claims. */
  ghost function TakenAt(ds: seq<Desired>, ids: set<Id>): set<nat> {
    set j: nat | j < |ds| && Claims(ds[j]) && ds[j].id.value in ids && TakenBefore(ds, j)
  }

  lemma ListedTwice(ds: seq<Desired>, ids: set<Id>, id: Id, duplicates: map<Id, seq<nat>>)
    requires ClaimsListed(ds, |ds|, duplicates) && id in duplicates
    ensures TakenAt(ds, ids + {id}) == TakenAt(ds, ids) + set k | 1 <= k < |duplicates[id]| :: duplicates[id][k]
  {
    var list := duplicates[id];
    assert ListedFor(ds, |ds|, id, list);
    forall j | j in TakenAt(ds, ids + {id}) && j !in TakenAt(ds, ids)
      ensures exists k :: 1 <= k < |list| && list[k] == j
    {
      var k :| 0 <= k < |list| && list[k] == j;
      var i :| 0 <= i < j && Claims(ds[i]) && ds[i].id == ds[j].id;
      var l :| 0 <= l < |list| && list[l] == i;
    }
    forall k | 1 <= k < |list| ensures list[k] in TakenAt(ds, ids + {id}) {
      assert Claims(ds[list[0]]) && list[0] < list[k] && ds[list[0]].id == ds[list[k]].id;
      assert TakenBefore(ds, list[k]);
    }
  }

  ghost function Mark(d: Desired): Desired {
    d.(id := None, error := Some(DuplicateListing))
  }

  ghost function MarkedValues(ds: seq<Desired>, current: map<Id, Content>, marked: set<nat>): seq<Desired> {
    seq(|ds|, i requires 0 <= i < |ds| => if i in marked then Mark(ds[i]) else Matched(ds[i], current))
  }

  ghost predicate Noted(d: Desired, duplicate: bool, changes: map<Hash, Change>) {
    d.id.Some? && d.hash in changes && changes[d.hash] == Change(d.id.value, duplicate)
  }

  /** The changes noted for the listings dropped by the first pass and marked by the second. */
  ghost predicate ChangesMarked(ds: seq<Desired>, current: map<Id, Content>, marked: set<nat>,
                                changes: map<Hash, Change>)
  {
    && changes.Keys == HashesOf(ds, DroppedAt(ds, |ds|, current) + marked)
    && (forall j: nat :: j < |ds| && (j in marked || Dropped(ds[j], current)) ==> Noted(ds[j], j in marked, changes))
  }

  ghost predicate MarkedQueues(ds: seq<Desired>, current: map<Id, Content>, marked: set<nat>, create: set<Hash>,
                               update: set<Hash>, changes: map<Hash, Change>)
  {
    && create == HashesOf(ds, FindsAt(ds, |ds|, current, Create) - marked)
    && update == HashesOf(ds, FindsAt(ds, |ds|, current, Update) - marked)
    && ChangesMarked(ds, current, marked, changes)
  }

  lemma MarkedOneMore(ds: seq<Desired>, at: set<nat>, marked: set<nat>, j: nat)
    requires j < |ds| && DistinctHashes(ds)
    ensures HashesOf(ds, at - (marked + {j})) == HashesOf(ds, at - marked) - {ds[j].hash}
    ensures HashesOf(ds, at + (marked + {j})) == HashesOf(ds, at + marked) + {ds[j].hash}
  {
  }

  lemma ChangesOneMore(ds: seq<Desired>, current: map<Id, Content>, marked: set<nat>, j: nat,
                       changes: map<Hash, Change>)
    requires j < |ds| && DistinctHashes(ds) && Claims(ds[j]) && ChangesMarked(ds, current, marked, changes)
    ensures ChangesMarked(ds, current, marked + {j}, changes[ds[j].hash := Change(ds[j].id.value, true)])
  {
  }

  lemma MarkOneMore(ds: seq<Desired>, current: map<Id, Content>, marked: set<nat>, j: nat, create: set<Hash>,
                    update: set<Hash>, changes: map<Hash, Change>)
    requires j < |ds| && DistinctHashes(ds) && Claims(ds[j])
    requires MarkedQueues(ds, current, marked, create, update, changes)
    ensures MarkedQueues(ds, current, marked + {j}, create - {ds[j].hash}, update - {ds[j].hash},
                         changes[ds[j].hash := Change(ds[j].id.value, true)])
  {
    hide HashesOf, FindsAt, ChangesMarked;
    MarkedOneMore(ds, FindsAt(ds, |ds|, current, Create), marked, j);
    MarkedOneMore(ds, FindsAt(ds, |ds|, current, Update), marked, j);
    ChangesOneMore(ds, current, marked, j, changes);
  }

  /** What the second pass has established when it has marked `marked`. */
  ghost predicate SecondPass(ds: seq<Desired>, marked: set<nat>, desired: seq<DesiredListing>,
                             current: map<Id, Content>, create: set<Hash>, update: set<Hash>,
                             changes: map<Hash, Change>)
    reads desired
  {
    && |ds| == |desired| && DistinctObjects(desired) && DistinctHashes(ds)
    && Are(desired, MarkedValues(ds, current, marked))
    && MarkedQueues(ds, current, marked, create, update, changes)
  }

  lemma SecondPassStarts(ds: seq<Desired>, desired: seq<DesiredListing>, current: map<Id, Content>, create: set<Hash>,
                         update: set<Hash>, changes: map<Hash, Change>, duplicates: map<Id, seq<nat>>)
    requires FirstPass(ds, |ds|, desired, current, create, update, changes, duplicates)
    ensures SecondPass(ds, {}, desired, current, create, update, changes)
  {
  }

  lemma MarkedValuesOneMore(ds: seq<Desired>, current: map<Id, Content>, marked: set<nat>, j: nat)
    requires j < |ds|
    ensures |MarkedValues(ds, current, marked)| == |ds|
    ensures MarkedValues(ds, current, marked + {j}) == MarkedValues(ds, current, marked)[j := Mark(ds[j])]
    ensures Mark(MarkedValues(ds, current, marked)[j]) == Mark(ds[j])
  {
  }

  /** The callback of the second pass, for a later claimant of `id`. */
  method MarkDuplicate(desired: seq<DesiredListing>, j: nat, id: Id, current: map<Id, Content>, create: set<Hash>,
                       update: set<Hash>, changes: map<Hash, Change>, ghost ds: seq<Desired>, ghost marked: set<nat>)
    returns (create': set<Hash>, update': set<Hash>, changes': map<Hash, Change>)
    requires j < |ds| && Claims(ds[j]) && ds[j].id == Some(id)
    requires SecondPass(ds, marked, desired, current, create, update, changes)
    modifies desired
    ensures SecondPass(ds, marked + {j}, desired, current, create', update', changes')
  {
    MarkOneMore(ds, current, marked, j, create, update, changes);
    MarkedValuesOneMore(ds, current, marked, j);
    hide MarkedQueues, MarkedValues, DistinctHashes, Matched;
    var d := desired[j];
    assert d.hash == ds[j].hash;
    d.SetError(Some(DuplicateListing));
    d.SetID(None);
    create' := create - {d.hash};
    update' := update - {d.hash};
    changes' := changes[d.hash := Change(id, true)];
  }

  /** The positions `list[1..k]`. */
  ghost function LaterOf(list: seq<nat>, k: nat): set<nat>
    requires 1 <= k <= |list|
  {
    set l | 1 <= l < k :: list[l]
  }

  lemma LaterOneMore(list: seq<nat>, k: nat)
    requires 1 <= k < |list|
    ensures LaterOf(list, k + 1) == LaterOf(list, k) + {list[k]}
  {
  }

  /** The second pass within the claimants of one id: `list[1..k]` are marked. */
  ghost predicate SecondPassIn(ds: seq<Desired>, ids: set<Id>, id: Id, list: seq<nat>, k: nat,
                               desired: seq<DesiredListing>, current: map<Id, Content>, create: set<Hash>,
                               update: set<Hash>, changes: map<Hash, Change>)
    reads desired
  {
    && 1 <= k <= |list|
    && ListedFor(ds, |ds|, id, list)
    && SecondPass(ds, TakenAt(ds, ids) + LaterOf(list, k), desired, current, create, update, changes)
  }

  method MarkNext(desired: seq<DesiredListing>, dupes: seq<nat>, k: nat, id: Id, current: map<Id, Content>,
                  create: set<Hash>, update: set<Hash>, changes: map<Hash, Change>, ghost ds: seq<Desired>,
                  ghost ids: set<Id>)
    returns (create': set<Hash>, update': set<Hash>, changes': map<Hash, Change>)
    requires k < |dupes| && SecondPassIn(ds, ids, id, dupes, k, desired, current, create, update, changes)
    modifies desired
    ensures SecondPassIn(ds, ids, id, dupes, k + 1, desired, current, create', update', changes')
  {
    LaterOneMore(dupes, k);
    ghost var marked := TakenAt(ds, ids) + LaterOf(dupes, k);
    assert marked + {dupes[k]} == TakenAt(ds, ids) + LaterOf(dupes, k + 1);
    hide TakenAt, LaterOf, SecondPass, Are;
    create', update', changes' := MarkDuplicate(desired, dupes[k], id, current, create, update, changes, ds, marked);
  }

  /** All but the first claimant of `id` lose it. */
  method MarkDuplicatesOf(desired: seq<DesiredListing>, id: Id, current: map<Id, Content>, dupes: seq<nat>,
                          create: set<Hash>, update: set<Hash>, changes: map<Hash, Change>, ghost ds: seq<Desired>,
                          ghost ids: set<Id>)
    returns (create': set<Hash>, update': set<Hash>, changes': map<Hash, Change>)
    requires 1 <= |dupes| && SecondPassIn(ds, ids, id, dupes, 1, desired, current, create, update, changes)
    modifies desired
    ensures SecondPassIn(ds, ids, id, dupes, |dupes|, desired, current, create', update', changes')
  {
    hide *;
    create', update', changes' := create, update, changes;
    var k := 1;
    while k < |dupes|
      invariant 1 <= k <= |dupes|
      invariant SecondPassIn(ds, ids, id, dupes, k, desired, current, create', update', changes')
    {
      create', update', changes' := MarkNext(desired, dupes, k, id, current, create', update', changes', ds, ids);
      k := k + 1;
    }
  }

  lemma InStarts(ds: seq<Desired>, ids: set<Id>, id: Id, duplicates: map<Id, seq<nat>>, desired: seq<DesiredListing>,
                 current: map<Id, Content>, create: set<Hash>, update: set<Hash>, changes: map<Hash, Change>)
    requires ClaimsListed(ds, |ds|, duplicates) && id in duplicates
    requires SecondPass(ds, TakenAt(ds, ids), desired, current, create, update, changes)
    ensures duplicates[id] != [] && SecondPassIn(ds, ids, id, duplicates[id], 1, desired, current, create, update,
        changes)
  {
    assert ListedFor(ds, |ds|, id, duplicates[id]);
    assert TakenAt(ds, ids) + LaterOf(duplicates[id], 1) == TakenAt(ds, ids);
    hide SecondPass, TakenAt;
  }

  lemma InEnds(ds: seq<Desired>, ids: set<Id>, id: Id, duplicates: map<Id, seq<nat>>, desired: seq<DesiredListing>,
               current: map<Id, Content>, create: set<Hash>, update: set<Hash>, changes: map<Hash, Change>)
    requires ClaimsListed(ds, |ds|, duplicates) && id in duplicates
    requires var list := duplicates[id];
      list != [] && SecondPassIn(ds, ids, id, list, |list|, desired, current, create, update, changes)
    ensures SecondPass(ds, TakenAt(ds, ids + {id}), desired, current, create, update, changes)
  {
    ListedTwice(ds, ids, id, duplicates);
    var list := duplicates[id];
    assert LaterOf(list, |list|) == set k | 1 <= k < |list| :: list[k];
    hide SecondPass, TakenAt, ClaimsListed, LaterOf;
  }

  /** The second pass, in whatever order the ids come. */
  method MarkDuplicates(desired: seq<DesiredListing>, current: map<Id, Content>, duplicates: map<Id, seq<nat>>,
                        create: set<Hash>, update: set<Hash>, changes: map<Hash, Change>, ghost ds: seq<Desired>)
    returns (create': set<Hash>, update': set<Hash>, changes': map<Hash, Change>)
    requires ClaimsListed(ds, |ds|, duplicates)
    requires SecondPass(ds, TakenAt(ds, {}), desired, current, create, update, changes)
    modifies desired
    ensures SecondPass(ds, TakenAt(ds, duplicates.Keys), desired, current, create', update', changes')
  {
    hide *;
    create', update', changes' := create, update, changes;
    var rest := duplicates.Keys;
    assert duplicates.Keys - rest == {};
    while rest != {}
      invariant rest <= duplicates.Keys
      invariant SecondPass(ds, TakenAt(ds, duplicates.Keys - rest), desired, current, create', update', changes')
      decreases rest
    {
      var id :| id in rest;
      ghost var ids := duplicates.Keys - rest;
      InStarts(ds, ids, id, duplicates, desired, current, create', update', changes');
      if |duplicates[id]| != 1 {
        create', update', changes' :=
          MarkDuplicatesOf(desired, id, current, duplicates[id], create', update', changes', ds, ids);
      }
      InEnds(ds, ids, id, duplicates, desired, current, create', update', changes');
      assert ids + {id} == duplicates.Keys - (rest - {id});
      rest := rest - {id};
    }
    assert duplicates.Keys - rest == duplicates.Keys;
  }

  // ----- what the two passes amount to

  ghost function NeedsAt(ds: seq<Desired>, current: map<Id, Content>, action: Action): set<nat> {
    set j: nat | j < |ds| && Needs(After(ds, current, j), current) == action
  }

  /** The desired listings after the two passes are those of the plan, and the queues and
      changes are what these listings need. */
  ghost predicate Reconciled(ds: seq<Desired>, desired: seq<DesiredListing>, current: map<Id, Content>,
                             create: set<Hash>, update: set<Hash>, changes: map<Hash, Change>)
    reads desired
  {
    && |ds| == |desired| && DistinctObjects(desired) && DistinctHashes(ds)
    && Are(desired, Planned(ds, current))
    && create == HashesOf(ds, NeedsAt(ds, current, Create))
    && update == HashesOf(ds, NeedsAt(ds, current, Update))
    && changes == Changes(ds, current)
  }

  ghost predicate AllClaimed(ds: seq<Desired>, ids: set<Id>) {
    forall j :: 0 <= j < |ds| && Claims(ds[j]) ==> ds[j].id.value in ids
  }

  lemma MarkedArePlanned(ds: seq<Desired>, current: map<Id, Content>, ids: set<Id>)
    requires AllClaimed(ds, ids)
    ensures MarkedValues(ds, current, TakenAt(ds, ids)) == Planned(ds, current)
  {
  }

  lemma FindsAreNeeded(ds: seq<Desired>, current: map<Id, Content>, ids: set<Id>, action: Action)
    requires AllClaimed(ds, ids) && action != Nothing
    ensures FindsAt(ds, |ds|, current, action) - TakenAt(ds, ids) == NeedsAt(ds, current, action)
  {
  }

  lemma MarkedAreChanges(ds: seq<Desired>, current: map<Id, Content>, ids: set<Id>, changes: map<Hash, Change>)
    requires AllClaimed(ds, ids) && DistinctHashes(ds) && ChangesMarked(ds, current, TakenAt(ds, ids), changes)
    ensures changes == Changes(ds, current)
  {
    var marked := TakenAt(ds, ids);
    forall i: nat | i < |ds|
      ensures ChangeOf(ds, current, i).Some? <==> i in marked || Dropped(ds[i], current)
      ensures ChangeOf(ds, current, i).Some? ==> ChangeOf(ds, current, i).value == Change(ds[i].id.value, i in marked)
    {
      hide TakenBefore;
    }
    ChangesAt(ds, current, |ds|);
    SameChanges(ds, current, marked, changes);
  }

  /** Where the changes noted come from. */
  lemma ChangedAt(ds: seq<Desired>, current: map<Id, Content>, marked: set<nat>, changes: map<Hash, Change>, h: Hash)
    returns (j: nat)
    requires ChangesMarked(ds, current, marked, changes) && h in changes
    ensures j < |ds| && ds[j].hash == h && (j in marked || Dropped(ds[j], current))
    ensures Noted(ds[j], j in marked, changes)
  {
    assert h in HashesOf(ds, DroppedAt(ds, |ds|, current) + marked);
    j :| j in DroppedAt(ds, |ds|, current) + marked && j < |ds| && ds[j].hash == h;
    hide Dropped, Noted;
  }

  lemma SameChanges(ds: seq<Desired>, current: map<Id, Content>, marked: set<nat>, changes: map<Hash, Change>)
    requires DistinctHashes(ds) && ChangesMarked(ds, current, marked, changes)
    requires forall i: nat :: i < |ds| ==> (ChangeOf(ds, current, i).Some? <==> i in marked || Dropped(ds[i], current))
    requires forall i: nat :: i < |ds| && ChangeOf(ds, current, i).Some? ==>
               ChangeOf(ds, current, i).value == Change(ds[i].id.value, i in marked)
    ensures changes == Changes(ds, current)
  {
    ChangesAt(ds, current, |ds|);
    var all := Changes(ds, current);
    forall h | h in changes ensures h in all && all[h] == changes[h] {
      hide ChangesUpTo, ChangeOf, Dropped, DistinctHashes, ChangesMarked;
      var j := ChangedAt(ds, current, marked, changes, h);
    }
    forall h | h in all ensures h in changes {
      hide ChangesUpTo, ChangeOf, Dropped, DistinctHashes, HashesOf, DroppedAt;
      var j: nat :| j < |ds| && ds[j].hash == h;
      assert Noted(ds[j], j in marked, changes);
    }
  }

  lemma PassesReconcile(ds: seq<Desired>, ids: set<Id>, desired: seq<DesiredListing>, current: map<Id, Content>,
                        create: set<Hash>, update: set<Hash>, changes: map<Hash, Change>)
    requires AllClaimed(ds, ids)
    requires SecondPass(ds, TakenAt(ds, ids), desired, current, create, update, changes)
    ensures Reconciled(ds, desired, current, create, update, changes)
  {
    hide TakenAt, FindsAt, NeedsAt, HashesOf, AllClaimed, MarkedValues, Planned, ChangesMarked, Changes, Are,
        DistinctHashes, DistinctObjects;
    MarkedArePlanned(ds, current, ids);
    FindsAreNeeded(ds, current, ids, Create);
    FindsAreNeeded(ds, current, ids, Update);
    MarkedAreChanges(ds, current, ids, changes);
  }

  // ----- third pass

  /** The guards of the third pass. */
  method IsQueued(d: DesiredListing, inventory: Option<Inventory>) returns (queued: bool)
    ensures queued == Retry(d.Value(), inventory)
  {
    if d.error == Some(InvalidItem) {
      return false;
    } else if d.error.None? && d.id.Some? {
      return false;
    } else if d.error == Some(DuplicateListing) {
      return false;
    } else if d.error == Some(ItemDoesNotExist) && inventory.Some? {
      var i := inventory.value;
      var difference := Abs(i.refresh - i.currentTime) + 1;
      if d.lastAttemptedAt.Some? && d.lastAttemptedAt.value != 0
         && d.lastAttemptedAt.value > i.lastUpdate + difference {
        return false;
      }
    }
    return true;
  }

  ghost function RetryAt(ds: seq<Desired>, current: map<Id, Content>, inventory: Option<Inventory>, n: nat): set<nat>
    requires n <= |ds|
  {
    set j: nat | j < n && Retry(After(ds, current, j), inventory)
  }

  ghost predicate ThirdPass(ds: seq<Desired>, i: nat, desired: seq<DesiredListing>, current: map<Id, Content>,
                            inventory: Option<Inventory>, create: set<Hash>, update: set<Hash>)
    reads desired
  {
    && i <= |ds| == |desired| && DistinctHashes(ds)
    && Are(desired, Planned(ds, current))
    && create == HashesOf(ds, NeedsAt(ds, current, Create) + RetryAt(ds, current, inventory, i))
    && update == HashesOf(ds, NeedsAt(ds, current, Update) - RetryAt(ds, current, inventory, i))
  }

  lemma RetryOneMore(ds: seq<Desired>, current: map<Id, Content>, inventory: Option<Inventory>, i: nat)
    requires i < |ds|
    ensures Retry(After(ds, current, i), inventory) ==>
      RetryAt(ds, current, inventory, i + 1) == RetryAt(ds, current, inventory, i) + {i}
    ensures !Retry(After(ds, current, i), inventory) ==>
      RetryAt(ds, current, inventory, i + 1) == RetryAt(ds, current, inventory, i)
  {
  }

  lemma PlannedAt(ds: seq<Desired>, current: map<Id, Content>, i: nat)
    requires i < |ds|
    ensures |Planned(ds, current)| == |ds| && Planned(ds, current)[i] == After(ds, current, i)
    ensures After(ds, current, i).hash == ds[i].hash
  {
  }

  method QueueForCreation(desired: seq<DesiredListing>, i: nat, current: map<Id, Content>,
                          inventory: Option<Inventory>, create: set<Hash>, update: set<Hash>, ghost ds: seq<Desired>)
    returns (create': set<Hash>, update': set<Hash>)
    requires i < |ds| && ThirdPass(ds, i, desired, current, inventory, create, update)
    ensures ThirdPass(ds, i + 1, desired, current, inventory, create', update')
  {
    hide NeedsAt, RetryAt, HashesOf, Retry, After, DistinctHashes;
    create', update' := create, update;
    var d := desired[i];
    PlannedAt(ds, current, i);
    assert d.Value() == Planned(ds, current)[i];
    assert d.hash == ds[i].hash;
    RetryOneMore(ds, current, inventory, i);
    MarkedOneMore(ds, NeedsAt(ds, current, Create), RetryAt(ds, current, inventory, i), i);
    MarkedOneMore(ds, NeedsAt(ds, current, Update), RetryAt(ds, current, inventory, i), i);
    hide Planned, Are;
    var queued := IsQueued(d, inventory);
    if !queued {
      return;
    }
    if d.hash in update {
      update' := update - {d.hash};
    }
    create' := create + {d.hash};
  }

  lemma ThirdPassStarts(ds: seq<Desired>, desired: seq<DesiredListing>, current: map<Id, Content>,
                        inventory: Option<Inventory>, create: set<Hash>, update: set<Hash>,
                        changes: map<Hash, Change>)
    requires Reconciled(ds, desired, current, create, update, changes)
    ensures ThirdPass(ds, 0, desired, current, inventory, create, update)
  {
  }

  lemma ThirdPassEnds(ds: seq<Desired>, current: map<Id, Content>, inventory: Option<Inventory>)
    ensures HashesOf(ds, NeedsAt(ds, current, Create) + RetryAt(ds, current, inventory, |ds|))
         == CreateSet(ds, current, inventory)
    ensures HashesOf(ds, NeedsAt(ds, current, Update) - RetryAt(ds, current, inventory, |ds|))
         == UpdateSet(ds, current, inventory)
  {
  }

  method QueueAllForCreation(desired: seq<DesiredListing>, current: map<Id, Content>, inventory: Option<Inventory>,
                             create: set<Hash>, update: set<Hash>, ghost ds: seq<Desired>)
    returns (create': set<Hash>, update': set<Hash>)
    requires |ds| == |desired| && ThirdPass(ds, 0, desired, current, inventory, create, update)
    ensures create' == CreateSet(ds, current, inventory)
    ensures update' == UpdateSet(ds, current, inventory)
  {
    create', update' := create, update;
    var i := 0;
    while i < |desired|
      invariant i <= |ds| == |desired|
      invariant ThirdPass(ds, i, desired, current, inventory, create', update')
    {
      hide *;
      create', update' := QueueForCreation(desired, i, current, inventory, create', update', ds);
      i := i + 1;
    }
    ThirdPassEnds(ds, current, inventory);
    hide CreateSet, UpdateSet, NeedsAt, RetryAt, HashesOf, Are;
  }

  // ----- the listings to remove

  datatype Listing = Listing(id: Id, content: Content)

  function ById(listings: seq<Listing>): map<Id, Content> {
    if listings == [] then map[]
    else
      var last := listings[|listings| - 1];
      ById(listings[..|listings| - 1])[last.id := last.content]
  }

  lemma {:induction false} ByIdKeys(listings: seq<Listing>, id: Id)
    ensures id in ById(listings) <==> exists k :: 0 <= k < |listings| && listings[k].id == id
  {
    if listings != [] { ByIdKeys(listings[..|listings| - 1], id); }
  }

  method MapCurrent(listings: seq<Listing>) returns (current: map<Id, Content>)
    ensures current == ById(listings)
  {
    current := map[];
    for k := 0 to |listings|
      invariant current == ById(listings[..k])
    {
      assert listings[..k + 1][..k] == listings[..k];
      current := current[listings[k].id := listings[k].content];
    }
    assert listings[..|listings|] == listings;
  }

  method HeldIds(desired: seq<DesiredListing>, ghost ps: seq<Desired>) returns (held: set<Id>)
    requires Are(desired, ps)
    ensures forall id :: id in held <==> exists j :: 0 <= j < |ps| && ps[j].id == Some(id)
  {
    held := {};
    for i := 0 to |desired|
      invariant forall id :: id in held <==> exists j :: 0 <= j < i && ps[j].id == Some(id)
    {
      assert desired[i].Value() == ps[i];
      if desired[i].id.Some? {
        held := held + {desired[i].id.value};
      }
    }
  }

  method ListingsToRemove(listings: seq<Listing>, desired: seq<DesiredListing>,
                          ghost ds: seq<Desired>) returns (remove: set<Id>)
    requires Are(desired, Planned(ds, ById(listings)))
    ensures remove == RemoveSet(ds, ById(listings))
  {
    ghost var current := ById(listings);
    var desiredWithId := HeldIds(desired, Planned(ds, current));
    assert forall id :: id in desiredWithId <==> Held(ds, current, id) by {
      forall id ensures id in desiredWithId <==> Held(ds, current, id) {
        assert forall j :: 0 <= j < |ds| ==> Planned(ds, current)[j] == After(ds, current, j);
      }
    }
    remove := {};
    for k := 0 to |listings|
      invariant forall id :: id in remove <==> id !in desiredWithId && exists l :: 0 <= l < k && listings[l].id == id
    {
      if listings[k].id !in desiredWithId {
        remove := remove + {listings[k].id};
      }
    }
    forall id ensures id in remove <==> id in RemoveSet(ds, current) {
      ByIdKeys(listings, id);
    }
  }

  // ----- the plan

  /** The passes of `planListings` over the listings and the inventory it has read compute the plan. */
  method PlanListings(listings: seq<Listing>, desired: seq<DesiredListing>, inventory: Option<Inventory>,
                      ghost ds: seq<Desired>)
    returns (create: set<Hash>, update: set<Hash>, remove: set<Id>, changes: map<Hash, Change>)
    requires DistinctObjects(desired) && DistinctHashes(ds) && Are(desired, ds)
    modifies desired
    ensures Are(desired, Planned(ds, ById(listings)))
    ensures create == CreateSet(ds, ById(listings), inventory)
    ensures update == UpdateSet(ds, ById(listings), inventory)
    ensures remove == RemoveSet(ds, ById(listings))
    ensures changes == Changes(ds, ById(listings))
  {
    var current := MapCurrent(listings);
    var duplicates;
    create, update, changes, duplicates := CheckListings(desired, current, ds);
    create, update, changes := Reconcile(desired, current, duplicates, create, update, changes, ds);
    ThirdPassStarts(ds, desired, current, inventory, create, update, changes);
    hide ThirdPass, RemoveSet, CreateSet, UpdateSet, Changes, ById, Planned, NeedsAt, HashesOf, DistinctObjects,
        DistinctHashes, Are, FirstPass;
    create, update := QueueAllForCreation(desired, current, inventory, create, update, ds);
    remove := ListingsToRemove(listings, desired, ds);
  }

  method Reconcile(desired: seq<DesiredListing>, current: map<Id, Content>, duplicates: map<Id, seq<nat>>,
                   create: set<Hash>, update: set<Hash>, changes: map<Hash, Change>, ghost ds: seq<Desired>)
    returns (create': set<Hash>, update': set<Hash>, changes': map<Hash, Change>)
    requires FirstPass(ds, |ds|, desired, current, create, update, changes, duplicates)
    modifies desired
    ensures Reconciled(ds, desired, current, create', update', changes')
  {
    SecondPassStarts(ds, desired, current, create, update, changes, duplicates);
    assert TakenAt(ds, {}) == {};
    assert AllClaimed(ds, duplicates.Keys);
    hide SecondPass, TakenAt, Reconciled, AllClaimed, ClaimsListed, Checked, Are, MatchedUpTo, DistinctObjects,
        DistinctHashes;
    create', update', changes' := MarkDuplicates(desired, current, duplicates, create, update, changes, ds);
    PassesReconcile(ds, duplicates.Keys, desired, current, create', update', changes');
  }

  // ----- the mutation handed to `updateDesired`

  ghost function AppliedUpTo(ds: seq<Desired>, n: nat, changes: map<Hash, Change>): seq<Desired>
    requires n <= |ds|
  {
    seq(|ds|, i requires 0 <= i < |ds| => if i < n then ApplyOne(ds[i], changes) else ds[i])
  }

  method MutateOne(d: DesiredListing, changes: map<Hash, Change>)
    modifies d
    ensures d.Value() == ApplyOne(old(d.Value()), changes)
  {
    if d.hash !in changes || d.id != Some(changes[d.hash].id) {
      return;
    }
    d.SetID(None);
    if changes[d.hash].duplicate {
      d.SetError(Some(DuplicateListing));
    }
  }

  /** Goes through the listings read back under their locks. */
  method MutateStored(stored: seq<DesiredListing>, changes: map<Hash, Change>, ghost ds: seq<Desired>)
    requires |ds| == |stored| && DistinctObjects(stored) && Are(stored, ds)
    modifies stored
    ensures Are(stored, seq(|ds|, i requires 0 <= i < |ds| => ApplyOne(ds[i], changes)))
  {
    hide ApplyOne;
    for k := 0 to |stored|
      invariant Are(stored, AppliedUpTo(ds, k, changes))
    {
      assert stored[k].Value() == ds[k];
      MutateOne(stored[k], changes);
    }
  }
}
