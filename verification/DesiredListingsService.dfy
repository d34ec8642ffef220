/** `compareAndUpdateDesired`: listings to add take over, in place, what is stored for them. */
module DesiredListingsService {
  import opened Wrappers
  import opened ListingPlan
  import opened DesiredListings

  class AddDesiredListing {
    const hash: Hash
    const content: Content
    var id: Option<Id>
    var error: Option<Error>
    var lastAttemptedAt: Option<int>
    var force: bool

    ghost function Value(): Addition
      reads this
    {
      Addition(Desired(hash, id, content, error, lastAttemptedAt), force)
    }

    constructor (a: Addition)
      ensures Value() == a
    {
      hash, content, id, error := a.desired.hash, a.desired.content, a.desired.id, a.desired.error;
      lastAttemptedAt, force := a.desired.lastAttemptedAt, a.force;
    }

    method IsDifferent(other: Desired) returns (different: bool)
      ensures different == (force || content != other.content)
    {
      if force {
        return true;
      }
      different := content != other.content;
    }

    method Inherit(other: Desired)
      modifies this
      ensures Value() == Inherited(old(Value()), other)
    {
      if other.id.Some? {
        id := other.id;
      }
      if other.error.Some? {
        error := other.error;
      }
      if other.lastAttemptedAt.Some? && other.lastAttemptedAt.value != 0 {
        lastAttemptedAt := other.lastAttemptedAt;
      }
      if force {
        return;
      }
      if Or(content.quantity, 1) != Or(other.content.quantity, 1) {
        // a listing is not updated to another quantity
        force := true;
      }
    }
  }

  /** Whether an addition is reported: it is new, forced, of another quantity, or of other content. */
  predicate IsChanged(a: Addition, current: Store) {
    a.desired.hash in current ==>
      || InheritedFrom(a, current).force
      || a.desired.content != current[a.desired.hash].content
  }

  /** Another quantity is other content, so only force and content matter. */
  lemma ChangedMeansForcedOrDifferent(a: Addition, current: Store)
    ensures IsChanged(a, current) <==>
      (a.desired.hash in current ==> a.force || a.desired.content != current[a.desired.hash].content)
  {
  }

  ghost predicate Are(desired: seq<AddDesiredListing>, add: seq<Addition>, n: nat, current: Store)
    reads desired
  {
    && |add| == |desired|
    && forall i :: 0 <= i < |desired| ==> desired[i].Value() == if i < n then InheritedFrom(add[i], current) else add[i]
  }

  method CompareAndUpdateDesired(desired: seq<AddDesiredListing>, current: Store, ghost add: seq<Addition>)
    returns (changed: seq<AddDesiredListing>)
    requires Are(desired, add, 0, current) && forall i, j :: 0 <= i < j < |desired| ==> desired[i] != desired[j]
    modifies desired
    ensures Are(desired, add, |desired|, current)
    ensures forall i :: 0 <= i < |desired| ==> (desired[i] in changed <==> IsChanged(add[i], current))
    ensures forall x :: x in changed ==> x in desired
    ensures forall i, j :: 0 <= i < j < |changed| ==> changed[i] != changed[j]
  {
    changed := [];
    for i := 0 to |desired|
      invariant Are(desired, add, i, current)
      invariant forall j :: 0 <= j < i ==> (desired[j] in changed <==> IsChanged(add[j], current))
      invariant forall x :: x in changed ==> x in desired[..i]
      invariant forall k, l :: 0 <= k < l < |changed| ==> changed[k] != changed[l]
    {
      var d := desired[i];
      assert d.Value() == add[i];
      assert d !in desired[..i];
      var c := if d.hash in current then Some(current[d.hash]) else None;
      hide Inherited;
      var report := true;
      if c.Some? {
        d.Inherit(c.value);
        report := d.IsDifferent(c.value);
        SameContent(add[i], c.value);
      }
      if report {
        changed := changed + [d];
      }
      assert desired[..i + 1] == desired[..i] + [d];
    }
    assert desired[..|desired|] == desired;
  }

  lemma SameContent(a: Addition, c: Desired)
    ensures Inherited(a, c).desired.content == a.desired.content && Inherited(a, c).desired.hash == a.desired.hash
  {
  }
}
