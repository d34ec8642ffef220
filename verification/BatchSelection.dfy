/** Which queued listings the next create batch takes: those that hold a listing id first,
    in the order they are stored, then new ones by priority while listing slots are free.
    The create queue is a Redis sorted set, kept here as its members in rank order. */
module BatchSelection {
  import opened Wrappers
  import opened Collections
  import opened ListingPlan

  datatype Limits = Limits(cap: int, used: int)

  datatype Result<+T> = Ok(value: T) | Err(message: string)

  /** Which of them have an id, in the order they are stored. */
  function WithId(desired: seq<Desired>): seq<Hash> {
    if desired == [] then []
    else
      var last := desired[|desired| - 1];
      WithId(desired[..|desired| - 1]) + (if last.id.Some? then [last.hash] else [])
  }

  /** A hash is among them exactly if some listing of that hash has an id, and they come in the
      order of the listings. */
  lemma {:induction false} WithIdExactly(desired: seq<Desired>, h: Hash)
    ensures h in WithId(desired) <==> exists i :: 0 <= i < |desired| && desired[i].hash == h && desired[i].id != None
  {
    if desired != [] {
      var front, last := desired[..|desired| - 1], desired[|desired| - 1];
      WithIdExactly(front, h);
      assert desired == front + [last];
    }
  }

  lemma {:induction false} WithIdInOrder(a: seq<Desired>, b: seq<Desired>)
    ensures WithId(a + b) == WithId(a) + WithId(b)
  {
    if b == [] {
      assert a + b == a;
    } else {
      assert (a + b)[..|a + b| - 1] == a + b[..|b| - 1];
      WithIdInOrder(a, b[..|b| - 1]);
    }
  }

  /** Those of them that are queued, up to `count`. */
  function Known(ids: seq<Hash>, queue: seq<Hash>, count: nat): seq<Hash> {
    if ids == [] then []
    else
      var known := Known(ids[..|ids| - 1], queue, count);
      var last := ids[|ids| - 1];
      if |known| < count && last in queue && last !in known then known + [last] else known
  }

  /** `zrem` */
  function Without(queue: seq<Hash>, hashes: seq<Hash>): seq<Hash> {
    if queue == [] then []
    else (if queue[0] in hashes then [] else [queue[0]]) + Without(queue[1..], hashes)
  }

  function New(known: seq<Hash>, queue: seq<Hash>, count: nat, free: int): seq<Hash> {
    var rest := Without(queue, known);
    rest[..Max(0, Min(|rest|, Min(count - |known|, free)))]
  }

  function Selected(ids: seq<Hash>, queue: seq<Hash>, count: nat, free: int): seq<Hash> {
    var known := Known(ids, queue, count);
    known + New(known, queue, count, free)
  }

  // ----- the method

  lemma {:induction false} KnownStops(ids: seq<Hash>, queue: seq<Hash>, count: nat, n: nat)
    requires n <= |ids| && |Known(ids[..n], queue, count)| >= count
    ensures Known(ids, queue, count) == Known(ids[..n], queue, count)
  {
    if n == |ids| {
      assert ids[..n] == ids;
    } else {
      assert ids[..|ids| - 1][..n] == ids[..n];
      KnownStops(ids[..|ids| - 1], queue, count, n);
    }
  }

  lemma KnownNext(ids: seq<Hash>, queue: seq<Hash>, count: nat, n: nat)
    requires n < |ids|
    ensures ids[..n + 1][..n] == ids[..n] && ids[..n + 1][n] == ids[n]
  {
  }

  method KnownHashes(ids: seq<Hash>, copy: seq<Hash>, count: nat) returns (hashes: seq<Hash>)
    ensures hashes == Known(ids, copy, count)
  {
    hashes := [];
    var index := 0;
    while index < |ids|
      invariant index <= |ids| && hashes == Known(ids[..index], copy, count)
    {
      if |hashes| >= count {
        // enough of them
        KnownStops(ids, copy, count, index);
        return;
      }
      KnownNext(ids, copy, count, index);
      if ids[index] in copy && ids[index] !in hashes {
        hashes := hashes + [ids[index]];
      }
      index := index + 1;
    }
    assert ids[..index] == ids;
  }

  /** `getListingsToCreate`, on what it reads. */
  method GetListingsToCreate(desired: seq<Desired>, queue: seq<Hash>, limits: Option<Limits>, count: nat)
    returns (r: Result<seq<Hash>>)
    requires Distinct(queue)
    ensures limits.None? ==> r.Err?
    ensures limits.Some? ==>
      r == Ok(Selected(WithId(desired), queue, count, limits.value.cap - limits.value.used))
  {
    if limits.None? {
      return Err("Listing limits not found");
    }
    ghost var free := limits.value.cap - limits.value.used;
    var ids := DesiredHashes(desired);
    var copy := queue;
    var known := KnownHashes(ids, copy, count);
    if |known| > 0 {
      copy := Without(copy, known);
    } else {
      NothingRemoved(copy);
    }
    KnownIsQueued(ids, queue, count);
    var hashes := known;
    assert known + [] == known;
    var remaining := Min(count - |hashes|, limits.value.cap - limits.value.used);
    if remaining > 0 {
      var range := copy[..Min(|copy|, remaining)];
      WithoutContents(queue, known);
      AddAll(known, range, count);
      for i := 0 to |range|
        invariant hashes == known + range[..i]
      {
        if |hashes| >= count {
          break;
        }
        if range[i] !in hashes {
          hashes := hashes + [range[i]];
        }
      }
      assert range[..|range|] == range;
    }
    r := Ok(hashes);
  }

  /** What a range of other queued hashes adds, one after the other. */
  lemma AddAll(known: seq<Hash>, range: seq<Hash>, count: nat)
    requires Distinct(range) && |known| + |range| <= count && forall h :: h in range ==> h !in known
    ensures forall i :: 0 <= i < |range| ==>
              range[i] !in known + range[..i] && known + range[..i] + [range[i]] == known + range[..i + 1]
              && |known + range[..i]| < count
  {
  }

  method DesiredHashes(desired: seq<Desired>) returns (ids: seq<Hash>)
    ensures ids == WithId(desired)
  {
    ids := [];
    for i := 0 to |desired|
      invariant ids == WithId(desired[..i])
    {
      assert desired[..i + 1][..i] == desired[..i];
      if desired[i].id.Some? {
        ids := ids + [desired[i].hash];
      }
    }
    assert desired[..|desired|] == desired;
  }

  // ----- the parts

  /** Before the first `count` are found every queued one is taken; the one after is not needed. */
  lemma {:induction false} KnownIsQueued(ids: seq<Hash>, queue: seq<Hash>, count: nat)
    ensures var known := Known(ids, queue, count);
      && Distinct(known) && |known| <= count
      && (forall h :: h in known ==> h in ids && h in queue)
      && (|known| < count ==> forall h :: h in ids && h in queue ==> h in known)
  {
    if ids != [] {
      KnownIsQueued(ids[..|ids| - 1], queue, count);
      assert ids == ids[..|ids| - 1] + [ids[|ids| - 1]];
    }
  }

  lemma {:induction false} WithoutContents(queue: seq<Hash>, hashes: seq<Hash>)
    ensures forall h :: h in Without(queue, hashes) <==> h in queue && h !in hashes
    ensures Distinct(queue) ==> Distinct(Without(queue, hashes))
  {
    if queue != [] {
      WithoutContents(queue[1..], hashes);
      assert forall h :: h in queue <==> h == queue[0] || h in queue[1..];
    }
  }

  lemma {:induction false} NothingRemoved(queue: seq<Hash>)
    ensures Without(queue, []) == queue
  {
    if queue != [] {
      NothingRemoved(queue[1..]);
    }
  }

  /** `zrem` keeps the ranks. */
  lemma {:induction false} WithoutKeepsOrder(queue: seq<Hash>, hashes: seq<Hash>, i: nat, j: nat) returns (k: nat,
                                             l: nat)
    requires i < j < |queue| && queue[i] !in hashes && queue[j] !in hashes
    ensures k < l < |Without(queue, hashes)|
    ensures Without(queue, hashes)[k] == queue[i] && Without(queue, hashes)[l] == queue[j]
  {
    var rest := Without(queue[1..], hashes);
    if i == 0 {
      WithoutContents(queue[1..], hashes);
      assert queue[j] == queue[1..][j - 1];
      var m :| 0 <= m < |rest| && rest[m] == queue[j];
      k, l := 0, m + 1;
    } else {
      k, l := WithoutKeepsOrder(queue[1..], hashes, i - 1, j - 1);
      if queue[0] !in hashes {
        k, l := k + 1, l + 1;
      }
    }
  }

  // ----- what a batch guarantees

  /** A batch has at most `count` distinct hashes, all of them queued. */
  lemma BatchIsQueued(ids: seq<Hash>, queue: seq<Hash>, count: nat, free: int)
    requires Distinct(queue)
    ensures var batch := Selected(ids, queue, count, free);
      && Distinct(batch) && |batch| <= count
      && forall h :: h in batch ==> h in queue
  {
    var known := Known(ids, queue, count);
    KnownIsQueued(ids, queue, count);
    WithoutContents(queue, known);
    var new_ := New(known, queue, count, free);
    assert forall k :: 0 <= k < |new_| ==> new_[k] == Without(queue, known)[k];
    assert forall h :: h in new_ ==> h in Without(queue, known);
    DistinctConcat(known, new_);
  }

  lemma DistinctConcat(a: seq<Hash>, b: seq<Hash>)
    requires Distinct(a) && Distinct(b) && forall h :: h in b ==> h !in a
    ensures Distinct(a + b)
  {
    forall i, j | 0 <= i < j < |a + b| ensures (a + b)[i] != (a + b)[j] {
      if i < |a| <= j { assert b[j - |a|] in b; }
    }
  }

  /** New listings never take more than the free slots, and only come after every queued
      listing that has an id. */
  lemma NewOnesFitFreeSlots(ids: seq<Hash>, queue: seq<Hash>, count: nat, free: int)
    requires Distinct(queue)
    ensures var batch := Selected(ids, queue, count, free);
      && |NotIn(batch, ids)| <= Max(0, free)
      && ((exists h :: h in batch && h !in ids) ==> forall h :: h in ids && h in queue ==> h in batch)
  {
    var known := Known(ids, queue, count);
    KnownIsQueued(ids, queue, count);
    WithoutContents(queue, known);
    NotInConcat(known, New(known, queue, count, free), ids);
    NotInNone(known, ids);
    NotInAtMost(New(known, queue, count, free), ids);
  }

  function NotIn(hashes: seq<Hash>, ids: seq<Hash>): seq<Hash> {
    Without(hashes, ids)
  }

  lemma {:induction false} NotInConcat(a: seq<Hash>, b: seq<Hash>, ids: seq<Hash>)
    ensures NotIn(a + b, ids) == NotIn(a, ids) + NotIn(b, ids)
  {
    if a == [] {
      assert a + b == b;
    } else {
      NotInConcat(a[1..], b, ids);
      assert (a + b)[1..] == a[1..] + b;
    }
  }

  lemma {:induction false} NotInNone(a: seq<Hash>, ids: seq<Hash>)
    requires forall h :: h in a ==> h in ids
    ensures NotIn(a, ids) == []
  {
    if a != [] { NotInNone(a[1..], ids); }
  }

  lemma {:induction false} NotInAtMost(a: seq<Hash>, ids: seq<Hash>)
    ensures |NotIn(a, ids)| <= |a|
  {
    if a != [] { NotInAtMost(a[1..], ids); }
  }

  lemma {:induction false} NotInAll(a: seq<Hash>, ids: seq<Hash>)
    requires forall h :: h in a ==> h !in ids
    ensures NotIn(a, ids) == a
  {
    if a != [] { NotInAll(a[1..], ids); }
  }

  /** New listings are taken by priority: nothing ranked before one of them is left behind. */
  lemma NewOnesByPriority(ids: seq<Hash>, queue: seq<Hash>, count: nat, free: int, i: nat, j: nat)
    requires Distinct(queue) && i < j < |queue|
    requires queue[j] in Selected(ids, queue, count, free) && queue[j] !in ids
    ensures queue[i] in Selected(ids, queue, count, free)
  {
    var known := Known(ids, queue, count);
    KnownIsQueued(ids, queue, count);
    WithoutContents(queue, known);
    if queue[i] !in known {
      var k, l := WithoutKeepsOrder(queue, known, i, j);
      var new_ := New(known, queue, count, free);
      var m :| 0 <= m < |new_| && new_[m] == queue[j];
      assert m == l;
      assert new_[k] == queue[i];
    }
  }

  /** Listings with an id are taken in the order they are stored. */
  lemma {:induction false} KnownOnesInOrder(ids: seq<Hash>, queue: seq<Hash>, count: nat, i: nat, j: nat)
    requires i < j < |ids| && Distinct(ids) && ids[i] in queue && ids[j] in Known(ids, queue, count)
    ensures ids[i] in Known(ids, queue, count)
  {
    var front := ids[..|ids| - 1];
    KnownIsQueued(front, queue, count);
    if j < |ids| - 1 {
      assert front[i] == ids[i] && front[j] == ids[j];
      KnownOnesInOrder(front, queue, count, i, j);
    } else {
      assert front[i] == ids[i];
    }
  }

  /** And they come in the batch in that order. */
  lemma {:induction false} KnownInStoredOrder(ids: seq<Hash>, queue: seq<Hash>, count: nat, a: nat, b: nat)
    requires a < b < |Known(ids, queue, count)|
    ensures var known := Known(ids, queue, count);
      exists i, j :: 0 <= i < j < |ids| && ids[i] == known[a] && ids[j] == known[b]
  {
    var n := |ids| - 1;
    var front, known := Known(ids[..n], queue, count), Known(ids, queue, count);
    if b < |front| {
      KnownInStoredOrder(ids[..n], queue, count, a, b);
      var i, j :| 0 <= i < j < |ids[..n]| && ids[..n][i] == front[a] && ids[..n][j] == front[b];
      assert ids[i] == known[a] && ids[j] == known[b];
    } else {
      KnownIsQueued(ids[..n], queue, count);
      assert known[a] == front[a] && front[a] in ids[..n];
      var i :| 0 <= i < n && ids[..n][i] == front[a];
      assert ids[i] == known[a] && ids[n] == known[b];
    }
  }

  /** A batch falls short only when all queued listings with an id are in it and either
      the free slots or the queue are used up. */
  lemma ShortBatchLeavesNothing(ids: seq<Hash>, queue: seq<Hash>, count: nat, free: int)
    requires Distinct(queue)
    ensures var batch := Selected(ids, queue, count, free);
      |batch| < count ==>
        && (forall h :: h in ids && h in queue ==> h in batch)
        && (|NotIn(batch, ids)| == Max(0, free) || forall h :: h in queue ==> h in batch)
  {
    var known := Known(ids, queue, count);
    var new_ := New(known, queue, count, free);
    KnownIsQueued(ids, queue, count);
    WithoutContents(queue, known);
    if |known + new_| < count {
      NotInConcat(known, new_, ids);
      NotInNone(known, ids);
      NotInAll(new_, ids);
      if |new_| == |Without(queue, known)| {
        assert new_ == Without(queue, known);
      }
    }
  }
}
