/** The desired listings of one account: a Redis hash that every operation reads and then
    writes back under locks on the hashes it touches, in separate steps.  Operations on other
    hashes run in between; this module shows that each still acts as one atomic step. */
module DesiredListings {
  import opened Wrappers
  import opened ListingPlan

  type Store = map<Hash, Desired>

  /** A listing to add, and whether it is to be queued in any case. */
  datatype Addition = Addition(desired: Desired, force: bool)

  type Mutation = d: (Desired -> Desired) | KeepsHash(d) witness (d => d)

  ghost predicate KeepsHash(mutate: Desired -> Desired) {
    forall d :: mutate(d).hash == d.hash
  }

  datatype Op =
    | Save(add: seq<Addition>, replace: bool, existing: set<Hash>)   // `existing` was read before locking
    | Remove(hashes: set<Hash>)
    | Update(hashes: set<Hash>, mutate: Mutation)

  function HashesOf(add: seq<Addition>): set<Hash> {
    set a | a in add :: a.desired.hash
  }

  function Locked(op: Op): set<Hash> {
    match op
    case Save(add, replace, existing) => if replace then HashesOf(add) + existing else HashesOf(add)
    case Remove(hashes) => hashes
    case Update(hashes, _) => hashes
  }

  function Read(store: Store, hashes: set<Hash>): Store {
    map h | h in store && h in hashes :: store[h]
  }

  /** `inherit` */
  function Inherited(a: Addition, c: Desired): Addition {
    var d := a.desired.(
      id := if c.id.Some? then c.id else a.desired.id,
      error := if c.error.Some? then c.error else a.desired.error,
      lastAttemptedAt := if c.lastAttemptedAt.Some? && c.lastAttemptedAt.value != 0 then c.lastAttemptedAt
                         else a.desired.lastAttemptedAt);
    Addition(d, a.force || Or(a.desired.content.quantity, 1) != Or(c.content.quantity, 1))
  }

  function InheritedFrom(a: Addition, current: Store): Addition {
    if a.desired.hash in current then Inherited(a, current[a.desired.hash]) else a
  }

  /** `hset`, of two listings with one hash the last counts. */
  function PutAll(add: seq<Addition>, current: Store): Store {
    if add == [] then map[]
    else
      var last := add[|add| - 1];
      PutAll(add[..|add| - 1], current)[last.desired.hash := InheritedFrom(last, current).desired]
  }

  datatype Edit = Edit(put: Store, del: set<Hash>)

  /** What an operation writes, given what it read. */
  function Writes(op: Op, read: Store): Edit {
    match op
    case Save(add, replace, _) =>
      Edit(PutAll(add, read), if replace then read.Keys - HashesOf(add) else {})
    case Remove(_) => Edit(map[], read.Keys)
    case Update(_, mutate) => Edit(map h | h in read :: mutate(read[h]), {})
  }

  function Applied(store: Store, edit: Edit): Store {
    store + edit.put - edit.del
  }

  /** The operation as one step. */
  function Atomic(store: Store, op: Op): Store {
    Applied(store, Writes(op, Read(store, Locked(op))))
  }

  // ----- the steps

  datatype Running = Running(op: Op, read: Option<Store>)

  datatype State = State(store: Store, running: map<nat, Running>)

  datatype Event = Lock(n: nat, op: Op) | ReadBack(n: nat) | Write(n: nat) | Abort(n: nat)

  const INIT := State(map[], map[])

  predicate Enabled(s: State, e: Event) {
    match e
    case Lock(n, op) => n !in s.running && forall m :: m in s.running ==> Locked(s.running[m].op) !! Locked(op)
    case ReadBack(n) => n in s.running && s.running[n].read.None?
    case Write(n) => n in s.running && s.running[n].read.Some?
    case Abort(n) => n in s.running
  }

  function Step(s: State, e: Event): State
    requires Enabled(s, e)
  {
    match e
    case Lock(n, op) => s.(running := s.running[n := Running(op, None)])
    case ReadBack(n) =>
      var op := s.running[n].op;
      s.(running := s.running[n := Running(op, Some(Read(s.store, Locked(op))))])
    case Write(n) =>
      State(Applied(s.store, Writes(s.running[n].op, s.running[n].read.value)), s.running - {n})
    case Abort(n) => s.(running := s.running - {n})
  }

  ghost predicate Runs(s: State, es: seq<Event>, t: State)
    decreases |es|
  {
    if es == [] then s == t else Enabled(s, es[0]) && Runs(Step(s, es[0]), es[1..], t)
  }

  // ----- what always holds

  predicate Keyed(store: Store) {
    forall h :: h in store ==> store[h].hash == h
  }

  /** Locks are exclusive, and what an operation read is still what is stored. */
  predicate Exclusive(running: map<nat, Running>) {
    forall m, n :: m in running && n in running && m != n ==> Locked(running[m].op) !! Locked(running[n].op)
  }

  predicate Current(store: Store, r: Running) {
    r.read.Some? ==> r.read.value == Read(store, Locked(r.op))
  }

  predicate Inv(s: State) {
    Keyed(s.store) && Exclusive(s.running) && forall n :: n in s.running ==> Current(s.store, s.running[n])
  }

  lemma {:induction false} PutContents(add: seq<Addition>, current: Store)
    ensures PutAll(add, current).Keys == HashesOf(add)
    ensures forall h :: h in PutAll(add, current) ==> PutAll(add, current)[h].hash == h
  {
    if add != [] {
      var front, last := add[..|add| - 1], add[|add| - 1];
      PutContents(front, current);
      assert add == front + [last];
      assert HashesOf(add) == HashesOf(front) + {last.desired.hash};
    }
  }

  /** An operation writes only what it locked. */
  lemma WritesLocked(op: Op, read: Store)
    requires read.Keys <= Locked(op) && Keyed(read)
    ensures var edit := Writes(op, read);
      edit.put.Keys <= Locked(op) && edit.del <= Locked(op) && Keyed(edit.put)
  {
    match op
    case Save(add, replace, existing) => PutContents(add, read);
    case Remove(_) =>
    case Update(_, mutate) =>
  }

  lemma OthersStayCurrent(store: Store, op: Op, edit: Edit, r: Running)
    requires edit.put.Keys <= Locked(op) && edit.del <= Locked(op) && Locked(op) !! Locked(r.op) && Current(store, r)
    ensures Current(Applied(store, edit), r)
  {
  }

  lemma StepKeepsInv(s: State, e: Event)
    requires Inv(s) && Enabled(s, e)
    ensures Inv(Step(s, e))
  {
    var t := Step(s, e);
    if e.Write? {
      var r := s.running[e.n];
      assert Current(s.store, r);
      WritesLocked(r.op, r.read.value);
      var edit := Writes(r.op, r.read.value);
      hide Writes, Locked;
      forall m | m in t.running ensures Current(t.store, t.running[m]) {
        OthersStayCurrent(s.store, r.op, edit, s.running[m]);
      }
    }
    hide Locked, Read;
  }

  /** A write acts as the whole operation would in one step. */
  lemma WriteIsAtomic(s: State, n: nat)
    requires Inv(s) && Enabled(s, Write(n))
    ensures Step(s, Write(n)).store == Atomic(s.store, s.running[n].op)
  {
    assert Current(s.store, s.running[n]);
  }

  /** The operations that got to write, in the order of their writes. */
  ghost function Written(s: State, es: seq<Event>, t: State): seq<Op>
    requires Runs(s, es, t)
    decreases |es|
  {
    if es == [] then []
    else (if es[0].Write? then [s.running[es[0].n].op] else []) + Written(Step(s, es[0]), es[1..], t)
  }

  function AtomicAll(store: Store, ops: seq<Op>): Store
    decreases |ops|
  {
    if ops == [] then store else AtomicAll(Atomic(store, ops[0]), ops[1..])
  }

  /** However operations interleave, the store is what they make of it one after the other. */
  lemma {:induction false} OperationsAreAtomic(s: State, es: seq<Event>, t: State)
    requires Inv(s) && Runs(s, es, t)
    ensures t.store == AtomicAll(s.store, Written(s, es, t)) && Inv(t)
    decreases |es|
  {
    if es != [] {
      StepKeepsInv(s, es[0]);
      OperationsAreAtomic(Step(s, es[0]), es[1..], t);
      if es[0].Write? {
        WriteIsAtomic(s, es[0].n);
        assert Written(s, es, t)[1..] == Written(Step(s, es[0]), es[1..], t);
      } else {
        assert Written(s, es, t) == Written(Step(s, es[0]), es[1..], t);
      }
    }
  }

  /** So from the start on it is what all operations that wrote make of no listings at all. */
  lemma StoreIsAllWritten(es: seq<Event>, t: State)
    requires Runs(INIT, es, t)
    ensures t.store == AtomicAll(map[], Written(INIT, es, t)) && Keyed(t.store)
  {
    OperationsAreAtomic(INIT, es, t);
  }

  // ----- what operations do

  function At(store: Store, h: Hash): Option<Desired> {
    if h in store then Some(store[h]) else None
  }

  /** What an operation makes of a listing depends on nothing but that listing, and it leaves
      alone what it did not lock. */
  lemma AtomicAt(store: Store, other: Store, op: Op, h: Hash)
    requires At(store, h) == At(other, h)
    ensures At(Atomic(store, op), h) == At(Atomic(other, op), h)
    ensures h !in Locked(op) ==> At(Atomic(store, op), h) == At(store, h)
  {
    var read, read' := Read(store, Locked(op)), Read(other, Locked(op));
    assert At(read, h) == At(read', h);
    if op.Save? {
      PutContents(op.add, read);
      PutContents(op.add, read');
      PutAt(op.add, read, read', h);
    }
  }

  lemma {:induction false} PutAt(add: seq<Addition>, read: Store, read': Store, h: Hash)
    requires At(read, h) == At(read', h)
    ensures At(PutAll(add, read), h) == At(PutAll(add, read'), h)
  {
    if add != [] { PutAt(add[..|add| - 1], read, read', h); }
  }

  /** The operations that locked a listing. */
  function OpsOn(ops: seq<Op>, h: Hash): seq<Op> {
    if ops == [] then []
    else (if h in Locked(ops[0]) then [ops[0]] else []) + OpsOn(ops[1..], h)
  }

  lemma {:induction false} OnlyOpsOnMatter(store: Store, other: Store, ops: seq<Op>, h: Hash)
    requires At(store, h) == At(other, h)
    ensures At(AtomicAll(store, ops), h) == At(AtomicAll(other, OpsOn(ops, h)), h)
    decreases |ops|
  {
    if ops != [] {
      AtomicAt(store, other, ops[0], h);
      if h in Locked(ops[0]) {
        OnlyOpsOnMatter(Atomic(store, ops[0]), Atomic(other, ops[0]), ops[1..], h);
        assert OpsOn(ops, h)[1..] == OpsOn(ops[1..], h);
      } else {
        OnlyOpsOnMatter(Atomic(store, ops[0]), other, ops[1..], h);
        assert OpsOn(ops, h) == OpsOn(ops[1..], h);
      }
    }
  }

  /** However operations interleave, each listing is what the operations that locked it make of
      it alone, one after the other in the order of their writes. */
  lemma EachListingOnItsOwn(s: State, es: seq<Event>, t: State, h: Hash)
    requires Inv(s) && Runs(s, es, t)
    ensures At(t.store, h) == At(AtomicAll(s.store, OpsOn(Written(s, es, t), h)), h)
  {
    OperationsAreAtomic(s, es, t);
    OnlyOpsOnMatter(s.store, s.store, Written(s, es, t), h);
  }

  lemma UpdateKeepsKeys(store: Store, hashes: set<Hash>, mutate: Mutation)
    ensures Atomic(store, Op.Update(hashes, mutate)).Keys == store.Keys
  {
  }

  /** Over any interleaving of updates alone, the same listings are stored. */
  lemma UpdatesOnlyChange(s: State, es: seq<Event>, t: State)
    requires Inv(s) && Runs(s, es, t)
    requires forall i :: 0 <= i < |Written(s, es, t)| ==> Written(s, es, t)[i].Update?
    ensures t.store.Keys == s.store.Keys
  {
    OperationsAreAtomic(s, es, t);
    UpdatesKeepKeys(s.store, Written(s, es, t));
  }

  lemma {:induction false} UpdatesKeepKeys(store: Store, ops: seq<Op>)
    requires forall i :: 0 <= i < |ops| ==> ops[i].Update?
    ensures AtomicAll(store, ops).Keys == store.Keys
    decreases |ops|
  {
    if ops != [] {
      UpdateKeepsKeys(store, ops[0].hashes, ops[0].mutate);
      UpdatesKeepKeys(Atomic(store, ops[0]), ops[1..]);
    }
  }

  /** Over any interleaving, a listing that was removed stays away unless an operation that
      writes after the removal adds it. */
  lemma RemovedUntilAdded(s: State, es: seq<Event>, t: State, i: nat, h: Hash)
    requires Inv(s) && Runs(s, es, t) && i < |Written(s, es, t)|
    requires Written(s, es, t)[i].Remove? && h in Written(s, es, t)[i].hashes
    requires forall j :: i < j < |Written(s, es, t)| ==> !Adds(Written(s, es, t)[j], h)
    ensures h !in t.store
  {
    OperationsAreAtomic(s, es, t);
    RemovedAfterAll(s.store, Written(s, es, t), i, h);
  }

  lemma {:induction false} RemovedAfterAll(store: Store, ops: seq<Op>, i: nat, h: Hash)
    requires i < |ops| && ops[i].Remove? && h in ops[i].hashes
    requires forall j :: i < j < |ops| ==> !Adds(ops[j], h)
    ensures h !in AtomicAll(store, ops)
    decreases |ops|
  {
    if i == 0 {
      GoneAfterAll(Atomic(store, ops[0]), ops[1..], h);
    } else {
      RemovedAfterAll(Atomic(store, ops[0]), ops[1..], i - 1, h);
    }
  }

  predicate Adds(op: Op, h: Hash) {
    op.Save? && h in HashesOf(op.add)
  }

  lemma OnlySavesAdd(store: Store, op: Op, h: Hash)
    requires h !in store && !Adds(op, h)
    ensures h !in Atomic(store, op)
  {
    if op.Save? { PutContents(op.add, Read(store, Locked(op))); }
  }

  /** Once a listing is gone, only an operation that adds it brings it back: no update or save
      that was under way saves it again. */
  lemma {:induction false} GoneUntilAdded(s: State, es: seq<Event>, t: State, h: Hash)
    requires Inv(s) && Runs(s, es, t) && h !in s.store
    requires forall i :: 0 <= i < |Written(s, es, t)| ==> !Adds(Written(s, es, t)[i], h)
    ensures h !in t.store
  {
    OperationsAreAtomic(s, es, t);
    GoneAfterAll(s.store, Written(s, es, t), h);
  }

  lemma {:induction false} GoneAfterAll(store: Store, ops: seq<Op>, h: Hash)
    requires h !in store && forall i :: 0 <= i < |ops| ==> !Adds(ops[i], h)
    ensures h !in AtomicAll(store, ops)
    decreases |ops|
  {
    if ops != [] {
      OnlySavesAdd(store, ops[0], h);
      GoneAfterAll(Atomic(store, ops[0]), ops[1..], h);
    }
  }

  /** Setting listings leaves exactly those and whatever was added since the hashes were read;
      a stored listing that is set again keeps its id, its error and its last attempt. */
  lemma SaveKeepsProgress(store: Store, add: seq<Addition>, replace: bool, existing: set<Hash>)
    requires Keyed(store)
    ensures var after := Atomic(store, Save(add, replace, existing));
      && after.Keys == (if replace then store.Keys - existing else store.Keys) + HashesOf(add)
      && (forall h :: h in HashesOf(add) && h in store ==>
            && (store[h].id.Some? ==> after[h].id == store[h].id)
            && (store[h].error.Some? ==> after[h].error == store[h].error)
            && (Or(store[h].lastAttemptedAt, 0) != 0 ==> after[h].lastAttemptedAt == store[h].lastAttemptedAt)
            && (exists a :: a in add && a.desired.hash == h && after[h].content == a.desired.content))
      && (forall h :: h in after && h !in HashesOf(add) ==> after[h] == store[h])
  {
    var read := Read(store, Locked(Save(add, replace, existing)));
    PutContents(add, read);
    PutInherits(add, read);
  }

  lemma {:induction false} PutInherits(add: seq<Addition>, current: Store)
    ensures forall h :: h in PutAll(add, current) && h in current ==>
      && (current[h].id.Some? ==> PutAll(add, current)[h].id == current[h].id)
      && (current[h].error.Some? ==> PutAll(add, current)[h].error == current[h].error)
      && (Or(current[h].lastAttemptedAt, 0) != 0 ==>
          PutAll(add, current)[h].lastAttemptedAt == current[h].lastAttemptedAt)
    ensures forall h :: h in PutAll(add, current) ==>
      exists a :: a in add && a.desired.hash == h && PutAll(add, current)[h].content == a.desired.content
  {
    if add != [] {
      var front, last := add[..|add| - 1], add[|add| - 1];
      PutInherits(front, current);
      assert add == front + [last];
      assert last in add;
    }
  }

  /** Storing a plan's changes is such an update. */
  lemma PlanIsAnUpdate(store: Store, changes: map<Hash, Change>)
    ensures KeepsHash((d: Desired) => ApplyOne(d, changes))
    ensures Apply(store, changes) == Atomic(store, Op.Update(changes.Keys, (d: Desired) => ApplyOne(d, changes)))
  {
  }

  /** What is inherited: the id and the error of the stored listing if it has one, and its last
      attempt if there was one; a listing of another quantity than what is stored is forced, a
      missing quantity being one. */
  lemma InheritsExactly(a: Addition, c: Desired)
    ensures var b := Inherited(a, c);
      && b.desired.id == (match c.id case None => a.desired.id case Some(_) => c.id)
      && b.desired.error == (match c.error case None => a.desired.error case Some(_) => c.error)
      && b.desired.lastAttemptedAt ==
         (match c.lastAttemptedAt case None => a.desired.lastAttemptedAt
          case Some(t) => if t == 0 then a.desired.lastAttemptedAt else c.lastAttemptedAt)
      && b.desired.hash == a.desired.hash && b.desired.content == a.desired.content
    ensures var changed := match (a.desired.content.quantity, c.content.quantity)
        case (None, None) => false
        case (Some(x), None) => x != 1
        case (None, Some(y)) => y != 1
        case (Some(x), Some(y)) => x != y;
      Inherited(a, c).force == (a.force || changed)
  {
  }

  /** An operation can lock its hashes once nobody else holds one of them, then runs to its end
      whatever it is, and its locks are free again, as they are when it gives up. */
  lemma OperationRuns(s: State, n: nat, op: Op) returns (t: State)
    requires Inv(s) && n !in s.running && forall m :: m in s.running ==> Locked(s.running[m].op) !! Locked(op)
    ensures Runs(s, [Lock(n, op), ReadBack(n), Write(n)], t)
    ensures t == State(Atomic(s.store, op), s.running)
    ensures Runs(s, [Lock(n, op), ReadBack(n), Abort(n)], s) && Runs(s, [Lock(n, op), Abort(n)], s)
  {
    var s1 := Step(s, Lock(n, op));
    var s2 := Step(s1, ReadBack(n));
    t := Step(s2, Write(n));
    assert t.running == s.running && s2.running - {n} == s.running && s1.running - {n} == s.running;
    hide Applied, Writes;
    assert Runs(t, [], t) && Runs(s, [], s);
    assert Runs(s2, [Write(n)], t) && Runs(s2, [Abort(n)], s) && Runs(s1, [Abort(n)], s) by {
      assert [Write(n)][1..] == [] && [Abort(n)][1..] == [];
    }
    assert Runs(s1, [ReadBack(n), Write(n)], t) && Runs(s1, [ReadBack(n), Abort(n)], s) by {
      assert [ReadBack(n), Write(n)][1..] == [Write(n)] && [ReadBack(n), Abort(n)][1..] == [Abort(n)];
    }
    assert [Lock(n, op), ReadBack(n), Write(n)][1..] == [ReadBack(n), Write(n)];
    assert [Lock(n, op), ReadBack(n), Abort(n)][1..] == [ReadBack(n), Abort(n)];
    assert [Lock(n, op), Abort(n)][1..] == [Abort(n)];
  }
}
