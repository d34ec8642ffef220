/** How queued work wakes up its job: a pending flag, a job whose id is taken while it
    waits or runs, and the hook that runs when it has completed.  Callers queue work, set
    the flag and add the job in three steps, and a hook that re-adds its job does the last
    two; a run clears the flag, reads a batch, handles it and returns whether it was full.
    Jobs may fail, be delayed and start over at any point, but are never given up.  For jobs
    that create or update listings the agent is taken to be registered. */
module WakeUp {
  import opened Collections
  import opened ListingPlan
  import opened BatchSelection

  /** A member of the queue: a listing id to delete, or the hash of a listing to create or update. */
  type Work = Hash

  /** How a run picks its batch: as much as fits, or the selection for creation. */
  datatype Kind = Whole | Select

  /** What the last run read, and the batch it took of it. */
  datatype LastRead = LastRead(queue: set<Work>, batch: set<Work>)

  datatype Actor = Actor(number: nat)

  /** Where a call of `createJob` stands: `BeforeSet` it has yet to set the flag. */
  datatype Call = BeforeSet | BeforeAdd

  datatype Job =
    | NoJob
    | Waiting
    | Begun                       // a worker took it
    | Cleared                     // the flag is cleared, the queue not yet read
    | HasRead(batch: set<Work>)
    | Finishing(full: bool)       // the batch is handled and dequeued

  datatype State = State(
    kind: Kind,
    queue: set<Work>,
    pending: bool,
    job: Job,
    calls: map<Actor, Call>,
    hooks: map<Actor, bool>,      // hooks yet to check, with the value their run returned
    unserved: set<Actor>,         // requests since whose queueing the queue was not read
    since: set<Work>,             // work queued since the queue was read
    last: LastRead,
    known: set<Actor>)

  function Init(kind: Kind): State {
    State(kind, {}, false, NoJob, map[], map[], {}, {}, LastRead({}, {}), {})
  }

  const BATCH_SIZE := 100

  datatype Event =
    | Request(a: Actor, ids: set<Work>)
    | SetFlag(a: Actor)
    | Add(a: Actor)
    | Begin
    | Clear
    | Read(batch: set<Work>)
    | Finish
    | Complete(h: Actor)
    | Check(h: Actor)
    | StartOver
    | Forget(ids: set<Work>)

  /** `srandmember` with a count, or as many as there are from the head of a sorted set. */
  predicate IsBatchOf(batch: set<Work>, queue: set<Work>) {
    batch <= queue && |batch| == if |queue| < BATCH_SIZE then |queue| else BATCH_SIZE
  }

  /** The selection from a queue in some rank order, for some listings with an id and some
      number of free slots. */
  predicate IsSelection(ids: seq<Hash>, order: seq<Hash>, free: int, batch: set<Work>, queue: set<Work>) {
    && Distinct(order) && (set h | h in order) == queue
    && batch == set h | h in Selected(ids, order, BATCH_SIZE, free)
  }

  ghost predicate IsBatch(kind: Kind, batch: set<Work>, queue: set<Work>) {
    match kind
    case Whole => IsBatchOf(batch, queue)
    case Select => exists ids, order, free :: IsSelection(ids, order, free, batch, queue)
  }

  ghost predicate Enabled(s: State, e: Event) {
    match e
    case Request(a, ids) => a !in s.known
    case SetFlag(a) => a in s.calls && s.calls[a] == BeforeSet
    case Add(a) => a in s.calls && s.calls[a] == BeforeAdd
    case Begin => s.job == Waiting
    case Clear => s.job == Begun
    case Read(batch) => s.job == Cleared && IsBatch(s.kind, batch, s.queue)
    case Finish => s.job.HasRead?
    case Complete(h) => s.job.Finishing? && h !in s.known
    case Check(h) => h in s.hooks
    case StartOver => s.job != NoJob
    case Forget(ids) => true
  }

  // ----- the steps

  /** Work is queued, before `createJob` is called for it. */
  function Requested(s: State, a: Actor, ids: set<Work>): State {
    s.(queue := s.queue + ids, since := s.since + ids, unserved := s.unserved + {a},
       calls := s.calls[a := BeforeSet], known := s.known + {a})
  }

  function FlagSet(s: State, a: Actor): State {
    s.(pending := true, calls := s.calls[a := BeforeAdd])
  }

  /** Adding a job whose id is taken does nothing. */
  function Added(s: State, a: Actor): State {
    s.(job := if s.job == NoJob then Waiting else s.job, calls := s.calls - {a})
  }

  function FlagCleared(s: State): State {
    s.(job := Cleared, pending := false)
  }

  function QueueRead(s: State, batch: set<Work>): State {
    s.(job := HasRead(batch), unserved := {}, since := {}, last := LastRead(s.queue, batch))
  }

  function BatchHandled(s: State): State
    requires s.job.HasRead?
  {
    s.(queue := s.queue - s.job.batch, job := Finishing(|s.job.batch| == BATCH_SIZE))
  }

  function Completed(s: State, h: Actor): State
    requires s.job.Finishing?
  {
    s.(job := NoJob, hooks := s.hooks[h := s.job.full], known := s.known + {h})
  }

  function Checked(s: State, h: Actor): State
    requires h in s.hooks
  {
    if s.hooks[h] || s.pending then s.(hooks := s.hooks - {h}, calls := s.calls[h := BeforeSet])
    else s.(hooks := s.hooks - {h})
  }

  ghost function Step(s: State, e: Event): State
    requires Enabled(s, e)
  {
    match e
    case Request(a, ids) => Requested(s, a, ids)
    case SetFlag(a) => FlagSet(s, a)
    case Add(a) => Added(s, a)
    case Begin => s.(job := Begun)
    case Clear => FlagCleared(s)
    case Read(batch) => QueueRead(s, batch)
    case Finish => BatchHandled(s)
    case Complete(h) => Completed(s, h)
    case Check(h) => Checked(s, h)
    case StartOver => s.(job := Waiting)
    case Forget(ids) => s.(queue := s.queue - ids)
  }

  ghost predicate Runs(s: State, es: seq<Event>, t: State)
    decreases |es|
  {
    if es == [] then s == t else Enabled(s, es[0]) && Runs(Step(s, es[0]), es[1..], t)
  }

  ghost predicate Reachable(t: State) {
    exists es :: Runs(Init(t.kind), es, t)
  }

  // ----- what always holds

  predicate BeforeRead(job: Job) {
    job.Waiting? || job.Begun? || job.Cleared?
  }

  /** A request that set the flag finds it set until a run that will still read starts. */
  predicate FlagAnnounces(s: State) {
    forall a :: a in s.unserved && (a in s.calls ==> s.calls[a] == BeforeAdd) ==> s.pending || BeforeRead(s.job)
  }

  /** A request that has returned and is unserved has a run before it, a run that ends with
      the flag set, or somebody about to add a job. */
  predicate UnservedAwaited(s: State) {
    forall a :: a in s.unserved && a !in s.calls ==>
      || BeforeRead(s.job)
      || s.calls.Keys != {}
      || (s.pending && (s.job != NoJob || s.hooks.Keys != {}))
  }

  /** Work that no unserved request queued was there at the last read; handled batches are
      gone, and what a full batch left is awaited. */
  predicate WorkAwaited(s: State) {
    && s.queue <= s.since + s.last.queue
    && match s.job
       case HasRead(batch) => batch == s.last.batch
       case Finishing(full) => full == (|s.last.batch| == BATCH_SIZE) && s.queue <=
           s.since + (s.last.queue - s.last.batch)
       case NoJob =>
         || s.calls.Keys != {}
         || (s.queue <= s.since + (s.last.queue - s.last.batch)
             && (|s.last.batch| == BATCH_SIZE ==> exists h :: h in s.hooks && s.hooks[h]))
       case _ => true
  }

  predicate FlagAwaited(s: State) {
    s.pending ==> s.job != NoJob || s.calls.Keys != {} || s.hooks.Keys != {}
  }

  predicate Tidy(s: State) {
    && (s.since != {} ==> s.unserved != {})
    && s.unserved <= s.known && s.calls.Keys <= s.known && s.hooks.Keys <= s.known
    && (forall h :: h in s.hooks ==> h !in s.calls && h !in s.unserved)
  }

  predicate Inv(s: State) {
    FlagAnnounces(s) && UnservedAwaited(s) && WorkAwaited(s) && FlagAwaited(s) && Tidy(s)
  }

  lemma FlagKept(s: State, e: Event)
    requires Enabled(s, e) && Tidy(s) && FlagAnnounces(s)
    ensures FlagAnnounces(Step(s, e))
  {
  }

  lemma UnservedKept(s: State, e: Event)
    requires Enabled(s, e) && Tidy(s) && FlagAnnounces(s) && UnservedAwaited(s)
    ensures UnservedAwaited(Step(s, e))
  {
  }

  lemma WorkKept(s: State, e: Event)
    requires Enabled(s, e) && Tidy(s) && WorkAwaited(s)
    ensures WorkAwaited(Step(s, e))
  {
    hide IsBatch;
    var t := Step(s, e);
    match e
    case Complete(h) =>
      assert h in t.hooks;
    case Check(h) =>
      if s.hooks[h] || s.pending {
        assert h in t.calls;
      } else if g :| g in s.hooks && s.hooks[g] {
        assert g in t.hooks && t.hooks[g];
      }
    case _ =>
  }

  lemma OthersKept(s: State, e: Event)
    requires Enabled(s, e) && Tidy(s) && FlagAwaited(s)
    ensures Tidy(Step(s, e)) && FlagAwaited(Step(s, e))
  {
  }

  lemma StepKeepsInv(s: State, e: Event)
    requires Enabled(s, e) && Inv(s)
    ensures Inv(Step(s, e))
  {
    hide FlagAnnounces, UnservedAwaited, WorkAwaited, Tidy, FlagAwaited, Step;
    FlagKept(s, e);
    UnservedKept(s, e);
    WorkKept(s, e);
    OthersKept(s, e);
  }

  lemma {:induction false} RunsKeepInv(s: State, es: seq<Event>, t: State)
    requires Inv(s) && Runs(s, es, t)
    ensures Inv(t)
    decreases |es|
  {
    if es != [] {
      StepKeepsInv(s, es[0]);
      RunsKeepInv(Step(s, es[0]), es[1..], t);
    }
  }

  lemma ReachableInv(t: State)
    requires Reachable(t)
    ensures Inv(t)
  {
    var es :| Runs(Init(t.kind), es, t);
    RunsKeepInv(Init(t.kind), es, t);
  }

  // ----- no wake-up is lost

  /** Nobody is on the way, no job waits or runs, no hook is left to check. */
  predicate Quiet(s: State) {
    s.job == NoJob && s.calls.Keys == {} && s.hooks.Keys == {}
  }

  /** Every request whose `createJob` has returned was served by a read after its work was
      queued, unless a run that has yet to read is waiting or under way, a hook will find
      the flag set, or somebody else is about to add the job. */
  lemma NoWakeUpIsLost(s: State, a: Actor)
    requires Reachable(s) && a in s.known && a !in s.calls
    ensures a !in s.unserved
         || BeforeRead(s.job)
         || (s.pending && (s.job != NoJob || s.hooks.Keys != {}))
         || s.calls.Keys != {}
  {
    ReachableInv(s);
  }

  /** When all is quiet every request was served, the flag is clear, and whatever is queued
      was left by the last read, of which the batch was not full. */
  lemma QuietMeansServed(s: State)
    requires Reachable(s) && Quiet(s)
    ensures s.unserved == {} && !s.pending
    ensures s.queue <= s.last.queue - s.last.batch && |s.last.batch| != BATCH_SIZE
  {
    ReachableInv(s);
    assert forall a :: a in s.unserved ==> a !in s.calls;
    assert forall h :: h !in s.hooks;
  }

  /** What was read last was a batch of its queue. */
  ghost predicate LastIsBatch(s: State) {
    s.last.queue == {} || IsBatch(s.kind, s.last.batch, s.last.queue)
  }

  lemma {:induction false} RunsKeepLast(s: State, es: seq<Event>, t: State)
    requires LastIsBatch(s) && Runs(s, es, t)
    ensures LastIsBatch(t) && t.kind == s.kind
    decreases |es|
  {
    if es != [] {
      RunsKeepLast(Step(s, es[0]), es[1..], t);
    }
  }

  lemma ReachableLast(s: State)
    requires Reachable(s)
    ensures LastIsBatch(s)
  {
    var es :| Runs(Init(s.kind), es, s);
    RunsKeepLast(Init(s.kind), es, s);
  }

  /** A queue whose batches are all that fits is empty when all is quiet. */
  lemma QuietMeansEmpty(s: State)
    requires Reachable(s) && Quiet(s) && s.kind.Whole?
    ensures s.queue == {}
  {
    QuietMeansServed(s);
    ReachableLast(s);
    if s.last.queue != {} { WholeBatch(s.last.batch, s.last.queue); }
  }

  lemma WholeBatch(batch: set<Work>, queue: set<Work>)
    requires IsBatchOf(batch, queue)
    ensures queue <= batch || |batch| == BATCH_SIZE
  {
    if |queue| < BATCH_SIZE && batch != queue {
      assert |queue - batch| == 0;
    }
  }

  /** A batch has at most a hundred members, all of them queued; one of all that fits has a hundred
      if so many are queued. */
  lemma BatchesAreBounded(kind: Kind, batch: set<Work>, queue: set<Work>)
    requires IsBatch(kind, batch, queue)
    ensures batch <= queue && |batch| <= 100
    ensures kind.Whole? && |queue| >= 100 ==> |batch| == 100
    ensures kind.Whole? && |queue| <= 100 ==> batch == queue
  {
    if kind.Select? {
      var ids, order, free :| IsSelection(ids, order, free, batch, queue);
      BatchIsQueued(ids, order, BATCH_SIZE, free);
      DistinctSize(Selected(ids, order, BATCH_SIZE, free));
      hide Selected;
    } else {
      assert queue == batch + (queue - batch);
      assert |queue| <= 100 ==> |queue - batch| == 0;
    }
  }

  /** At the start nothing is queued and all is quiet. */
  lemma StartsQuiet(kind: Kind)
    ensures Quiet(Init(kind)) && Init(kind).queue == {} && !Init(kind).pending && Init(kind).kind == kind
    ensures Reachable(Init(kind))
  {
    assert Runs(Init(kind), [], Init(kind));
  }

  /** Work can be withdrawn at any time, and jobs can start over at any point. */
  lemma AnytimeSteps(s: State, ids: set<Work>)
    ensures Enabled(s, Forget(ids)) && Step(s, Forget(ids)) == s.(queue := s.queue - ids)
    ensures Enabled(s, StartOver) <==> s.job != NoJob
    ensures s.job != NoJob ==> Step(s, StartOver) == s.(job := Waiting)
  {
  }

  /** What is left to create when all is quiet are listings without an id, and the last batch
      took as many new listings as slots were free. */
  lemma QuietMeansNothingToCreate(s: State)
    requires Reachable(s) && Quiet(s) && s.kind.Select? && s.queue != {}
    ensures exists ids, order, free ::
              && IsSelection(ids, order, free, s.last.batch, s.last.queue)
              && (forall h :: h in s.queue ==> h !in ids)
              && |NotIn(Selected(ids, order, BATCH_SIZE, free), ids)| == Max(0, free)
  {
    QuietMeansServed(s);
    ReachableLast(s);
    var ids, order, free :| IsSelection(ids, order, free, s.last.batch, s.last.queue);
    var batch := Selected(ids, order, BATCH_SIZE, free);
    BatchIsQueued(ids, order, BATCH_SIZE, free);
    DistinctSize(batch);
    ShortBatchLeavesNothing(ids, order, BATCH_SIZE, free);
    hide Selected;
    var h :| h in s.queue;
    assert h in order && h !in batch;
  }

  /** A run read the work in a batch and handled that batch, or somebody withdrew the work. */
  ghost predicate HandledOrWithdrawn(es: seq<Event>, id: Work) {
    || (exists i :: 0 <= i < |es| && es[i].Forget? && id in es[i].ids)
    || (exists i :: 0 <= i < |es| && es[i].Read? && id in es[i].batch && HandledNext(es[i + 1..]))
  }

  /** The batch read before is handled: no run starts over or reads again before that. */
  ghost predicate HandledNext(es: seq<Event>) {
    exists j :: 0 <= j < |es| && es[j].Finish? && forall k :: 0 <= k < j ==> !es[k].Read? && !es[k].StartOver?
  }

  lemma HandledLater(e: Event, es: seq<Event>, id: Work)
    requires HandledOrWithdrawn(es, id)
    ensures HandledOrWithdrawn([e] + es, id)
  {
    var more := [e] + es;
    if i :| 0 <= i < |es| && es[i].Forget? && id in es[i].ids {
      assert more[i + 1] == es[i];
    } else {
      var i :| 0 <= i < |es| && es[i].Read? && id in es[i].batch && HandledNext(es[i + 1..]);
      assert more[i + 1] == es[i] && more[i + 2..] == es[i + 1..];
    }
    hide HandledNext;
  }

  /** Over any run, work that was queued and no longer is was read by a run of the job in a
      batch that this run then handled, or was withdrawn. */
  lemma {:induction false} WorkLeavesHandled(s: State, es: seq<Event>, t: State, id: Work)
    requires Runs(s, es, t) && id in s.queue && id !in t.queue && (s.job.HasRead? ==> id !in s.job.batch)
    ensures HandledOrWithdrawn(es, id)
    decreases |es|
  {
    var u := Step(s, es[0]);
    assert es == [es[0]] + es[1..];
    if id !in u.queue {
      assert es[0].Forget? && id in es[0].ids;
    } else if u.job.HasRead? && id in u.job.batch {
      WorkInHand(u, es[1..], t, id);
      if HandledOrWithdrawn(es[1..], id) {
        HandledLater(es[0], es[1..], id);
      } else {
        assert es[0].Read? && id in es[0].batch;
      }
    } else {
      WorkLeavesHandled(u, es[1..], t, id);
      HandledLater(es[0], es[1..], id);
    }
    hide IsBatch, HandledNext;
  }

  /** Work in the batch of a run that is handling it. */
  lemma {:induction false} WorkInHand(s: State, es: seq<Event>, t: State, id: Work)
    requires Runs(s, es, t) && id in s.queue && id !in t.queue && s.job.HasRead? && id in s.job.batch
    ensures HandledNext(es) || HandledOrWithdrawn(es, id)
    decreases |es|
  {
    var u := Step(s, es[0]);
    assert es == [es[0]] + es[1..];
    if es[0].Finish? || (es[0].Forget? && id in es[0].ids) {
      assert HandledNext(es) || HandledOrWithdrawn(es, id);
    } else if es[0].StartOver? {
      WorkLeavesHandled(u, es[1..], t, id);
      HandledLater(es[0], es[1..], id);
    } else {
      WorkInHand(u, es[1..], t, id);
      if HandledOrWithdrawn(es[1..], id) {
        HandledLater(es[0], es[1..], id);
      } else {
        var j :| 0 <= j < |es[1..]| && es[1..][j].Finish? && forall k :: 0 <= k < j ==>
            !es[1..][k].Read? && !es[1..][k].StartOver?;
        assert es[j + 1].Finish?;
        assert forall k :: 0 < k < j + 1 ==> es[k] == es[1..][k - 1];
      }
    }
    hide IsBatch, HandledOrWithdrawn;
  }

  // ----- and it gets done

  /** Steps that neither request, withdraw nor repeat anything. */
  predicate Progress(e: Event) {
    !e.Request? && !e.StartOver? && !e.Forget?
  }

  lemma BatchExists(queue: set<Work>) returns (batch: set<Work>)
    ensures IsBatchOf(batch, queue)
  {
    batch := {};
    while |batch| < |queue| && |batch| < BATCH_SIZE
      invariant batch <= queue && |batch| <= BATCH_SIZE && |batch| <= |queue|
    {
      assert queue - batch != {} by {
        assert queue - batch == {} ==> queue <= batch;
        SubsetSize(batch, queue);
        assert queue <= batch ==> queue == batch;
      }
      var id :| id in queue - batch;
      batch := batch + {id};
    }
  }

  lemma SomeBatch(kind: Kind, queue: set<Work>) returns (batch: set<Work>)
    ensures IsBatch(kind, batch, queue)
  {
    if kind.Whole? {
      batch := BatchExists(queue);
    } else {
      var order := SomeOrder(queue);
      batch := {};
      assert Selected([], order, BATCH_SIZE, 0) == [];
      assert IsSelection([], order, 0, batch, queue);
    }
  }

  lemma SomeOrder(queue: set<Work>) returns (order: seq<Hash>)
    ensures Distinct(order) && (set h | h in order) == queue
  {
    order := [];
    var rest := queue;
    while rest != {}
      invariant rest <= queue && Distinct(order) && forall h :: h in order <==> h in queue - rest
    {
      var h :| h in rest;
      assert h !in order;
      DistinctConcat(order, [h]);
      assert forall x :: x in order + [h] <==> x in order || x == h;
      order := order + [h];
      rest := rest - {h};
    }
  }

  lemma FreshActor(known: set<Actor>) returns (a: Actor)
    ensures a !in known
  {
    var n := |known|;
    var numbers := set i | 0 <= i <= n :: Actor(i);
    ActorsUpTo(n);
    if numbers <= known { SubsetSize(numbers, known); }
    a :| a in numbers && a !in known;
  }

  lemma {:induction false} ActorsUpTo(n: nat)
    ensures |set i | 0 <= i <= n :: Actor(i)| == n + 1
  {
    if n == 0 {
      assert (set i | 0 <= i <= n :: Actor(i)) == {Actor(0)};
    } else {
      ActorsUpTo(n - 1);
      assert (set i | 0 <= i <= n :: Actor(i)) == (set i | 0 <= i <= n - 1 :: Actor(i)) + {Actor(n)};
    }
  }

  lemma {:induction false} RunsConcat(s: State, es: seq<Event>, t: State, fs: seq<Event>, u: State)
    requires Runs(s, es, t) && Runs(t, fs, u)
    ensures Runs(s, es + fs, u)
    decreases |es|
  {
    if es == [] {
      assert es + fs == fs;
    } else {
      RunsConcat(Step(s, es[0]), es[1..], t, fs, u);
      assert (es + fs)[1..] == es[1..] + fs;
    }
  }

  lemma One(s: State, e: Event)
    requires Enabled(s, e)
    ensures Runs(s, [e], Step(s, e))
  {
  }

  ghost predicate AllProgress(es: seq<Event>) {
    forall i :: 0 <= i < |es| ==> Progress(es[i])
  }

  ghost predicate Leads(s: State, t: State) {
    exists es :: Runs(s, es, t) && AllProgress(es)
  }

  lemma LeadsOne(s: State, e: Event)
    requires Enabled(s, e) && Progress(e)
    ensures Leads(s, Step(s, e))
  {
    One(s, e);
    assert AllProgress([e]);
  }

  lemma LeadsTrans(s: State, t: State, u: State)
    requires Leads(s, t) && Leads(t, u)
    ensures Leads(s, u)
  {
    var es :| Runs(s, es, t) && AllProgress(es);
    var fs :| Runs(t, fs, u) && AllProgress(fs);
    RunsConcat(s, es, t, fs, u);
    assert AllProgress(es + fs);
  }

  lemma LeadsSelf(s: State)
    ensures Leads(s, s)
  {
    assert Runs(s, [], s) && AllProgress([]);
  }

  lemma Then(s: State, t: State, e: Event) returns (u: State)
    requires Leads(s, t) && Enabled(t, e) && Progress(e)
    ensures Leads(s, u) && u == Step(t, e)
  {
    u := Step(t, e);
    LeadsOne(t, e);
    LeadsTrans(s, t, u);
  }

  /** All calls can return. */
  lemma {:induction false} CallsReturn(s: State) returns (t: State)
    ensures Leads(s, t) && t.calls.Keys == {} && t.hooks == s.hooks && t.queue == s.queue && t.kind == s.kind
    decreases |s.calls|
  {
    if s.calls.Keys == {} {
      LeadsSelf(s);
      t := s;
    } else {
      hide Leads;
      LeadsSelf(s);
      var a :| a in s.calls;
      var u := s;
      if s.calls[a] == BeforeSet { u := Then(s, u, SetFlag(a)); }
      u := Then(s, u, Add(a));
      assert u.calls.Keys == s.calls.Keys - {a} && |u.calls| < |s.calls| by { KeysFewer(u.calls, s.calls, a); }
      t := CallsReturn(u);
      LeadsTrans(s, u, t);
    }
  }

  lemma KeysFewer<V, W>(m: map<Actor, V>, n: map<Actor, W>, a: Actor)
    requires a in n && m.Keys == n.Keys - {a}
    ensures |m| < |n|
  {
  }

  /** All hooks can check and the calls they make return. */
  lemma {:induction false} HooksReturn(s: State) returns (t: State)
    ensures Leads(s, t) && t.calls.Keys == {} && t.hooks.Keys == {} && t.queue == s.queue && t.kind == s.kind
    decreases |s.hooks|
  {
    hide Leads;
    var u := CallsReturn(s);
    if u.hooks.Keys == {} {
      t := u;
    } else {
      var h :| h in u.hooks;
      var v := Then(s, u, Check(h));
      KeysFewer(v.hooks, u.hooks, h);
      t := HooksReturn(v);
      LeadsTrans(s, v, t);
    }
  }

  predicate OnlyJob(s: State) {
    s.calls.Keys == {} && s.hooks.Keys == {}
  }

  function Rank(s: State): nat {
    match s.job
    case NoJob => 0
    case Waiting => 2
    case Begun => 2
    case Cleared => if s.pending then 4 else 2
    case HasRead(_) => 5
    case Finishing(full) => if full || s.pending then 3 else 1
  }

  /** A run from before its read handles a batch. */
  lemma RunHandles(s: State) returns (t: State)
    requires OnlyJob(s) && BeforeRead(s.job) && s.kind.Whole?
    ensures Leads(s, t) && OnlyJob(t) && t.job.Finishing? && t.kind == s.kind
    ensures t.queue <= s.queue && (t.job.full ==> |t.queue| < |s.queue|)
    ensures t.pending ==> s.pending && s.job == Cleared
  {
    hide Leads;
    LeadsSelf(s);
    t := s;
    if t.job == Waiting { t := Then(s, t, Begin); }
    if t.job == Begun { t := Then(s, t, Clear); }
    var batch := BatchExists(s.queue);
    t := Then(s, t, Read(batch));
    t := Then(s, t, Finish);
    assert |s.queue - batch| == |s.queue| - |batch|;
  }

  /** Completion frees the id; the hook adds the job again if the batch was full or the flag set. */
  lemma RunCompletes(s: State) returns (t: State)
    requires OnlyJob(s) && s.job.Finishing?
    ensures Leads(s, t) && OnlyJob(t) && t.queue == s.queue && t.kind == s.kind
    ensures t.job == if s.job.full || s.pending then Waiting else NoJob
  {
    hide Leads;
    LeadsSelf(s);
    var h := FreshActor(s.known);
    t := Then(s, s, Complete(h));
    t := Then(s, t, Check(h));
    if s.job.full || s.pending {
      t := Then(s, t, SetFlag(h));
      t := Then(s, t, Add(h));
    }
  }

  lemma {:induction false} JobSettles(s: State) returns (t: State)
    requires OnlyJob(s) && s.kind.Whole?
    ensures Leads(s, t) && Quiet(t) && t.kind == s.kind
    decreases |s.queue|, Rank(s)
  {
    hide Leads;
    LeadsSelf(s);
    if s.job == NoJob {
      return s;
    }
    var u;
    if BeforeRead(s.job) {
      u := RunHandles(s);
    } else if s.job.HasRead? {
      u := Then(s, s, Finish);
    } else {
      u := RunCompletes(s);
    }
    SubsetSize(u.queue, s.queue);
    hide OnlyJob, Step, Enabled, BeforeRead;
    t := JobSettles(u);
    LeadsTrans(s, u, t);
  }

  /** From every reachable state, without new requests, jobs can run to a quiet state, in
      which every request has been served and the queue is empty. */
  lemma CanAlwaysFinish(s: State) returns (t: State)
    requires Reachable(s) && s.kind.Whole?
    ensures Leads(s, t) && Quiet(t) && t.unserved == {} && t.queue == {} && !t.pending
  {
    ReachableInv(s);
    var u := HooksReturn(s);
    t := JobSettles(u);
    LeadsTrans(s, u, t);
    var es :| Runs(Init(s.kind), es, s);
    var fs :| Runs(s, fs, t) && AllProgress(fs);
    RunsConcat(Init(s.kind), es, s, fs, t);
    QuietMeansServed(t);
    QuietMeansEmpty(t);
  }

  /** Until all is quiet some step can be taken. */
  lemma NeverStuck(s: State)
    requires !Quiet(s)
    ensures exists e :: Enabled(s, e) && Progress(e)
  {
    if s.calls.Keys != {} {
      var a :| a in s.calls;
      assert Enabled(s, if s.calls[a] == BeforeSet then SetFlag(a) else Add(a));
    } else if s.hooks.Keys != {} {
      var h :| h in s.hooks;
      assert Enabled(s, Check(h));
    } else {
      var batch := SomeBatch(s.kind, s.queue);
      var h := FreshActor(s.known);
      assert Enabled(s, match s.job case Waiting => Begin case Begun => Clear case Cleared => Read(batch)
                                    case HasRead(_) => Finish case _ => Complete(h));
    }
  }

  // ----- whatever the order, requests are served soon

  /** The calls that have yet to set the flag. */
  function Unset(calls: map<Actor, Call>): set<Actor> {
    set a | a in calls && calls[a] == BeforeSet
  }

  function ToRead(job: Job): nat {
    match job
    case Cleared => 0
    case Begun => 1
    case Waiting => 2
    case NoJob => 3
    case Finishing(_) => 7
    case HasRead(_) => 8
  }

  /** How many steps can be taken without the queue being read. */
  function UntilRead(s: State): nat {
    |s.calls| + |Unset(s.calls)| + 3 * |s.hooks| + ToRead(s.job)
  }

  lemma AddedKey<V>(m: map<Actor, V>, a: Actor, v: V)
    requires a !in m
    ensures |m[a := v]| == |m| + 1
  {
    assert m[a := v].Keys == m.Keys + {a};
    assert |m[a := v].Keys| == |m[a := v]| && |m.Keys| == |m|;
  }

  lemma RemovedKey<V>(m: map<Actor, V>, a: Actor)
    requires a in m
    ensures |m - {a}| == |m| - 1
  {
    assert (m - {a}).Keys == m.Keys - {a};
    assert |(m - {a}).Keys| == |m - {a}| && |m.Keys| == |m|;
  }

  lemma SetKey<V>(m: map<Actor, V>, a: Actor, v: V)
    requires a in m
    ensures |m[a := v]| == |m|
  {
    assert m[a := v].Keys == m.Keys;
    assert |m[a := v].Keys| == |m[a := v]| && |m.Keys| == |m|;
  }

  /** How the calls change when one sets the flag, returns or starts. */
  lemma CallSets(calls: map<Actor, Call>, a: Actor)
    requires a in calls && calls[a] == BeforeSet
    ensures |calls[a := BeforeAdd]| == |calls| && |Unset(calls[a := BeforeAdd])| == |Unset(calls)| - 1
  {
    SetKey(calls, a, BeforeAdd);
    assert Unset(calls[a := BeforeAdd]) == Unset(calls) - {a};
  }

  lemma CallReturns(calls: map<Actor, Call>, a: Actor)
    requires a in calls && calls[a] == BeforeAdd
    ensures |calls - {a}| == |calls| - 1 && Unset(calls - {a}) == Unset(calls)
  {
    RemovedKey(calls, a);
  }

  lemma CallStarts(calls: map<Actor, Call>, a: Actor)
    requires a !in calls
    ensures |calls[a := BeforeSet]| == |calls| + 1 && |Unset(calls[a := BeforeSet])| == |Unset(calls)| + 1
  {
    AddedKey(calls, a, BeforeSet);
    assert Unset(calls[a := BeforeSet]) == Unset(calls) + {a};
  }

  lemma CallNearsRead(s: State, e: Event)
    requires Enabled(s, e) && (e.SetFlag? || e.Add?)
    ensures UntilRead(Step(s, e)) < UntilRead(s)
  {
    if e.SetFlag? { CallSets(s.calls, e.a); } else { CallReturns(s.calls, e.a); }
    hide Unset;
  }

  lemma CompletionNearsRead(s: State, h: Actor)
    requires s.job.Finishing? && h !in s.hooks
    ensures UntilRead(Completed(s, h)) < UntilRead(s)
  {
    AddedKey(s.hooks, h, s.job.full);
  }

  lemma CheckNearsRead(s: State, h: Actor)
    requires h in s.hooks && h !in s.calls
    ensures UntilRead(Checked(s, h)) < UntilRead(s)
  {
    RemovedKey(s.hooks, h);
    CallStarts(s.calls, h);
    hide Unset;
  }

  lemma StepNearsRead(s: State, e: Event)
    requires Tidy(s) && Enabled(s, e) && Progress(e) && !e.Read?
    ensures UntilRead(Step(s, e)) < UntilRead(s)
  {
    if e.SetFlag? || e.Add? {
      hide *;
      CallNearsRead(s, e);
    } else if e.Complete? {
      hide UntilRead, IsBatch, Completed;
      CompletionNearsRead(s, e.h);
    } else if e.Check? {
      hide UntilRead, IsBatch, Checked;
      CheckNearsRead(s, e.h);
    } else {
      hide Unset, Tidy, IsBatch;
    }
  }

  lemma {:induction false} NoReadForLong(s: State, es: seq<Event>, t: State)
    requires Tidy(s) && Runs(s, es, t) && AllProgress(es) && forall i :: 0 <= i < |es| ==> !es[i].Read?
    ensures |es| <= UntilRead(s)
    decreases |es|
  {
    if es != [] {
      TidyKept(s, es[0]);
      StepNearsRead(s, es[0]);
      NoReadForLong(Step(s, es[0]), es[1..], t);
    }
  }

  lemma TidyKept(s: State, e: Event)
    requires Tidy(s) && Enabled(s, e)
    ensures Tidy(Step(s, e))
  {
  }

  lemma {:induction false} ServedByRead(s: State, es: seq<Event>, t: State, a: Actor, i: nat)
    requires Tidy(s) && Runs(s, es, t) && AllProgress(es) && i < |es| && es[i].Read?
    ensures a !in t.unserved
    decreases |es|
  {
    TidyKept(s, es[0]);
    if i == 0 {
      NothingMoreUnserved(Step(s, es[0]), es[1..], t);
    } else {
      assert es[1..][i - 1] == es[i];
      ServedByRead(Step(s, es[0]), es[1..], t, a, i - 1);
    }
  }

  lemma {:induction false} NothingMoreUnserved(s: State, es: seq<Event>, t: State)
    requires Runs(s, es, t) && AllProgress(es)
    ensures t.unserved <= s.unserved
    decreases |es|
  {
    if es != [] { NothingMoreUnserved(Step(s, es[0]), es[1..], t); }
  }

  /** In whatever order steps are taken, every request is served after a number of them that
      the state tells, or all is quiet before, which means that it was served as well. */
  lemma ServedSoonInAnyOrder(s: State, es: seq<Event>, t: State)
    requires Reachable(s) && Runs(s, es, t) && AllProgress(es)
    requires |es| > UntilRead(s) || Quiet(t)
    ensures t.unserved == {}
  {
    hide Inv, Runs, Quiet, Tidy;
    InvIsTidy(s);
    if i :| 0 <= i < |es| && es[i].Read? {
      forall a ensures a !in t.unserved { ServedByRead(s, es, t, a, i); }
    } else {
      if |es| > UntilRead(s) { NoReadForLong(s, es, t); }
      ReachableOn(s, es, t);
      QuietMeansServed(t);
    }
  }

  lemma InvIsTidy(s: State)
    requires Reachable(s)
    ensures Tidy(s)
  {
    ReachableInv(s);
  }

  lemma ReachableOn(s: State, es: seq<Event>, t: State)
    requires Reachable(s) && Runs(s, es, t)
    ensures Reachable(t)
  {
    var fs :| Runs(Init(s.kind), fs, s);
    RunsConcat(Init(s.kind), fs, s, es, t);
    RunsKeepKind(s, es, t);
  }

  lemma {:induction false} RunsKeepKind(s: State, es: seq<Event>, t: State)
    requires Runs(s, es, t)
    ensures t.kind == s.kind
    decreases |es|
  {
    if es != [] { RunsKeepKind(Step(s, es[0]), es[1..], t); }
  }

  // ----- when all becomes quiet in any order

  /** Who is on the way: the job if it waits or runs, the calls, and the hooks.  No step that
      is not a request adds to them. */
  function Tokens(s: State): nat {
    (if s.job == NoJob then 0 else 1) + |s.calls| + |s.hooks|
  }

  /** The next run, or one a call that only has to add the job can start, reads a full batch. */
  predicate FullAhead(s: State) {
    var adding := exists a :: a in s.calls && s.calls[a] == BeforeAdd;
    match s.job
    case NoJob => adding && |s.queue| >= BATCH_SIZE
    case HasRead(batch) => |batch| == BATCH_SIZE || (adding && |s.queue - batch| >= BATCH_SIZE)
    case Finishing(full) => full || (adding && |s.queue| >= BATCH_SIZE)
    case _ => |s.queue| >= BATCH_SIZE
  }

  /** One of at least two that are on the way will set the flag. */
  predicate CanChase(s: State) {
    Tokens(s) >= 2 && WillSet(s)
  }

  predicate WillSet(s: State) {
    || Unset(s.calls) != {}
    || (exists h :: h in s.hooks && s.hooks[h])
    || (s.pending && s.hooks.Keys != {})
    || (s.pending && (s.job.Cleared? || s.job.HasRead? || s.job.Finishing?))
    || FullAhead(s)
  }

  function JobWeight(s: State): nat {
    match s.job
    case NoJob => 0
    case Waiting => 6
    case Begun => 5
    case Cleared => if s.pending then 12 else 4
    case HasRead(batch) => if s.pending || |batch| == BATCH_SIZE then 11 else 3
    case Finishing(full) => if s.pending || full then 10 else 2
  }

  /** The hooks that will find a reason to add the job, as it stands. */
  function Passing(hooks: map<Actor, bool>, pending: bool): set<Actor> {
    set h | h in hooks && (hooks[h] || pending)
  }

  function Left(s: State): set<Work> {
    if s.job.HasRead? then s.queue - s.job.batch else s.queue
  }

  function Weight(s: State): nat {
    8 * |Left(s)| + JobWeight(s) + 7 * |s.calls| + |Unset(s.calls)| + |s.hooks| + 8 * |Passing(s.hooks, s.pending)|
  }

  ghost predicate EveryOrderEnds(s: State) {
    exists n: nat :: NoRunExceeds(s, n)
  }

  ghost predicate NoRunExceeds(s: State, n: nat) {
    forall es, t :: Runs(s, es, t) && AllProgress(es) ==> |es| <= n
  }

  lemma BatchWithin(kind: Kind, batch: set<Work>, queue: set<Work>)
    requires IsBatch(kind, batch, queue)
    ensures batch <= queue
  {
    if kind.Select? {
      var ids, order, free :| IsSelection(ids, order, free, batch, queue);
      BatchIsQueued(ids, order, BATCH_SIZE, free);
      hide Selected;
    }
  }

  lemma FullBatchExists(kind: Kind, queue: set<Work>) returns (batch: set<Work>)
    requires |queue| >= BATCH_SIZE
    ensures IsBatch(kind, batch, queue) && |batch| == BATCH_SIZE
  {
    if kind.Whole? {
      batch := BatchExists(queue);
    } else {
      var order := SomeOrder(queue);
      batch := FullSelection(order);
      assert IsSelection(order, order, 0, batch, queue);
    }
  }

  lemma FullSelection(order: seq<Hash>) returns (batch: set<Work>)
    requires Distinct(order) && |set h | h in order| >= BATCH_SIZE
    ensures batch == (set h | h in Selected(order, order, BATCH_SIZE, 0)) && |batch| == BATCH_SIZE
  {
    var known := Known(order, order, BATCH_SIZE);
    KnownIsQueued(order, order, BATCH_SIZE);
    hide Known;
    assert Selected(order, order, BATCH_SIZE, 0) == known;
    batch := set h | h in known;
    DistinctSize(known);
    if |known| < BATCH_SIZE { SubsetSize((set h | h in order), batch); }
  }

  // ----- the others end in any order

  lemma TokensOfCalls(s: State, e: Event)
    requires Enabled(s, e) && (e.SetFlag? || e.Add?)
    ensures Tokens(Step(s, e)) <= Tokens(s)
    ensures e.SetFlag? || s.job == NoJob ==> Tokens(Step(s, e)) == Tokens(s)
  {
    hide IsBatch;
    if e.SetFlag? { CallSets(s.calls, e.a); } else { CallReturns(s.calls, e.a); }
    hide Unset;
  }

  lemma TokensOfHooks(s: State, e: Event)
    requires Tidy(s) && Enabled(s, e) && (e.Complete? || e.Check?)
    ensures Tokens(Step(s, e)) <= Tokens(s)
    ensures e.Complete? || s.hooks[e.h] || s.pending ==> Tokens(Step(s, e)) == Tokens(s)
  {
    hide IsBatch, Unset;
    if e.Complete? {
      AddedKey(s.hooks, e.h, s.job.full);
    } else {
      RemovedKey(s.hooks, e.h);
      CallStarts(s.calls, e.h);
    }
  }

  /** Tokens are lost only where a job is there already or a hook has no reason to go on. */
  lemma TokensKept(s: State, e: Event)
    requires Tidy(s) && Enabled(s, e) && Progress(e)
    ensures Tokens(Step(s, e)) <= Tokens(s)
    ensures (e.Add? ==> s.job == NoJob) && (e.Check? ==> s.hooks[e.h] || s.pending) ==> Tokens(Step(s, e)) == Tokens(s)
  {
    if e.SetFlag? || e.Add? {
      hide Tokens, Step, IsBatch;
      TokensOfCalls(s, e);
    } else if e.Complete? || e.Check? {
      hide Tokens, Step, IsBatch;
      TokensOfHooks(s, e);
    } else {
      hide IsBatch, Tidy;
    }
  }

  lemma ReadSetsNothing(s: State, batch: set<Work>)
    requires s.job.Cleared? && batch <= s.queue && !WillSet(s)
    ensures !WillSet(QueueRead(s, batch))
  {
    SubsetSize(batch, s.queue);
    SubsetSize(s.queue - batch, s.queue);
  }

  lemma CallSetsNothing(s: State, e: Event)
    requires Enabled(s, e) && (e.Add? || e.SetFlag?) && !WillSet(s)
    ensures e.Add? && !WillSet(Step(s, e))
  {
    hide IsBatch;
    assert forall a :: a in s.calls && s.calls[a] == BeforeSet ==> a in Unset(s.calls);
  }

  lemma NobodyWillSet(s: State, e: Event)
    requires Enabled(s, e) && Progress(e) && !WillSet(s)
    ensures !WillSet(Step(s, e))
  {
    if e.Read? {
      BatchWithin(s.kind, e.batch, s.queue);
      ReadSetsNothing(s, e.batch);
      hide WillSet, QueueRead;
    } else if e.SetFlag? || e.Add? {
      CallSetsNothing(s, e);
      hide WillSet, Step;
    } else if e.Complete? || e.Check? {
      hide IsBatch, FullAhead;
      HookSetsNothing(s, e);
      hide WillSet, Step;
    } else {
      hide IsBatch, Unset;
    }
  }

  lemma HookSetsNothing(s: State, e: Event)
    requires Enabled(s, e) && (e.Complete? || e.Check?) && !WillSet(s)
    ensures !WillSet(Step(s, e))
  {
    hide IsBatch, Unset;
  }

  /** Who cannot chase never will. */
  lemma CalmStays(s: State, e: Event)
    requires Tidy(s) && Enabled(s, e) && Progress(e) && !CanChase(s)
    ensures !CanChase(Step(s, e))
  {
    TokensKept(s, e);
    if Tokens(s) >= 2 { NobodyWillSet(s, e); }
    hide Tokens, FullAhead, Unset, Step, IsBatch;
  }

  /** A call sets the flag alone, so that nobody else gets a reason to go on. */
  lemma SetWeighsLess(s: State, a: Actor)
    requires a in s.calls && s.calls[a] == BeforeSet && Tokens(s) <= 1
    ensures Weight(FlagSet(s, a)) < Weight(s)
  {
    CallSets(s.calls, a);
    assert |s.calls| == |s.calls.Keys - {a}| + 1;
    assert s.hooks == map[] && s.job == NoJob;
    assert Passing(map[], true) == {} && Passing(map[], s.pending) == {};
    hide Unset, Passing;
  }

  lemma AddWeighsLess(s: State, a: Actor)
    requires a in s.calls && s.calls[a] == BeforeAdd
    ensures Weight(Added(s, a)) < Weight(s)
  {
    hide Unset, Passing;
    CallReturns(s.calls, a);
    var t := Added(s, a);
    assert JobWeight(t) <= JobWeight(s) + 6 && Left(t) == Left(s);
    assert t.calls == s.calls - {a} && t.hooks == s.hooks && t.pending == s.pending;
    hide JobWeight, Left, Added;
  }

  lemma PassingMore(hooks: map<Actor, bool>, pending: bool, h: Actor, full: bool)
    requires h !in hooks
    ensures |Passing(hooks[h := full], pending)| == |Passing(hooks, pending)| + if full || pending then 1 else 0
  {
    var less, more := Passing(hooks, pending), Passing(hooks[h := full], pending);
    forall x ensures x in more <==> x in less || (x == h && (full || pending)) {
    }
    assert h !in less;
    hide Passing;
    OneMore(less, more, h, full || pending);
  }

  lemma OneMore(less: set<Actor>, more: set<Actor>, h: Actor, one: bool)
    requires h !in less && forall x :: x in more <==> x in less || (x == h && one)
    ensures |more| == |less| + if one then 1 else 0
  {
    assert more == less + if one then {h} else {};
  }

  lemma HookReturns(hooks: map<Actor, bool>, pending: bool, h: Actor)
    requires h in hooks
    ensures |hooks - {h}| == |hooks| - 1
    ensures |Passing(hooks - {h}, pending)| == |Passing(hooks, pending)| - if hooks[h] || pending then 1 else 0
  {
    RemovedKey(hooks, h);
    assert Passing(hooks - {h}, pending) == Passing(hooks, pending) - {h};
  }

  lemma CompletionWeighsLess(s: State, h: Actor)
    requires s.job.Finishing? && h !in s.hooks
    ensures Weight(Completed(s, h)) < Weight(s)
  {
    AddedKey(s.hooks, h, s.job.full);
    PassingMore(s.hooks, s.pending, h, s.job.full);
    hide Unset, Passing;
  }

  lemma CheckWeighsLess(s: State, h: Actor)
    requires h in s.hooks && h !in s.calls
    ensures Weight(Checked(s, h)) < Weight(s)
  {
    hide Unset, Passing;
    HookReturns(s.hooks, s.pending, h);
    CallStarts(s.calls, h);
    hide JobWeight, Left;
    if s.hooks[h] || s.pending {
      assert Checked(s, h) == s.(hooks := s.hooks - {h}, calls := s.calls[h := BeforeSet]);
    } else {
      assert Checked(s, h) == s.(hooks := s.hooks - {h});
    }
    SameJob(s, Checked(s, h));
  }

  lemma SameJob(s: State, t: State)
    requires t.job == s.job && t.pending == s.pending && t.queue == s.queue
    ensures JobWeight(t) == JobWeight(s) && Left(t) == Left(s)
  {
  }

  lemma ReadWeighsLess(s: State, batch: set<Work>)
    requires s.job.Cleared? && batch <= s.queue
    ensures Weight(QueueRead(s, batch)) < Weight(s)
  {
    hide Unset, Passing;
    assert |s.queue - batch| == |s.queue| - |batch|;
  }

  lemma ClearWeighsLess(s: State)
    requires s.job.Begun?
    ensures Weight(FlagCleared(s)) < Weight(s)
  {
    assert Passing(s.hooks, false) <= Passing(s.hooks, s.pending);
    SubsetSize(Passing(s.hooks, false), Passing(s.hooks, s.pending));
    hide Unset, Passing;
  }

  lemma FinishWeighsLess(s: State)
    requires s.job.HasRead?
    ensures Weight(BatchHandled(s)) < Weight(s)
  {
    hide Unset, Passing;
  }

  lemma BeginWeighsLess(s: State)
    requires s.job.Waiting?
    ensures Weight(s.(job := Begun)) < Weight(s)
  {
    hide Unset, Passing;
  }

  lemma StepWeighsLess(s: State, e: Event)
    requires Tidy(s) && Enabled(s, e) && Progress(e) && !CanChase(s)
    ensures Weight(Step(s, e)) < Weight(s)
  {
    hide Weight, IsBatch, Tokens, FullAhead, FlagCleared, QueueRead, BatchHandled, Completed, Checked, FlagSet, Added;
    match e
    case SetFlag(a) =>
      assert a in Unset(s.calls);
      SetWeighsLess(s, a);
    case Add(a) => AddWeighsLess(s, a);
    case Complete(h) => CompletionWeighsLess(s, h);
    case Check(h) => CheckWeighsLess(s, h);
    case Begin => BeginWeighsLess(s);
    case Clear => ClearWeighsLess(s);
    case Read(batch) =>
      BatchWithin(s.kind, batch, s.queue);
      ReadWeighsLess(s, batch);
    case Finish => FinishWeighsLess(s);
  }

  lemma {:induction false} RunsWeighLess(s: State, es: seq<Event>, t: State)
    requires Tidy(s) && !CanChase(s) && Runs(s, es, t) && AllProgress(es)
    ensures |es| <= Weight(s)
    decreases |es|
  {
    if es != [] {
      hide CanChase, Weight, Tidy;
      TidyKept(s, es[0]);
      CalmStays(s, es[0]);
      StepWeighsLess(s, es[0]);
      RunsWeighLess(Step(s, es[0]), es[1..], t);
    }
  }

  // ----- and those that can chase need not end

  ghost predicate Chasing(s: State) {
    Tokens(s) >= 2 && Unset(s.calls) != {}
  }

  /** A nonempty run of progress from `s` to `t`. */
  ghost predicate Moves(s: State, t: State) {
    exists es :: es != [] && Runs(s, es, t) && AllProgress(es)
  }

  lemma MovesOne(s: State, e: Event)
    requires Enabled(s, e) && Progress(e)
    ensures Moves(s, Step(s, e))
  {
    One(s, e);
    assert AllProgress([e]);
  }

  lemma MovesOn(s: State, t: State, e: Event) returns (u: State)
    requires Moves(s, t) && Enabled(t, e) && Progress(e)
    ensures Moves(s, u) && u == Step(t, e)
  {
    u := Step(t, e);
    var es :| es != [] && Runs(s, es, t) && AllProgress(es);
    One(t, e);
    RunsConcat(s, es, t, [e], u);
    assert AllProgress(es + [e]);
  }

  /** While a job waits or runs it goes on, and the call that has yet to set the flag waits. */
  lemma JobGoesOn(s: State) returns (e: Event)
    requires Tidy(s) && Chasing(s) && s.job != NoJob
    ensures Enabled(s, e) && Progress(e) && Chasing(Step(s, e))
  {
    var batch := SomeBatch(s.kind, s.queue);
    var h := FreshActor(s.known);
    e := match s.job case Waiting => Begin case Begun => Clear case Cleared => Read(batch)
                     case HasRead(_) => Finish case _ => Complete(h);
    TokensKept(s, e);
    hide Tokens, IsBatch, Unset;
  }

  /** Without a job another token goes on so that one call stays that has yet to set the flag. */
  lemma OtherGoesOn(s: State) returns (t: State)
    requires Tidy(s) && Chasing(s) && s.job == NoJob
    ensures Moves(s, t) && Tidy(t) && Chasing(t)
  {
    var a :| a in Unset(s.calls);
    if s.hooks.Keys != {} {
      var h :| h in s.hooks;
      t := HookFollows(s, a, h);
    } else {
      var b := OtherCall(s.calls, a);
      t := CallAdds(s, a, b);
    }
  }

  lemma OtherCall(calls: map<Actor, Call>, a: Actor) returns (b: Actor)
    requires |calls| >= 2 && a in calls
    ensures b in calls && b != a
  {
    assert |calls.Keys - {a}| == |calls| - 1;
    b :| b in calls.Keys - {a};
  }

  lemma Kept(s: State, e: Event)
    requires Tidy(s) && Enabled(s, e) && Progress(e)
    requires (e.Add? ==> s.job == NoJob) && (e.Check? ==> s.hooks[e.h] || s.pending)
    ensures Tidy(Step(s, e)) && Tokens(Step(s, e)) == Tokens(s)
  {
    hide Tokens;
    TokensKept(s, e);
    TidyKept(s, e);
    hide *;
  }

  /** A hook that has no reason to go on gets one when the call sets the flag. */
  lemma HookFollows(s: State, a: Actor, h: Actor) returns (t: State)
    requires Tidy(s) && Chasing(s) && a in s.calls && s.calls[a] == BeforeSet && h in s.hooks
    ensures Moves(s, t) && Tidy(t) && Chasing(t)
  {
    hide Moves, Tokens, IsBatch;
    if s.hooks[h] || s.pending {
      MovesOne(s, Check(h));
      Kept(s, Check(h));
      t := Step(s, Check(h));
    } else {
      MovesOne(s, SetFlag(a));
      Kept(s, SetFlag(a));
      t := Step(s, SetFlag(a));
      Kept(t, Check(h));
      t := MovesOn(s, t, Check(h));
    }
    assert h in Unset(t.calls);
  }

  lemma CallAdds(s: State, a: Actor, b: Actor) returns (t: State)
    requires Tidy(s) && Chasing(s) && s.job == NoJob && a in s.calls && s.calls[a] == BeforeSet && b in s.calls
    requires b != a
    ensures Moves(s, t) && Tidy(t) && Chasing(t)
  {
    hide Moves, Tokens, IsBatch;
    if s.calls[b] == BeforeSet {
      MovesOne(s, SetFlag(b));
      Kept(s, SetFlag(b));
      t := Step(s, SetFlag(b));
      Kept(t, Add(b));
      t := MovesOn(s, t, Add(b));
    } else {
      MovesOne(s, Add(b));
      Kept(s, Add(b));
      t := Step(s, Add(b));
    }
    assert a in Unset(t.calls);
  }

  lemma ChaseGoesOn(s: State) returns (t: State)
    requires Tidy(s) && Chasing(s)
    ensures Moves(s, t) && Tidy(t) && Chasing(t)
  {
    if s.job == NoJob {
      t := OtherGoesOn(s);
    } else {
      var e := JobGoesOn(s);
      TidyKept(s, e);
      MovesOne(s, e);
      t := Step(s, e);
    }
  }

  lemma MovesBefore(s: State, u: State, gs: seq<Event>, t: State) returns (es: seq<Event>)
    requires Moves(s, u) && Runs(u, gs, t) && AllProgress(gs)
    ensures Runs(s, es, t) && AllProgress(es) && |es| > |gs|
  {
    var fs :| fs != [] && Runs(s, fs, u) && AllProgress(fs);
    RunsConcat(s, fs, u, gs, t);
    hide Runs;
    es := fs + gs;
  }

  lemma {:induction false} ChaseForLong(s: State, n: nat) returns (es: seq<Event>, t: State)
    requires Tidy(s) && Chasing(s)
    ensures Runs(s, es, t) && AllProgress(es) && |es| >= n
    decreases n
  {
    hide *;
    if n == 0 {
      es, t := RunsNone(s);
    } else {
      var u := ChaseGoesOn(s);
      var gs;
      gs, t := ChaseForLong(u, n - 1);
      es := MovesBefore(s, u, gs, t);
    }
  }

  lemma RunsNone(s: State) returns (es: seq<Event>, t: State)
    ensures t == s && es == [] && Runs(s, es, t) && AllProgress(es)
  {
    es, t := [], s;
  }

  // ----- getting there

  function StepsToChase(s: State): nat {
    if exists h :: h in s.hooks && (s.hooks[h] || s.pending) then 0
    else
      match s.job
      case Finishing(full) => if full || s.pending then 1 else 7
      case HasRead(batch) => if |batch| == BATCH_SIZE || s.pending then 2 else 8
      case Cleared => 3
      case Begun => 4
      case Waiting => 5
      case NoJob => 6
  }

  /** The next step towards a call that will set the flag. */
  lemma NextTowardsChase(s: State) returns (e: Event)
    requires Tidy(s) && WillSet(s) && Unset(s.calls) == {}
    ensures Enabled(s, e) && Progress(e) && WillSet(Step(s, e))
    ensures (e.Add? ==> s.job == NoJob) && (e.Check? ==> s.hooks[e.h] || s.pending)
    ensures Unset(Step(s, e).calls) != {} || StepsToChase(Step(s, e)) < StepsToChase(s)
  {
    if h :| h in s.hooks && (s.hooks[h] || s.pending) {
      e := Check(h);
      assert h in Unset(Step(s, e).calls);
    } else {
      e := JobTowardsChase(s);
    }
  }

  lemma JobTowardsChase(s: State) returns (e: Event)
    requires Tidy(s) && WillSet(s) && Unset(s.calls) == {} && forall h :: h in s.hooks ==> !s.hooks[h] && !s.pending
    ensures Enabled(s, e) && Progress(e) && !e.Check? && WillSet(Step(s, e)) && (e.Add? ==> s.job == NoJob)
    ensures StepsToChase(Step(s, e)) < StepsToChase(s)
  {
    match s.job
    case NoJob =>
      var a :| a in s.calls && s.calls[a] == BeforeAdd;
      e := Add(a);
    case Waiting => e := Begin;
    case Begun => e := Clear;
    case Cleared => e := ReadTowardsChase(s);
    case HasRead(batch) => e := Finish;
    case Finishing(full) =>
      var h := FreshActor(s.known);
      e := Complete(h);
      var t := Step(s, e);
      assert h in t.hooks && t.hooks[h] == full && t.pending == s.pending;
    hide IsBatch, Unset;
  }

  lemma ReadTowardsChase(s: State) returns (e: Event)
    requires s.job.Cleared? && (s.pending || |s.queue| >= BATCH_SIZE) && forall h :: h in s.hooks ==>
        !s.hooks[h] && !s.pending
    ensures e.Read? && Enabled(s, e) && WillSet(Step(s, e)) && StepsToChase(Step(s, e)) == 2
  {
    var batch;
    if |s.queue| >= BATCH_SIZE {
      batch := FullBatchExists(s.kind, s.queue);
    } else {
      batch := SomeBatch(s.kind, s.queue);
    }
    e := Read(batch);
    hide IsBatch, Unset;
  }

  lemma {:induction false} ChaseReached(s: State) returns (t: State)
    requires Tidy(s) && CanChase(s)
    ensures Leads(s, t) && Tidy(t) && Chasing(t)
    decreases if Unset(s.calls) != {} then 0 else 1 + StepsToChase(s)
  {
    hide Leads, Unset, Tokens, WillSet, StepsToChase, Step, Enabled, Tidy;
    if Unset(s.calls) != {} {
      LeadsSelf(s);
      t := s;
    } else {
      var e := NextTowardsChase(s);
      Kept(s, e);
      LeadsOne(s, e);
      t := ChaseReached(Step(s, e));
      LeadsTrans(s, Step(s, e), t);
    }
  }

  /** All becomes quiet in every order exactly if nobody can chase: with at most one on the
      way, or while none of those on the way will set the flag, at most `Weight` steps are
      left; otherwise there are runs of progress of any length. */
  lemma EveryOrderEndsExactlyWhenNoChase(s: State)
    requires Reachable(s)
    ensures EveryOrderEnds(s) <==> !CanChase(s)
    ensures !CanChase(s) ==> NoRunExceeds(s, Weight(s))
  {
    InvIsTidy(s);
    hide Runs, CanChase, Tidy, Weight, Reachable;
    if CanChase(s) {
      forall n: nat ensures !NoRunExceeds(s, n) {
        var es, t := LongRun(s, n);
      }
    } else {
      forall es, t | Runs(s, es, t) && AllProgress(es) ensures |es| <= Weight(s) {
        RunsWeighLess(s, es, t);
      }
      assert NoRunExceeds(s, Weight(s));
    }
  }

  lemma LongRun(s: State, n: nat) returns (es: seq<Event>, t: State)
    requires Tidy(s) && CanChase(s)
    ensures Runs(s, es, t) && AllProgress(es) && |es| > n
  {
    hide *;
    var u := ChaseReached(s);
    var gs;
    gs, t := ChaseForLong(u, n + 1);
    es := LeadsBefore(s, u, gs, t);
  }

  lemma LeadsBefore(s: State, u: State, gs: seq<Event>, t: State) returns (es: seq<Event>)
    requires Leads(s, u) && Runs(u, gs, t) && AllProgress(gs)
    ensures Runs(s, es, t) && AllProgress(es) && |es| >= |gs|
  {
    var fs :| Runs(s, fs, u) && AllProgress(fs);
    RunsConcat(s, fs, u, gs, t);
    hide Runs;
    es := fs + gs;
  }

  /** So with at most one on the way, however much is queued, every order ends, and where it
      can go no further every request is served. */
  lemma AloneEveryOrderEnds(s: State, es: seq<Event>, t: State)
    requires Reachable(s) && Tokens(s) <= 1 && Runs(s, es, t) && AllProgress(es)
    ensures |es| <= Weight(s)
    ensures (forall e :: Enabled(t, e) ==> !Progress(e)) ==> Quiet(t) && t.unserved == {} && !t.pending
  {
    InvIsTidy(s);
    RunsWeighLess(s, es, t);
    ReachableOn(s, es, t);
    if forall e :: Enabled(t, e) ==> !Progress(e) {
      if !Quiet(t) { NeverStuck(t); }
      QuietMeansServed(t);
    }
  }

  lemma AndThen(s: State, es: seq<Event>, t: State, e: Event) returns (es': seq<Event>, t': State)
    requires Runs(s, es, t) && Enabled(t, e)
    ensures es' == es + [e] && t' == Step(t, e) && Runs(s, es', t')
  {
    es', t' := es + [e], Step(t, e);
    One(t, e);
    RunsConcat(s, es, t, [e], t');
  }

  ghost predicate RequestsBringWork(es: seq<Event>) {
    forall i :: 0 <= i < |es| && es[i].Request? ==> es[i].ids != {}
  }

  /** Two requests that bring work are enough: a run served both, the queue is empty, one
      call has yet to set the flag, and progress can go on for any time. */
  lemma TwoRequestsCanChase(x: Work, y: Work) returns (es: seq<Event>, s: State)
    ensures Runs(Init(Whole), es, s) && RequestsBringWork(es)
    ensures s.queue == {} && s.unserved == {} && CanChase(s) && !EveryOrderEnds(s)
  {
    hide *;
    var fs, u := TwoRequestsQueue(x, y);
    es, s := ReadAll(u);
    RunsConcat(Init(Whole), fs, u, es, s);
    BringWorkConcat(fs, es);
    es := fs + es;
    RunsReach(es, s);
    EveryOrderEndsExactlyWhenNoChase(s);
  }

  lemma RunsReach(es: seq<Event>, s: State)
    requires Runs(Init(Whole), es, s)
    ensures Reachable(s)
  {
    RunsKeepKind(Init(Whole), es, s);
  }

  lemma BringWorkConcat(es: seq<Event>, fs: seq<Event>)
    requires RequestsBringWork(es) && RequestsBringWork(fs)
    ensures RequestsBringWork(es + fs)
  {
  }

  lemma ReadAll(u: State) returns (es: seq<Event>, s: State)
    requires u.kind.Whole? && u.job.Cleared? && u.calls == map[Actor(1) := BeforeSet] && |u.queue| < BATCH_SIZE
    ensures Runs(u, es, s) && RequestsBringWork(es)
    ensures s.queue == {} && s.unserved == {} && CanChase(s)
  {
    hide Runs;
    One(u, Read(u.queue));
    es, s := [Read(u.queue)], Step(u, Read(u.queue));
    es, s := AndThen(u, es, s, Finish);
    assert s.queue == {};
    assert Actor(1) in Unset(s.calls);
    OneCall(s.calls);
  }

  lemma OneCall(calls: map<Actor, Call>)
    requires Actor(1) in calls
    ensures |calls| >= 1
  {
    assert calls.Keys != {};
  }

  lemma TwoRequestsQueue(x: Work, y: Work) returns (es: seq<Event>, s: State)
    ensures Runs(Init(Whole), es, s) && RequestsBringWork(es)
    ensures s.kind.Whole? && s.job.Cleared? && s.calls == map[Actor(1) := BeforeSet] && |s.queue| < BATCH_SIZE
  {
    var s0, b, a := Init(Whole), Actor(0), Actor(1);
    hide Runs;
    One(s0, Request(b, {x}));
    es, s := [Request(b, {x})], Step(s0, Request(b, {x}));
    es, s := AndThen(s0, es, s, SetFlag(b));
    es, s := AndThen(s0, es, s, Add(b));
    es, s := AndThen(s0, es, s, Begin);
    es, s := AndThen(s0, es, s, Clear);
    es, s := AndThen(s0, es, s, Request(a, {y}));
    assert s.queue == {x} + {y};
  }
}
