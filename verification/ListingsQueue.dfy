/** A queue of one account and its job, step by step: what the methods of the listings
    manager and its processor do between two `await`s.  Sorted queues are kept as sets. */
module ListingsQueue {
  import opened WakeUp

  class ListingsQueue {
    const kind: Kind
    // Redis
    var queue: set<Work>
    var pending: bool
    // BullMQ: the one job this queue's id can name
    var job: Job
    // continuations of `createJob` and of the completed hook
    var calls: map<Actor, Call>
    var hooks: map<Actor, bool>
    ghost var unserved: set<Actor>
    ghost var since: set<Work>
    ghost var last: LastRead
    ghost var known: set<Actor>

    ghost function Now(): State
      reads this
    {
      State(kind, queue, pending, job, calls, hooks, unserved, since, last, known)
    }

    constructor (kind: Kind)
      ensures Now() == Init(kind)
    {
      this.kind := kind;
      queue, pending, job, calls, hooks := {}, false, NoJob, map[], map[];
      unserved, since, last, known := {}, {}, LastRead({}, {}), {};
    }

    /** The transaction that queues work, before `createJob` is called. */
    method QueueWork(a: Actor, ids: set<Work>)
      requires Enabled(Now(), Request(a, ids))
      modifies this
      ensures Now() == Step(old(Now()), Request(a, ids))
    {
      queue := queue + ids;
      unserved, since, known := unserved + {a}, since + ids, known + {a};
      calls := calls[a := BeforeSet];
    }

    method CreateJobSetsFlag(a: Actor)
      requires Enabled(Now(), SetFlag(a))
      modifies this
      ensures Now() == Step(old(Now()), SetFlag(a))
    {
      pending := true;
      calls := calls[a := BeforeAdd];
    }

    method CreateJobAdds(a: Actor)
      requires Enabled(Now(), Add(a))
      modifies this
      ensures Now() == Step(old(Now()), Add(a))
    {
      if job == NoJob {
        job := Waiting;
      }
      calls := calls - {a};
    }

    method BeginJob()
      requires Enabled(Now(), Begin)
      modifies this
      ensures Now() == Step(old(Now()), Begin)
    {
      job := Begun;
    }

    method ProcessJob()
      requires Enabled(Now(), Clear)
      modifies this
      ensures Now() == Step(old(Now()), Clear)
    {
      pending := false;
      job := Cleared;
    }

    /** `getListingsToDelete` and the like answer with `batch`. */
    method GetListings(batch: set<Work>)
      requires Enabled(Now(), Read(batch))
      modifies this
      ensures Now() == Step(old(Now()), Read(batch))
    {
      job := HasRead(batch);
      unserved, since, last := {}, {}, LastRead(queue, batch);
    }

    /** An empty batch is not even dequeued. */
    method HandleListings()
      requires Enabled(Now(), Finish)
      modifies this
      ensures Now() == Step(old(Now()), Finish)
    {
      var ids := job.batch;
      if ids == {} {
        job := Finishing(false);
        return;
      }
      queue := queue - ids;
      job := Finishing(|ids| == BATCH_SIZE);
    }

    method CompleteJob(h: Actor)
      requires Enabled(Now(), Complete(h))
      modifies this
      ensures Now() == Step(old(Now()), Complete(h))
    {
      hooks := hooks[h := job.full];
      known := known + {h};
      job := NoJob;
    }

    method OnCompleted(h: Actor)
      requires Enabled(Now(), Check(h))
      modifies this
      ensures Now() == Step(old(Now()), Check(h))
    {
      var again := hooks[h] || pending;
      hooks := hooks - {h};
      if again {
        calls := calls[h := BeforeSet];
      }
    }

    /** A job that failed or was delayed waits again. */
    method RetryJob()
      requires Enabled(Now(), StartOver)
      modifies this
      ensures Now() == Step(old(Now()), StartOver)
    {
      job := Waiting;
    }

    /** Work that is no longer wanted, such as the hashes of removed listings. */
    method Withdraw(ids: set<Work>)
      requires Enabled(Now(), Forget(ids))
      modifies this
      ensures Now() == Step(old(Now()), Forget(ids))
    {
      queue := queue - ids;
    }

    method Perform(e: Event)
      requires Enabled(Now(), e)
      modifies this
      ensures Now() == Step(old(Now()), e)
    {
      match e
      case Request(a, ids) => QueueWork(a, ids);
      case SetFlag(a) => CreateJobSetsFlag(a);
      case Add(a) => CreateJobAdds(a);
      case Begin => BeginJob();
      case Clear => ProcessJob();
      case Read(batch) => GetListings(batch);
      case Finish => HandleListings();
      case Complete(h) => CompleteJob(h);
      case Check(h) => OnCompleted(h);
      case StartOver => RetryJob();
      case Forget(ids) => Withdraw(ids);
    }

    /** Whatever is called in whatever order: once all is quiet, nothing is left to wake up for. */
    method PerformAll(es: seq<Event>)
      requires CanRun(Now(), es)
      modifies this
      ensures Runs(old(Now()), es, Now())
      ensures old(Now()) == Init(kind) && Quiet(Now()) ==> NothingLeft(Now())
      decreases |es|
    {
      hide Enabled, Step, Quiet, NothingLeft, Init;
      ghost var start := Now();
      if es != [] {
        Perform(es[0]);
        PerformAll(es[1..]);
      }
      if start == Init(kind) && Quiet(Now()) {
        QuietRunLeavesNothing(kind, es, Now());
      }
    }
  }

  ghost predicate CanRun(s: State, es: seq<Event>)
    decreases |es|
  {
    es == [] || (Enabled(s, es[0]) && CanRun(Step(s, es[0]), es[1..]))
  }

  predicate NothingLeft(s: State) {
    s.unserved == {} && !s.pending && (s.kind == Whole ==> s.queue == {})
  }

  lemma QuietRunLeavesNothing(kind: Kind, es: seq<Event>, t: State)
    requires Runs(Init(kind), es, t) && t.kind == kind && Quiet(t)
    ensures NothingLeft(t)
  {
    QuietMeansServed(t);
    if kind == Whole {
      QuietMeansEmpty(t);
    }
  }
}
