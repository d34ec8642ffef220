/** The refresh of one account's inventory as its service and processors run it: what each does
    between two `await`s, or under the lock. */
module RefreshService {
  import opened Wrappers
  import opened Collections
  import opened RefreshPoint

  class InventoriesService {
    var point: Option<int>
    var saved: Option<Inventory>
    // BullMQ
    var enqueue: Enqueue
    var jobs: map<nat, Job>
    // the time, and the snapshot backpack.tf would answer with
    var clock: int
    var latest: int
    ghost var requested: set<int>
    ghost var owed: set<int>
    ghost var served: set<int>
    ghost var withdrawn: set<int>

    ghost function Now(): State
      reads this
    {
      State(clock, latest, point, saved, enqueue, jobs, requested, owed, served, withdrawn)
    }

    constructor ()
      ensures Now() == INIT
    {
      point, saved, enqueue, jobs := None, None, NoEnqueue, map[];
      clock, latest, requested, owed, served, withdrawn := 0, 0, {}, {}, {}, {};
    }

    method ScheduleRefresh(time: int)
      modifies this
      ensures Now() == Step(old(Now()), Schedule(time))
    {
      if saved.Some? && saved.value.timestamp >= time {
        // nothing to do: what is saved will not be improved on
        return;
      }
      var refreshPoint := point;
      point := Some(Max(if refreshPoint.Some? then refreshPoint.value else 0, time));
      owed := owed + {time};
      // nobody works towards the point
      if refreshPoint.None? || (enqueue.NoEnqueue? && jobs == map[]) {
        AddEnqueueJob();
      }
    }

    /** `queue.add` with the account in the job id. */
    method AddEnqueueJob()
      modifies this`enqueue
      ensures enqueue == if old(enqueue).NoEnqueue? then Queued else old(enqueue)
    {
      if enqueue.NoEnqueue? {
        enqueue := Queued;
      }
    }

    /** `queue.add` with the attempts in the job id. */
    method EnqueueRefresh(attempts: nat, job: Job)
      modifies this`jobs
      ensures jobs == Add(old(jobs), attempts, job)
    {
      if attempts !in jobs {
        jobs := jobs[attempts := job];
      }
    }

    /** The enqueue processor is told `status`, at `now`. */
    method OnInventoryStatus(status: int, now: int)
      requires Enabled(Now(), Tell) && status == latest && now == clock
      modifies this
      ensures Now() == Step(old(Now()), Tell)
    {
      enqueue := Told(status, now);
    }

    /** It goes on unless it finds the refresh withdrawn. */
    method OnRefreshPoint()
      requires Enabled(Now(), Look)
      modifies this
      ensures Now() == Step(old(Now()), Look)
    {
      if point.Some? {
        enqueue := Found(enqueue.status, enqueue.when);
      } else {
        enqueue := Ending;
      }
    }

    method StartChain()
      requires Enabled(Now(), Start)
      modifies this
      ensures Now() == Step(old(Now()), Start)
    {
      EnqueueRefresh(0, Job(enqueue.status, enqueue.when, None, NotAsked));
      enqueue := Ending;
    }

    method RetryEnqueueJob()
      requires Enabled(Now(), RetryEnqueue)
      modifies this
      ensures Now() == Step(old(Now()), RetryEnqueue)
    {
      enqueue := Queued;
    }

    /** It completes, or is removed. */
    method EndEnqueueJob()
      modifies this
      ensures Now() == old(Now()).(enqueue := NoEnqueue)
    {
      enqueue := NoEnqueue;
    }

    method DequeueRefresh()
      modifies this
      ensures Now() == Step(old(Now()), Dequeue)
    {
      point := None;
      owed, withdrawn := {}, withdrawn + owed;
    }

    /** `continueRefresh`, under the lock. */
    method ContinueRefresh(a: nat)
      requires Enabled(Now(), Continue(a))
      modifies this
      ensures Now() == Step(old(Now()), Continue(a))
    {
      var data, inventory, status := jobs[a], jobs[a].read.value, jobs[a].post.status;
      var refreshed := status > data.refreshed;
      jobs := jobs[a := data.(post := Ended)];
      if point.None? {
        return;
      }
      if refreshed && inventory.Some? && inventory.value.refresh >= point.value {
        point := None;
        owed, served := {}, served + owed;
        return;
      }
      EnqueueRefresh(a + 1, Job(status, data.post.when, None, NotAsked));
    }

    /** The id is free again. */
    method CompleteJob(a: nat)
      requires Enabled(Now(), Complete(a))
      modifies this
      ensures Now() == Step(old(Now()), Complete(a))
    {
      jobs := jobs - {a};
    }

    /** The last step of `refreshInventory`. */
    method SaveInventory(a: nat)
      requires Enabled(Now(), Store(a))
      modifies this
      ensures Now() == Step(old(Now()), Store(a))
    {
      var p := jobs[a].post;
      jobs := jobs[a := jobs[a].(post := Stored(p.at, p.status, p.when))];
      saved := Some(Inventory(p.at, p.status));
      requested := requested + {p.at};
    }

    /** The inventory record, which a job reads next to posting its request. */
    method GetInventory(a: nat)
      requires Enabled(Now(), Read(a))
      modifies this
      ensures Now() == Step(old(Now()), Read(a))
    {
      jobs := jobs[a := jobs[a].(read := Some(saved))];
    }

    /** The first step of `refreshInventory`; `now` is the time of the request. */
    method PostRefresh(a: nat, now: int)
      requires Enabled(Now(), Ask(a)) && now == clock
      modifies this
      ensures Now() == Step(old(Now()), Ask(a))
    {
      jobs := jobs[a := jobs[a].(post := Asked(now))];
    }

    method OnStatus(a: nat, status: int, now: int)
      requires Enabled(Now(), Answer(a)) && status == latest && now == clock
      modifies this
      ensures Now() == Step(old(Now()), Answer(a))
    {
      jobs := jobs[a := jobs[a].(post := Answered(jobs[a].post.at, status, now))];
    }

    /** What BullMQ does with a job that failed. */
    method RetryJob(a: nat)
      requires Enabled(Now(), Retry(a))
      modifies this
      ensures Now() == Step(old(Now()), Retry(a))
    {
      jobs := jobs[a := jobs[a].(read := None, post := NotAsked)];
    }

    /** And with one that is dequeued or given up. */
    method RemoveJob(a: nat)
      requires Enabled(Now(), Remove(a))
      modifies this
      ensures Now() == Step(old(Now()), Remove(a))
    {
      jobs := jobs - {a};
    }

    method Perform(e: Event)
      requires Enabled(Now(), e)
      modifies this
      ensures Now() == Step(old(Now()), e)
    {
      match e
      case Tick(n) => clock := clock + n;
      case Snapshot => latest := clock;
      case Schedule(time) => ScheduleRefresh(time);
      case Tell => OnInventoryStatus(latest, clock);
      case Look => OnRefreshPoint();
      case Start => StartChain();
      case EndEnqueue => EndEnqueueJob();
      case RetryEnqueue => RetryEnqueueJob();
      case RemoveEnqueue => EndEnqueueJob();
      case Read(a) => GetInventory(a);
      case Ask(a) => PostRefresh(a, clock);
      case Answer(a) => OnStatus(a, latest, clock);
      case Store(a) => SaveInventory(a);
      case Continue(a) => ContinueRefresh(a);
      case Complete(a) => CompleteJob(a);
      case Retry(a) => RetryJob(a);
      case Dequeue => DequeueRefresh();
      case Remove(a) => RemoveJob(a);
    }

    /** Whatever is called in whatever order, every request that was accepted is covered by the
        point, was withdrawn, or was served by a refresh requested at or after it. */
    method PerformAll(es: seq<Event>)
      requires Inv(Now()) && CanRun(Now(), es)
      modifies this
      ensures Inv(Now()) && Runs(old(Now()), es, Now())
      ensures forall r :: r in Accepted(old(Now()), es, Now()) ==>
                || r in withdrawn
                || (r in owed && point.Some? && point.value >= r)
                || (exists q :: q in requested && q >= r)
      decreases |es|
    {
      hide Enabled, Step, Inv, Accepted;
      ghost var start := Now();
      if es != [] {
        StepKeepsInv(Now(), es[0]);
        Perform(es[0]);
        PerformAll(es[1..]);
      }
      NoRequestIsDropped(start, es, Now());
    }
  }

  ghost predicate CanRun(s: State, es: seq<Event>)
    decreases |es|
  {
    es == [] || (Enabled(s, es[0]) && CanRun(Step(s, es[0]), es[1..]))
  }
}
