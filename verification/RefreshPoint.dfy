/** The refresh point of one account's backpack.tf inventory: requests raise it, chains of jobs
    refresh the inventory until a job sees a new snapshot and a refresh request recorded at or
    after the point, and clear it.  The point is read and changed under a lock, except by the
    job that starts a chain; the inventory record is not.  The id of a job is its number of
    attempts, and adding a job whose id is taken does nothing, also while that job has ended
    but not completed.  Snapshot timestamps are the times at which backpack.tf took them. */
module RefreshPoint {
  import opened Wrappers
  import opened Collections

  datatype Inventory = Inventory(refresh: int, timestamp: int)

  /** The request of a job: when it was made, what it answered and when.  `Ended` is a job that
      has decided and is yet to complete. */
  datatype Post =
    | NotAsked
    | Asked(at: int)
    | Answered(at: int, status: int, when: int)
    | Stored(at: int, status: int, when: int)
    | Ended

  /** The job that starts a chain: it asks for the status, looks for a point, adds the first
      job of the chain, and completes. */
  datatype Enqueue =
    | NoEnqueue
    | Queued
    | Told(status: int, when: int)
    | Found(status: int, when: int)
    | Ending

  /** `refreshed` is the snapshot known when the job was added; `since`, which no step looks
      at, is when that was learnt. */
  datatype Job = Job(refreshed: int, since: int, read: Option<Option<Inventory>>, post: Post)

  datatype State = State(
    clock: int,
    latest: int,                   // the latest snapshot
    point: Option<int>,
    saved: Option<Inventory>,
    enqueue: Enqueue,
    jobs: map<nat, Job>,           // by attempts
    requested: set<int>,           // refresh requests recorded so far
    owed: set<int>,                // accepted requests neither served nor withdrawn
    served: set<int>,
    withdrawn: set<int>)

  datatype Event =
    | Tick(seconds: nat)
    | Snapshot
    | Schedule(time: int)
    | Tell
    | Look
    | Start
    | EndEnqueue
    | RetryEnqueue
    | RemoveEnqueue
    | Read(a: nat)
    | Ask(a: nat)
    | Answer(a: nat)
    | Store(a: nat)
    | Continue(a: nat)
    | Complete(a: nat)
    | Retry(a: nat)
    | Dequeue
    | Remove(a: nat)

  const INIT := State(0, 0, None, None, NoEnqueue, map[], {}, {}, {}, {})

  predicate Enabled(s: State, e: Event) {
    match e
    case Tick(_) => true
    case Snapshot => true
    case Schedule(_) => true
    case Tell => s.enqueue.Queued?
    case Look => s.enqueue.Told?
    case Start => s.enqueue.Found?
    case EndEnqueue => s.enqueue.Ending?
    case RetryEnqueue => !s.enqueue.NoEnqueue?
    case RemoveEnqueue => !s.enqueue.NoEnqueue?
    case Read(a) => a in s.jobs && s.jobs[a].read.None?
    case Ask(a) => a in s.jobs && s.jobs[a].post.NotAsked?
    case Answer(a) => a in s.jobs && s.jobs[a].post.Asked?
    case Store(a) => a in s.jobs && s.jobs[a].post.Answered?
    case Continue(a) => a in s.jobs && s.jobs[a].read.Some? && s.jobs[a].post.Stored?
    case Complete(a) => a in s.jobs && s.jobs[a].post.Ended?
    case Retry(a) => a in s.jobs
    case Dequeue => true
    case Remove(a) => a in s.jobs
  }

  // ----- the steps

  /** What is saved is recent enough for the request. */
  predicate NewEnough(saved: Option<Inventory>, time: int) {
    saved.Some? && saved.value.timestamp >= time
  }

  function Raised(point: Option<int>, time: int): int {
    Max(if point.Some? then point.value else 0, time)
  }

  /** `scheduleRefresh`; a chain is started if there was no point or no job, unless the id of
      the job that starts one is taken. */
  function Scheduled(s: State, time: int): State {
    if NewEnough(s.saved, time) then s
    else
      s.(point := Some(Raised(s.point, time)), owed := s.owed + {time},
         enqueue := if s.enqueue.NoEnqueue? && (s.point.None? || s.jobs == map[]) then Queued else s.enqueue)
  }

  /** `queue.add`: nothing happens if the id is taken. */
  function Add(jobs: map<nat, Job>, a: nat, job: Job): map<nat, Job> {
    if a in jobs then jobs else jobs[a := job]
  }

  /** The point is read without the lock. */
  function Looked(enqueue: Enqueue, point: Option<int>): Enqueue
    requires enqueue.Told?
  {
    if point.None? then Ending else Found(enqueue.status, enqueue.when)
  }

  function Started(s: State): State
    requires s.enqueue.Found?
  {
    s.(enqueue := Ending, jobs := Add(s.jobs, 0, Job(s.enqueue.status, s.enqueue.when, None, NotAsked)))
  }

  function Put(s: State, a: nat, job: Job): State {
    s.(jobs := s.jobs[a := job])
  }

  function StoredInventory(s: State, a: nat): State
    requires Enabled(s, Store(a))
  {
    var p := s.jobs[a].post;
    s.(jobs := s.jobs[a := s.jobs[a].(post := Stored(p.at, p.status, p.when))],
       saved := Some(Inventory(p.at, p.status)), requested := s.requested + {p.at})
  }

  /** `continueRefresh` decides that the refresh is done. */
  predicate IsDone(point: int, job: Job)
    requires job.read.Some? && job.post.Stored?
  {
    && job.post.status > job.refreshed
    && job.read.value.Some?
    && job.read.value.value.refresh >= point
  }

  /** Under the lock: the next job is added while the job's own id is still taken. */
  function Continued(s: State, a: nat): State
    requires Enabled(s, Continue(a))
  {
    var job := s.jobs[a];
    var ended := s.jobs[a := job.(post := Ended)];
    if s.point.None? then s.(jobs := ended)
    else if IsDone(s.point.value, job) then
      s.(jobs := ended, point := None, owed := {}, served := s.served + s.owed)
    else
      s.(jobs := Add(ended, a + 1, Job(job.post.status, job.post.when, None, NotAsked)))
  }

  function Step(s: State, e: Event): State
    requires Enabled(s, e)
  {
    match e
    case Tick(n) => s.(clock := s.clock + n)
    case Snapshot => s.(latest := s.clock)
    case Schedule(time) => Scheduled(s, time)
    case Tell => s.(enqueue := Told(s.latest, s.clock))
    case Look => s.(enqueue := Looked(s.enqueue, s.point))
    case Start => Started(s)
    case EndEnqueue => s.(enqueue := NoEnqueue)
    case RetryEnqueue => s.(enqueue := Queued)
    case RemoveEnqueue => s.(enqueue := NoEnqueue)
    case Read(a) => Put(s, a, s.jobs[a].(read := Some(s.saved)))
    case Ask(a) => Put(s, a, s.jobs[a].(post := Asked(s.clock)))
    case Answer(a) => Put(s, a, s.jobs[a].(post := Answered(s.jobs[a].post.at, s.latest, s.clock)))
    case Store(a) => StoredInventory(s, a)
    case Continue(a) => Continued(s, a)
    case Complete(a) => s.(jobs := s.jobs - {a})
    case Retry(a) => Put(s, a, s.jobs[a].(read := None, post := NotAsked))
    case Dequeue => s.(point := None, owed := {}, withdrawn := s.withdrawn + s.owed)
    case Remove(a) => s.(jobs := s.jobs - {a})
  }

  ghost predicate Runs(s: State, es: seq<Event>, t: State)
    decreases |es|
  {
    if es == [] then s == t else Enabled(s, es[0]) && Runs(Step(s, es[0]), es[1..], t)
  }

  // ----- what always holds

  /** The point is at or after every request that is owed; without a point nothing is. */
  predicate PointCovers(point: Option<int>, owed: set<int>) {
    && (point.None? ==> owed == {})
    && (point.Some? ==> forall t :: t in owed ==> t <= point.value)
  }

  /** A snapshot newer than the one a job started from was taken after the job learnt of that. */
  predicate JobFits(job: Job, clock: int, latest: int, requested: set<int>) {
    && job.refreshed <= latest && job.since <= clock
    && (latest > job.refreshed ==> latest >= job.since)
    && (job.read.Some? && job.read.value.Some? ==> job.read.value.value.refresh in requested)
    && (job.post.Asked? ==> job.post.at <= clock)
    && (job.post.Answered? || job.post.Stored? ==>
          && job.post.at <= job.post.when <= clock && job.post.status <= latest
          && (job.post.status > job.refreshed ==> job.post.status >= job.since)
          && (latest > job.post.status ==> latest >= job.post.when))
  }

  predicate EnqueueFits(enqueue: Enqueue, clock: int, latest: int) {
    enqueue.Told? || enqueue.Found? ==>
      enqueue.status <= latest && enqueue.when <= clock && (latest > enqueue.status ==> latest >= enqueue.when)
  }

  predicate Inv(s: State) {
    && PointCovers(s.point, s.owed)
    && EnqueueFits(s.enqueue, s.clock, s.latest)
    && s.latest <= s.clock
    && (s.saved.Some? ==> s.saved.value.refresh in s.requested && s.saved.value.refresh <= s.clock)
    && (forall a :: a in s.jobs ==> JobFits(s.jobs[a], s.clock, s.latest, s.requested))
    && (forall r :: r in s.served ==> exists q :: q in s.requested && q >= r)
  }

  lemma ServedKept(s: State, e: Event)
    requires Inv(s) && Enabled(s, e)
    ensures var t := Step(s, e); forall r :: r in t.served ==> exists q :: q in t.requested && q >= r
  {
    var t := Step(s, e);
    if e.Continue? {
      assert JobFits(s.jobs[e.a], s.clock, s.latest, s.requested);
    }
    forall r | r in t.served ensures exists q :: q in t.requested && q >= r {
      if r in s.served {
        var q :| q in s.requested && q >= r;
        assert q in t.requested;
      } else {
        var q := s.jobs[e.a].read.value.value.refresh;
        assert q in t.requested && q >= r;
      }
    }
    hide JobFits;
  }

  lemma JobsKept(s: State, e: Event)
    requires Inv(s) && Enabled(s, e)
    ensures var t := Step(s, e); forall a :: a in t.jobs ==> JobFits(t.jobs[a], t.clock, t.latest, t.requested)
  {
  }

  lemma StepKeepsInv(s: State, e: Event)
    requires Inv(s) && Enabled(s, e)
    ensures Inv(Step(s, e))
  {
    JobsKept(s, e);
    ServedKept(s, e);
    hide JobFits, IsDone;
  }

  lemma {:induction false} RunsKeepInv(s: State, es: seq<Event>, t: State)
    requires Inv(s) && Runs(s, es, t)
    ensures Inv(t)
    decreases |es|
  {
    if es != [] {
      StepKeepsInv(s, es[0]);
      RunsKeepInv(Step(s, es[0]), es[1..], t);
    }
  }

  /** A request is refused exactly if the snapshot on record was taken at or after its time, and
      then nothing changes; otherwise it is owed. */
  lemma RefusedExactly(s: State, time: int)
    ensures Step(s, Schedule(time)) == s || Step(s, Schedule(time)).owed == s.owed + {time}
    ensures (match s.saved case None => true case Some(inventory) => inventory.timestamp < time) ==>
              Step(s, Schedule(time)).owed == s.owed + {time} && Step(s, Schedule(time)).point.Some?
              && Step(s, Schedule(time)).point.value >= time
    ensures (match s.saved case None => false case Some(inventory) => inventory.timestamp >= time) ==>
              Step(s, Schedule(time)) == s
  {
  }

  /** Any job there is can start over, and can be removed, which frees its id; the job that starts
      a chain likewise. */
  lemma JobsCanGo(s: State, a: nat)
    ensures Enabled(s, Remove(a)) <==> a in s.jobs
    ensures Enabled(s, Retry(a)) <==> a in s.jobs
    ensures Enabled(s, RemoveEnqueue) <==> s.enqueue != NoEnqueue
    ensures Enabled(s, RetryEnqueue) <==> s.enqueue != NoEnqueue
    ensures a in s.jobs ==> Step(s, Remove(a)) == s.(jobs := s.jobs - {a})
    ensures s.enqueue != NoEnqueue ==> Step(s, RemoveEnqueue) == s.(enqueue := NoEnqueue)
    ensures s.enqueue != NoEnqueue ==> Step(s, RetryEnqueue) == s.(enqueue := Queued)
  {
  }

  // ----- the point

  /** While set, the point never decreases, and it goes only when a job is done or it is dequeued. */
  lemma PointNeverDecreases(s: State, e: Event)
    requires Enabled(s, e) && s.point.Some?
    ensures Step(s, e).point.Some? ==> Step(s, e).point.value >= s.point.value
    ensures Step(s, e).point.None? ==>
      e.Dequeue? || (e.Continue? && IsDone(s.point.value, s.jobs[e.a]))
  {
  }

  /** When a job clears the point as done, a refresh was requested at or after the point, so
      at or after every request owed, those raised while the job ran included; and the job's
      snapshot was taken after the job learnt of the one it started from. */
  lemma DoneMeansRequested(s: State, a: nat)
    requires Inv(s) && Enabled(s, Continue(a)) && s.point.Some? && IsDone(s.point.value, s.jobs[a])
    ensures exists q :: q in s.requested && q >= s.point.value && forall r :: r in s.owed ==> q >= r
    ensures s.jobs[a].post.status >= s.jobs[a].since && s.jobs[a].post.status > s.jobs[a].refreshed
  {
    assert JobFits(s.jobs[a], s.clock, s.latest, s.requested);
    assert s.jobs[a].read.value.value.refresh in s.requested;
  }

  ghost function Accepted(s: State, es: seq<Event>, t: State): set<int>
    requires Runs(s, es, t)
    decreases |es|
  {
    if es == [] then {}
    else
      (if es[0].Schedule? && !NewEnough(s.saved, es[0].time) then {es[0].time} else {})
      + Accepted(Step(s, es[0]), es[1..], t)
  }

  /** The accepted requests of a run are those made when the snapshot on record was older. */
  lemma {:induction false} AcceptedExactly(s: State, es: seq<Event>, u: State, time: int, fs: seq<Event>, t: State)
    requires Runs(s, es, u) && Runs(u, [Schedule(time)] + fs, t) && Runs(s, es + [Schedule(time)] + fs, t)
    requires match u.saved case None => true case Some(inventory) => inventory.timestamp < time
    ensures time in Accepted(s, es + [Schedule(time)] + fs, t)
    decreases |es|
  {
    var all := es + [Schedule(time)] + fs;
    if es == [] {
      assert all[0] == Schedule(time);
    } else {
      assert all[1..] == es[1..] + [Schedule(time)] + fs;
      AcceptedExactly(Step(s, es[0]), es[1..], u, time, fs, t);
    }
  }

  /** No accepted request is dropped: each is owed, was withdrawn by a dequeue, or served, which
      means that a refresh was requested at or after it. */
  lemma {:induction false} NoRequestIsDropped(s: State, es: seq<Event>, t: State)
    requires Inv(s) && Runs(s, es, t)
    ensures Accepted(s, es, t) <= t.owed + t.served + t.withdrawn
    ensures s.owed + s.served + s.withdrawn <= t.owed + t.served + t.withdrawn
    ensures forall r :: r in t.owed ==> t.point.Some? && t.point.value >= r
    ensures forall r :: r in t.served ==> exists q :: q in t.requested && q >= r
    decreases |es|
  {
    if es != [] {
      StepKeepsInv(s, es[0]);
      NoRequestIsDropped(Step(s, es[0]), es[1..], t);
    }
  }

  // ----- how many chains

  /** The jobs that have not ended: one for each chain. */
  function Going(jobs: map<nat, Job>): set<nat> {
    set a | a in jobs && !jobs[a].post.Ended?
  }

  predicate Single(jobs: map<nat, Job>) {
    forall a, b :: a in Going(jobs) && b in Going(jobs) ==> a == b
  }

  /** The job that starts a chain is yet to start it. */
  predicate Starting(enqueue: Enqueue) {
    enqueue.Queued? || enqueue.Told? || enqueue.Found?
  }

  /** A second chain starts exactly when a first job is added beside a job of another id, or a
      job starts over that had ended, as it does when its worker died before it completed. */
  lemma SecondChainStartsExactly(s: State, e: Event)
    requires Enabled(s, e) && Single(s.jobs)
    ensures !Single(Step(s, e).jobs) <==>
      || (e.Start? && Going(s.jobs) != {} && 0 !in s.jobs)
      || (e.Retry? && s.jobs[e.a].post.Ended? && Going(s.jobs) != {})
  {
    var t := Step(s, e);
    if (e.Start? && 0 !in s.jobs) || (e.Retry? && s.jobs[e.a].post.Ended?) {
      assert Going(t.jobs) == Going(s.jobs) + {if e.Start? then 0 else e.a};
      if a :| a in Going(s.jobs) {
        assert a in Going(t.jobs);
      }
    } else if e.Continue? {
      var a := e.a;
      assert a in Going(s.jobs) && a !in Going(t.jobs);
      assert Going(s.jobs) == {a} && Going(t.jobs) <= Going(s.jobs) + {a + 1};
      assert forall b :: b in Going(t.jobs) ==> b == a + 1;
    } else {
      assert Going(t.jobs) <= Going(s.jobs);
    }
  }

  /** At most one job has not ended, and none while a chain is about to be started. */
  predicate OneChain(s: State) {
    Single(s.jobs) && (Starting(s.enqueue) ==> Going(s.jobs) == {})
  }

  /** A chain is started beside a job: by a request that finds no point, so that the job was
      withdrawn and has yet to notice, or by a job that had ended and starts over. */
  predicate StartsBeside(s: State, e: Event)
    requires Enabled(s, e)
  {
    || (e.Schedule? && !NewEnough(s.saved, e.time) && s.point.None? && s.enqueue.NoEnqueue? && Going(s.jobs) != {})
    || (e.RetryEnqueue? && s.enqueue.Ending? && Going(s.jobs) != {})
    || (e.Retry? && s.jobs[e.a].post.Ended? && (Starting(s.enqueue) || Going(s.jobs) != {}))
  }

  /** Such a step is the only one that ends the state of one chain. */
  lemma OneChainEndsExactly(s: State, e: Event)
    requires Enabled(s, e) && OneChain(s)
    ensures OneChain(Step(s, e)) <==> !StartsBeside(s, e)
  {
    SecondChainStartsExactly(s, e);
    var t := Step(s, e);
    if e.Retry? {
      assert Going(t.jobs) == Going(s.jobs) + {e.a};
    } else if e.Start? {
      assert !Starting(t.enqueue);
    } else if e.Continue? {
      assert e.a in Going(s.jobs);
    } else {
      assert Going(t.jobs) <= Going(s.jobs);
      if e.Schedule? || e.RetryEnqueue? { assert t.jobs == s.jobs; }
    }
    hide Single, Going;
  }

  ghost predicate NeverBeside(s: State, es: seq<Event>, t: State)
    decreases |es|
  {
    if es == [] then s == t
    else Enabled(s, es[0]) && !StartsBeside(s, es[0]) && NeverBeside(Step(s, es[0]), es[1..], t)
  }

  /** Without such steps there is one chain at a time, over every run. */
  lemma {:induction false} OneChainStays(s: State, es: seq<Event>, t: State)
    requires OneChain(s) && NeverBeside(s, es, t)
    ensures OneChain(t) && Runs(s, es, t)
    decreases |es|
  {
    if es != [] {
      OneChainEndsExactly(s, es[0]);
      OneChainStays(Step(s, es[0]), es[1..], t);
    }
  }

  /** And after any such step some run, without another, leads to two chains: the chain that is
      there goes on if it is not at its first job, and otherwise gets to its second. */
  lemma StartingBesideLeadsToTwo(s: State, e: Event) returns (es: seq<Event>, t: State)
    requires Inv(s) && OneChain(s) && Enabled(s, e) && StartsBeside(s, e)
    ensures NeverBeside(Step(s, e), es, t) && !Single(t.jobs)
  {
    var u := Step(s, e);
    StepKeepsInv(s, e);
    OneChainEndsExactly(s, e);
    if Single(u.jobs) {
      es, t := ChainStartsBeside(u);
    } else {
      es, t := [], u;
    }
  }

  /** The point is raised, so that the job is not done with what it may have seen, and the
      first id is freed if it is taken: by a job that ended, or by the job itself. */
  lemma ChainStartsBeside(s: State) returns (es: seq<Event>, t: State)
    requires Inv(s) && Single(s.jobs) && Starting(s.enqueue) && Going(s.jobs) != {}
    ensures NeverBeside(s, es, t) && !Single(t.jobs)
  {
    var a :| a in Going(s.jobs);
    es, t := StartRepeated(s);
    es, t := Freed(s, es, t, a, 0);
    es, t := Freed(s, es, t, a, 1);
    if a == 0 {
      es, t := FirstJobContinues(s, es, t);
    }
    es, t := ChainAdded(s, es, t);
  }

  lemma Beside(s: State, es: seq<Event>, t: State, e: Event) returns (es': seq<Event>, t': State)
    requires NeverBeside(s, es, t) && Enabled(t, e) && !StartsBeside(t, e)
    ensures NeverBeside(s, es', t') && t' == Step(t, e)
  {
    es', t' := es + [e], Step(t, e);
    BesideThen(s, es, t, e);
  }

  lemma {:induction false} BesideThen(s: State, es: seq<Event>, t: State, e: Event)
    requires NeverBeside(s, es, t) && Enabled(t, e) && !StartsBeside(t, e)
    ensures NeverBeside(s, es + [e], Step(t, e))
    decreases |es|
  {
    if es == [] {
      assert [e][1..] == [];
    } else {
      BesideThen(Step(s, es[0]), es[1..], t, e);
      assert (es + [e])[1..] == es[1..] + [e];
    }
  }

  /** The job that starts a chain starts over, and a point beyond all there is is requested. */
  lemma StartRepeated(s: State) returns (es: seq<Event>, t: State)
    requires Inv(s) && Starting(s.enqueue)
    ensures NeverBeside(s, es, t) && t.enqueue.Queued? && t.jobs == s.jobs && Ahead(t)
  {
    BesideNothing(s);
    hide NeverBeside;
    var far := Max(s.clock, if s.saved.Some? then s.saved.value.timestamp else 0) + 1;
    es, t := Beside(s, [], s, RetryEnqueue);
    es, t := Beside(s, es, t, Schedule(far));
  }

  /** The point is after everything that was requested. */
  predicate Ahead(s: State) {
    && s.point.Some? && s.point.value > s.clock
    && (s.saved.Some? ==> s.saved.value.refresh <= s.clock)
  }

  /** The id `b` is free unless it is that of the job. */
  lemma Freed(s: State, es: seq<Event>, t: State, a: nat, b: nat) returns (es': seq<Event>, t': State)
    requires NeverBeside(s, es, t) && t.enqueue.Queued? && Ahead(t) && Single(t.jobs) && a in Going(t.jobs)
    ensures NeverBeside(s, es', t') && t'.enqueue.Queued? && Ahead(t') && Single(t'.jobs) && a in Going(t'.jobs)
    ensures (b in t'.jobs ==> a == b) && t'.jobs.Keys == if a == b then t.jobs.Keys else t.jobs.Keys - {b}
  {
    hide NeverBeside;
    if b in t.jobs && a != b {
      assert b !in Going(t.jobs);
      es', t' := Beside(s, es, t, Complete(b));
      assert Going(t'.jobs) <= Going(t.jobs) && a in Going(t'.jobs);
    } else {
      es', t' := es, t;
    }
  }

  /** The first job starts over, asks, and goes on as the point is ahead of it. */
  lemma FirstJobContinues(s: State, es: seq<Event>, t: State) returns (es': seq<Event>, t': State)
    requires NeverBeside(s, es, t) && t.enqueue.Queued? && Ahead(t) && 0 in Going(t.jobs) && 1 !in t.jobs
    ensures NeverBeside(s, es', t') && t'.enqueue.Queued? && t'.point.Some? && 0 !in t'.jobs && Going(t'.jobs) != {}
  {
    hide NeverBeside;
    es', t' := Beside(s, es, t, Retry(0));
    es', t' := Beside(s, es', t', Read(0));
    var u := t';
    es', t' := JobAnswers(s, es', t', 0);
    assert !IsDone(t'.point.value, t'.jobs[0]);
    es', t' := Beside(s, es', t', Continue(0));
    es', t' := Beside(s, es', t', Complete(0));
    assert 1 in Going(t'.jobs);
  }

  lemma JobAnswers(s: State, es: seq<Event>, t: State, a: nat) returns (es': seq<Event>, t': State)
    requires NeverBeside(s, es, t) && a in t.jobs && t.jobs[a].post.NotAsked?
    ensures NeverBeside(s, es', t') && a in t'.jobs && t'.jobs[a].read == t.jobs[a].read && t'.jobs[a].post.Stored?
    ensures t'.jobs.Keys == t.jobs.Keys && t'.point == t.point && t'.enqueue == t.enqueue && t'.clock == t.clock
  {
    hide NeverBeside;
    es', t' := Beside(s, es, t, Ask(a));
    es', t' := Beside(s, es', t', Answer(a));
    es', t' := Beside(s, es', t', Store(a));
  }

  lemma ChainAdded(s: State, es: seq<Event>, t: State) returns (es': seq<Event>, t': State)
    requires NeverBeside(s, es, t) && t.enqueue.Queued? && t.point.Some? && 0 !in t.jobs && Going(t.jobs) != {}
    ensures NeverBeside(s, es', t') && !Single(t'.jobs)
  {
    hide NeverBeside;
    es', t' := Beside(s, es, t, Tell);
    es', t' := Beside(s, es', t', Look);
    assert t'.jobs == t.jobs && t'.enqueue.Found?;
    var a :| a in Going(t.jobs);
    es', t' := Beside(s, es', t', Start);
    assert a in Going(t'.jobs) && 0 in Going(t'.jobs) && a != 0;
  }

  lemma BesideNothing(s: State)
    ensures NeverBeside(s, [], s)
  {
  }

  // ----- whether anybody works towards the point

  /** While there is a point a job goes on, or one is about to be added. */
  predicate Manned(s: State) {
    s.point.Some? ==> Starting(s.enqueue) || Going(s.jobs) != {}
  }

  /** The steps that leave a point without a job: a request while the job that starts a chain is
      about to complete, a job that is not added because its id is still that of one that
      ended, and the removal of the only job. */
  predicate Strands(s: State, e: Event)
    requires Enabled(s, e)
  {
    match e
    case Schedule(time) => !NewEnough(s.saved, time) && s.point.None? && s.enqueue.Ending? && Going(s.jobs) == {}
    case Start => s.point.Some? && Going(s.jobs) == {} && 0 in s.jobs
    case Continue(a) =>
      && s.point.Some? && !IsDone(s.point.value, s.jobs[a])
      && Going(s.jobs) == {a} && a + 1 in s.jobs && !Starting(s.enqueue)
    case Remove(a) => s.point.Some? && Going(s.jobs) == {a} && !Starting(s.enqueue)
    case RemoveEnqueue => s.point.Some? && Going(s.jobs) == {} && Starting(s.enqueue)
    case _ => false
  }

  lemma StrandedExactly(s: State, e: Event)
    requires Enabled(s, e) && Manned(s)
    ensures !Manned(Step(s, e)) <==> Strands(s, e)
  {
    var t := Step(s, e);
    if e.Continue? {
      var added := s.point.Some? && !IsDone(s.point.value, s.jobs[e.a]) && e.a + 1 !in s.jobs;
      assert Going(t.jobs) == Going(s.jobs) - {e.a} + if added then {e.a + 1} else {};
      assert e.a in Going(s.jobs);
    } else if e.Remove? {
      assert Going(t.jobs) == Going(s.jobs) - {e.a};
    } else if e.Start? {
      assert Going(s.jobs) <= Going(t.jobs);
      assert 0 !in s.jobs ==> 0 in Going(t.jobs);
    } else {
      assert Going(s.jobs) <= Going(t.jobs);
      assert e.Schedule? || e.RemoveEnqueue? ==> t.jobs == s.jobs;
    }
    hide IsDone, Going;
  }

  ghost predicate NeverStrands(s: State, es: seq<Event>, t: State)
    decreases |es|
  {
    if es == [] then s == t
    else Enabled(s, es[0]) && !Strands(s, es[0]) && NeverStrands(Step(s, es[0]), es[1..], t)
  }

  /** Without such steps every point keeps somebody who works towards it, over every run. */
  lemma {:induction false} MannedStays(s: State, es: seq<Event>, t: State)
    requires Manned(s) && NeverStrands(s, es, t)
    ensures Manned(t) && Runs(s, es, t)
    decreases |es|
  {
    if es != [] {
      StrandedExactly(s, es[0]);
      MannedStays(Step(s, es[0]), es[1..], t);
    }
  }

  // ----- how new the snapshot is that a refresh ends with

  /** The snapshot a refresh ends with was taken at or after the point, and so after all requests
      it serves, unless the request on record was made after the job learnt of the snapshot it
      started from: then by another chain, or by the job itself. */
  lemma DoneMeansNewSnapshot(s: State, a: nat)
    requires Inv(s) && Enabled(s, Continue(a)) && s.point.Some? && IsDone(s.point.value, s.jobs[a])
    requires s.jobs[a].read.value.value.refresh <= s.jobs[a].since
    ensures s.jobs[a].post.status >= s.point.value
    ensures forall r :: r in s.owed ==> s.jobs[a].post.status >= r
  {
    DoneMeansRequested(s, a);
  }

  /** At most one chain, of which the job read the record before it stored its own request. */
  predicate OlderRecord(s: State) {
    && OneChain(s)
    && (forall a :: a in s.jobs ==> RecordOlder(s.jobs[a], s.saved))
    && ((s.enqueue.Told? || s.enqueue.Found?) && s.saved.Some? ==> s.saved.value.refresh <= s.enqueue.when)
  }

  predicate RecordOlder(job: Job, saved: Option<Inventory>) {
    !job.post.Ended? ==>
      && (job.read.Some? && job.read.value.Some? ==> job.read.value.value.refresh <= job.since)
      && (saved.Some? ==> saved.value.refresh <= if job.post.Stored? then job.post.when else job.since)
  }

  /** No chain is started beside another, a job reads the record before it stores its own
      request, and does not start over after that. */
  predicate InOrder(s: State, e: Event)
    requires Enabled(s, e)
  {
    && !StartsBeside(s, e)
    && (e.Read? || e.Retry? ==> !s.jobs[e.a].post.Stored? && !s.jobs[e.a].post.Ended?)
  }

  lemma StepKeepsOlderRecord(s: State, e: Event)
    requires Inv(s) && OlderRecord(s) && Enabled(s, e) && InOrder(s, e)
    ensures OlderRecord(Step(s, e))
  {
    OneChainEndsExactly(s, e);
    var t := Step(s, e);
    if e.Store? {
      assert e.a in Going(s.jobs) && JobFits(s.jobs[e.a], s.clock, s.latest, s.requested);
    }
    forall a | a in t.jobs ensures RecordOlder(t.jobs[a], t.saved) {
      if a in s.jobs {
        assert JobFits(s.jobs[a], s.clock, s.latest, s.requested) && RecordOlder(s.jobs[a], s.saved);
        if e.Store? && a != e.a { assert a !in Going(s.jobs); }
      }
      if e.Continue? {
        assert JobFits(s.jobs[e.a], s.clock, s.latest, s.requested) && RecordOlder(s.jobs[e.a], s.saved);
      }
    }
    hide JobFits, IsDone, OneChain, RecordOlder, StartsBeside;
  }

  ghost predicate RunsInOrder(s: State, es: seq<Event>, t: State)
    decreases |es|
  {
    if es == [] then s == t
    else Enabled(s, es[0]) && InOrder(s, es[0]) && RunsInOrder(Step(s, es[0]), es[1..], t)
  }

  /** Over every run in order a refresh that ends has seen a snapshot taken at or after the point. */
  lemma {:induction false} InOrderDoneMeansNew(s: State, es: seq<Event>, t: State, a: nat)
    requires Inv(s) && OlderRecord(s) && RunsInOrder(s, es, t)
    requires Enabled(t, Continue(a)) && t.point.Some? && IsDone(t.point.value, t.jobs[a])
    ensures t.jobs[a].post.status >= t.point.value && forall r :: r in t.owed ==> t.jobs[a].post.status >= r
    decreases |es|
  {
    if es == [] {
      DoneMeansNewSnapshot(t, a);
    } else {
      StepKeepsInv(s, es[0]);
      StepKeepsOlderRecord(s, es[0]);
      InOrderDoneMeansNew(Step(s, es[0]), es[1..], t, a);
    }
  }

  // ----- exactly when it can be older

  /** A refresh that is about to end with a snapshot from before the point. */
  predicate EndsTooEarly(s: State, a: nat) {
    && Enabled(s, Continue(a)) && s.point.Some? && IsDone(s.point.value, s.jobs[a])
    && s.jobs[a].post.status < s.point.value
  }

  /** Nothing is from later than now. */
  predicate Timely(s: State) {
    && 0 <= s.latest
    && (forall r :: r in s.requested ==> 0 <= r <= s.clock)
    && (s.saved.Some? ==> s.saved.value.timestamp <= s.latest)
    && (forall a :: a in s.jobs && (s.jobs[a].post.Asked? || s.jobs[a].post.Answered?) ==> 0 <= s.jobs[a].post.at)
  }

  lemma InitTimely()
    ensures Inv(INIT) && Timely(INIT)
  {
  }

  lemma StepKeepsTimely(s: State, e: Event)
    requires Inv(s) && Timely(s) && Enabled(s, e)
    ensures Timely(Step(s, e))
  {
    if e.Store? {
      assert JobFits(s.jobs[e.a], s.clock, s.latest, s.requested);
    }
    hide JobFits, IsDone;
  }

  ghost predicate Reachable(s: State) {
    exists es :: Runs(INIT, es, s)
  }

  lemma {:induction false} RunsKeepTimely(s: State, es: seq<Event>, t: State)
    requires Inv(s) && Timely(s) && Runs(s, es, t)
    ensures Inv(t) && Timely(t)
    decreases |es|
  {
    if es != [] {
      StepKeepsInv(s, es[0]);
      StepKeepsTimely(s, es[0]);
      RunsKeepTimely(Step(s, es[0]), es[1..], t);
    }
  }

  lemma ReachableTimely(s: State)
    requires Reachable(s)
    ensures Inv(s) && Timely(s)
  {
    var es :| Runs(INIT, es, s);
    InitTimely();
    RunsKeepTimely(INIT, es, s);
  }

  /** The step neither starts job `a` over nor has it read the record, decide or go. */
  predicate GoesOn(e: Event, a: nat) {
    !((e.Read? || e.Retry? || e.Remove? || e.Continue?) && e.a == a)
  }

  ghost predicate RunsOn(s: State, es: seq<Event>, t: State, a: nat)
    decreases |es|
  {
    if es == [] then s == t
    else Enabled(s, es[0]) && GoesOn(es[0], a) && RunsOn(Step(s, es[0]), es[1..], t, a)
  }

  /** The request on record when the job read it is after the snapshot that the job gets, which
      is the present one or a later one until it is answered, and that one is newer than the
      one the job started from; then the point has only to be raised to that request. */
  predicate CanEndTooEarly(s: State, a: nat)
    requires a in s.jobs && s.jobs[a].read.Some?
  {
    var job := s.jobs[a];
    job.read.value.Some? &&
    var refresh := job.read.value.value.refresh;
    match job.post
    case NotAsked => refresh > s.latest > job.refreshed
    case Asked(_) => refresh > s.latest > job.refreshed
    case Answered(_, status, _) => refresh > status > job.refreshed
    case Stored(_, status, _) => refresh > status > job.refreshed && CanBeBetween(s, status, refresh)
    case Ended => false
  }

  /** The point is after `status` and not after `refresh`, or a request can raise it to that:
      the snapshot on record is older than `refresh`, or an older one is about to be recorded. */
  predicate CanBeBetween(s: State, status: int, refresh: int) {
    || (s.point.Some? && status < s.point.value <= refresh)
    || !NewEnough(s.saved, refresh)
    || exists b :: b in s.jobs && s.jobs[b].post.Answered? && s.jobs[b].post.status < refresh
  }

  lemma CouldBefore(s: State, e: Event, a: nat)
    requires Inv(s) && Timely(s) && Enabled(s, e) && GoesOn(e, a) && a in s.jobs && s.jobs[a].read.Some?
    ensures a in Step(s, e).jobs ==>
      Step(s, e).jobs[a].read == s.jobs[a].read && (CanEndTooEarly(Step(s, e), a) ==> CanEndTooEarly(s, a))
  {
    assert JobFits(s.jobs[a], s.clock, s.latest, s.requested);
    var t := Step(s, e);
    if a in t.jobs && CanEndTooEarly(t, a) && s.jobs[a].post.Stored? {
      var post, refresh := s.jobs[a].post, s.jobs[a].read.value.value.refresh;
      CouldBeBefore(s, e, post.status, refresh);
    }
    hide CanBeBetween, JobFits, IsDone;
  }

  lemma CouldBeBefore(s: State, e: Event, status: int, refresh: int)
    requires Timely(s) && Enabled(s, e) && CanBeBetween(Step(s, e), status, refresh)
    ensures CanBeBetween(s, status, refresh)
  {
    var t := Step(s, e);
    if b :| b in t.jobs && t.jobs[b].post.Answered? && t.jobs[b].post.status < refresh {
      assert (e.Answer? && e.a == b) || (b in s.jobs && s.jobs[b].post == t.jobs[b].post);
    }
  }

  lemma {:induction false} CouldAllAlong(s: State, es: seq<Event>, t: State, a: nat)
    requires Inv(s) && Timely(s) && a in s.jobs && s.jobs[a].read.Some?
    requires RunsOn(s, es, t, a) && EndsTooEarly(t, a)
    ensures CanEndTooEarly(s, a)
    decreases |es|
  {
    if es != [] {
      var u := Step(s, es[0]);
      StepKeepsInv(s, es[0]);
      StepKeepsTimely(s, es[0]);
      CouldBefore(s, es[0], a);
      if a in u.jobs {
        CouldAllAlong(u, es[1..], t, a);
      } else {
        NeverReads(u, es[1..], t, a);
      }
    }
  }

  /** A job added under the id meanwhile has not read the record. */
  lemma {:induction false} NeverReads(s: State, es: seq<Event>, t: State, a: nat)
    requires RunsOn(s, es, t, a) && (a in s.jobs ==> s.jobs[a].read.None?)
    ensures a in t.jobs ==> t.jobs[a].read.None?
    decreases |es|
  {
    if es != [] {
      NeverReads(Step(s, es[0]), es[1..], t, a);
    }
  }

  lemma Goes(s: State, es: seq<Event>, t: State, a: nat, e: Event) returns (es': seq<Event>, t': State)
    requires RunsOn(s, es, t, a) && Enabled(t, e) && GoesOn(e, a)
    ensures RunsOn(s, es', t', a) && t' == Step(t, e)
  {
    es', t' := es + [e], Step(t, e);
    GoesThen(s, es, t, a, e);
  }

  lemma {:induction false} GoesThen(s: State, es: seq<Event>, t: State, a: nat, e: Event)
    requires RunsOn(s, es, t, a) && Enabled(t, e) && GoesOn(e, a)
    ensures RunsOn(s, es + [e], Step(t, e), a)
    decreases |es|
  {
    if es == [] {
      assert [e][1..] == [];
    } else {
      GoesThen(Step(s, es[0]), es[1..], t, a, e);
      assert (es + [e])[1..] == es[1..] + [e];
    }
  }

  lemma GoesNowhere(s: State, a: nat)
    ensures RunsOn(s, [], s, a)
  {
  }

  /** The refresh is withdrawn and requested again, for the time on record. */
  lemma PointFits(s: State, es: seq<Event>, t: State, a: nat) returns (es': seq<Event>, t': State)
    requires RunsOn(s, es, t, a) && a in t.jobs && t.jobs[a].read.Some? && CanEndTooEarly(t, a)
    requires t.jobs[a].post.Stored?
    requires t.jobs[a].read.value.value.refresh >= 0 && !NewEnough(t.saved, t.jobs[a].read.value.value.refresh)
    ensures RunsOn(s, es', t', a) && EndsTooEarly(t', a)
  {
    hide RunsOn;
    es', t' := Goes(s, es, t, a, Dequeue);
    es', t' := Goes(s, es', t', a, Schedule(t.jobs[a].read.value.value.refresh));
  }

  /** A job that has stored its answer. */
  lemma StoredEndsTooEarly(s: State, a: nat) returns (es: seq<Event>, t: State)
    requires Inv(s) && Timely(s) && a in s.jobs && s.jobs[a].read.Some? && CanEndTooEarly(s, a)
    requires s.jobs[a].post.Stored?
    ensures RunsOn(s, es, t, a) && EndsTooEarly(t, a)
  {
    GoesNowhere(s, a);
    hide RunsOn;
    var status, refresh := s.jobs[a].post.status, s.jobs[a].read.value.value.refresh;
    assert JobFits(s.jobs[a], s.clock, s.latest, s.requested);
    es, t := [], s;
    if !(s.point.Some? && status < s.point.value <= refresh) {
      if NewEnough(s.saved, refresh) {
        var b :| b in s.jobs && s.jobs[b].post.Answered? && s.jobs[b].post.status < refresh;
        es, t := Goes(s, es, t, a, Store(b));
        assert t.jobs[a] == s.jobs[a];
      }
      es, t := PointFits(s, es, t, a);
    }
  }

  /** And one that has yet to ask, to be answered, or to store its answer. */
  lemma AnsweredEndsTooEarly(s: State, a: nat) returns (es: seq<Event>, t: State)
    requires Inv(s) && Timely(s) && a in s.jobs && s.jobs[a].read.Some? && CanEndTooEarly(s, a)
    requires !s.jobs[a].post.Stored?
    ensures RunsOn(s, es, t, a) && EndsTooEarly(t, a)
  {
    GoesNowhere(s, a);
    hide RunsOn;
    assert JobFits(s.jobs[a], s.clock, s.latest, s.requested);
    es, t := [], s;
    if t.jobs[a].post.NotAsked? {
      es, t := Goes(s, es, t, a, Ask(a));
    }
    if t.jobs[a].post.Asked? {
      es, t := Goes(s, es, t, a, Answer(a));
    }
    es, t := Goes(s, es, t, a, Store(a));
    es, t := PointFits(s, es, t, a);
  }

  /** In every reachable state, a job that has read the record can end with a snapshot from
      before the point exactly if `CanEndTooEarly`. */
  lemma EndsTooEarlyExactly(s: State, a: nat)
    requires Reachable(s) && a in s.jobs && s.jobs[a].read.Some?
    ensures (exists es, t :: RunsOn(s, es, t, a) && EndsTooEarly(t, a)) <==> CanEndTooEarly(s, a)
  {
    ReachableTimely(s);
    if CanEndTooEarly(s, a) {
      var es, t;
      if s.jobs[a].post.Stored? {
        es, t := StoredEndsTooEarly(s, a);
      } else {
        es, t := AnsweredEndsTooEarly(s, a);
      }
    }
    if es, t :| RunsOn(s, es, t, a) && EndsTooEarly(t, a) {
      CouldAllAlong(s, es, t, a);
    }
  }

  // ----- and runs in which it is older

  lemma Then(s: State, es: seq<Event>, t: State, e: Event) returns (es': seq<Event>, t': State)
    requires Runs(s, es, t) && Enabled(t, e)
    ensures es' == es + [e] && t' == Step(t, e) && Runs(s, es', t')
  {
    es', t' := es + [e], Step(t, e);
    RunsThen(s, es, t, e);
  }

  lemma {:induction false} RunsThen(s: State, es: seq<Event>, t: State, e: Event)
    requires Runs(s, es, t) && Enabled(t, e)
    ensures Runs(s, es + [e], Step(t, e))
    decreases |es|
  {
    if es == [] {
      assert [e][1..] == [];
    } else {
      RunsThen(Step(s, es[0]), es[1..], t, e);
      assert (es + [e])[1..] == es[1..] + [e];
    }
  }

  lemma RunsNothing(s: State)
    ensures Runs(s, [], s)
  {
  }

  const FRESH := Job(0, 0, None, NotAsked)

  /** A job reads the record, asks, is answered at once and stores the answer. */
  lemma JobStores(s: State, es: seq<Event>, t: State, a: nat) returns (es': seq<Event>, t': State)
    requires Runs(s, es, t) && a in t.jobs && t.jobs[a] == FRESH
    ensures Runs(s, es', t')
    ensures t' == t.(jobs := t.jobs[a := Job(0, 0, Some(t.saved), Stored(t.clock, t.latest, t.clock))],
                     saved := Some(Inventory(t.clock, t.latest)), requested := t.requested + {t.clock})
  {
    hide Runs;
    es', t' := Then(s, es, t, Read(a));
    es', t' := JobStoresUnread(s, es', t', a);
  }

  lemma JobStoresUnread(s: State, es: seq<Event>, t: State, a: nat) returns (es': seq<Event>, t': State)
    requires Runs(s, es, t) && a in t.jobs && t.jobs[a].post.NotAsked?
    ensures Runs(s, es', t')
    ensures t' == t.(jobs := t.jobs[a := t.jobs[a].(post := Stored(t.clock, t.latest, t.clock))],
                     saved := Some(Inventory(t.clock, t.latest)), requested := t.requested + {t.clock})
  {
    hide Runs;
    es', t' := Then(s, es, t, Ask(a));
    es', t' := Then(s, es', t', Answer(a));
    assert t' == Put(t, a, t.jobs[a].(post := Answered(t.clock, t.latest, t.clock)));
    es', t' := Then(s, es', t', Store(a));
  }

  /** The job that starts a chain does so and completes. */
  lemma JobAdded(s: State, es: seq<Event>, t: State) returns (es': seq<Event>, t': State)
    requires Runs(s, es, t) && t.enqueue.Queued? && t.point.Some? && 0 !in t.jobs
    ensures Runs(s, es', t')
    ensures t' == t.(enqueue := NoEnqueue, jobs := t.jobs[0 := Job(t.latest, t.clock, None, NotAsked)])
  {
    hide Runs;
    es', t' := Then(s, es, t, Tell);
    es', t' := Then(s, es', t', Look);
    es', t' := Then(s, es', t', Start);
    es', t' := Then(s, es', t', EndEnqueue);
  }

  /** A request starts a chain. */
  lemma ChainStarts() returns (es: seq<Event>, t: State)
    ensures Runs(INIT, es, t) && t == INIT.(point := Some(1), jobs := map[0 := FRESH], owed := {1})
  {
    RunsNothing(INIT);
    hide Runs;
    es, t := Then(INIT, [], INIT, Schedule(1));
    es, t := JobAdded(INIT, es, t);
  }

  /** A snapshot is taken, and after it the point is raised. */
  lemma PointRaisedAfterSnapshot(s: State, es: seq<Event>, t: State) returns (es': seq<Event>, t': State)
    requires Runs(s, es, t) && t.clock == 0 && t.point.Some? && t.point.value <= 3 && 0 in t.jobs
    requires t.saved.Some? ==> t.saved.value.timestamp < 3
    ensures Runs(s, es', t') && t' == t.(clock := 3, latest := 2, point := Some(3), owed := t.owed + {3})
  {
    hide Runs;
    es', t' := Then(s, es, t, Tick(2));
    es', t' := Then(s, es', t', Snapshot);
    es', t' := Then(s, es', t', Tick(1));
    es', t' := Then(s, es', t', Schedule(3));
  }

  /** A job that is yet to read the record and to ask can end too early, whatever the state and
      without any other job: it reads the record after it stored its own request. */
  lemma UnreadCanEndTooEarly(s: State, a: nat) returns (es: seq<Event>, t: State)
    requires Reachable(s) && a in s.jobs && s.jobs[a].read.None? && s.jobs[a].post.NotAsked?
    ensures Runs(s, es, t) && EndsTooEarly(t, a) && t.jobs.Keys == s.jobs.Keys
  {
    ReachableTimely(s);
    assert JobFits(s.jobs[a], s.clock, s.latest, s.requested);
    RunsNothing(s);
    hide Runs, Reachable, Inv, Timely, JobFits;
    es, t := SnapshotPasses(s);
    es, t := JobStoresUnread(s, es, t, a);
    es, t := Then(s, es, t, Read(a));
    var post := Stored(s.clock + 2, s.clock + 1, s.clock + 2);
    assert t.jobs[a] == Job(s.jobs[a].refreshed, s.jobs[a].since, Some(t.saved), post);
    assert t.saved == Some(Inventory(s.clock + 2, s.clock + 1)) && t.jobs.Keys == s.jobs.Keys;
    es, t := PointRequested(s, es, t, s.clock + 2);
  }

  lemma SnapshotPasses(s: State) returns (es: seq<Event>, t: State)
    ensures Runs(s, es, t) && t == s.(clock := s.clock + 2, latest := s.clock + 1)
  {
    RunsNothing(s);
    hide Runs;
    es, t := Then(s, [], s, Tick(1));
    es, t := Then(s, es, t, Snapshot);
    es, t := Then(s, es, t, Tick(1));
  }

  lemma PointRequested(s: State, es: seq<Event>, t: State, time: nat) returns (es': seq<Event>, t': State)
    requires Runs(s, es, t) && !NewEnough(t.saved, time)
    ensures Runs(s, es', t') && t'.point == Some(time) && t'.jobs == t.jobs
  {
    hide Runs;
    es', t' := Then(s, es, t, Dequeue);
    es', t' := Then(s, es', t', Schedule(time));
  }

  /** A job of one chain that reads the record after it stored its own request. */
  lemma LateReadEndsTooEarly() returns (es: seq<Event>, t: State)
    ensures Runs(INIT, es, t) && EndsTooEarly(t, 0)
  {
    es, t := ChainStarts();
    hide Runs;
    es, t := PointRaisedAfterSnapshot(INIT, es, t);
    es, t := JobStoresUnread(INIT, es, t, 0);
    es, t := Then(INIT, es, t, Read(0));
  }

  /** A job of one chain that starts over after it stored its own request. */
  lemma RetryEndsTooEarly() returns (es: seq<Event>, t: State)
    ensures Runs(INIT, es, t) && EndsTooEarly(t, 0)
  {
    es, t := ChainStarts();
    hide Runs;
    es, t := PointRaisedAfterSnapshot(INIT, es, t);
    es, t := JobStores(INIT, es, t, 0);
    es, t := Then(INIT, es, t, Retry(0));
    assert t.jobs[0] == FRESH;
    es, t := JobStores(INIT, es, t, 0);
  }

  /** A refresh is withdrawn while the second job of its chain is active, and requested again:
      the job of the new chain records a request, and the other ends with an older snapshot. */
  lemma TwoChainsEndTooEarly() returns (es: seq<Event>, t: State)
    ensures Runs(INIT, es, t) && EndsTooEarly(t, 1)
  {
    es, t := SecondChain();
    hide Runs;
    es, t := PointRaisedAfterSnapshot(INIT, es, t);
    es, t := JobStores(INIT, es, t, 0);
    assert t.jobs[1] == FRESH;
    es, t := JobStores(INIT, es, t, 1);
  }

  lemma SecondChain() returns (es: seq<Event>, t: State)
    ensures Runs(INIT, es, t) && t.clock == 0 && t.latest == 0 && t.point == Some(2)
    ensures t.saved == Some(Inventory(0, 0)) && t.jobs == map[0 := FRESH, 1 := FRESH]
  {
    es, t := FirstChainAtSecondJob();
    hide Runs;
    es, t := Then(INIT, es, t, Dequeue);
    es, t := Then(INIT, es, t, Schedule(2));
    es, t := JobAdded(INIT, es, t);
  }

  lemma FirstChainAtSecondJob() returns (es: seq<Event>, t: State)
    ensures Runs(INIT, es, t) && t.clock == 0 && t.latest == 0 && t.point == Some(1)
    ensures t.saved == Some(Inventory(0, 0)) && t.jobs == map[1 := FRESH] && t.enqueue.NoEnqueue?
  {
    es, t := ChainStarts();
    hide Runs;
    es, t := JobStores(INIT, es, t, 0);
    assert t.jobs == map[0 := Job(0, 0, Some(None), Stored(0, 0, 0))];
    es, t := Then(INIT, es, t, Continue(0));
    es, t := Then(INIT, es, t, Complete(0));
  }

  /** A refresh is withdrawn while its chain is about to be started, and requested again once that
      was noticed but before the job completed: the request is owed and no job is there. */
  lemma RequestIsStranded() returns (es: seq<Event>, t: State)
    ensures Runs(INIT, es, t) && t.owed == {2} && t.point == Some(2) && t.enqueue.NoEnqueue? && t.jobs == map[]
  {
    RunsNothing(INIT);
    hide Runs;
    es, t := Then(INIT, [], INIT, Schedule(1));
    es, t := Then(INIT, es, t, Tell);
    es, t := Then(INIT, es, t, Dequeue);
    es, t := Then(INIT, es, t, Look);
    es, t := Then(INIT, es, t, Schedule(2));
    es, t := Then(INIT, es, t, EndEnqueue);
  }

  /** What a job puts on record is when it asked and the snapshot it was answered with; and the next
      job starts from that snapshot, learnt of when it was answered. */
  lemma RecordIsOfRequest(s: State, a: nat, wait: nat, more: nat) returns (es: seq<Event>, t: State)
    requires a in s.jobs && s.jobs[a].post.NotAsked? && s.jobs[a].read == Some(None)
    requires s.point.Some? && a + 1 !in s.jobs
    ensures Runs(s, es, t) && t.saved == Some(Inventory(s.clock, s.latest)) && s.clock in t.requested
    ensures a + 1 in t.jobs && t.jobs[a + 1] == Job(s.latest, s.clock + wait, None, NotAsked)
    ensures a in t.jobs && t.jobs[a].post.Ended?
    ensures t.clock == s.clock + wait + more
  {
    RunsNothing(s);
    hide Runs;
    es, t := Then(s, [], s, Ask(a));
    es, t := Then(s, es, t, Tick(wait));
    es, t := Then(s, es, t, Answer(a));
    es, t := Then(s, es, t, Tick(more));
    es, t := Then(s, es, t, Store(a));
    es, t := Then(s, es, t, Continue(a));
  }
}
