/** The relay process: its fields, cut at each `await` of `loop` and
    `getMessageAndPublish`, over the Redis list and the broker it shares with the others. */
module RelayService {
  import opened OutboxRelay

  /** What all processes share. */
  class Shared {
    var outbox: seq<Event>
    var published: seq<Event>
    ghost var pushed: seq<Event>

    constructor ()
      ensures outbox == [] && published == [] && pushed == []
    {
      outbox, published, pushed := [], [], [];
    }

    /** The part of `publishEvent` that joins the caller's transaction. */
    method LPush(event: Event)
      modifies this`outbox, this`pushed
      ensures outbox == [event] + old(outbox) && pushed == old(pushed) + [event]
    {
      outbox, pushed := [event] + outbox, pushed + [event];
    }

    method LRem(message: Event)
      modifies this`outbox
      ensures outbox == RemoveFirst(old(outbox), message)
    {
      outbox := RemoveFirst(outbox, message);
    }
  }

  class RelayService {
    var isLeader: bool
    var working: bool
    var timeout: bool
    var pc: Pc   // the pending continuation
    const shared: Shared

    ghost function Now(): Node
      reads this
    {
      Node(isLeader, working, timeout, pc)
    }

    constructor (shared: Shared)
      ensures Now() == FRESH_NODE && this.shared == shared
    {
      isLeader, working, timeout, pc := false, false, false, Idle;
      this.shared := shared;
    }

    method Elected()
      modifies this
      ensures Now() == AfterElected(old(Now()))
    {
      isLeader := true;
      Loop();
    }

    method Demoted()
      modifies this
      ensures Now() == AfterDemoted(old(Now()))
    {
      isLeader := false;
      timeout := false;
    }

    method OnTimeout()
      modifies this
      ensures Now() == AfterTimer(old(Now()))
    {
      timeout := false;
      Loop();
    }

    method OnMessage(channel: string)
      modifies this
      ensures Now() == AfterMessage(old(Now()), channel)
    {
      if channel != OUTBOX_KEY {
        return;
      }
      if !isLeader {
        return;
      }
      Loop();
    }

    method Loop()
      modifies this
      ensures Now() == OutboxRelay.Loop(old(Now()))
    {
      if working || !isLeader {
        return;
      }
      working := true;
      pc := AskingLeader;
    }

    method OnLeaderAnswer(yes: bool)
      requires pc.AskingLeader?
      modifies this
      ensures Now() == AfterLeaderAnswer(old(Now()), yes)
    {
      isLeader := yes;
      if !isLeader {
        pc := Done(false);
        return;
      }
      pc := Reading;
    }

    method OnOutboxAnswer()
      requires pc.Reading?
      modifies this
      ensures Now() == AfterRead(old(Now()), shared.outbox)
    {
      if |shared.outbox| == 0 {
        pc := Done(false);
        return;
      }
      pc := Publishing(shared.outbox[|shared.outbox|-1]);
    }

    /** A publish that was not confirmed may have been delivered all the same. */
    method OnPublished(delivered: bool, ok: bool)
      requires pc.Publishing?
      modifies this, shared`published
      ensures Now() == old(Now()).(pc := if ok then Removing(old(pc).message) else Done(false))
      ensures shared.published == old(shared.published) + if delivered || ok then [old(pc).message] else []
    {
      if delivered || ok {
        shared.published := shared.published + [pc.message];
      }
      pc := if ok then Removing(pc.message) else Done(false);
    }

    method OnRemoved(removed: bool, ok: bool)
      requires pc.Removing?
      modifies this, shared`outbox
      ensures Now() == old(Now()).(pc := Done(ok))
      ensures shared.outbox ==
              if removed || ok then RemoveFirst(old(shared.outbox), old(pc).message) else old(shared.outbox)
    {
      if removed || ok {
        shared.LRem(pc.message);
      }
      pc := Done(ok);
    }

    /** The two questions may throw. */
    method OnError()
      modifies this`pc
      ensures Now() == old(Now()).(pc := Done(false))
    {
      pc := Done(false);
    }

    method Restart()
      modifies this
      ensures Now() == FRESH_NODE
    {
      isLeader, working, timeout, pc := false, false, false, Idle;
    }

    /** The `finally` of `loop`. */
    method OnLoopEnd()
      requires pc.Done?
      modifies this
      ensures Now() == AfterLoop(old(Now()), old(pc).processed)
    {
      var repeat := pc.processed;
      working := false;
      pc := Idle;
      if repeat {
        Loop();
      } else {
        timeout := true;
      }
    }
  }

  /** The processes of an exchange and what they share. */
  class Relay {
    const shared: Shared
    const processes: seq<RelayService>

    ghost predicate Valid() {
      && (forall i :: 0 <= i < |processes| ==> processes[i].shared == shared)
      && (forall i, j :: 0 <= i < j < |processes| ==> processes[i] != processes[j])
    }

    ghost function Now(): State
      reads shared, processes
    {
      State(seq(|processes|, i requires 0 <= i < |processes| reads processes => processes[i].Now()),
            shared.outbox, shared.published, shared.pushed)
    }

    constructor (shared: Shared, processes: seq<RelayService>)
      requires forall i :: 0 <= i < |processes| ==> processes[i].shared == shared
      requires forall i, j :: 0 <= i < j < |processes| ==> processes[i] != processes[j]
      ensures Valid() && this.shared == shared && this.processes == processes
    {
      this.shared, this.processes := shared, processes;
    }

    /** Only process `n` moved. */
    twostate lemma OneMoved(n: nat)
      requires Valid() && n < |processes|
      requires forall i :: 0 <= i < |processes| && i != n ==> unchanged(processes[i])
      ensures Now().nodes == old(Now()).nodes[n := processes[n].Now()]
    {
      forall i | 0 <= i < |processes| ensures Now().nodes[i] == old(Now()).nodes[n := processes[n].Now()][i] {
        assert i != n ==> unchanged(processes[i]);
      }
    }

    /** One step of a process. */
    method PerformOne(a: Action, n: nat)
      requires Valid() && Enabled(Now(), a) && !a.Push? && a.n == n
      modifies shared, processes[n]
      ensures Now() == Step(old(Now()), a)
    {
      var p := processes[n];
      assert old(Now()).nodes[n] == old(p.Now());
      match a {
        case Elected(_) => p.Elected();
        case Demoted(_) => p.Demoted();
        case TimerFires(_) => p.OnTimeout();
        case LeaderAnswers(_, yes) => p.OnLeaderAnswer(yes);
        case OutboxAnswers(_) => p.OnOutboxAnswer();
        case PublishEnds(_, delivered, ok) => p.OnPublished(delivered, ok);
        case RemoveEnds(_, removed, ok) => p.OnRemoved(removed, ok);
        case CallFails(_) => p.OnError();
        case LoopEnds(_) => p.OnLoopEnd();
        case Crash(_) => p.Restart();
      }
      OneMoved(n);
    }

    /** One step of one process, or a push. */
    method Perform(a: Action)
      requires Valid() && Enabled(Now(), a)
      modifies shared, processes
      ensures Now() == Step(old(Now()), a)
    {
      if a.Push? {
        shared.LPush(a.event);
      } else {
        PerformOne(a, a.n);
      }
    }

    /** Whatever the processes do in whatever order, and wherever they fail: from fresh ones on,
        no event is lost, and first publications keep the order of the pushes. */
    method PerformAll(acts: seq<Action>)
      requires Valid() && CanRun(Now(), acts)
      modifies shared, processes
      ensures Now() == Run(old(Now()), acts)
      ensures old(Now()) == Init(|processes|) ==>
                && Firsts(shared.published) <= shared.pushed
                && forall e :: e in shared.pushed ==> e in shared.published || e in shared.outbox
      decreases |acts|
    {
      hide Enabled, Step, Init, Firsts;
      ghost var start := Now();
      if acts != [] {
        PerformAll(acts[..|acts|-1]);
        Perform(acts[|acts|-1]);
      }
      if start == Init(|processes|) {
        RunIsReachable(|processes|, acts);
        FirstPublicationsInOrder(Now());
        NothingIsLost(Now());
      }
    }
  }

  lemma RunIsReachable(processes: nat, acts: seq<Action>)
    ensures Reachable(Run(Init(processes), acts))
  {
  }

  ghost predicate CanRun(s: State, acts: seq<Action>) {
    acts == [] || (CanRun(s, acts[..|acts|-1]) && Enabled(Run(s, acts[..|acts|-1]), acts[|acts|-1]))
  }
}
