/** The transactional outbox: events are pushed onto a Redis list and any number of
    processes that believe themselves leader read its oldest entry, publish it and
    remove it, in separate steps, each of which may fail, at any point of which a
    process may crash, and without any fencing between leaders. */
module OutboxRelay {
  import opened Collections

  /** A packed event; `id` is the random UUID of its metadata. */
  datatype Event = Event(id: nat, body: string)

  /** Where a process is inside `loop`. */
  datatype Pc =
    | Idle
    | AskingLeader
    | Reading
    | Publishing(message: Event)
    | Removing(message: Event)
    | Done(processed: bool)

  /** `timer` is true while a timeout is armed. */
  datatype Node = Node(isLeader: bool, working: bool, timer: bool, pc: Pc)

  const FRESH_NODE := Node(false, false, false, Idle)

  datatype State = State(
    nodes: seq<Node>,
    outbox: seq<Event>,      // the Redis list, head first
    published: seq<Event>,   // everything the broker accepted, in order
    pushed: seq<Event>)      // every event ever pushed, in order

  datatype Action =
    | Push(event: Event)
    | Elected(n: nat)
    | Demoted(n: nat)
    | TimerFires(n: nat)
    | LeaderAnswers(n: nat, yes: bool)
    | OutboxAnswers(n: nat)
    | PublishEnds(n: nat, delivered: bool, ok: bool)
    | RemoveEnds(n: nat, removed: bool, ok: bool)
    | CallFails(n: nat)
    | LoopEnds(n: nat)
    | Crash(n: nat)

  function Init(processes: nat): State {
    State(seq(processes, _ => FRESH_NODE), [], [], [])
  }

  // ----- one process

  function Loop(node: Node): Node {
    if node.working || !node.isLeader then node else node.(working := true, pc := AskingLeader)
  }

  function AfterElected(node: Node): Node {
    Loop(node.(isLeader := true))
  }

  function AfterDemoted(node: Node): Node {
    node.(isLeader := false, timer := false)
  }

  function AfterTimer(node: Node): Node {
    Loop(node.(timer := false))
  }

  function AfterLeaderAnswer(node: Node, yes: bool): Node {
    node.(isLeader := yes, pc := if yes then Reading else Done(false))
  }

  /** `lindex -1` answers the last element of the list, which is the oldest event. */
  function AfterRead(node: Node, outbox: seq<Event>): Node {
    node.(pc := if outbox == [] then Done(false) else Publishing(outbox[|outbox|-1]))
  }

  /** The `finally` of `loop`: again at once after a message, else in a second. */
  function AfterLoop(node: Node, processed: bool): Node {
    var idle := node.(working := false, pc := Idle);
    if processed then Loop(idle) else idle.(timer := true)
  }

  /** `lrem 1`: removes the first occurrence from the head. */
  function RemoveFirst(outbox: seq<Event>, message: Event): seq<Event> {
    if outbox == [] then []
    else if outbox[0] == message then outbox[1..]
    else [outbox[0]] + RemoveFirst(outbox[1..], message)
  }

  const OUTBOX_KEY := "transactional-outbox-2"

  /** The handler of the subscriber, which is subscribed to `exchange + ':' + OUTBOX_KEY`. */
  function AfterMessage(node: Node, channel: string): Node {
    if channel != OUTBOX_KEY || !node.isLeader then node else Loop(node)
  }

  /** The channel it compares with is never the one it is subscribed to. */
  lemma NotificationIgnored(node: Node, exchange: string)
    ensures AfterMessage(node, exchange + ":" + OUTBOX_KEY) == node
  {
    assert |exchange + ":" + OUTBOX_KEY| > |OUTBOX_KEY|;
  }

  /** Under the bare key it would be heard: an idle leader would begin a turn, and nobody else. */
  lemma BareKeyWouldStart(node: Node)
    requires NodeOk(node)
    ensures AfterMessage(node, OUTBOX_KEY) ==
      if node.isLeader && node.pc.Idle? then node.(working := true, pc := AskingLeader) else node
  {
  }

  // ----- all of them

  predicate Enabled(s: State, a: Action) {
    match a
    case Push(e) => e !in s.pushed
    case Elected(n) => n < |s.nodes|
    case Demoted(n) => n < |s.nodes|
    case TimerFires(n) => n < |s.nodes| && s.nodes[n].timer
    case LeaderAnswers(n, _) => n < |s.nodes| && s.nodes[n].pc.AskingLeader?
    case OutboxAnswers(n) => n < |s.nodes| && s.nodes[n].pc.Reading?
    case PublishEnds(n, _, _) => n < |s.nodes| && s.nodes[n].pc.Publishing?
    case RemoveEnds(n, _, _) => n < |s.nodes| && s.nodes[n].pc.Removing?
    case CallFails(n) => n < |s.nodes| && (s.nodes[n].pc.AskingLeader? || s.nodes[n].pc.Reading?)
    case LoopEnds(n) => n < |s.nodes| && s.nodes[n].pc.Done?
    case Crash(n) => n < |s.nodes|
  }

  function WithNode(s: State, n: nat, node: Node): State
    requires n < |s.nodes|
  {
    s.(nodes := s.nodes[n := node])
  }

  function Step(s: State, a: Action): State {
    if !Enabled(s, a) then s else
    match a
    case Push(e) => s.(outbox := [e] + s.outbox, pushed := s.pushed + [e])
    case Elected(n) => WithNode(s, n, AfterElected(s.nodes[n]))
    case Demoted(n) => WithNode(s, n, AfterDemoted(s.nodes[n]))
    case TimerFires(n) => WithNode(s, n, AfterTimer(s.nodes[n]))
    case LeaderAnswers(n, yes) => WithNode(s, n, AfterLeaderAnswer(s.nodes[n], yes))
    case OutboxAnswers(n) => WithNode(s, n, AfterRead(s.nodes[n], s.outbox))
    case PublishEnds(n, delivered, ok) =>
      var m := s.nodes[n].pc.message;
      // a confirmed publish was delivered; a failed one may have been
      var published := if delivered || ok then s.published + [m] else s.published;
      s.(published := published, nodes := s.nodes[n := s.nodes[n].(pc := if ok then Removing(m) else Done(false))])
    case RemoveEnds(n, removed, ok) =>
      var m := s.nodes[n].pc.message;
      var outbox := if removed || ok then RemoveFirst(s.outbox, m) else s.outbox;
      s.(outbox := outbox, nodes := s.nodes[n := s.nodes[n].(pc := Done(ok))])
    case CallFails(n) => WithNode(s, n, s.nodes[n].(pc := Done(false)))
    case LoopEnds(n) => WithNode(s, n, AfterLoop(s.nodes[n], s.nodes[n].pc.processed))
    case Crash(n) => WithNode(s, n, FRESH_NODE)
  }

  function Run(s: State, acts: seq<Action>): State {
    if acts == [] then s else Step(Run(s, acts[..|acts|-1]), acts[|acts|-1])
  }

  /** Any number of processes and any interleaving of their steps. */
  ghost predicate Reachable(s: State) {
    exists processes: nat, acts :: s == Run(Init(processes), acts)
  }

  // ----- the invariant

  /** The events published at least once, in the order of their first publication. */
  function Firsts(published: seq<Event>): seq<Event> {
    if published == [] then []
    else
      var f := Firsts(published[..|published|-1]);
      if published[|published|-1] in f then f else f + [published[|published|-1]]
  }

  lemma {:induction false} FirstsHoldsAll(published: seq<Event>, e: Event)
    ensures e in Firsts(published) <==> e in published
  {
    if published != [] {
      var n := |published| - 1;
      FirstsHoldsAll(published[..n], e);
      assert published == published[..n] + [published[n]];
    }
  }

  /** The list is what is left of the pushed events after removing the oldest ones. */
  ghost predicate OutboxOk(outbox: seq<Event>, pushed: seq<Event>) {
    && |outbox| <= |pushed|
    && forall i :: 0 <= i < |outbox| ==> outbox[i] == pushed[|pushed| - 1 - i]
  }

  /** First publications are the oldest events: all removed ones and at most one more. */
  ghost predicate PublishedOk(outbox: seq<Event>, published: seq<Event>, pushed: seq<Event>) {
    && |outbox| <= |pushed|
    && |pushed| - |outbox| <= |Firsts(published)| <= |pushed| - |outbox| + 1
    && Firsts(published) <= pushed
  }

  /** A message in hand is removed already or the oldest of the list. */
  ghost predicate InHandOk(pc: Pc, outbox: seq<Event>, published: seq<Event>, pushed: seq<Event>) {
    && ((pc.Publishing? || pc.Removing?) ==>
          exists i :: 0 <= i < |pushed| && i <= |pushed| - |outbox| && pushed[i] == pc.message)
    && (pc.Removing? ==> pc.message in published)
  }

  ghost predicate Inv(s: State) {
    && Distinct(s.pushed)
    && OutboxOk(s.outbox, s.pushed)
    && PublishedOk(s.outbox, s.published, s.pushed)
    && (forall n :: 0 <= n < |s.nodes| ==> InHandOk(s.nodes[n].pc, s.outbox, s.published, s.pushed))
  }

  ghost predicate NodesOk(s: State) {
    forall n :: 0 <= n < |s.nodes| ==> NodeOk(s.nodes[n])
  }

  /** A process busy in `loop` is marked working, and a leader is busy or has a timer. */
  ghost predicate NodeOk(node: Node) {
    (node.working <==> !node.pc.Idle?) && (node.isLeader ==> node.working || node.timer)
  }

  lemma {:induction false} RemoveAbsent(outbox: seq<Event>, m: Event)
    requires m !in outbox
    ensures RemoveFirst(outbox, m) == outbox
  {
    if outbox != [] { RemoveAbsent(outbox[1..], m); }
  }

  lemma {:induction false} RemoveLast(outbox: seq<Event>)
    requires outbox != [] && Distinct(outbox)
    ensures RemoveFirst(outbox, outbox[|outbox|-1]) == outbox[..|outbox|-1]
  {
    if |outbox| > 1 { RemoveLast(outbox[1..]); }
  }

  /** Removing a published message in hand takes the oldest entry or nothing. */
  lemma RemoveTakesOldest(s: State, m: Event, i: nat)
    requires Inv(s) && i < |s.pushed| && i <= |s.pushed| - |s.outbox| && s.pushed[i] == m && m in s.published
    ensures var outbox := RemoveFirst(s.outbox, m);
      && (outbox == s.outbox || (s.outbox != [] && outbox == s.outbox[..|s.outbox|-1]))
      && OutboxOk(outbox, s.pushed) && PublishedOk(outbox, s.published, s.pushed)
  {
    var removed := |s.pushed| - |s.outbox|;
    if i < removed {
      assert forall j :: 0 <= j < |s.outbox| ==> s.outbox[j] != m;
      RemoveAbsent(s.outbox, m);
    } else {
      assert forall j, k :: 0 <= j < k < |s.outbox| ==> s.outbox[j] != s.outbox[k];
      RemoveLast(s.outbox);
      FirstsHoldsAll(s.published, m);
      var f := Firsts(s.published);
      var j :| 0 <= j < |f| && f[j] == m;
      assert s.pushed[j] == s.pushed[i];
    }
  }

  lemma OthersKept(s: State, s': State, n: nat)
    requires Inv(s) && |s'.nodes| == |s.nodes|
    requires forall i :: 0 <= i < |s.nodes| && i != n ==> s'.nodes[i] == s.nodes[i]
    requires n < |s.nodes| ==> InHandOk(s'.nodes[n].pc, s'.outbox, s'.published, s'.pushed)
    requires s.pushed <= s'.pushed && s.published <= s'.published
    requires |s.pushed| - |s.outbox| <= |s'.pushed| - |s'.outbox|
    ensures forall i :: 0 <= i < |s'.nodes| ==> InHandOk(s'.nodes[i].pc, s'.outbox, s'.published, s'.pushed)
  {
  }

  lemma PushKeepsInv(s: State, e: Event)
    requires Inv(s) && e !in s.pushed
    ensures Inv(Step(s, Push(e)))
  {
    OthersKept(s, Step(s, Push(e)), |s.nodes|);
  }

  lemma PublishKeepsInv(s: State, n: nat, delivered: bool, ok: bool)
    requires Inv(s) && n < |s.nodes| && s.nodes[n].pc.Publishing?
    ensures Inv(Step(s, PublishEnds(n, delivered, ok)))
  {
  }

  lemma RemoveKeepsInv(s: State, n: nat, removed: bool, ok: bool)
    requires Inv(s) && n < |s.nodes| && s.nodes[n].pc.Removing?
    ensures Inv(Step(s, RemoveEnds(n, removed, ok)))
  {
    var m, s' := s.nodes[n].pc.message, Step(s, RemoveEnds(n, removed, ok));
    var i :| 0 <= i < |s.pushed| && i <= |s.pushed| - |s.outbox| && s.pushed[i] == m;
    RemoveTakesOldest(s, m, i);
    OthersKept(s, s', n);
  }

  lemma ReadKeepsInv(s: State, n: nat)
    requires Inv(s) && n < |s.nodes| && s.nodes[n].pc.Reading?
    ensures Inv(Step(s, OutboxAnswers(n)))
  {
  }

  lemma StepKeepsInv(s: State, a: Action)
    requires Inv(s)
    ensures Inv(Step(s, a))
  {
    if Enabled(s, a) {
      match a
      case Push(e) => PushKeepsInv(s, e);
      case PublishEnds(n, delivered, ok) => PublishKeepsInv(s, n, delivered, ok);
      case RemoveEnds(n, removed, ok) => RemoveKeepsInv(s, n, removed, ok);
      case OutboxAnswers(n) => ReadKeepsInv(s, n);
      case _ => OthersKept(s, Step(s, a), a.n);
    }
  }

  lemma {:induction false} RunKeepsInv(processes: nat, acts: seq<Action>)
    ensures Inv(Run(Init(processes), acts))
  {
    if acts != [] {
      RunKeepsInv(processes, acts[..|acts|-1]);
      StepKeepsInv(Run(Init(processes), acts[..|acts|-1]), acts[|acts|-1]);
    }
  }

  // ----- what holds in every reachable state

  /** No event leaves the outbox before it was published, and every pushed event is
      published or still in the outbox, which keeps its order and only loses its oldest. */
  lemma NothingIsLost(s: State)
    requires Reachable(s)
    ensures forall e :: e in s.pushed ==> e in s.published || e in s.outbox
    ensures forall e :: e in s.pushed && e !in s.outbox ==> e in s.published
    ensures OutboxOk(s.outbox, s.pushed)
  {
    var processes: nat, acts :| s == Run(Init(processes), acts);
    RunKeepsInv(processes, acts);
    forall e | e in s.pushed ensures e in s.published || e in s.outbox {
      var i :| 0 <= i < |s.pushed| && s.pushed[i] == e;
      var removed := |s.pushed| - |s.outbox|;
      if i < removed {
        assert Firsts(s.published)[i] == e;
        FirstsHoldsAll(s.published, e);
      } else {
        assert s.outbox[|s.pushed| - 1 - i] == e;
      }
    }
  }

  /** First publications happen exactly in the order of the pushes, without a gap, and
      nothing is ever published that was not pushed. */
  lemma FirstPublicationsInOrder(s: State)
    requires Reachable(s)
    ensures Firsts(s.published) <= s.pushed
    ensures forall e :: e in s.published ==> e in s.pushed
  {
    var processes: nat, acts :| s == Run(Init(processes), acts);
    RunKeepsInv(processes, acts);
    forall e | e in s.published ensures e in s.pushed {
      FirstsHoldsAll(s.published, e);
    }
  }

  lemma StepKeepsNodes(s: State, a: Action)
    requires NodesOk(s)
    ensures NodesOk(Step(s, a))
  {
  }

  lemma {:induction false} RunKeepsNodes(processes: nat, acts: seq<Action>)
    ensures NodesOk(Run(Init(processes), acts))
  {
    if acts != [] {
      RunKeepsNodes(processes, acts[..|acts|-1]);
      StepKeepsNodes(Run(Init(processes), acts[..|acts|-1]), acts[|acts|-1]);
    }
  }

  /** A process that believes itself leader is inside `loop` or will be when its timer
      fires: whatever fails, its polling never stops. */
  lemma LeaderKeepsPolling(s: State, n: nat)
    requires Reachable(s) && n < |s.nodes| && s.nodes[n].isLeader
    ensures !s.nodes[n].pc.Idle? || s.nodes[n].timer
    ensures s.nodes[n].pc.Idle? ==> AfterTimer(s.nodes[n]).pc.AskingLeader?
  {
    var processes: nat, acts :| s == Run(Init(processes), acts);
    RunKeepsNodes(processes, acts);
    assert NodeOk(s.nodes[n]);
  }

  // ----- notifications

  /** What can happen to the processes, a notification of a new event included. */
  datatype Input = Act(action: Action) | Notified(n: nat, exchange: string)

  function RunInputs(s: State, inputs: seq<Input>): State {
    if inputs == [] then s
    else
      var t := RunInputs(s, inputs[..|inputs|-1]);
      match inputs[|inputs|-1]
      case Act(a) => Step(t, a)
      case Notified(n, exchange) =>
        if n < |t.nodes| then WithNode(t, n, AfterMessage(t.nodes[n], exchange + ":" + OUTBOX_KEY)) else t
  }

  function Actions(inputs: seq<Input>): seq<Action> {
    if inputs == [] then []
    else Actions(inputs[..|inputs|-1]) + (if inputs[|inputs|-1].Act? then [inputs[|inputs|-1].action] else [])
  }

  /** Notifications start nothing: over every run the processes do what they would do without
      any, and a new event waits for a turn under way or the timer. */
  lemma {:induction false} NotificationsStartNothing(s: State, inputs: seq<Input>)
    ensures RunInputs(s, inputs) == Run(s, Actions(inputs))
  {
    if inputs != [] {
      var front, last := inputs[..|inputs|-1], inputs[|inputs|-1];
      NotificationsStartNothing(s, front);
      if last.Act? {
        assert Actions(inputs)[..|Actions(inputs)|-1] == Actions(front);
      } else {
        var t := RunInputs(s, front);
        assert Actions(inputs) == Actions(front);
        if last.n < |t.nodes| { NotificationIgnored(t.nodes[last.n], last.exchange); }
      }
      hide Step, AfterMessage;
    }
  }

  // ----- a process that is told it is not the leader

  predicate NeverAnswered(acts: seq<Action>, n: nat) {
    forall i :: 0 <= i < |acts| ==> acts[i] != LeaderAnswers(n, true)
  }

  predicate NeverElected(acts: seq<Action>, n: nat) {
    forall i :: 0 <= i < |acts| ==> acts[i] != Elected(n)
  }

  /** Told that it is not the leader, a process neither reads the outbox nor publishes or
      removes anything until it is told otherwise, whatever happens in between. */
  lemma {:induction false} ToldNoPublishesNothing(s: State, n: nat, acts: seq<Action>)
    requires n < |s.nodes| && s.nodes[n].pc.AskingLeader? && NeverAnswered(acts, n)
    ensures var t := Run(Step(s, LeaderAnswers(n, false)), acts);
      && |t.nodes| == |s.nodes|
      && !t.nodes[n].pc.Reading? && !t.nodes[n].pc.Publishing? && !t.nodes[n].pc.Removing?
      && !Enabled(t, OutboxAnswers(n))
      && forall delivered, ok :: !Enabled(t, PublishEnds(n, delivered, ok)) && !Enabled(t, RemoveEnds(n, delivered, ok))
  {
    if acts != [] {
      ToldNoPublishesNothing(s, n, acts[..|acts|-1]);
      hide Run;
    }
  }

  /** And it does not even ask again until it is elected. */
  lemma {:induction false} ToldNoStaysOut(s: State, n: nat, acts: seq<Action>)
    requires n < |s.nodes| && s.nodes[n].pc.AskingLeader? && NeverElected(acts, n)
    ensures var t := Run(Step(s, LeaderAnswers(n, false)), acts);
      && |t.nodes| == |s.nodes| && !t.nodes[n].isLeader
      && (t.nodes[n].pc == Idle || t.nodes[n].pc == Done(false))
  {
    if acts != [] {
      ToldNoStaysOut(s, n, acts[..|acts|-1]);
      hide Run;
    }
  }

  /** A process that is demoted while it does nothing is out until it is elected again: its timer
      is cleared, and it asks nobody anything. */
  lemma {:induction false} DemotedStaysOut(s: State, n: nat, acts: seq<Action>)
    requires n < |s.nodes| && s.nodes[n].pc.Idle? && NeverElected(acts, n)
    ensures var t := Run(Step(s, Demoted(n)), acts);
      |t.nodes| == |s.nodes| && !t.nodes[n].isLeader && !t.nodes[n].timer && t.nodes[n].pc == Idle
  {
    if acts != [] {
      DemotedStaysOut(s, n, acts[..|acts|-1]);
      hide Run;
    }
  }

  // ----- when a process tries again

  /** A timer fires once, and starts a turn exactly if the process is leader and not busy. */
  lemma TimerStartsTurn(s: State, n: nat)
    requires n < |s.nodes| && s.nodes[n].timer && NodeOk(s.nodes[n])
    ensures var node, after := s.nodes[n], Step(s, TimerFires(n)).nodes[n];
      && !after.timer && after.isLeader == node.isLeader
      && after.pc == if node.isLeader && node.pc.Idle? then AskingLeader else node.pc
  {
  }

  /** A turn that finds no entry, and one in which a call fails at any point, publishes nothing
      more and waits for the timer. */
  lemma FailedTurnWaits(s: State, n: nat, a: Action)
    requires n < |s.nodes|
    requires || (a == CallFails(n) && (s.nodes[n].pc.AskingLeader? || s.nodes[n].pc.Reading?))
             || (a == OutboxAnswers(n) && s.nodes[n].pc.Reading? && s.outbox == [])
             || (a.PublishEnds? && a.n == n && !a.ok && s.nodes[n].pc.Publishing?)
             || (a.RemoveEnds? && a.n == n && !a.ok && s.nodes[n].pc.Removing?)
    ensures var t := Step(Step(s, a), LoopEnds(n));
      && t.nodes[n] == Node(s.nodes[n].isLeader, false, true, Idle)
      && t.published == Step(s, a).published && t.outbox == Step(s, a).outbox
  {
  }

  /** A delivery that is reported as failed is in the published events all the same; a removal
      that is reported as failed may have taken the entry. */
  lemma FailureKeepsEffect(s: State, n: nat, done: bool)
    requires n < |s.nodes|
    ensures s.nodes[n].pc.Publishing? ==>
              Step(s, PublishEnds(n, done, false)).published ==
              s.published + if done then [s.nodes[n].pc.message] else []
    ensures s.outbox != [] && s.nodes[n].pc.Removing? && s.nodes[n].pc.message !in s.outbox[1..] ==>
              Step(s, RemoveEnds(n, done, false)).outbox ==
              if done && s.outbox[0] == s.nodes[n].pc.message then s.outbox[1..] else s.outbox
  {
    if s.outbox != [] && s.nodes[n].pc.Removing? && s.nodes[n].pc.message !in s.outbox[1..] {
      RemoveAbsent(s.outbox[1..], s.nodes[n].pc.message);
      assert [s.outbox[0]] + s.outbox[1..] == s.outbox;
    }
  }

  // ----- delivery

  /** One undisturbed turn of the loop of process `n`. */
  function Turn(n: nat): seq<Action> {
    [LeaderAnswers(n, true), OutboxAnswers(n), PublishEnds(n, true, true), RemoveEnds(n, true, true), LoopEnds(n)]
  }

  lemma RunTurn(s: State, n: nat)
    ensures Run(s, Turn(n)) ==
      Step(Step(Step(Step(Step(s, LeaderAnswers(n, true)), OutboxAnswers(n)), PublishEnds(n, true, true)),
                RemoveEnds(n, true, true)), LoopEnds(n))
  {
    var t := Turn(n);
    assert Run(s, t[..1]) == Step(s, t[0]);
    assert t[..2][..1] == t[..1] && t[..3][..2] == t[..2] && t[..4][..3] == t[..3];
    assert Run(s, t[..2]) == Step(Run(s, t[..1]), t[1]);
    assert Run(s, t[..3]) == Step(Run(s, t[..2]), t[2]);
    assert Run(s, t[..4]) == Step(Run(s, t[..3]), t[3]);
  }

  /** A turn publishes the oldest event, removes exactly it and starts the next turn. */
  lemma TurnDeliversOldest(s: State, n: nat)
    requires Inv(s) && n < |s.nodes| && s.nodes[n].working && s.nodes[n].pc.AskingLeader? && s.outbox != []
    ensures var s' := Run(s, Turn(n));
      && s'.published == s.published + [s.outbox[|s.outbox|-1]]
      && s'.outbox == s.outbox[..|s.outbox|-1] && s'.pushed == s.pushed
      && |s'.nodes| == |s.nodes| && s'.nodes[n].working && s'.nodes[n].pc.AskingLeader?
  {
    RunTurn(s, n);
    assert forall i, j :: 0 <= i < j < |s.outbox| ==> s.outbox[i] != s.outbox[j];
    RemoveLast(s.outbox);
    TurnSteps(s, n);
  }

  lemma TurnSteps(s: State, n: nat)
    requires n < |s.nodes| && s.nodes[n].working && s.nodes[n].pc.AskingLeader? && s.outbox != []
    requires RemoveFirst(s.outbox, s.outbox[|s.outbox|-1]) == s.outbox[..|s.outbox|-1]
    ensures Step(Step(Step(Step(Step(s, LeaderAnswers(n, true)), OutboxAnswers(n)), PublishEnds(n, true, true)),
                      RemoveEnds(n, true, true)), LoopEnds(n))
         == s.(published := s.published + [s.outbox[|s.outbox|-1]], outbox := s.outbox[..|s.outbox|-1],
               nodes := s.nodes[n := s.nodes[n].(isLeader := true)])
  {
  }

  function Turns(n: nat, count: nat): seq<Action> {
    if count == 0 then [] else Turns(n, count - 1) + Turn(n)
  }

  lemma {:induction false} RunConcat(s: State, a: seq<Action>, b: seq<Action>)
    ensures Run(s, a + b) == Run(Run(s, a), b)
  {
    if b == [] {
      assert a + b == a;
    } else {
      var n := |b| - 1;
      assert (a + b)[..|a + b|-1] == a + b[..n];
      RunConcat(s, a, b[..n]);
    }
  }

  lemma {:induction false} RunFromKeepsInv(s: State, acts: seq<Action>)
    requires Inv(s)
    ensures Inv(Run(s, acts))
  {
    if acts != [] {
      RunFromKeepsInv(s, acts[..|acts|-1]);
      StepKeepsInv(Run(s, acts[..|acts|-1]), acts[|acts|-1]);
    }
  }

  /** `s'` is `s` after process `n` delivered and removed the `count` oldest entries. */
  ghost predicate Drained(s: State, s': State, n: nat, count: nat)
    requires count <= |s.outbox| <= |s.pushed|
  {
    var first := |s.pushed| - |s.outbox|;
    && s'.outbox == s.outbox[..|s.outbox| - count] && s'.pushed == s.pushed
    && s'.published == s.published + s.pushed[first .. first + count]
    && n < |s'.nodes| && s'.nodes[n].working && s'.nodes[n].pc.AskingLeader?
  }

  lemma DrainOneMore(s: State, mid: State, s': State, n: nat, count: nat)
    requires OutboxOk(s.outbox, s.pushed) && 0 < count <= |s.outbox| && Drained(s, mid, n, count - 1)
    requires s'.published == mid.published + [mid.outbox[|mid.outbox|-1]] && s'.outbox == mid.outbox[..|mid.outbox|-1]
    requires s'.pushed == mid.pushed && n < |s'.nodes| && s'.nodes[n].working && s'.nodes[n].pc.AskingLeader?
    ensures Drained(s, s', n, count)
  {
  }

  /** A leader left alone for as many turns as there are entries empties the outbox and
      publishes them oldest first, whatever the other processes were doing. */
  lemma {:induction false} LeaderDrainsOutbox(s: State, n: nat, count: nat)
    requires Inv(s) && n < |s.nodes| && s.nodes[n].working && s.nodes[n].pc.AskingLeader?
    requires count <= |s.outbox|
    ensures Drained(s, Run(s, Turns(n, count)), n, count)
  {
    if count == 0 {
      assert Run(s, []) == s;
    } else {
      var mid := Run(s, Turns(n, count - 1));
      assert OutboxOk(s.outbox, s.pushed);
      hide Run, Inv, Turn, OutboxOk;
      LeaderDrainsOutbox(s, n, count - 1);
      RunFromKeepsInv(s, Turns(n, count - 1));
      RunConcat(s, Turns(n, count - 1), Turn(n));
      TurnDeliversOldest(mid, n);
      DrainOneMore(s, mid, Run(mid, Turn(n)), n, count);
    }
  }

  // ----- when each event is published once

  /** The step delivers a message that was published before. */
  predicate Repeats(s: State, a: Action) {
    a.PublishEnds? && Enabled(s, a) && (a.delivered || a.ok) && s.nodes[a.n].pc.message in s.published
  }

  predicate NoRepeats(s: State, acts: seq<Action>) {
    acts == [] || (NoRepeats(s, acts[..|acts|-1]) && !Repeats(Run(s, acts[..|acts|-1]), acts[|acts|-1]))
  }

  /** Each event was published once exactly if no step of the run delivered again. */
  lemma {:induction false} OnceExactlyWithoutRepeats(processes: nat, acts: seq<Action>)
    ensures var published := Run(Init(processes), acts).published;
      published == Firsts(published) <==> NoRepeats(Init(processes), acts)
  {
    if acts != [] {
      var n := |acts| - 1;
      var s := Run(Init(processes), acts[..n]);
      assert Run(Init(processes), acts) == Step(s, acts[n]);
      assert NoRepeats(Init(processes), acts) <==> NoRepeats(Init(processes), acts[..n]) && !Repeats(s, acts[n]);
      hide *;
      OnceExactlyWithoutRepeats(processes, acts[..n]);
      OnceAfterStep(s, acts[n]);
    }
  }

  lemma OnceAfterStep(s: State, a: Action)
    ensures var published := Step(s, a).published;
      published == Firsts(published) <==> s.published == Firsts(s.published) && !Repeats(s, a)
  {
    var t := Step(s, a);
    if a.PublishEnds? && Enabled(s, a) && (a.delivered || a.ok) {
      var m := s.nodes[a.n].pc.message;
      assert t.published == s.published + [m] && t.published[..|t.published|-1] == s.published;
      FirstsHoldsAll(s.published, m);
      FirstsShorter(s.published);
    } else {
      assert t.published == s.published;
    }
  }

  lemma {:induction false} FirstsShorter(published: seq<Event>)
    ensures |Firsts(published)| <= |published|
  {
    if published != [] { FirstsShorter(published[..|published|-1]); }
  }

  predicate HasMessage(pc: Pc) {
    pc.Publishing? || pc.Removing?
  }

  /** Only one process at a time has a message in hand, what was delivered is known to be, and
      is removed by whoever delivered it. */
  predicate Undisturbed(s: State, a: Action) {
    match a
    case OutboxAnswers(n) => forall m :: 0 <= m < |s.nodes| && m != n ==> !HasMessage(s.nodes[m].pc)
    case PublishEnds(n, delivered, ok) => delivered ==> ok
    case RemoveEnds(n, removed, ok) => removed || ok
    case Crash(n) => n < |s.nodes| ==> !s.nodes[n].pc.Removing?
    case _ => true
  }

  predicate UndisturbedRun(s: State, acts: seq<Action>) {
    acts == [] || (UndisturbedRun(s, acts[..|acts|-1]) && Undisturbed(Run(s, acts[..|acts|-1]), acts[|acts|-1]))
  }

  /** At most one process has a message, which is the oldest entry; everything older is
      published, and it is exactly while its process removes it. */
  ghost predicate Single(s: State) {
    var removed := |s.pushed| - |s.outbox|;
    && (forall m, n :: 0 <= m < |s.nodes| && 0 <= n < |s.nodes| ==>
          HasMessage(s.nodes[m].pc) && HasMessage(s.nodes[n].pc) ==> m == n)
    && (forall n :: 0 <= n < |s.nodes| && HasMessage(s.nodes[n].pc) ==>
          s.outbox != [] && s.nodes[n].pc.message == s.outbox[|s.outbox|-1])
    && (forall n :: 0 <= n < |s.nodes| && s.nodes[n].pc.Removing? ==>
          0 <= removed < |s.pushed| && s.published == s.pushed[..removed + 1])
    && ((forall n :: 0 <= n < |s.nodes| ==> !s.nodes[n].pc.Removing?) ==>
        0 <= removed && s.published == s.pushed[..removed])
  }

  lemma SinglePush(s: State, e: Event)
    requires Inv(s) && Single(s) && e !in s.pushed
    ensures Single(Step(s, Push(e)))
  {
    var t := Step(s, Push(e));
    var removed := |s.pushed| - |s.outbox|;
    assert t.nodes == s.nodes && |t.pushed| - |t.outbox| == removed;
    assert s.outbox != [] ==> t.outbox[|t.outbox|-1] == s.outbox[|s.outbox|-1];
    assert t.pushed[..removed] == s.pushed[..removed];
    assert removed < |s.pushed| ==> t.pushed[..removed + 1] == s.pushed[..removed + 1];
  }

  lemma SinglePublish(s: State, n: nat, delivered: bool, ok: bool)
    requires Inv(s) && Single(s) && n < |s.nodes| && s.nodes[n].pc.Publishing? && (delivered ==> ok)
    ensures Single(Step(s, PublishEnds(n, delivered, ok)))
  {
    var t := Step(s, PublishEnds(n, delivered, ok));
    var removed := |s.pushed| - |s.outbox|;
    assert s.outbox[|s.outbox|-1] == s.pushed[removed];
    assert forall i :: 0 <= i < |s.nodes| && i != n ==> t.nodes[i] == s.nodes[i] && !HasMessage(t.nodes[i].pc);
    assert forall i :: 0 <= i < |s.nodes| ==> !s.nodes[i].pc.Removing?;
    assert ok ==> t.nodes[n].pc.Removing?;
    assert s.pushed[..removed + 1] == s.pushed[..removed] + [s.pushed[removed]];
  }

  lemma SingleRemove(s: State, n: nat, removed: bool, ok: bool)
    requires Inv(s) && Single(s) && n < |s.nodes| && s.nodes[n].pc.Removing? && (removed || ok)
    ensures Single(Step(s, RemoveEnds(n, removed, ok)))
  {
    var t := Step(s, RemoveEnds(n, removed, ok));
    assert forall i, j :: 0 <= i < j < |s.outbox| ==> s.outbox[i] != s.outbox[j];
    RemoveLast(s.outbox);
    assert forall i :: 0 <= i < |s.nodes| && i != n ==> t.nodes[i] == s.nodes[i] && !HasMessage(t.nodes[i].pc);
  }

  /** Processes that have no message do something else, or one drops a message not delivered. */
  lemma SingleFewer(s: State, t: State)
    requires Single(s) && t.outbox == s.outbox && t.published == s.published && t.pushed == s.pushed && |t.nodes| ==
        |s.nodes|
    requires forall i :: 0 <= i < |s.nodes| && HasMessage(t.nodes[i].pc) ==> t.nodes[i].pc == s.nodes[i].pc
    requires forall i :: 0 <= i < |s.nodes| && s.nodes[i].pc.Removing? ==> t.nodes[i].pc == s.nodes[i].pc
    ensures Single(t)
  {
  }

  lemma SingleRead(s: State, n: nat)
    requires Single(s) && Enabled(s, OutboxAnswers(n)) && Undisturbed(s, OutboxAnswers(n))
    ensures Single(Step(s, OutboxAnswers(n)))
  {
    var t := Step(s, OutboxAnswers(n));
    assert forall i :: 0 <= i < |s.nodes| && i != n ==> t.nodes[i] == s.nodes[i] && !HasMessage(t.nodes[i].pc);
  }

  lemma OthersTouchNoMessage(s: State, a: Action)
    requires NodesOk(s) && Enabled(s, a) && Undisturbed(s, a)
    requires !a.Push? && !a.PublishEnds? && !a.RemoveEnds? && !a.OutboxAnswers?
    ensures var t := Step(s, a);
      && t.outbox == s.outbox && t.published == s.published && t.pushed == s.pushed && |t.nodes| == |s.nodes|
      && (forall i :: 0 <= i < |s.nodes| && HasMessage(t.nodes[i].pc) ==> t.nodes[i].pc == s.nodes[i].pc)
      && (forall i :: 0 <= i < |s.nodes| && s.nodes[i].pc.Removing? ==> t.nodes[i].pc == s.nodes[i].pc)
  {
    assert NodeOk(s.nodes[a.n]);
  }

  lemma StepKeepsSingle(s: State, a: Action)
    requires Inv(s) && NodesOk(s) && Single(s) && Undisturbed(s, a)
    ensures Single(Step(s, a))
  {
    if Enabled(s, a) {
      hide Inv, Single, Step, Undisturbed, NodesOk;
      match a
      case Push(e) => SinglePush(s, e);
      case PublishEnds(n, delivered, ok) => PublishUndisturbed(s, n, delivered, ok);
      case RemoveEnds(n, removed, ok) => RemoveUndisturbed(s, n, removed, ok);
      case OutboxAnswers(n) => SingleRead(s, n);
      case _ =>
        OthersTouchNoMessage(s, a);
        SingleFewer(s, Step(s, a));
    }
  }

  lemma PublishUndisturbed(s: State, n: nat, delivered: bool, ok: bool)
    requires Inv(s) && Single(s) && Enabled(s, PublishEnds(n, delivered, ok))
    requires Undisturbed(s, PublishEnds(n, delivered, ok))
    ensures Single(Step(s, PublishEnds(n, delivered, ok)))
  {
    SinglePublish(s, n, delivered, ok);
  }

  lemma RemoveUndisturbed(s: State, n: nat, removed: bool, ok: bool)
    requires Inv(s) && Single(s) && Enabled(s, RemoveEnds(n, removed, ok)) && Undisturbed(s, RemoveEnds(n, removed, ok))
    ensures Single(Step(s, RemoveEnds(n, removed, ok)))
  {
    SingleRemove(s, n, removed, ok);
  }

  lemma SingleInit(processes: nat)
    ensures Single(Run(Init(processes), []))
  {
  }

  lemma {:induction false} RunKeepsSingle(processes: nat, acts: seq<Action>)
    requires UndisturbedRun(Init(processes), acts)
    ensures Single(Run(Init(processes), acts))
  {
    if acts == [] {
      SingleInit(processes);
    } else {
      var n := |acts| - 1;
      var s := Run(Init(processes), acts[..n]);
      assert Run(Init(processes), acts) == Step(s, acts[n]);
      assert UndisturbedRun(Init(processes), acts[..n]) && Undisturbed(s, acts[n]);
      hide *;
      RunKeepsSingle(processes, acts[..n]);
      RunKeepsInv(processes, acts[..n]);
      RunKeepsNodes(processes, acts[..n]);
      StepKeepsSingle(s, acts[n]);
    }
  }

  lemma {:induction false} FirstsOfDistinct(published: seq<Event>)
    requires Distinct(published)
    ensures Firsts(published) == published
  {
    if published != [] {
      var front := published[..|published|-1];
      FirstsOfDistinct(front);
      assert published == front + [published[|published|-1]];
    }
  }

  /** In a run in which only one process at a time has a message in hand, every delivery is
      acknowledged, every removal takes the entry and nobody crashes between the two, each
      event is published once, and what is published is all that was removed and perhaps the
      oldest entry. */
  lemma ExactlyOnceUndisturbed(processes: nat, acts: seq<Action>)
    requires UndisturbedRun(Init(processes), acts)
    ensures var s := Run(Init(processes), acts);
      && s.published == Firsts(s.published) && s.published <= s.pushed
      && |s.pushed| - |s.outbox| <= |s.published| <= |s.pushed| - |s.outbox| + 1
  {
    var s := Run(Init(processes), acts);
    RunKeepsInv(processes, acts);
    RunKeepsSingle(processes, acts);
    assert s.published <= s.pushed;
    FirstsOfDistinct(s.published);
  }

  /** The oldest entry was published already exactly if more was published than removed. */
  lemma OldestIsPublishedExactly(s: State)
    requires Inv(s) && s.outbox != []
    ensures s.outbox[|s.outbox|-1] in s.published <==> |Firsts(s.published)| > |s.pushed| - |s.outbox|
  {
    var removed := |s.pushed| - |s.outbox|;
    var m := s.outbox[|s.outbox|-1];
    assert m == s.pushed[removed];
    FirstsHoldsAll(s.published, m);
    var f := Firsts(s.published);
    if j :| 0 <= j < |f| && f[j] == m {
      assert s.pushed[j] == m;
    }
  }

  /** A message that a process reads repeats a publication when it is delivered, if nothing is
      published in between, exactly if more was published than removed when it was read: a
      delivery before had been lost track of, or its process has yet to remove it. */
  lemma ReadRepeatsExactly(s: State, n: nat, acts: seq<Action>, ok: bool)
    requires Reachable(s) && n < |s.nodes| && s.nodes[n].pc.Reading? && s.outbox != []
    requires var t := Run(Step(s, OutboxAnswers(n)), acts);
      t.published == s.published && n < |t.nodes| && t.nodes[n].pc == Publishing(s.outbox[|s.outbox|-1])
    ensures var t := Run(Step(s, OutboxAnswers(n)), acts);
      Repeats(t, PublishEnds(n, true, ok)) <==> |Firsts(s.published)| > |s.pushed| - |s.outbox|
  {
    var processes: nat, before :| s == Run(Init(processes), before);
    RunKeepsInv(processes, before);
    OldestIsPublishedExactly(s);
  }

  /** The step loses track of a delivery: its process crashes before it removed the entry, the
      delivery is not acknowledged, or the entry is not removed. */
  predicate LosesTrack(s: State, a: Action) {
    && Enabled(s, a)
    && match a
       case Crash(n) => s.nodes[n].pc.Removing?
       case PublishEnds(n, delivered, ok) => delivered && !ok
       case RemoveEnds(n, removed, ok) => !removed && !ok
       case _ => false
  }

  /** Each of these makes the next read repeat, unless the entry is gone already: the next
      undisturbed turn publishes the same event again. */
  lemma LosingTrackRepeats(s: State, a: Action, n: nat)
    requires Reachable(s) && LosesTrack(s, a) && s.outbox != [] && s.nodes[a.n].pc.message == s.outbox[|s.outbox|-1]
    requires var t := Step(s, a); n < |t.nodes| && t.nodes[n].working && t.nodes[n].pc.AskingLeader?
    ensures var t := Step(s, a);
      && |Firsts(t.published)| > |t.pushed| - |t.outbox|
      && Run(t, Turn(n)).published == t.published + [s.nodes[a.n].pc.message] && s.nodes[a.n].pc.message in t.published
  {
    var t := Step(s, a);
    LostTrack(s, a);
    ReachableInv(s);
    StepKeepsInv(s, a);
    OldestIsPublishedExactly(t);
    TurnDeliversOldest(t, n);
  }

  lemma LostTrack(s: State, a: Action)
    requires Reachable(s) && LosesTrack(s, a)
    ensures Step(s, a).outbox == s.outbox && s.nodes[a.n].pc.message in Step(s, a).published
  {
    ReachableInv(s);
    assert InHandOk(s.nodes[a.n].pc, s.outbox, s.published, s.pushed);
  }

  lemma ReachableInv(s: State)
    requires Reachable(s)
    ensures Inv(s)
  {
    var processes: nat, acts :| s == Run(Init(processes), acts);
    RunKeepsInv(processes, acts);
  }

  /** Delivery is at least once, not exactly once: two believed leaders can publish one event twice. */
  lemma TwoLeadersPublishTwice(e: Event)
    ensures exists s :: Reachable(s) && s.pushed == [e] && s.published == [e, e]
  {
    assert Run(Init(2), []) == Init(2);
    hide Run, Reachable;
    var asking, reading := Node(true, true, false, AskingLeader), Node(true, true, false, Reading);
    var publishing := Node(true, true, false, Publishing(e));
    var s1 := Extend(Init(2), Push(e));
    assert s1 == State([FRESH_NODE, FRESH_NODE], [e], [], [e]);
    var s2 := Extend(s1, Elected(0));
    assert s2.nodes == [asking, FRESH_NODE];
    var s3 := Extend(s2, Elected(1));
    assert s3.nodes == [asking, asking];
    BothReadAndPublish(s3, e);
  }

  lemma BothReadAndPublish(s3: State, e: Event)
    requires Reachable(s3)
    requires var asking := Node(true, true, false, AskingLeader); s3 == State([asking, asking], [e], [], [e])
    ensures exists s :: Reachable(s) && s.pushed == [e] && s.published == [e, e]
  {
    hide Reachable;
    var s4 := Extend(s3, LeaderAnswers(0, true));
    var s5 := Extend(s4, OutboxAnswers(0));
    var s6 := Extend(s5, LeaderAnswers(1, true));
    var s7 := Extend(s6, OutboxAnswers(1));
    assert s7.nodes[0].pc == Publishing(e) && s7.nodes[1].pc == Publishing(e);
    var s8 := Extend(s7, PublishEnds(0, true, true));
    var s9 := Extend(s8, PublishEnds(1, true, true));
    assert s9.pushed == [e] && s9.published == [e, e];
  }

  lemma Extend(s: State, a: Action) returns (s': State)
    requires Reachable(s)
    ensures s' == Step(s, a) && Reachable(s')
  {
    var processes: nat, acts :| s == Run(Init(processes), acts);
    s' := Step(s, a);
    assert (acts + [a])[..|acts|] == acts;
    assert s' == Run(Init(processes), acts + [a]);
  }
}
