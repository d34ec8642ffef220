/** Write coalescing of the storage service: what one call, one engine completion
    and each of the two `finally` callbacks do to the promise heap, and what holds
    over every interleaving of them.

    A state holds the two maps of the service, every promise made so far (the ones
    of `enqueueWrite` in `writes`, the ones of the second `finally` in `chains`) and
    the files.  The last four fields record the past; no step reads them. */
module WriteCoalescing {

  datatype Path = Path(name: string)

  /** `string | null` in the source: a delete is a write of null. */
  datatype Data = Null | Text(text: string)

  /** Queued in fastq, in the engine, returned by the engine with its `finally` not
      yet run, settled. */
  datatype Stage = Queued | InEngine | Returned(ok: bool) | Settled(ok: bool)

  datatype Write = Write(path: Path, data: Data)

  /** The promise `current.finally(...)`: waits for write `on`, then starts another. */
  datatype Chain = Chain(path: Path, on: nat, started: Started)
  datatype Started = NotYet | AsWrite(w: nat)

  datatype NextWrite = NextWrite(data: Data, promise: nat)

  datatype Promise = OfWrite(w: nat) | OfChain(c: nat)

  datatype Call = Call(path: Path, data: Data, promise: Promise)

  datatype State = State(
    concurrency: nat,
    currentWrites: map<Path, nat>,
    nextWrites: map<Path, NextWrite>,
    writes: seq<Write>,
    stages: seq<Stage>,         // how far each write has come
    chains: seq<Chain>,
    files: map<Path, string>,
    calls: seq<Call>,           // every call, in order
    origin: seq<nat>,           // per write, the call whose data it carries
    seen: seq<nat>,             // per write, the number of calls made when it was enqueued
    last: map<Path, nat>,       // per path, its last write
    pending: map<Path, nat>)    // per next write, the call whose data it holds

  datatype Event =
    | Called(path: Path, data: Data)
    | Start(w: nat)
    | Finish(w: nat, ok: bool, left: Data)   // `left`: what a failed operation leaves behind
    | Cleanup(w: nat)
    | Continue(c: nat)

  function Init(concurrency: nat, files: map<Path, string>): State {
    State(concurrency, map[], map[], [], [], [], files, [], [], [], map[], map[])
  }

  // ----- the steps

  function Without<V>(m: map<Path, V>, p: Path): map<Path, V> {
    m - {p}
  }

  function SetFile(files: map<Path, string>, p: Path, d: Data): map<Path, string> {
    match d
    case Null => Without(files, p)
    case Text(t) => files[p := t]
  }

  function FileOf(files: map<Path, string>, p: Path): Data {
    if p in files then Text(files[p]) else Null
  }

  /** A new write of `d`, carrying call `k`, enqueued when `n` calls had been made. */
  function Enqueue(s: State, p: Path, d: Data, k: nat, n: nat): State {
    s.(writes := s.writes + [Write(p, d)],
       stages := s.stages + [Queued],
       currentWrites := s.currentWrites[p := |s.writes|],
       origin := s.origin + [k],
       seen := s.seen + [n],
       last := s.last[p := |s.writes|])
  }

  function PromiseFor(s: State, p: Path): Promise {
    if p !in s.currentWrites then OfWrite(|s.writes|)
    else if p in s.nextWrites then OfChain(s.nextWrites[p].promise)
    else OfChain(|s.chains|)
  }

  function EnqueueingCall(s: State, p: Path, d: Data): State {
    Enqueue(s, p, d, |s.calls|, |s.calls| + 1).(calls := s.calls + [Call(p, d, PromiseFor(s, p))])
  }

  /** Puts the call's data into the next write, which is made if there is none. */
  function WaitingCall(s: State, p: Path, d: Data): State
    requires p in s.currentWrites
  {
    var calls, pending := s.calls + [Call(p, d, PromiseFor(s, p))], s.pending[p := |s.calls|];
    if p in s.nextWrites then
      s.(nextWrites := s.nextWrites[p := s.nextWrites[p].(data := d)], calls := calls, pending := pending)
    else
      s.(chains := s.chains + [Chain(p, s.currentWrites[p], NotYet)],
         nextWrites := s.nextWrites[p := NextWrite(d, |s.chains|)], calls := calls, pending := pending)
  }

  function WriteOrDelete(s: State, p: Path, d: Data): State {
    if p in s.currentWrites then WaitingCall(s, p, d) else EnqueueingCall(s, p, d)
  }

  function InEngineCount(stages: seq<Stage>): nat {
    if stages == [] then 0
    else InEngineCount(stages[..|stages|-1]) + (if stages[|stages|-1].InEngine? then 1 else 0)
  }

  /** fastq starts the oldest queued task when a slot is free. */
  ghost predicate CanStart(s: State, w: nat) {
    && w < |s.stages| && s.stages[w].Queued?
    && (forall v :: 0 <= v < w ==> !s.stages[v].Queued?)
    && InEngineCount(s.stages) < s.concurrency
  }

  ghost predicate Enabled(s: State, e: Event) {
    match e
    case Called(_, _) => true
    case Start(w) => CanStart(s, w)
    case Finish(w, _, _) => w < |s.writes| && w < |s.stages| && s.stages[w].InEngine?
    case Cleanup(w) => w < |s.writes| && w < |s.stages| && s.stages[w].Returned?
    case Continue(c) =>
      && c < |s.chains| && s.chains[c].started.NotYet?
      && s.chains[c].on < |s.stages| && s.stages[s.chains[c].on].Settled?
  }

  function SetStage(s: State, w: nat, stage: Stage): State
    requires w < |s.stages|
  {
    s.(stages := s.stages[w := stage])
  }

  function FinishWrite(s: State, w: nat, ok: bool, left: Data): State
    requires w < |s.writes| && w < |s.stages|
  {
    var p := s.writes[w].path;
    s.(stages := s.stages[w := Returned(ok)],
       files := SetFile(s.files, p, if ok then s.writes[w].data else left))
  }

  /** The first `finally`: drops the path from `currentWrites` unless a next write waits. */
  function CleanupWrite(s: State, w: nat): State
    requires w < |s.writes| && w < |s.stages| && s.stages[w].Returned?
  {
    var p := s.writes[w].path;
    s.(stages := s.stages[w := Settled(s.stages[w].ok)],
       currentWrites := if p in s.nextWrites then s.currentWrites else Without(s.currentWrites, p))
  }

  /** The second `finally`: enqueues whatever data the next write holds by now. */
  function ContinueChain(s: State, c: nat): State
    requires c < |s.chains| && s.chains[c].path in s.nextWrites
  {
    var p := s.chains[c].path;
    var k := if p in s.pending then s.pending[p] else 0;
    Enqueue(s, p, s.nextWrites[p].data, k,
      |s.calls|).(chains := s.chains[c := s.chains[c].(started := AsWrite(|s.writes|))],
      nextWrites := Without(s.nextWrites, p),
      pending := Without(s.pending, p))
  }

  ghost function Step(s: State, e: Event): State {
    if !Enabled(s, e) then s else
    match e
    case Called(p, d) => WriteOrDelete(s, p, d)
    case Start(w) => SetStage(s, w, InEngine)
    case Finish(w, ok, left) => FinishWrite(s, w, ok, left)
    case Cleanup(w) => CleanupWrite(s, w)
    case Continue(c) => if s.chains[c].path in s.nextWrites then ContinueChain(s, c) else s
  }

  ghost function Run(s: State, es: seq<Event>): State {
    if es == [] then s else Step(Run(s, es[..|es|-1]), es[|es|-1])
  }

  // ----- the invariant

  /** The maps agree with the promises they point at; every unsettled promise is in a map. */
  ghost predicate CurrentOk(writes: seq<Write>, stages: seq<Stage>, current: map<Path, nat>, waiting: set<Path>) {
    && |stages| == |writes|
    && waiting <= current.Keys
    && (forall p :: p in current ==>
          && current[p] < |writes| && writes[current[p]].path == p
          && (stages[current[p]].Settled? ==> p in waiting))
    && (forall w :: 0 <= w < |writes| && !stages[w].Settled? ==>
          writes[w].path in current && current[writes[w].path] == w)
  }

  ghost predicate ChainsOk(writes: seq<Write>, chains: seq<Chain>, current: map<Path, nat>,
                           next: map<Path, NextWrite>) {
    && next.Keys <= current.Keys
    && (forall p :: p in next ==>
          next[p].promise < |chains| && chains[next[p].promise] == Chain(p, current[p], NotYet))
    && (forall c :: 0 <= c < |chains| ==>
          match chains[c].started
          case NotYet => chains[c].path in next && next[chains[c].path].promise == c
          case AsWrite(w) => w < |writes| && writes[w].path == chains[c].path)
  }

  ghost predicate NoCallBetween(calls: seq<Call>, p: Path, lo: nat, hi: nat) {
    forall k :: lo <= k < hi && k < |calls| ==> calls[k].path != p
  }

  /** Call `k` is the latest of its path among the first `n` calls, and asked for `d` on `p`. */
  ghost predicate Latest(calls: seq<Call>, p: Path, d: Data, k: nat, n: nat) {
    && k < n <= |calls|
    && calls[k].path == p && calls[k].data == d
    && (forall j :: k < j < n ==> calls[j].path != p)
  }

  /** Every write carries the data of the latest call on its path made before it was enqueued. */
  ghost predicate DataOk(writes: seq<Write>, calls: seq<Call>, origin: seq<nat>, seen: seq<nat>) {
    && |origin| == |seen| == |writes|
    && (forall w :: 0 <= w < |writes| ==> Latest(calls, writes[w].path, writes[w].data, origin[w], seen[w]))
  }

  ghost predicate PendingOk(calls: seq<Call>, next: map<Path, NextWrite>, pending: map<Path, nat>) {
    && pending.Keys == next.Keys
    && (forall p :: p in next ==> Latest(calls, p, next[p].data, pending[p], |calls|))
  }

  /** Writes of one path carry calls in order: each one a call made after the one before was enqueued. */
  ghost predicate OrderOk(writes: seq<Write>, origin: seq<nat>, seen: seq<nat>) {
    && |origin| == |seen| == |writes|
    && (forall w, v :: 0 <= w < v < |writes| && writes[w].path == writes[v].path ==> seen[w] <= origin[v])
  }

  ghost predicate LastOk(writes: seq<Write>, last: map<Path, nat>) {
    && (forall p :: p in last ==> last[p] < |writes| && writes[last[p]].path == p)
    && (forall w :: 0 <= w < |writes| ==> writes[w].path in last && w <= last[writes[w].path])
  }

  /** Only a waiting next write is newer than the last write of its path. */
  ghost predicate TailOk(calls: seq<Call>, seen: seq<nat>, last: map<Path, nat>, current: map<Path, nat>,
                         pending: map<Path, nat>) {
    && (forall p :: p in current ==> p in last && current[p] == last[p])
    && (forall p :: p in last ==> last[p] < |seen|)
    && (forall k :: 0 <= k < |calls| ==> calls[k].path in last)
    && (forall p :: p in last && p !in pending ==> NoCallBetween(calls, p, seen[last[p]], |calls|))
    && (forall p :: p in last && p in pending ==> seen[last[p]] <= pending[p])
  }

  /** A caller holds a promise of its own path, for a write enqueued after the call. */
  ghost predicate PromisesOk(writes: seq<Write>, chains: seq<Chain>, calls: seq<Call>, seen: seq<nat>) {
    && |seen| == |writes|
    && forall k :: 0 <= k < |calls| ==>
         match calls[k].promise
         case OfWrite(w) => w < |writes| && writes[w].path == calls[k].path && k < seen[w]
         case OfChain(c) =>
           && c < |chains| && chains[c].path == calls[k].path
           && (chains[c].started.AsWrite? ==> chains[c].started.w < |writes| && k < seen[chains[c].started.w])
  }

  /** A path holds the data of its last write once that write succeeded. */
  ghost predicate FilesOk(writes: seq<Write>, stages: seq<Stage>, last: map<Path, nat>, files: map<Path, string>) {
    && |stages| == |writes|
    && forall p :: p in last && last[p] < |writes| && stages[last[p]] in {Returned(true), Settled(true)} ==>
         FileOf(files, p) == writes[last[p]].data
  }

  ghost predicate Inv(s: State) {
    && CurrentOk(s.writes, s.stages, s.currentWrites, s.nextWrites.Keys)
    && ChainsOk(s.writes, s.chains, s.currentWrites, s.nextWrites)
    && DataOk(s.writes, s.calls, s.origin, s.seen)
    && PendingOk(s.calls, s.nextWrites, s.pending)
    && OrderOk(s.writes, s.origin, s.seen)
    && LastOk(s.writes, s.last)
    && TailOk(s.calls, s.seen, s.last, s.currentWrites, s.pending)
    && PromisesOk(s.writes, s.chains, s.calls, s.seen)
    && FilesOk(s.writes, s.stages, s.last, s.files)
  }

  // ----- every step keeps it, one part of the state at a time

  lemma EnqueueKeepsCurrent(writes: seq<Write>, stages: seq<Stage>, current: map<Path, nat>, waiting: set<Path>,
                            w: Write)
    requires CurrentOk(writes, stages, current, waiting)
    requires w.path in current ==> stages[current[w.path]].Settled?
    ensures CurrentOk(writes + [w], stages + [Queued], current[w.path := |writes|], waiting - {w.path})
  {
  }

  lemma StageKeepsCurrent(writes: seq<Write>, stages: seq<Stage>, current: map<Path, nat>, waiting: set<Path>, w: nat,
                          stage: Stage)
    requires CurrentOk(writes, stages, current, waiting)
    requires w < |stages| && !stages[w].Settled?
    ensures !stage.Settled? || writes[w].path in waiting ==> CurrentOk(writes, stages[w := stage], current, waiting)
    ensures writes[w].path !in waiting && stage.Settled? ==>
              CurrentOk(writes, stages[w := stage], Without(current, writes[w].path), waiting)
  {
  }

  lemma WaitingKeepsCurrent(writes: seq<Write>, stages: seq<Stage>, current: map<Path, nat>, waiting: set<Path>,
                            p: Path)
    requires CurrentOk(writes, stages, current, waiting) && p in current
    ensures CurrentOk(writes, stages, current, waiting + {p})
  {
  }

  lemma OverwriteKeepsChains(writes: seq<Write>, chains: seq<Chain>, current: map<Path, nat>,
                             next: map<Path, NextWrite>, p: Path, d: Data)
    requires ChainsOk(writes, chains, current, next) && p in next
    ensures ChainsOk(writes, chains, current, next[p := next[p].(data := d)])
  {
  }

  lemma NewNextKeepsChains(writes: seq<Write>, chains: seq<Chain>, current: map<Path, nat>,
                           next: map<Path, NextWrite>, p: Path, d: Data)
    requires ChainsOk(writes, chains, current, next) && p !in next && p in current
    ensures ChainsOk(writes, chains + [Chain(p, current[p], NotYet)], current, next[p := NextWrite(d, |chains|)])
  {
  }

  lemma EnqueueKeepsChains(writes: seq<Write>, chains: seq<Chain>, current: map<Path, nat>,
                           next: map<Path, NextWrite>, w: Write)
    requires ChainsOk(writes, chains, current, next) && w.path !in next
    ensures ChainsOk(writes + [w], chains, current[w.path := |writes|], next)
    ensures ChainsOk(writes, chains, Without(current, w.path), next)
  {
  }

  lemma ContinueKeepsChains(writes: seq<Write>, chains: seq<Chain>, current: map<Path, nat>,
                            next: map<Path, NextWrite>, c: nat, d: Data)
    requires ChainsOk(writes, chains, current, next) && c < |chains| && chains[c].started.NotYet?
    ensures var p := chains[c].path;
      ChainsOk(writes + [Write(p, d)], chains[c := chains[c].(started := AsWrite(|writes|))],
               current[p := |writes|], Without(next, p))
  {
  }

  lemma CallKeepsData(writes: seq<Write>, calls: seq<Call>, origin: seq<nat>, seen: seq<nat>, call: Call)
    requires DataOk(writes, calls, origin, seen)
    ensures DataOk(writes, calls + [call], origin, seen)
  {
  }

  lemma EnqueueKeepsData(writes: seq<Write>, calls: seq<Call>, origin: seq<nat>, seen: seq<nat>, w: Write, k: nat,
                         n: nat)
    requires DataOk(writes, calls, origin, seen) && Latest(calls, w.path, w.data, k, n)
    ensures DataOk(writes + [w], calls, origin + [k], seen + [n])
  {
  }

  lemma CallKeepsPending(calls: seq<Call>, next: map<Path, NextWrite>, pending: map<Path, nat>, call: Call, q: nat)
    requires PendingOk(calls, next, pending)
    ensures call.path !in next ==> PendingOk(calls + [call], next, pending)
    ensures PendingOk(calls + [call], next[call.path := NextWrite(call.data, q)], pending[call.path := |calls|])
  {
  }

  lemma ContinueKeepsPending(calls: seq<Call>, next: map<Path, NextWrite>, pending: map<Path, nat>, p: Path)
    requires PendingOk(calls, next, pending)
    ensures PendingOk(calls, Without(next, p), Without(pending, p))
  {
  }

  lemma EnqueueKeepsOrder(writes: seq<Write>, origin: seq<nat>, seen: seq<nat>, w: Write, k: nat, n: nat)
    requires OrderOk(writes, origin, seen)
    requires forall v :: 0 <= v < |writes| && writes[v].path == w.path ==> seen[v] <= k
    ensures OrderOk(writes + [w], origin + [k], seen + [n])
  {
  }

  lemma SeenUpToLast(writes: seq<Write>, calls: seq<Call>, origin: seq<nat>, seen: seq<nat>, last: map<Path, nat>,
                     p: Path)
    requires LastOk(writes, last) && OrderOk(writes, origin, seen) && DataOk(writes, calls, origin, seen)
    requires p in last
    ensures forall v :: 0 <= v < |writes| && writes[v].path == p ==> seen[v] <= seen[last[p]]
  {
  }

  lemma EnqueueKeepsLast(writes: seq<Write>, last: map<Path, nat>, w: Write)
    requires LastOk(writes, last)
    ensures LastOk(writes + [w], last[w.path := |writes|])
  {
  }

  lemma EnqueueKeepsTail(calls: seq<Call>, seen: seq<nat>, last: map<Path, nat>, current: map<Path, nat>,
                         pending: map<Path, nat>, p: Path)
    requires TailOk(calls, seen, last, current, pending)
    ensures TailOk(calls, seen + [|calls|], last[p := |seen|], current[p := |seen|], Without(pending, p))
    ensures TailOk(calls, seen, last, Without(current, p), pending)
  {
  }

  lemma EnqueueingCallKeepsTail(calls: seq<Call>, seen: seq<nat>, last: map<Path, nat>, current: map<Path, nat>,
                                pending: map<Path, nat>, call: Call)
    requires TailOk(calls, seen, last, current, pending) && call.path !in pending
    ensures TailOk(calls + [call], seen + [|calls| + 1], last[call.path := |seen|], current[call.path := |seen|],
        pending)
  {
  }

  lemma WaitingCallKeepsTail(calls: seq<Call>, seen: seq<nat>, last: map<Path, nat>, current: map<Path, nat>,
                             pending: map<Path, nat>, call: Call)
    requires TailOk(calls, seen, last, current, pending) && call.path in current
    requires forall w :: 0 <= w < |seen| ==> seen[w] <= |calls|
    ensures TailOk(calls + [call], seen, last, current, pending[call.path := |calls|])
  {
  }

  lemma EnqueueKeepsPromises(writes: seq<Write>, chains: seq<Chain>, calls: seq<Call>, seen: seq<nat>, w: Write)
    requires PromisesOk(writes, chains, calls, seen)
    ensures PromisesOk(writes + [w], chains, calls, seen + [|calls|])
    ensures forall d :: PromisesOk(writes + [w], chains, calls + [Call(w.path, d, OfWrite(|writes|))], seen +
        [|calls| + 1])
  {
  }

  lemma WaitingCallKeepsPromises(writes: seq<Write>, chains: seq<Chain>, calls: seq<Call>, seen: seq<nat>, call: Call,
                                 on: nat)
    requires PromisesOk(writes, chains, calls, seen) && call.promise.OfChain?
    ensures call.promise.c < |chains| && chains[call.promise.c] == Chain(call.path, on, NotYet) ==>
              PromisesOk(writes, chains, calls + [call], seen)
    ensures call.promise.c == |chains| ==> PromisesOk(writes, chains + [Chain(call.path, on, NotYet)], calls + [call],
        seen)
  {
  }

  lemma ContinueKeepsPromises(writes: seq<Write>, chains: seq<Chain>, calls: seq<Call>, seen: seq<nat>, c: nat,
                              w: Write)
    requires PromisesOk(writes, chains, calls, seen) && c < |chains| && chains[c].started.NotYet?
    ensures PromisesOk(writes + [w], chains[c := chains[c].(started := AsWrite(|writes|))], calls, seen + [|calls|])
  {
  }

  lemma EnqueueKeepsFiles(writes: seq<Write>, stages: seq<Stage>, last: map<Path, nat>, files: map<Path, string>,
                          w: Write)
    requires FilesOk(writes, stages, last, files)
    ensures FilesOk(writes + [w], stages + [Queued], last[w.path := |writes|], files)
  {
  }

  lemma StageKeepsFiles(writes: seq<Write>, stages: seq<Stage>, last: map<Path, nat>, files: map<Path, string>,
                        w: nat, stage: Stage)
    requires FilesOk(writes, stages, last, files) && w < |stages|
    requires stage.InEngine? || (stages[w].Returned? && stage == Settled(stages[w].ok))
    ensures FilesOk(writes, stages[w := stage], last, files)
  {
  }

  lemma FinishKeepsFiles(writes: seq<Write>, stages: seq<Stage>, last: map<Path, nat>, files: map<Path, string>,
                         w: nat, ok: bool, left: Data)
    requires FilesOk(writes, stages, last, files) && LastOk(writes, last) && w < |stages|
    requires writes[w].path in last && last[writes[w].path] == w
    ensures FilesOk(writes, stages[w := Returned(ok)], last,
                    SetFile(files, writes[w].path, if ok then writes[w].data else left))
  {
  }

  lemma InvLengths(s: State)
    requires Inv(s)
    ensures |s.seen| == |s.origin| == |s.stages| == |s.writes|
    ensures s.pending.Keys == s.nextWrites.Keys <= s.currentWrites.Keys
    ensures forall v :: 0 <= v < |s.seen| ==> s.seen[v] <= |s.calls|
  {
  }

  lemma EnqueueingCallKeepsInv(s: State, p: Path, d: Data)
    requires Inv(s) && p !in s.currentWrites
    ensures Inv(EnqueueingCall(s, p, d))
  {
    hide CurrentOk, ChainsOk, DataOk, PendingOk, OrderOk, LastOk, TailOk, PromisesOk, FilesOk;
    InvLengths(s);
    var w, call, n := Write(p, d), Call(p, d, PromiseFor(s, p)), |s.calls|;
    EnqueueKeepsCurrent(s.writes, s.stages, s.currentWrites, s.nextWrites.Keys, w);
    assert s.nextWrites.Keys - {p} == s.nextWrites.Keys;
    EnqueueKeepsChains(s.writes, s.chains, s.currentWrites, s.nextWrites, w);
    CallKeepsData(s.writes, s.calls, s.origin, s.seen, call);
    EnqueueKeepsData(s.writes, s.calls + [call], s.origin, s.seen, w, n, n + 1);
    CallKeepsPending(s.calls, s.nextWrites, s.pending, call, 0);
    EnqueueKeepsOrder(s.writes, s.origin, s.seen, w, n, n + 1);
    EnqueueKeepsLast(s.writes, s.last, w);
    EnqueueingCallKeepsTail(s.calls, s.seen, s.last, s.currentWrites, s.pending, call);
    EnqueueKeepsPromises(s.writes, s.chains, s.calls, s.seen, w);
    EnqueueKeepsFiles(s.writes, s.stages, s.last, s.files, w);
  }

  lemma NextIsWaiting(s: State, p: Path)
    requires Inv(s) && p in s.currentWrites
    ensures p in s.nextWrites ==>
      var c := s.nextWrites[p].promise; c < |s.chains| && s.chains[c] == Chain(p, s.currentWrites[p], NotYet)
  {
    hide CurrentOk, DataOk, PendingOk, OrderOk, LastOk, TailOk, PromisesOk, FilesOk;
  }

  lemma WaitingCallKeepsInv(s: State, p: Path, d: Data)
    requires p in s.currentWrites
    requires Inv(s)
    ensures Inv(WaitingCall(s, p, d))
  {
    hide CurrentOk, ChainsOk, DataOk, PendingOk, OrderOk, LastOk, TailOk, PromisesOk, FilesOk;
    InvLengths(s);
    NextIsWaiting(s, p);
    var call := Call(p, d, PromiseFor(s, p));
    var s' := WaitingCall(s, p, d);
    WaitingKeepsCurrent(s.writes, s.stages, s.currentWrites, s.nextWrites.Keys, p);
    assert s'.nextWrites.Keys == s.nextWrites.Keys + {p};
    if p in s.nextWrites {
      OverwriteKeepsChains(s.writes, s.chains, s.currentWrites, s.nextWrites, p, d);
    } else {
      NewNextKeepsChains(s.writes, s.chains, s.currentWrites, s.nextWrites, p, d);
    }
    CallKeepsData(s.writes, s.calls, s.origin, s.seen, call);
    CallKeepsPending(s.calls, s.nextWrites, s.pending, call, s'.nextWrites[p].promise);
    WaitingCallKeepsTail(s.calls, s.seen, s.last, s.currentWrites, s.pending, call);
    WaitingCallKeepsPromises(s.writes, s.chains, s.calls, s.seen, call, s.currentWrites[p]);
  }

  lemma EngineStepKeepsInv(s: State, e: Event)
    requires Inv(s) && Enabled(s, e) && (e.Start? || e.Finish?)
    ensures Inv(Step(s, e))
  {
    var w := e.w;
    assert s.currentWrites[s.writes[w].path] == w && s.last[s.writes[w].path] == w;
    match e
    case Start(_) =>
      StageKeepsCurrent(s.writes, s.stages, s.currentWrites, s.nextWrites.Keys, w, InEngine);
      StageKeepsFiles(s.writes, s.stages, s.last, s.files, w, InEngine);
    case Finish(_, ok, left) =>
      StageKeepsCurrent(s.writes, s.stages, s.currentWrites, s.nextWrites.Keys, w, Returned(ok));
      FinishKeepsFiles(s.writes, s.stages, s.last, s.files, w, ok, left);
  }

  lemma CleanupKeepsInv(s: State, w: nat)
    requires Enabled(s, Cleanup(w))
    requires Inv(s)
    ensures Inv(CleanupWrite(s, w))
  {
    var p, stage := s.writes[w].path, Settled(s.stages[w].ok);
    StageKeepsCurrent(s.writes, s.stages, s.currentWrites, s.nextWrites.Keys, w, stage);
    StageKeepsFiles(s.writes, s.stages, s.last, s.files, w, stage);
    if p !in s.nextWrites {
      EnqueueKeepsChains(s.writes, s.chains, s.currentWrites, s.nextWrites, s.writes[w]);
      EnqueueKeepsTail(s.calls, s.seen, s.last, s.currentWrites, s.pending, p);
    }
    hide CurrentOk, ChainsOk, DataOk, PendingOk, OrderOk, LastOk, TailOk, PromisesOk, FilesOk;
  }

  lemma ChainHasNext(writes: seq<Write>, chains: seq<Chain>, current: map<Path, nat>, next: map<Path, NextWrite>,
                     c: nat)
    requires ChainsOk(writes, chains, current, next) && c < |chains| && chains[c].started.NotYet?
    ensures var p := chains[c].path;
      p in next && next[p].promise == c && p in current && chains[c].on == current[p]
  {
  }

  lemma NextHoldsLatest(s: State, p: Path)
    requires PendingOk(s.calls, s.nextWrites, s.pending)
    requires TailOk(s.calls, s.seen, s.last, s.currentWrites, s.pending)
    requires p in s.nextWrites && p in s.currentWrites
    ensures p in s.pending && Latest(s.calls, p, s.nextWrites[p].data, s.pending[p], |s.calls|)
    ensures p in s.last && s.last[p] < |s.seen| && s.seen[s.last[p]] <= s.pending[p]
  {
  }

  lemma ContinueKeepsInv(s: State, c: nat)
    requires Enabled(s, Continue(c)) && s.chains[c].path in s.nextWrites
    requires Inv(s)
    ensures Inv(ContinueChain(s, c))
  {
    hide CurrentOk, ChainsOk, DataOk, PendingOk, OrderOk, LastOk, TailOk, PromisesOk, FilesOk;
    InvLengths(s);
    ChainHasNext(s.writes, s.chains, s.currentWrites, s.nextWrites, c);
    var p, n := s.chains[c].path, |s.calls|;
    NextHoldsLatest(s, p);
    var d, k := s.nextWrites[p].data, s.pending[p];
    var w, s' := Write(p, d), ContinueChain(s, c);
    EnqueueKeepsCurrent(s.writes, s.stages, s.currentWrites, s.nextWrites.Keys, w);
    assert s'.nextWrites.Keys == s.nextWrites.Keys - {p};
    ContinueKeepsChains(s.writes, s.chains, s.currentWrites, s.nextWrites, c, d);
    EnqueueKeepsData(s.writes, s.calls, s.origin, s.seen, w, k, n);
    ContinueKeepsPending(s.calls, s.nextWrites, s.pending, p);
    SeenUpToLast(s.writes, s.calls, s.origin, s.seen, s.last, p);
    EnqueueKeepsOrder(s.writes, s.origin, s.seen, w, k, n);
    EnqueueKeepsLast(s.writes, s.last, w);
    EnqueueKeepsTail(s.calls, s.seen, s.last, s.currentWrites, s.pending, p);
    ContinueKeepsPromises(s.writes, s.chains, s.calls, s.seen, c, w);
    EnqueueKeepsFiles(s.writes, s.stages, s.last, s.files, w);
  }

  lemma StepKeepsInv(s: State, e: Event)
    requires Inv(s)
    ensures Inv(Step(s, e))
  {
    if Enabled(s, e) {
      match e
      case Called(p, d) => if p in s.currentWrites { WaitingCallKeepsInv(s, p, d); } else { EnqueueingCallKeepsInv(s,
          p, d); }
      case Cleanup(w) => CleanupKeepsInv(s, w);
      case Continue(c) =>
        ChainHasNext(s.writes, s.chains, s.currentWrites, s.nextWrites, c);
        ContinueKeepsInv(s, c);
      case _ => EngineStepKeepsInv(s, e);
    }
    hide Inv;
  }

  lemma {:induction false} RunKeepsInv(s: State, es: seq<Event>)
    requires Inv(s)
    ensures Inv(Run(s, es))
  {
    if es != [] {
      RunKeepsInv(s, es[..|es|-1]);
      StepKeepsInv(Run(s, es[..|es|-1]), es[|es|-1]);
    }
  }

  /** Any interleaving whatever of calls, engine completions and callbacks. */
  ghost predicate Reachable(s: State) {
    exists n: nat, files, es :: s == Run(Init(n, files), es)
  }

  lemma ReachableInv(s: State)
    requires Reachable(s)
    ensures Inv(s)
  {
    var n: nat, files, es :| s == Run(Init(n, files), es);
    RunKeepsInv(Init(n, files), es);
  }

  // ----- what holds in every reachable state

  /** At most one operation of a path is queued, in the engine or waiting for its
      `finally`, and it is the path's last; a next write waits only behind a current one. */
  lemma OneOperationPerPath(s: State)
    requires Reachable(s)
    ensures |s.stages| == |s.writes|
    ensures forall w, v :: 0 <= w < v < |s.writes| && s.writes[w].path == s.writes[v].path ==> s.stages[w].Settled?
    ensures s.nextWrites.Keys <= s.currentWrites.Keys
  {
    ReachableInv(s);
    forall w, v | 0 <= w < v < |s.writes| && s.writes[w].path == s.writes[v].path ensures s.stages[w].Settled? {
      assert v <= s.last[s.writes[w].path];
    }
  }

  ghost predicate Carried(s: State, k: nat) {
    exists w :: 0 <= w < |s.origin| && s.origin[w] == k
  }

  ghost predicate Held(s: State, k: nat) {
    exists p :: p in s.pending && s.pending[p] == k
  }

  /** A later call replaced call `k` before any operation of the path was enqueued after it. */
  ghost predicate Superseded(s: State, k: nat)
    requires k < |s.calls| && |s.seen| == |s.writes|
  {
    exists j :: && k < j < |s.calls| && s.calls[j].path == s.calls[k].path
                && SameOperations(s, s.calls[k].path, k, j)
  }

  ghost predicate SameOperations(s: State, p: Path, k: nat, j: nat)
    requires |s.seen| == |s.writes|
  {
    forall w :: 0 <= w < |s.writes| && s.writes[w].path == p ==> s.seen[w] <= k || j < s.seen[w]
  }

  /** The operations of a path are an order-preserving subsequence of its calls: each
      carries the data of the latest call made before it was enqueued, later operations
      carry later calls, and a call without an operation is held or was superseded. */
  lemma OperationsFollowCalls(s: State)
    requires Reachable(s)
    ensures |s.origin| == |s.seen| == |s.writes|
    ensures forall w :: 0 <= w < |s.writes| ==>
              Latest(s.calls, s.writes[w].path, s.writes[w].data, s.origin[w], s.seen[w])
    ensures forall w, v :: 0 <= w < v < |s.writes| && s.writes[w].path == s.writes[v].path ==>
              s.origin[w] < s.seen[w] <= s.origin[v]
    ensures forall k :: 0 <= k < |s.calls| ==> Carried(s, k) || Held(s, k) || Superseded(s, k)
  {
    ReachableInv(s);
    forall k | 0 <= k < |s.calls| && !Carried(s, k) && !Held(s, k) ensures Superseded(s, k) {
      var j := NextCall(s, k);
      UncarriedIsSuperseded(s, k, j);
    }
  }

  lemma LastCallIsCarriedOrHeld(s: State, k: nat)
    requires Inv(s) && k < |s.calls|
    ensures NoCallBetween(s.calls, s.calls[k].path, k + 1, |s.calls|) ==> Carried(s, k) || Held(s, k)
  {
    hide CurrentOk, ChainsOk, OrderOk, PromisesOk, FilesOk;
    var p := s.calls[k].path;
    if NoCallBetween(s.calls, p, k + 1, |s.calls|) {
      if p in s.pending {
        assert Latest(s.calls, p, s.nextWrites[p].data, s.pending[p], |s.calls|);
        assert s.pending[p] == k;
      } else {
        var w := s.last[p];
        assert Latest(s.calls, p, s.writes[w].data, s.origin[w], s.seen[w]);
        assert s.origin[w] == k;
      }
    }
  }

  /** The next call on the path of call `k`, which exists unless `k` is carried or held. */
  lemma NextCall(s: State, k: nat) returns (j: nat)
    requires Inv(s) && k < |s.calls| && !Carried(s, k) && !Held(s, k)
    ensures k < j < |s.calls| && s.calls[j].path == s.calls[k].path
    ensures NoCallBetween(s.calls, s.calls[k].path, k + 1, j)
  {
    hide Inv, Carried, Held;
    var p := s.calls[k].path;
    j := k + 1;
    while j < |s.calls| && s.calls[j].path != p
      invariant k < j <= |s.calls| && NoCallBetween(s.calls, p, k + 1, j)
    {
      j := j + 1;
    }
    LastCallIsCarriedOrHeld(s, k);
  }

  lemma UncarriedIsSuperseded(s: State, k: nat, j: nat)
    requires DataOk(s.writes, s.calls, s.origin, s.seen)
    requires k < j < |s.calls| && s.calls[j].path == s.calls[k].path && !Carried(s, k)
    requires NoCallBetween(s.calls, s.calls[k].path, k + 1, j)
    ensures Superseded(s, k)
  {
  }

  /** Promises settle once the write they resolve to has settled. */
  ghost predicate PromiseSettled(s: State, q: Promise) {
    match q
    case OfWrite(w) => w < |s.stages| && s.stages[w].Settled?
    case OfChain(c) =>
      && c < |s.chains| && s.chains[c].started.AsWrite?
      && s.chains[c].started.w < |s.stages| && s.stages[s.chains[c].started.w].Settled?
  }

  /** A caller's promise settles only after an operation on its path has settled that
      carries its own data or the data of a later call. */
  lemma PromiseSettlesAfterItsData(s: State, k: nat)
    requires Reachable(s) && k < |s.calls| && PromiseSettled(s, s.calls[k].promise)
    ensures |s.origin| == |s.writes| == |s.stages|
    ensures exists w :: && 0 <= w < |s.writes| && s.stages[w].Settled?
                        && s.writes[w].path == s.calls[k].path
                        && k <= s.origin[w] < |s.calls| && s.calls[s.origin[w]].data == s.writes[w].data
  {
    ReachableInv(s);
    var w := match s.calls[k].promise case OfWrite(w) => w case OfChain(c) => s.chains[c].started.w;
    assert s.writes[w].path == s.calls[k].path;
    assert Latest(s.calls, s.writes[w].path, s.writes[w].data, s.origin[w], s.seen[w]);
  }

  ghost predicate Quiescent(s: State) {
    && (forall w :: 0 <= w < |s.stages| ==> s.stages[w].Settled?)
    && (forall c :: 0 <= c < |s.chains| ==> s.chains[c].started.AsWrite?)
  }

  /** Call `k` was carried by the last operation of its path, and if that succeeded the
      path holds the call's data. */
  ghost predicate LastCallCarried(s: State, k: nat)
    requires k < |s.calls| && |s.origin| == |s.writes| == |s.stages|
  {
    var p := s.calls[k].path;
    && p in s.last && s.last[p] < |s.writes| && s.origin[s.last[p]] == k
    && (s.stages[s.last[p]] == Settled(true) ==> FileOf(s.files, p) == s.calls[k].data)
  }

  lemma QuiescentMapsAreEmpty(s: State)
    requires CurrentOk(s.writes, s.stages, s.currentWrites, s.nextWrites.Keys)
    requires ChainsOk(s.writes, s.chains, s.currentWrites, s.nextWrites)
    requires Quiescent(s)
    ensures s.currentWrites == map[] && s.nextWrites == map[]
  {
  }

  lemma QuiescentSettlesPromises(s: State)
    requires Quiescent(s) && |s.stages| == |s.writes|
    requires PromisesOk(s.writes, s.chains, s.calls, s.seen)
    ensures forall k :: 0 <= k < |s.calls| ==> PromiseSettled(s, s.calls[k].promise)
  {
  }

  lemma QuiescentCarriesLastCall(s: State, k: nat)
    requires DataOk(s.writes, s.calls, s.origin, s.seen) && LastOk(s.writes, s.last)
    requires TailOk(s.calls, s.seen, s.last, s.currentWrites, s.pending)
    requires FilesOk(s.writes, s.stages, s.last, s.files)
    requires k < |s.calls| && NoCallBetween(s.calls, s.calls[k].path, k + 1, |s.calls|)
    requires s.calls[k].path !in s.pending
    ensures LastCallCarried(s, k)
  {
    var p := s.calls[k].path;
    var w := s.last[p];
    assert NoCallBetween(s.calls, p, s.seen[w], |s.calls|);
    assert Latest(s.calls, p, s.writes[w].data, s.origin[w], s.seen[w]);
  }

  /** When nothing is in progress the maps are empty, every caller has its answer, and
      the last call of every path is the one its last operation carried; if that
      operation succeeded the path holds exactly that call's data. */
  lemma QuiescentHoldsLastCalls(s: State)
    requires Reachable(s) && Quiescent(s)
    ensures s.currentWrites == map[] && s.nextWrites == map[]
    ensures forall k :: 0 <= k < |s.calls| ==> PromiseSettled(s, s.calls[k].promise)
    ensures |s.origin| == |s.writes| == |s.stages|
    ensures forall k :: 0 <= k < |s.calls| && NoCallBetween(s.calls, s.calls[k].path, k + 1, |s.calls|) ==>
              LastCallCarried(s, k)
  {
    ReachableInv(s);
    QuiescentMapsAreEmpty(s);
    QuiescentSettlesPromises(s);
    forall k | 0 <= k < |s.calls| && NoCallBetween(s.calls, s.calls[k].path, k + 1, |s.calls|)
      ensures LastCallCarried(s, k)
    {
      QuiescentCarriesLastCall(s, k);
    }
  }

  // ----- everything in progress ends

  function Left(stage: Stage): nat {
    match stage
    case Queued => 3
    case InEngine => 2
    case Returned(_) => 1
    case Settled(_) => 0
  }

  function TotalLeft(stages: seq<Stage>): nat {
    if stages == [] then 0 else TotalLeft(stages[..|stages|-1]) + Left(stages[|stages|-1])
  }

  /** Steps still to come: three for a queued write, four for a next write. */
  function Work(s: State): nat {
    TotalLeft(s.stages) + 4 * |s.nextWrites|
  }

  lemma {:induction false} TotalLeftOfUpdate(stages: seq<Stage>, w: nat, stage: Stage)
    requires w < |stages|
    ensures TotalLeft(stages[w := stage]) == TotalLeft(stages) - Left(stages[w]) + Left(stage)
    ensures TotalLeft(stages) >= Left(stages[w])
  {
    var n := |stages| - 1;
    if w < n {
      assert stages[w := stage][..n] == stages[..n][w := stage];
      TotalLeftOfUpdate(stages[..n], w, stage);
    } else {
      assert stages[w := stage][..n] == stages[..n];
    }
  }

  lemma {:induction false} InEngineCountOfUpdate(stages: seq<Stage>, w: nat, stage: Stage)
    requires w < |stages|
    ensures InEngineCount(stages[w := stage])
         == InEngineCount(stages) - (if stages[w].InEngine? then 1 else 0) + (if stage.InEngine? then 1 else 0)
  {
    var n := |stages| - 1;
    if w < n {
      assert stages[w := stage][..n] == stages[..n][w := stage];
      InEngineCountOfUpdate(stages[..n], w, stage);
    } else {
      assert stages[w := stage][..n] == stages[..n];
    }
  }

  ghost predicate Internal(e: Event) {
    !e.Called?
  }

  lemma ContinueDoesOneUnit(s: State, c: nat)
    requires c < |s.chains| && s.chains[c].path in s.nextWrites
    ensures Work(ContinueChain(s, c)) == Work(s) - 1
  {
  }

  lemma InternalStepDoesOneUnit(s: State, e: Event)
    requires Internal(e) && Enabled(s, e)
    requires ChainsOk(s.writes, s.chains, s.currentWrites, s.nextWrites)
    ensures Work(Step(s, e)) == Work(s) - 1
  {
    match e
    case Start(w) => TotalLeftOfUpdate(s.stages, w, InEngine);
    case Finish(w, ok, left) => TotalLeftOfUpdate(s.stages, w, Returned(ok));
    case Cleanup(w) => TotalLeftOfUpdate(s.stages, w, Settled(s.stages[w].ok));
    case Continue(c) => ContinueDoesOneUnit(s, c);
  }

  lemma {:induction false} IdleEngine(stages: seq<Stage>)
    requires InEngineCount(stages) > 0
    ensures exists w :: 0 <= w < |stages| && stages[w].InEngine?
  {
    var n := |stages| - 1;
    if !stages[n].InEngine? {
      IdleEngine(stages[..n]);
      var w :| 0 <= w < n && stages[..n][w].InEngine?;
      assert stages[w].InEngine?;
    }
  }

  lemma {:induction false} OldestQueued(stages: seq<Stage>, w: nat) returns (v: nat)
    requires w < |stages| && stages[w].Queued?
    ensures v <= w && stages[v].Queued? && forall u :: 0 <= u < v ==> !stages[u].Queued?
  {
    if u: nat :| u < w && stages[u].Queued? { v := OldestQueued(stages, u); } else { v := w; }
  }

  lemma InternalStepExists(s: State) returns (e: Event)
    requires CurrentOk(s.writes, s.stages, s.currentWrites, s.nextWrites.Keys)
    requires ChainsOk(s.writes, s.chains, s.currentWrites, s.nextWrites)
    requires s.concurrency > 0 && !Quiescent(s)
    ensures Internal(e) && Enabled(s, e)
  {
    if w :| 0 <= w < |s.stages| && s.stages[w].Returned? {
      e := Cleanup(w);
    } else if w :| 0 <= w < |s.stages| && s.stages[w].InEngine? {
      e := Finish(w, true, Null);
    } else if w :| 0 <= w < |s.stages| && s.stages[w].Queued? {
      if InEngineCount(s.stages) > 0 { IdleEngine(s.stages); }
      var v := OldestQueued(s.stages, w);
      e := Start(v);
    } else {
      var c :| 0 <= c < |s.chains| && !s.chains[c].started.AsWrite?;
      e := Continue(c);
    }
  }

  lemma NoWorkIsQuiescent(s: State)
    requires Inv(s) && s.concurrency > 0 && Work(s) == 0
    ensures Quiescent(s)
  {
    if !Quiescent(s) {
      var e := InternalStepExists(s);
      InternalStepDoesOneUnit(s, e);
    }
  }

  /** A run in which every event is internal and really happens. */
  ghost predicate InternalRun(s: State, es: seq<Event>) {
    forall i :: 0 <= i < |es| ==> Internal(es[i]) && Enabled(Run(s, es[..i]), es[i])
  }

  lemma {:induction false} RunDoesItsWork(s: State, es: seq<Event>)
    requires Inv(s) && s.concurrency > 0 && InternalRun(s, es)
    ensures Work(Run(s, es)) == Work(s) - |es|
    ensures |es| == Work(s) ==> Quiescent(Run(s, es))
  {
    hide Step, Enabled, Work, Quiescent;
    if es != [] {
      var n := |es| - 1;
      var mid := Run(s, es[..n]);
      assert forall i :: 0 <= i < n ==> es[..n][..i] == es[..i];
      RunDoesItsWork(s, es[..n]);
      RunKeepsInv(s, es[..n]);
      InternalStepDoesOneUnit(mid, es[n]);
    }
    RunKeepsInv(s, es);
    ConcurrencyFixed(s, es);
    if |es| == Work(s) { NoWorkIsQuiescent(Run(s, es)); }
  }

  /** Unless all is quiet some callback, engine completion or fastq start can happen. */
  lemma NeverStuck(s: State) returns (e: Event)
    requires Reachable(s) && s.concurrency > 0 && !Quiescent(s)
    ensures Internal(e) && Enabled(s, e)
  {
    ReachableInv(s);
    e := InternalStepExists(s);
  }

  /** With no new calls, any run whatever does exactly one unit of work a step, so none
      is longer than `Work(s)`, and one that long ends in a quiescent state. */
  lemma DrainsInExactlyWorkSteps(s: State, es: seq<Event>)
    requires Reachable(s) && s.concurrency > 0 && InternalRun(s, es)
    ensures Work(Run(s, es)) == Work(s) - |es|
    ensures |es| == Work(s) ==> Quiescent(Run(s, es))
  {
    ReachableInv(s);
    RunDoesItsWork(s, es);
  }

  /** The second `finally` always finds its next write, and waited for the current one. */
  lemma ChainFindsNext(s: State, c: nat)
    requires Reachable(s) && c < |s.chains| && s.chains[c].started.NotYet?
    ensures var p := s.chains[c].path;
      p in s.nextWrites && s.nextWrites[p].promise == c && p in s.currentWrites && s.chains[c].on == s.currentWrites[p]
  {
    ReachableInv(s);
    ChainHasNext(s.writes, s.chains, s.currentWrites, s.nextWrites, c);
  }

  lemma {:induction false} ConcurrencyFixed(s: State, es: seq<Event>)
    ensures Run(s, es).concurrency == s.concurrency
  {
    if es != [] {
      ConcurrencyFixed(s, es[..|es|-1]);
      StepFixesConcurrency(Run(s, es[..|es|-1]), es[|es|-1]);
    }
  }

  lemma StepFixesConcurrency(s: State, e: Event)
    ensures Step(s, e).concurrency == s.concurrency
  {
  }

  /** fastq never has more than `concurrency` operations in the engine. */
  lemma {:induction false} EngineLimitKept(n: nat, files: map<Path, string>, es: seq<Event>)
    ensures InEngineCount(Run(Init(n, files), es).stages) <= n
  {
    if es != [] {
      EngineLimitKept(n, files, es[..|es|-1]);
      ConcurrencyFixed(Init(n, files), es[..|es|-1]);
      StepKeepsEngineLimit(Run(Init(n, files), es[..|es|-1]), es[|es|-1]);
    }
  }

  lemma StepKeepsEngineLimit(mid: State, e: Event)
    requires InEngineCount(mid.stages) <= mid.concurrency
    ensures InEngineCount(Step(mid, e).stages) <= mid.concurrency
  {
      match e
      case Start(w) => if w < |mid.stages| { InEngineCountOfUpdate(mid.stages, w, InEngine); }
      case Finish(w, ok, left) => if w < |mid.stages| { InEngineCountOfUpdate(mid.stages, w, Returned(ok)); }
      case Cleanup(w) =>
        if w < |mid.stages| && mid.stages[w].Returned? {
          InEngineCountOfUpdate(mid.stages, w, Settled(mid.stages[w].ok));
        }
      case _ => assert (mid.stages + [Queued])[..|mid.stages|] == mid.stages;
  }

  // ----- order of starts

  /** Operations leave the queue in the order in which they were queued. */
  ghost predicate StartedInOrder(stages: seq<Stage>) {
    forall v, w :: 0 <= v < w < |stages| && !stages[w].Queued? ==> !stages[v].Queued?
  }

  lemma {:induction false} RunStartsInOrder(s: State, es: seq<Event>)
    requires StartedInOrder(s.stages)
    ensures StartedInOrder(Run(s, es).stages)
  {
    if es != [] {
      RunStartsInOrder(s, es[..|es|-1]);
      hide Run, InEngineCount;
    }
  }

  /** Over every run, no operation starts before one that was queued earlier. */
  lemma OldestStartsFirst(s: State, v: nat, w: nat)
    requires Reachable(s) && v < w < |s.stages| && !s.stages[w].Queued?
    ensures !s.stages[v].Queued?
  {
    var n: nat, files, es :| s == Run(Init(n, files), es);
    RunStartsInOrder(Init(n, files), es);
  }

  /** A call is taken at any time, and recorded with the promise it was given. */
  lemma CallIsTaken(s: State, p: Path, d: Data)
    ensures Enabled(s, Called(p, d))
    ensures Step(s, Called(p, d)).calls == s.calls + [Call(p, d, PromiseFor(s, p))]
  {
  }
}
