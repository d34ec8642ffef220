/** The storage service itself: the fields it updates in place, one method for each
    piece of code that runs without a break, tied to the steps of WriteCoalescing. */
module StorageService {
  import opened WriteCoalescing

  class NestStorageService {
    const writeConcurrency: nat
    var currentWrites: map<Path, nat>
    var nextWrites: map<Path, NextWrite>
    // The promises made so far and the files, which JavaScript and the engine hold
    var writes: seq<Write>
    var stages: seq<Stage>
    var chains: seq<Chain>
    var files: map<Path, string>
    ghost var calls: seq<Call>
    ghost var origin: seq<nat>
    ghost var seen: seq<nat>
    ghost var last: map<Path, nat>
    ghost var pending: map<Path, nat>

    ghost function Now(): State
      reads this
    {
      State(writeConcurrency, currentWrites, nextWrites, writes, stages, chains, files, calls, origin, seen, last,
        pending)
    }

    constructor (writeConcurrency: nat, files: map<Path, string>)
      ensures Now() == Init(writeConcurrency, files)
    {
      this.writeConcurrency := writeConcurrency;
      currentWrites, nextWrites := map[], map[];
      writes, stages, chains, this.files := [], [], [], files;
      calls, origin, seen, last, pending := [], [], [], map[], map[];
    }

    method Write(path: Path, data: string) returns (promise: Promise)
      modifies this
      ensures Now() == WriteCoalescing.WriteOrDelete(old(Now()), path, Text(data))
      ensures promise == PromiseFor(old(Now()), path)
    {
      promise := WriteOrDelete(path, Text(data));
    }

    method Delete(path: Path) returns (promise: Promise)
      modifies this
      ensures Now() == WriteCoalescing.WriteOrDelete(old(Now()), path, Null)
      ensures promise == PromiseFor(old(Now()), path)
    {
      promise := WriteOrDelete(path, Null);
    }

    method WriteOrDelete(path: Path, data: Data) returns (promise: Promise)
      modifies this
      ensures Now() == WriteCoalescing.WriteOrDelete(old(Now()), path, data)
      ensures promise == PromiseFor(old(Now()), path)
    {
      ghost var k := |calls|;
      calls := calls + [Call(path, data, PromiseFor(Now(), path))];
      if path in currentWrites {
        pending := pending[path := k];
        if path in nextWrites {
          var next := nextWrites[path];
          nextWrites := nextWrites[path := next.(data := data)];
          return OfChain(next.promise);
        }
        promise := OfChain(|chains|);
        nextWrites := nextWrites[path := NextWrite(data, |chains|)];
        chains := chains + [Chain(path, currentWrites[path], NotYet)];
        return;
      }
      promise := EnqueueWrite(path, data, k);
    }

    /** Pushes a task and makes its promise the current write of the path. */
    method EnqueueWrite(path: Path, data: Data, ghost call: nat) returns (promise: Promise)
      modifies this
      ensures Now() == Enqueue(old(Now()), path, data, call, |old(calls)|)
      ensures promise == OfWrite(|old(writes)|)
    {
      promise := OfWrite(|writes|);
      currentWrites := currentWrites[path := |writes|];
      origin, seen, last := origin + [call], seen + [|calls|], last[path := |writes|];
      writes, stages := writes + [WriteCoalescing.Write(path, data)], stages + [Queued];
    }

    /** fastq hands the oldest write to `processWriteQueue`. */
    method ProcessWriteQueue(w: nat)
      requires CanStart(Now(), w)
      modifies this`stages
      ensures Now() == SetStage(old(Now()), w, InEngine)
    {
      stages := stages[w := InEngine];
    }

    /** The engine's promise settles; `left` is what a failed operation leaves. */
    method EngineSettled(w: nat, ok: bool, left: Data)
      requires Enabled(Now(), Finish(w, ok, left))
      modifies this`stages, this`files
      ensures Now() == FinishWrite(old(Now()), w, ok, left)
    {
      var path := writes[w].path;
      var content := if ok then writes[w].data else left;
      stages := stages[w := Returned(ok)];
      match content
      case Null => files := files - {path};
      case Text(t) => files := files[path := t];
    }

    /** The `finally` of `enqueueWrite`. */
    method AfterWrite(w: nat)
      requires Enabled(Now(), Cleanup(w))
      modifies this`stages, this`currentWrites
      ensures Now() == CleanupWrite(old(Now()), w)
    {
      var path := writes[w].path;
      stages := stages[w := Settled(stages[w].ok)];
      if path !in nextWrites {
        currentWrites := currentWrites - {path};
      }
    }

    /** The `finally` of `writeOrDelete`; the next write it looks up is always there. */
    method AfterCurrent(c: nat)
      requires ChainsOk(writes, chains, currentWrites, nextWrites) && Enabled(Now(), Continue(c))
      modifies this
      ensures old(chains[c].path in nextWrites) && Now() == ContinueChain(old(Now()), c)
    {
      ChainHasNext(writes, chains, currentWrites, nextWrites, c);
      hide ChainsOk;
      var path := chains[c].path;
      var next := nextWrites[path];
      ghost var call := if path in pending then pending[path] else 0;
      var promise := EnqueueWrite(path, next.data, call);
      chains := chains[c := chains[c].(started := AsWrite(promise.w))];
      nextWrites := nextWrites - {path};
      pending := pending - {path};
    }

    method Perform(e: Event)
      requires Reachable(Now()) && Enabled(Now(), e)
      modifies this
      ensures Now() == Step(old(Now()), e) && Reachable(Now())
    {
      ReachableStep(Now(), e);
      ReachableInv(Now());
      hide Reachable, CanStart, DataOk, PendingOk, OrderOk, LastOk, TailOk, PromisesOk, FilesOk, CurrentOk, ChainsOk;
      match e
      case Called(path, data) => var _ := WriteOrDelete(path, data);
      case Start(w) => ProcessWriteQueue(w);
      case Finish(w, ok, left) => EngineSettled(w, ok, left);
      case Cleanup(w) => AfterWrite(w);
      case Continue(c) => AfterCurrent(c);
    }

    /** Whatever is called and settles in whatever order: one operation of a path is under way
        at a time, and once all is quiet nothing is left in the maps and each path whose last
        operation succeeded holds the data of its last call. */
    method PerformAll(es: seq<Event>)
      requires Reachable(Now()) && CanRun(Now(), es)
      modifies this
      ensures Now() == Run(old(Now()), es) && Reachable(Now())
      ensures OneAtATime(Now())
      ensures Quiescent(Now()) ==> HoldsLastCalls(Now())
      decreases |es|
    {
      hide Reachable, Enabled, Step, OneAtATime, HoldsLastCalls, Quiescent;
      if es != [] {
        PerformAll(es[..|es|-1]);
        Perform(es[|es|-1]);
      }
      ReachableIsOneAtATime(Now());
      if Quiescent(Now()) {
        QuietHoldsLastCalls(Now());
      }
    }
  }

  ghost predicate CanRun(s: State, es: seq<Event>) {
    es == [] || (CanRun(s, es[..|es|-1]) && Enabled(Run(s, es[..|es|-1]), es[|es|-1]))
  }

  ghost predicate OneAtATime(s: State) {
    && |s.stages| == |s.writes|
    && forall w, v :: 0 <= w < v < |s.writes| && s.writes[w].path == s.writes[v].path ==> s.stages[w].Settled?
  }

  ghost predicate HoldsLastCalls(s: State) {
    && s.currentWrites == map[] && s.nextWrites == map[]
    && |s.origin| == |s.writes| == |s.stages|
    && forall k :: 0 <= k < |s.calls| && NoCallBetween(s.calls, s.calls[k].path, k + 1, |s.calls|) ==>
        LastCallCarried(s, k)
  }

  lemma ReachableIsOneAtATime(s: State)
    requires Reachable(s)
    ensures OneAtATime(s)
  {
    OneOperationPerPath(s);
  }

  lemma QuietHoldsLastCalls(s: State)
    requires Reachable(s) && Quiescent(s)
    ensures HoldsLastCalls(s)
  {
    QuiescentHoldsLastCalls(s);
  }

  lemma ReachableStep(s: State, e: Event)
    requires Reachable(s)
    ensures Reachable(Step(s, e))
  {
    var n: nat, files, es :| s == Run(Init(n, files), es);
    assert (es + [e])[..|es|] == es;
    assert Run(Init(n, files), es + [e]) == Step(s, e);
  }
}
