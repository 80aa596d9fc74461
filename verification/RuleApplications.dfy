/** The rule application as an object, each method proved against the functions in `RuleApplication`. */
module RuleApplications {
  import opened Common
  import A = RuleApplication

  class RuleApplication {
    const name: string
    const maxIterationCount: nat
    var isDestroyed: bool
    var runScheduled: bool
    var recordsData: map<string, A.Entry>
    var iterations: nat
    /** Runs handed to the event loop, and loads under way. */
    var ticks: nat
    var loads: multiset<string>
    var trace: A.History

    constructor (name: string, maxIterationCount: nat, first: A.Behaviour)
      ensures Model() == A.Create(name, maxIterationCount, first)
    {
      this.name, this.maxIterationCount := name, maxIterationCount;
      isDestroyed, runScheduled, recordsData, iterations := false, false, map[], 0;
      ticks, loads, trace := 0, multiset{}, A.Start;
      new;
      Run(first);
    }

    function Model(): A.State
      reads this
    {
      A.State(name, maxIterationCount, isDestroyed, runScheduled, recordsData, iterations, ticks, loads, trace)
    }

    method Note(e: A.Trace)
      modifies this`trace
      ensures trace == A.After(old(trace), e)
    {
      trace := A.After(trace, e);
    }

    /** A scheduled run is due. */
    method Tick(b: A.Behaviour)
      requires ticks > 0
      modifies this
      ensures Model() == A.Step(old(Model()), A.Tick(b))
    {
      ticks := ticks - 1;
      Run(b);
    }

    method LoadEnds(recordName: string, result: A.LoadResult)
      requires recordName in loads
      modifies this
      ensures Model() == A.Step(old(Model()), A.LoadEnds(recordName, result))
    {
      loads := loads - multiset{recordName};
      Finish(recordName, result);
    }

    method Run(b: A.Behaviour)
      modifies this
      ensures Model() == A.Run(old(Model()), b)
    {
      runScheduled := false;
      iterations := iterations + 1;
      if isDestroyed {
        return;
      }
      if iterations > maxIterationCount {
        OnRuleError();
        return;
      }
      Note(A.Started);
      assert Model() == A.Begin(old(Model()));
      DoAll(b.acts);
      Conclude(b.outcome);
    }

    method DoAll(acts: seq<A.Act>)
      modifies this
      ensures Model() == A.DoAll(old(Model()), acts)
    {
      var i := 0;
      while i < |acts|
        invariant 0 <= i <= |acts|
        invariant Model() == A.DoAll(old(Model()), acts[..i])
      {
        assert acts[..i + 1][..i] == acts[..i];
        Do(acts[i]);
        i := i + 1;
      }
      assert acts[..i] == acts;
    }

    method Conclude(outcome: A.Outcome)
      modifies this
      ensures Model() == A.Conclude(old(Model()), outcome)
    {
      var ready := IsReady();
      if !ready {
        return;
      }
      match outcome {
        case Throws => OnRuleError();
        case Returns(allowed) =>
          Note(A.Answered(A.Verdict(allowed)));
          Destroy();
      }
    }

    method Do(act: A.Act)
      modifies this
      ensures Model() == A.Do(old(Model()), act)
    {
      match act {
        case Refer(recordName, sync) => Look(recordName, sync);
        case BadReference => OnRuleError();
        case OldData(sync) =>
          if !isDestroyed {
            Look(name, sync);
          }
        case PatchedData(sync) =>
          if name in recordsData && recordsData[name] == A.Loaded(Null) {
            OnRuleError();
          } else {
            Look(name, sync);
          }
        case ParseError => OnRuleError();
      }
    }

    method Look(recordName: string, sync: Option<A.LoadResult>)
      modifies this
      ensures Model() == A.Look(old(Model()), recordName, sync)
    {
      if recordName in recordsData && recordsData[recordName].Loaded? {
        Note(A.Saw(recordName, Some(recordsData[recordName].data)));
      } else {
        LoadRecord(recordName, sync);
        Note(A.Saw(recordName, None));
      }
    }

    method LoadRecord(recordName: string, sync: Option<A.LoadResult>)
      modifies this
      ensures Model() == A.LoadRecord(old(Model()), recordName, sync)
    {
      if recordName in recordsData {
        match recordsData[recordName] {
          case Loading => return;
          case Loaded(data) =>
            OnLoadComplete(recordName, data);
            return;
        }
      }
      recordsData := recordsData[recordName := A.Loading];
      match sync {
        case None => loads := loads + multiset{recordName};
        case Some(result) => Finish(recordName, result);
      }
    }

    method Finish(recordName: string, result: A.LoadResult)
      modifies this
      ensures Model() == A.Finish(old(Model()), recordName, result)
    {
      match result {
        case Success(data) => OnLoadComplete(recordName, data);
        case Failure => OnLoadError();
      }
    }

    method OnLoadComplete(recordName: string, data: Json)
      modifies this
      ensures Model() == A.OnLoadComplete(old(Model()), recordName, data)
    {
      recordsData := recordsData[recordName := A.Loaded(data)];
      Note(A.Arrived(recordName, data));
      var ready := IsReady();
      if ready {
        runScheduled := true;
        ticks := ticks + 1;
      }
    }

    method OnLoadError()
      modifies this
      ensures Model() == A.OnLoadError(old(Model()))
    {
      Note(A.Answered(A.LoadError));
      Destroy();
    }

    method OnRuleError()
      modifies this
      ensures Model() == A.OnRuleError(old(Model()))
    {
      if isDestroyed {
        return;
      }
      Note(A.Answered(A.RuleError));
      Destroy();
    }

    method Destroy()
      modifies this
      ensures Model() == A.Destroy(old(Model()))
    {
      isDestroyed := true;
      runScheduled := false;
      recordsData := map[];
    }

    /** No load is under way, and no run is scheduled. */
    method IsReady() returns (r: bool)
      ensures r == A.Ready(Model())
    {
      var isLoading := false;
      var keys := recordsData.Keys;
      while keys != {} && !isLoading
        invariant keys <= recordsData.Keys
        invariant isLoading <==> exists k :: k in recordsData.Keys - keys && recordsData[k] == A.Loading
        decreases |keys|, !isLoading
      {
        var k :| k in keys;
        keys := keys - {k};
        isLoading := recordsData[k] == A.Loading;
      }
      return !isLoading && !runScheduled;
    }
  }
}
