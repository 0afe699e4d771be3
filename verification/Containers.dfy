/**
 Label-scoped container cleanup.  The runtime answers honestly or not at all; between any two calls
 containers may vanish on their own, and other jobs may start new ones.  Container identifiers are
 never reused and labels never change, so labels are a function of the identifier.
 */
module Containers {
  import opened Results

  datatype Labels = Labels(managed: Option<string>, job: Option<string>, stage: Option<string>)

  predicate OwnedBy(l: Labels, run: string) {
    l.managed == Some("true") && l.job == Some(run)
  }

  class Runtime {
    const labels: string -> Labels
    var live: set<string>
    ghost var removed: set<string>  // what `rm -f` took away
    ghost var troubles: nat         // how many calls failed to answer, or to do what they were asked

    constructor (labels: string -> Labels, live: set<string>)
      ensures this.labels == labels && this.live == live && removed == {} && troubles == 0
    {
      this.labels, this.live, removed, troubles := labels, live, {}, 0;
    }

    /** Time passes: no container of the finished `run` can appear any more. */
    method Elapse(run: string)
      modifies this`live
      ensures forall id :: id in live && OwnedBy(labels(id), run) ==> id in old(live)
    {
      var next: set<string> := *;
      if forall id :: id in next && OwnedBy(labels(id), run) ==> id in live {
        live := next;
      }
    }

    /** `ps -aq` filtered by both labels: none on any failure, else exactly what is live. */
    method List(run: string) returns (ids: Option<seq<string>>)
      modifies this`live, this`troubles
      ensures troubles == old(troubles) + if ids.None? then 1 else 0
      ensures forall id :: id in live && OwnedBy(labels(id), run) ==> id in old(live)
      ensures ids.Some? ==> forall id :: id in ids.value <==> id in live && OwnedBy(labels(id), run)
    {
      Elapse(run);
      var answer: seq<string> := *;
      if (forall id :: id in answer ==> id in live && OwnedBy(labels(id), run))
         && (forall id :: id in live ==> OwnedBy(labels(id), run) ==> id in answer) {
        ids := Some(answer);
      } else {
        ids, troubles := None, troubles + 1;
      }
    }

    /** `inspect`: none on any failure, which includes that the container is gone. */
    method Inspect(run: string, id: string) returns (l: Option<Labels>)
      modifies this`live, this`troubles
      ensures troubles == old(troubles) + if l.None? then 1 else 0
      ensures forall i :: i in live && OwnedBy(labels(i), run) ==> i in old(live)
      ensures l.Some? ==> id in live && l.value == labels(id)
    {
      Elapse(run);
      var fails: bool := *;
      l := if fails || id !in live then None else Some(labels(id));
      troubles := troubles + if l.None? then 1 else 0;
    }

    /** `rm -f`: success means gone; failure may have removed the container all the same. */
    method Remove(run: string, id: string) returns (ok: bool)
      modifies this
      ensures troubles == old(troubles) + if ok then 0 else 1
      ensures forall i :: i in live && OwnedBy(labels(i), run) ==> i in old(live)
      ensures ok ==> id !in live
      ensures old(removed) <= removed <= old(removed) + {id}
    {
      Elapse(run);
      var done: bool := *;
      var reported: bool := *;
      if done && id in live {
        live := live - {id};
        removed := removed + {id};
      }
      ok := reported && id !in live;
      troubles := troubles + if ok then 0 else 1;
    }
  }

  class AgentRunner {
    const runtime: Runtime

    constructor (runtime: Runtime)
      ensures this.runtime == runtime
    {
      this.runtime := runtime;
    }

    /** `_remove_container`: true means that no container of this run and stage is left. */
    method RemoveContainer(run: string, stage: string) returns (ok: bool)
      modifies runtime
      ensures forall id :: id in runtime.live && OwnedBy(runtime.labels(id), run) ==> id in old(runtime.live)
      ensures ok ==> forall id :: id in runtime.live && OwnedBy(runtime.labels(id), run) ==>
                runtime.labels(id).stage != Some(stage)
      ensures forall id :: id in runtime.removed - old(runtime.removed) ==>
                OwnedBy(runtime.labels(id), run) && runtime.labels(id).stage == Some(stage)
      ensures old(runtime.removed) <= runtime.removed
      ensures if ok then runtime.troubles == old(runtime.troubles) else runtime.troubles > old(runtime.troubles)
    {
      var identifiers := runtime.List(run);
      if identifiers.None? {
        return false;
      }
      var matching: seq<string> := [];
      for i := 0 to |identifiers.value|
        invariant forall id :: id in runtime.live && OwnedBy(runtime.labels(id), run) ==> id in old(runtime.live)
        invariant runtime.removed == old(runtime.removed) && runtime.troubles == old(runtime.troubles)
        invariant forall id :: id in runtime.live && OwnedBy(runtime.labels(id), run) ==> id in identifiers.value
        invariant forall k :: 0 <= k < i && runtime.labels(identifiers.value[k]).stage == Some(stage) ==>
          identifiers.value[k] in matching
        invariant forall id :: id in matching ==>
          OwnedBy(runtime.labels(id), run) && runtime.labels(id).stage == Some(stage)
      {
        var labels := runtime.Inspect(run, identifiers.value[i]);
        if labels.None? || !OwnedBy(labels.value, run) {
          return false;
        }
        if labels.value.stage == Some(stage) {
          matching := matching + [identifiers.value[i]];
        }
      }
      for i := 0 to |matching|
        invariant runtime.troubles == old(runtime.troubles) && forall k :: 0 <= k < i ==> matching[k] !in runtime.live
        invariant forall id :: id in runtime.live && OwnedBy(runtime.labels(id), run) ==> id in identifiers.value
        invariant forall id :: id in runtime.live && OwnedBy(runtime.labels(id), run) ==> id in old(runtime.live)
        invariant old(runtime.removed) <= runtime.removed
        invariant forall id :: id in runtime.removed - old(runtime.removed) ==>
          OwnedBy(runtime.labels(id), run) && runtime.labels(id).stage == Some(stage)
      {
        var gone := runtime.Remove(run, matching[i]);
        if !gone {
          return false;
        }
      }
      assert forall id :: id in runtime.live && OwnedBy(runtime.labels(id), run) ==>
        runtime.labels(id).stage != Some(stage);
      var remaining := runtime.List(run);
      if remaining.None? {
        return false;
      }
      for i := 0 to |remaining.value|
        invariant runtime.troubles == old(runtime.troubles)
        invariant forall id :: id in runtime.live && OwnedBy(runtime.labels(id), run) ==>
          runtime.labels(id).stage != Some(stage)
        invariant forall id :: id in runtime.live && OwnedBy(runtime.labels(id), run) ==> id in old(runtime.live)
        invariant old(runtime.removed) <= runtime.removed
        invariant forall id :: id in runtime.removed - old(runtime.removed) ==>
          OwnedBy(runtime.labels(id), run) && runtime.labels(id).stage == Some(stage)
        invariant forall id :: id in runtime.live && OwnedBy(runtime.labels(id), run) ==> id in remaining.value
        invariant forall k :: 0 <= k < i ==> runtime.labels(remaining.value[k]).stage != Some(stage)
      {
        var labels := runtime.Inspect(run, remaining.value[i]);
        if labels.None? || labels.value.stage == Some(stage) {
          return false;
        }
      }
      ok := true;
    }

    /** A container of the run without a stage label, which stops the cleanup. */
    predicate Unstaged(id: string, run: string) {
      OwnedBy(runtime.labels(id), run) && runtime.labels(id).stage in {None, Some("")}
    }

    /**
     `cleanup_job`: true proves that no container of the finished run is left, and only containers
     that carry the run's exact labels were removed on the way, whatever the answer.
     */
    method CleanupJob(run: string) returns (ok: bool)
      modifies runtime
      ensures forall id :: id in runtime.live && OwnedBy(runtime.labels(id), run) ==> id in old(runtime.live)
      ensures ok ==> forall id :: id in runtime.live ==> !OwnedBy(runtime.labels(id), run)
      ensures forall id :: id in runtime.removed - old(runtime.removed) ==> OwnedBy(runtime.labels(id), run)
      ensures old(runtime.removed) <= runtime.removed
      ensures runtime.troubles >= old(runtime.troubles)
      ensures !ok ==>
          runtime.troubles > old(runtime.troubles) || exists id :: id in old(runtime.live) && Unstaged(id, run)
    {
      var identifiers := runtime.List(run);
      if identifiers.None? {
        return false;
      }
      var stages: set<string> := {};
      for i := 0 to |identifiers.value|
        invariant runtime.removed == old(runtime.removed) && runtime.troubles == old(runtime.troubles)
        invariant forall id :: id in identifiers.value ==> id in old(runtime.live)
        invariant forall id :: id in runtime.live && OwnedBy(runtime.labels(id), run) ==>
          id in old(runtime.live) && id in identifiers.value
        invariant forall k :: 0 <= k < i ==>
          runtime.labels(identifiers.value[k]).stage.Some? && runtime.labels(identifiers.value[k]).stage.value in stages
      {
        var labels := runtime.Inspect(run, identifiers.value[i]);
        if labels.None? || !OwnedBy(labels.value, run) || labels.value.stage.None? || labels.value.stage.value == "" {
          assert labels.Some? && OwnedBy(labels.value, run) ==> Unstaged(identifiers.value[i], run);
          return false;
        }
        stages := stages + {labels.value.stage.value};
      }
      while stages != {}
        invariant runtime.troubles == old(runtime.troubles)
        invariant old(runtime.removed) <= runtime.removed
        invariant forall id :: id in runtime.live && OwnedBy(runtime.labels(id), run) ==>
          id in old(runtime.live) && runtime.labels(id).stage.Some? && runtime.labels(id).stage.value in stages
        invariant forall id :: id in runtime.removed - old(runtime.removed) ==> OwnedBy(runtime.labels(id), run)
        decreases stages
      {
        var stage :| stage in stages;
        var gone := RemoveContainer(run, stage);
        if !gone {
          return false;
        }
        stages := stages - {stage};
      }
      ok := true;
    }

    /** `cleanup_job` where its exceptions are caught: a raise is an answer that did not come. */
    method TryCleanupJob(run: string) returns (ok: bool)
      modifies runtime
      ensures forall id :: id in runtime.live && OwnedBy(runtime.labels(id), run) ==> id in old(runtime.live)
      ensures ok ==> forall id :: id in runtime.live ==> !OwnedBy(runtime.labels(id), run)
      ensures forall id :: id in runtime.removed - old(runtime.removed) ==> OwnedBy(runtime.labels(id), run)
      ensures old(runtime.removed) <= runtime.removed
      ensures !ok ==>
          runtime.troubles > old(runtime.troubles) || exists id :: id in old(runtime.live) && Unstaged(id, run)
    {
      ok := CleanupJob(run);
      var raises: bool := *;
      if raises {
        ok := false;
        runtime.troubles := runtime.troubles + 1;
      }
    }
  }
}
