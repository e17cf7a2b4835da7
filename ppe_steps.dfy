/** What one attach call of `util/ppe.ts` does, in the two situations
    `ppe-scrape/run.ts` puts it in: the first `fromMust*` on a pipeline not
    yet started, and an `onlyThen*` after at least one stage. */
module PpeSteps {
  import opened Wrappers
  import opened Ppe
  import opened JsString

  // ---------------------------------------------------------------------
  // One call at a time

  /** `onlyThen*` is the private attach with the previous stage as dependency. */
  lemma OnlyThenIsAttach<R>(ps: PipeState<R>, skel: Skeleton<R>, flavor: Flavor)
    requires ps.stages != [] && ps.stages[|ps.stages| - 1].idx == |ps.stages| - 1
    ensures var prev := ps.stages[|ps.stages| - 1];
      OnlyThenResult(ps, skel, flavor) == AttachResult(ps, skel, SetDependency(DependsOn(prev.name, |ps.stages| - 1)), flavor)
  {
  }

  /** With the dependency set to an existing stage, the filter only gates:
      the stage is skipped when that one did not succeed. */
  lemma FilterDependent<R>(ps: PipeState<R>, u0: Unassigned<R>, d: nat)
    requires d < |ps.stages|
    ensures var dep := ps.stages[d];
      var u := u0.(dependency := DependsOn(dep.name, d));
      FilterResult(ps, u0, SetDependency(DependsOn(dep.name, d)))
      == Success(if dep.state.Status() != StSuccess
                 then u.(state := SkippedState(SkipReason(u0.name, dep.name, dep.state.Status()), map[]))
                 else u)
  {
    var dep := ps.stages[d];
    var u := u0.(dependency := DependsOn(dep.name, d));
    assert Repoint(ps, u) == Success(u);
  }

  /** Once filtered, an attach whose push succeeds appends the executed stage. */
  lemma AttachPushes<R>(ps: PipeState<R>, skel: Skeleton<R>, ov: Overwrite, flavor: Flavor)
    requires FilterResult(ps, skel.unassigned, ov).Success?
    requires ps.isFromInvoked && !NameTaken(ps, skel.unassigned.name)
    ensures var u2 := ExecuteResult(ps, FilterResult(ps, skel.unassigned, ov).value, skel.handler, flavor).0;
      var out := AttachResult(ps, skel, ov, flavor);
      out.error.None? && out.ps.name == ps.name && out.ps.isFromInvoked
      && out.ps.stages == ps.stages + [Assign(u2, |ps.stages|)]
      && out.ps.idxMap == ps.idxMap[skel.unassigned.name := |ps.stages|]
  {
    var u := FilterResult(ps, skel.unassigned, ov).value;
    FilterKeepsName(ps, skel.unassigned, ov);
    ExecuteKeeps(ps, u, skel.handler, flavor);
    PushShape(ps, ExecuteResult(ps, u, skel.handler, flavor).0);
  }

  /** `onlyThen*` after a stage that did not succeed appends a skipped stage
      whose reason names that stage, without running the handler. */
  lemma OnlyThenGated<R>(ps: PipeState<R>, skel: Skeleton<R>, flavor: Flavor)
    requires ps.isFromInvoked && ps.stages != [] && ps.stages[|ps.stages| - 1].idx == |ps.stages| - 1
    requires !NameTaken(ps, skel.unassigned.name)
    requires ps.stages[|ps.stages| - 1].state.Status() != StSuccess
    ensures var out := OnlyThenResult(ps, skel, flavor);
      var n := |ps.stages|;
      var prev := ps.stages[n - 1];
      var u := skel.unassigned;
      out.error.None? && out.ps.name == ps.name && out.ps.isFromInvoked
      && out.ps.idxMap == ps.idxMap[u.name := n]
      && out.ps.stages == ps.stages + [Stage(n, u.name, u.desc, u.isMust, DependsOn(prev.name, n - 1),
                                             SkippedState(SkipReason(u.name, prev.name, prev.state.Status()), map[]))]
  {
    var n := |ps.stages|;
    var prev := ps.stages[n - 1];
    OnlyThenIsAttach(ps, skel, flavor);
    FilterDependent(ps, skel.unassigned, n - 1);
    AttachPushes(ps, skel, SetDependency(DependsOn(prev.name, n - 1)), flavor);
  }

  /** `onlyThen*` after a successful stage runs the handler on the current
      state and appends what it returned, or a failed stage for a throw. */
  lemma OnlyThenRuns<R>(ps: PipeState<R>, skel: Skeleton<R>, flavor: Flavor)
    requires ps.isFromInvoked && ps.stages != [] && ps.stages[|ps.stages| - 1].idx == |ps.stages| - 1
    requires !NameTaken(ps, skel.unassigned.name)
    requires ps.stages[|ps.stages| - 1].state.Status() == StSuccess
    ensures var out := OnlyThenResult(ps, skel, flavor);
      var n := |ps.stages|;
      var prev := ps.stages[n - 1];
      var u := skel.unassigned.(dependency := DependsOn(prev.name, n - 1));
      out.error.None? && out.ps.name == ps.name && out.ps.isFromInvoked
      && out.ps.idxMap == ps.idxMap[u.name := n]
      && out.ps.stages == ps.stages + [Assign(ExecuteResult(ps, u, skel.handler, flavor).0, n)]
  {
    var n := |ps.stages|;
    var prev := ps.stages[n - 1];
    var ov := SetDependency(DependsOn(prev.name, n - 1));
    OnlyThenIsAttach(ps, skel, flavor);
    FilterDependent(ps, skel.unassigned, n - 1);
    assert FilterResult(ps, skel.unassigned, ov) == Success(skel.unassigned.(dependency := DependsOn(prev.name, n - 1)));
    AttachPushes(ps, skel, ov, flavor);
  }

  /** `onlyThen*` with a fresh name after at least one stage appends one
      stage depending on the last, whatever that one's state. */
  lemma OnlyThenAppends<R>(ps: PipeState<R>, skel: Skeleton<R>, flavor: Flavor)
    requires ps.isFromInvoked && ps.stages != [] && ps.stages[|ps.stages| - 1].idx == |ps.stages| - 1
    requires !NameTaken(ps, skel.unassigned.name)
    ensures var out := OnlyThenResult(ps, skel, flavor);
      var n := |ps.stages|;
      var prev := ps.stages[n - 1];
      var u := skel.unassigned.(dependency := DependsOn(prev.name, n - 1));
      out.error.None? && out.ps.name == ps.name && out.ps.isFromInvoked
      && |out.ps.stages| == n + 1 && out.ps.stages[..n] == ps.stages
      && out.ps.stages[n].name == u.name && out.ps.stages[n].isMust == u.isMust
      && out.ps.stages[n].dependency == u.dependency
      && (prev.state.SuccessState? ==> out.ps.stages[n] == Assign(ExecuteResult(ps, u, skel.handler, flavor).0, n))
      && (!prev.state.SuccessState? ==> out.ps.stages[n].state.SkippedState?)
  {
    var n := |ps.stages|;
    var prev := ps.stages[n - 1];
    var u := skel.unassigned.(dependency := DependsOn(prev.name, n - 1));
    if prev.state.SuccessState? {
      OnlyThenRuns(ps, skel, flavor);
      ExecuteKeeps(ps, u, skel.handler, flavor);
    } else {
      OnlyThenGated(ps, skel, flavor);
    }
  }

  /** The first `fromMust*` on a pipeline not yet started appends stage 0, a
      must stage with no dependency, carrying what its handler produced. */
  lemma FromFresh<R>(ps: PipeState<R>, skel: Skeleton<R>)
    requires ValidState(ps) && !ps.isFromInvoked
    requires skel.unassigned.name !in ObjectPrototypeKeys && skel.unassigned.dependency.Independent?
    ensures var out := FromResult(ps, skel, true, Async);
      var u := skel.unassigned.(isMust := true);
      out.error.None? && out.ps.name == ps.name && out.ps.isFromInvoked
      && out.ps.idxMap == map[u.name := 0]
      && out.ps.stages == [Assign(ExecuteResult(ps.(isFromInvoked := true), u, skel.handler, Async).0, 0)]
  {
    var ps1 := ps.(isFromInvoked := true);
    var u := skel.unassigned.(isMust := true);
    assert Repoint(ps1, u) == Success(u);
    assert FilterResult(ps1, skel.unassigned, MakeMust) == Success(u);
    AttachPushes(ps1, skel, MakeMust, Async);
  }

  /** A name no stage carries is not in a valid `idxMap`. */
  lemma NameFree<R>(ps: PipeState<R>, n: string)
    requires NamesIndexed(ps.stages, ps.idxMap)
    requires forall i :: 0 <= i < |ps.stages| ==> ps.stages[i].name != n
    ensures n !in ps.idxMap
  {
  }

  /** In stages that each wait for the one before, once a stage has not
      succeeded every later one is skipped. */
  lemma {:induction false} SkipsPropagate<R>(stages: seq<Stage<R>>, j: nat, i: nat)
    requires Gated(stages)
    requires forall k :: 1 <= k < |stages| ==> stages[k].dependency.DependsOn? && stages[k].dependency.dependsOnIdx == k - 1
    requires j < i < |stages| && !stages[j].state.SuccessState?
    ensures stages[i].state.SkippedState?
    decreases i
  {
    if i > j + 1 {
      SkipsPropagate(stages, j, i - 1);
    }
  }
}
