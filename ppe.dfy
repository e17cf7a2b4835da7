/** `util/ppe.ts`: the staged pipeline engine. A pipeline is started once by
    `fromStage`, grows by `thenStage`/`thenMustStage`/`onlyThenStage`, and each
    new stage is filtered (re-pointed to the latest must stage, skipped when
    the stage it depends on did not succeed), executed when still unset, and
    pushed with the next index. The engine state is the `PipeState` value;
    `Pipeline` is the class whose fields the source updates in place. */
module Ppe {
  import opened Wrappers
  import opened JsString

  datatype Status = StUnset | StSuccess | StFailed | StSkipped

  function StatusText(s: Status): string {
    match s
    case StUnset => "unset"
    case StSuccess => "success"
    case StFailed => "failed"
    case StSkipped => "skipped"
  }

  /** A metadata value: `string | number | boolean` (numbers are integers here). */
  datatype MetaValue = MStr(s: string) | MNum(n: int) | MBool(b: bool)

  type Metadata = map<string, MetaValue>

  datatype State<R> =
    | UnsetState(reason: string, metadata: Metadata)
    | SuccessState(response: R, metadata: Metadata)
    | FailedState(reason: string, error: Error, metadata: Metadata)
    | SkippedState(reason: string, metadata: Metadata)
  {
    function Status(): Status {
      match this
      case UnsetState(_, _) => StUnset
      case SuccessState(_, _) => StSuccess
      case FailedState(_, _, _) => StFailed
      case SkippedState(_, _) => StSkipped
    }
  }

  datatype Dependency = Independent | DependsOn(dependsOn: string, dependsOnIdx: int)

  /** `Omit<Stage<T>, 'idx'>`: a stage before the pipeline gives it an index. */
  datatype Unassigned<R> = Unassigned(name: string, desc: string, isMust: bool, dependency: Dependency, state: State<R>)

  datatype Stage<R> = Stage(idx: nat, name: string, desc: string, isMust: bool, dependency: Dependency, state: State<R>)

  /** What a stage handler does: return a state or throw. */
  datatype HandlerResult<R> = Returns(state: State<R>) | Throws(thrown: Thrown)

  datatype Stats = Stats(success: seq<nat>, failed: seq<nat>, skipped: seq<nat>, unset: seq<nat>)

  /** The pipeline's private fields, as one value. Handlers receive it: it is
      what the `useTools` accessors read. */
  datatype PipeState<R> = PipeState(
    name: string,
    desc: string,
    stages: seq<Stage<R>>,
    idxMap: map<string, nat>,
    mustStageIds: seq<nat>,
    isFromInvoked: bool,
    stats: Stats)

  /** `StageSkeleton<T>`: the stage to add and its handler. */
  datatype Skeleton<!R> = Skeleton(unassigned: Unassigned<R>, handler: PipeState<R> -> HandlerResult<R>)

  /** The `overwrites` argument of the private `ThenStage`/`FromStage`. */
  datatype Overwrite = NoOverwrite | MakeMust | SetDependency(dependency: Dependency)

  /** Which of the twin sync/async methods was called: they differ only in
      their error messages. */
  datatype Flavor = Sync | Async

  /** `stageNameOrIdx`. */
  datatype Key = ByName(stageName: string) | ByIdx(i: int)

  /** The new pipeline state, what was thrown (if anything) and whether the
      stage's handler ran. */
  datatype Outcome<R> = Outcome(ps: PipeState<R>, error: Option<Error>, invoked: bool)

  datatype FinishStats = FinishStats(
    totalStages: nat,
    totalMustStages: nat,
    completeSuccess: bool,
    success: nat,
    failed: nat,
    skipped: nat,
    unset: nat)

  /** `new Error(message)`. */
  function Err(message: string): Error {
    Error("Error", message)
  }

  const FirstStageMessage: string :=
    "Pipeline's first stage must only be defined by either 'fromStage' or 'fromAsyncStage'. It seems like a different method was used to define first stage"

  function KeyText(key: Key): string {
    match key
    case ByName(n) => n
    case ByIdx(i) => IntToString(i)
  }

  function NoStageMessage(pipeName: string, key: Key): string {
    "Pipeline:" + pipeName + " not yet have stage with stageNameOrIdx equals " + KeyText(key)
  }

  function NotSuccessMessage(key: Key, status: Status): string {
    "Expected status of stageNameOrIdx:" + KeyText(key) + " to be 'success' but found " + StatusText(status)
  }

  function DuplicateMessage(stageName: string): string {
    "Each Pipeline's stageName should be unique but found duplicate of '" + stageName + "'"
  }

  function SkipReason(stageName: string, depName: string, status: Status): string {
    stageName + " was skipped (not executed) because the stage it depends on, named '" + depName
    + "' is not successful and set to '" + StatusText(status) + "'"
  }

  function ThrowReason(flavor: Flavor, stageName: string): string {
    match flavor
    case Sync => "Expected Stage<T> but " + stageName + "'s handler threw an error."
    case Async => "Expected " + stageName + "['state'] but " + stageName + "'s handler threw an error."
  }

  function FromTwiceMessage(flavor: Flavor): string {
    match flavor
    case Sync => "Pipeline's 'fromStage'/'fromMustStage'/'fromAsyncStage'/'fromMustAsyncStage' method must only be used once."
    case Async => "Pipeline's 'fromAsyncStage'/'fromMustAsyncStage'/'fromStage'/'fromMustStage' method must only be used once."
  }

  function UnassignedReason(stageName: string, pipeName: string): string {
    "Stage named " + stageName + " is not yet been assigned in pipeline named " + pipeName
  }

  // ---------------------------------------------------------------------
  // Lookup

  /** The index `getStage` tries: a name goes through `idxMap` (`?? -1`). */
  function KeyIndex<R>(ps: PipeState<R>, key: Key): int {
    match key
    case ByName(n) => if n in ps.idxMap then ps.idxMap[n] else -1
    case ByIdx(i) => i
  }

  /** `getStage`. */
  function StageAt<R>(ps: PipeState<R>, key: Key): Result<Stage<R>, Error> {
    var idx := KeyIndex(ps, key);
    if 0 <= idx < |ps.stages| then Success(ps.stages[idx]) else Failure(Err(NoStageMessage(ps.name, key)))
  }

  /** `getStageState`. */
  function StateAt<R>(ps: PipeState<R>, key: Key): Result<State<R>, Error> {
    match StageAt(ps, key)
    case Success(s) => Success(s.state)
    case Failure(e) => Failure(e)
  }

  /** `getStageStateIfSuccessElseThrowError`. */
  function SuccessStateAt<R>(ps: PipeState<R>, key: Key): Result<State<R>, Error> {
    match StateAt(ps, key)
    case Success(st) => if st.Status() != StSuccess then Failure(Err(NotSuccessMessage(key, st.Status()))) else Success(st)
    case Failure(e) => Failure(e)
  }

  /** `getPrevStageState` of `useTools`. */
  function PrevStageState<R>(ps: PipeState<R>): Result<State<R>, Error> {
    StateAt(ps, ByIdx(|ps.stages| - 1))
  }

  // ---------------------------------------------------------------------
  // Specification of the state-changing steps

  function AddToStats(st: Stats, s: Status, idx: nat): Stats {
    match s
    case StSuccess => st.(success := st.success + [idx])
    case StFailed => st.(failed := st.failed + [idx])
    case StSkipped => st.(skipped := st.skipped + [idx])
    case StUnset => st.(unset := st.unset + [idx])
  }

  function Assign<R>(u: Unassigned<R>, idx: nat): Stage<R> {
    Stage(idx, u.name, u.desc, u.isMust, u.dependency, u.state)
  }

  predicate NameTaken<R>(ps: PipeState<R>, stageName: string) {
    stageName in ps.idxMap || stageName in ObjectPrototypeKeys
  }

  /** `pushStageWithIdx`. */
  function PushResult<R>(ps: PipeState<R>, u: Unassigned<R>): Result<PipeState<R>, Error> {
    if !ps.isFromInvoked then Failure(Err(FirstStageMessage))
    else if NameTaken(ps, u.name) then Failure(Err(DuplicateMessage(u.name)))
    else
      var idx := |ps.stages|;
      Success(ps.(
        stages := ps.stages + [Assign(u, idx)],
        idxMap := ps.idxMap[u.name := idx],
        mustStageIds := if u.isMust then ps.mustStageIds + [idx] else ps.mustStageIds,
        stats := AddToStats(ps.stats, u.state.Status(), idx)))
  }

  function ApplyOverwrite<R>(u: Unassigned<R>, ov: Overwrite): Unassigned<R> {
    match ov
    case NoOverwrite => u
    case MakeMust => u.(isMust := true)
    case SetDependency(d) => u.(dependency := d)
  }

  /** The first half of `filterStageBeforeExec`: an independent stage is made
      to depend on the latest must stage, if there is one. */
  function Repoint<R>(ps: PipeState<R>, u: Unassigned<R>): Result<Unassigned<R>, Error> {
    var m := |ps.mustStageIds|;
    if u.dependency.Independent? && m > 0 then
      match StageAt(ps, ByIdx(ps.mustStageIds[m - 1]))
      case Success(s) => Success(u.(dependency := DependsOn(s.name, s.idx)))
      case Failure(e) => Failure(e)
    else Success(u)
  }

  /** The second half: a stage whose dependency did not succeed is skipped. */
  function Gate<R>(ps: PipeState<R>, u: Unassigned<R>): Result<Unassigned<R>, Error> {
    if u.dependency.DependsOn? then
      match StageAt(ps, ByIdx(u.dependency.dependsOnIdx))
      case Success(s) =>
        if s.state.Status() != StSuccess then
          Success(u.(state := SkippedState(SkipReason(u.name, s.name, s.state.Status()), map[])))
        else Success(u)
      case Failure(e) => Failure(e)
    else Success(u)
  }

  /** `filterStageBeforeExec`. */
  function FilterResult<R>(ps: PipeState<R>, u0: Unassigned<R>, ov: Overwrite): Result<Unassigned<R>, Error> {
    match Repoint(ps, ApplyOverwrite(u0, ov))
    case Success(u) => Gate(ps, u)
    case Failure(e) => Failure(e)
  }

  /** The `try` block of `ThenStage`: the handler runs only on an unset stage;
      a throw becomes a failed state. Also says whether the handler ran. */
  function ExecuteResult<R>(ps: PipeState<R>, u: Unassigned<R>, handler: PipeState<R> -> HandlerResult<R>, flavor: Flavor): (Unassigned<R>, bool) {
    if u.state.UnsetState? then
      match handler(ps)
      case Returns(st) => (u.(state := st), true)
      case Throws(t) =>
        var reason := ThrowReason(flavor, u.name);
        (u.(state := FailedState(reason, AsError(t, reason), map[])), true)
    else (u, false)
  }

  /** The private `ThenStage(skeleton, overwrites)`: filter, execute, push. */
  function AttachResult<R>(ps: PipeState<R>, skel: Skeleton<R>, ov: Overwrite, flavor: Flavor): Outcome<R> {
    match FilterResult(ps, skel.unassigned, ov)
    case Failure(e) => Outcome(ps, Some(e), false)
    case Success(u) =>
      var (u2, inv) := ExecuteResult(ps, u, skel.handler, flavor);
      match PushResult(ps, u2)
      case Failure(e) => Outcome(ps, Some(e), inv)
      case Success(ps2) => Outcome(ps2, None, inv)
  }

  function MustOverwrite(must: bool): Overwrite {
    if must then MakeMust else NoOverwrite
  }

  /** `fromStage` (`must` false) and `fromMustStage` (`must` true). */
  function FromResult<R>(ps: PipeState<R>, skel: Skeleton<R>, must: bool, flavor: Flavor): Outcome<R> {
    if ps.isFromInvoked then Outcome(ps, Some(Err(FromTwiceMessage(flavor))), false)
    else AttachResult(ps.(isFromInvoked := true), skel, MustOverwrite(must), flavor)
  }

  /** `thenStage` and `thenMustStage`. */
  function ThenResult<R>(ps: PipeState<R>, skel: Skeleton<R>, must: bool, flavor: Flavor): Outcome<R> {
    AttachResult(ps, skel, MustOverwrite(must), flavor)
  }

  /** `onlyThenStage`: the new stage depends on the previous one. */
  function OnlyThenResult<R>(ps: PipeState<R>, skel: Skeleton<R>, flavor: Flavor): Outcome<R> {
    var n := |ps.stages|;
    if n == 0 then Outcome(ps, Some(Err(FirstStageMessage)), false)
    else
      var prev := ps.stages[n - 1];
      AttachResult(ps, skel, SetDependency(DependsOn(prev.name, prev.idx)), flavor)
  }

  function FinishOf<R>(ps: PipeState<R>): FinishStats {
    FinishStats(
      |ps.stages|, |ps.mustStageIds|, |ps.stages| == |ps.stats.success|,
      |ps.stats.success|, |ps.stats.failed|, |ps.stats.skipped|, |ps.stats.unset|)
  }

  /** `createStage(name).whatDoesStageDo(desc).handledBy(handler)`. */
  function CreateStage<R>(pipeName: string, stageName: string, desc: string, handler: PipeState<R> -> HandlerResult<R>): Skeleton<R> {
    Skeleton(Unassigned(stageName, desc, false, Independent, UnsetState(UnassignedReason(stageName, pipeName), map[])), handler)
  }

  function EmptyPipe<R>(name: string, desc: string): PipeState<R> {
    PipeState(name, desc, [], map[], [], false, Stats([], [], [], []))
  }

  // ---------------------------------------------------------------------
  // The invariant

  function MustIndices<R>(stages: seq<Stage<R>>): seq<nat> {
    if stages == [] then []
    else
      var last := stages[|stages| - 1];
      MustIndices(stages[..|stages| - 1]) + (if last.isMust then [last.idx] else [])
  }

  function StatsOf<R>(stages: seq<Stage<R>>): Stats {
    if stages == [] then Stats([], [], [], [])
    else
      var last := stages[|stages| - 1];
      AddToStats(StatsOf(stages[..|stages| - 1]), last.state.Status(), last.idx)
  }

  ghost predicate IdsMatch<R>(stages: seq<Stage<R>>) {
    forall i :: 0 <= i < |stages| ==> stages[i].idx == i
  }

  /** `idxMap` maps each stage's name to its index, and nothing else. */
  ghost predicate NamesIndexed<R>(stages: seq<Stage<R>>, idxMap: map<string, nat>) {
    (forall i :: 0 <= i < |stages| ==> stages[i].name in idxMap && idxMap[stages[i].name] == i)
    && (forall n :: n in idxMap ==> idxMap[n] < |stages| && stages[idxMap[n]].name == n)
  }

  ghost predicate NoPrototypeNames<R>(stages: seq<Stage<R>>) {
    forall i :: 0 <= i < |stages| ==> stages[i].name !in ObjectPrototypeKeys
  }

  /** A stage depends on an earlier one, and is skipped when that one did not succeed. */
  ghost predicate Gated<R>(stages: seq<Stage<R>>) {
    forall i :: 0 <= i < |stages| && stages[i].dependency.DependsOn? ==>
      0 <= stages[i].dependency.dependsOnIdx < i
      && (stages[stages[i].dependency.dependsOnIdx].state.Status() != StSuccess ==> stages[i].state.SkippedState?)
  }

  /** Every stage after a must stage depends on some stage. */
  ghost predicate MustCovered<R>(stages: seq<Stage<R>>) {
    forall i, j :: 0 <= j < i < |stages| && stages[j].isMust ==> stages[i].dependency.DependsOn?
  }

  ghost predicate ValidState<R>(ps: PipeState<R>) {
    IdsMatch(ps.stages)
    && NamesIndexed(ps.stages, ps.idxMap)
    && NoPrototypeNames(ps.stages)
    && ps.mustStageIds == MustIndices(ps.stages)
    && ps.stats == StatsOf(ps.stages)
    && (!ps.isFromInvoked ==> ps.stages == [])
    && Gated(ps.stages)
    && MustCovered(ps.stages)
  }

  /** Once a must stage has not succeeded, every later stage is skipped. */
  ghost predicate MustBlocks<R>(stages: seq<Stage<R>>) {
    forall i, j :: 0 <= j < i < |stages| && stages[j].isMust && stages[j].state.Status() != StSuccess ==>
      stages[i].state.SkippedState?
  }

  // ---------------------------------------------------------------------
  // Lemmas: lookup

  lemma EmptyPipeValid<R>(name: string, desc: string)
    ensures ValidState(EmptyPipe<R>(name, desc)) && MustBlocks(EmptyPipe<R>(name, desc).stages)
  {
  }

  /** Looking a stage up by index succeeds exactly for the indices in use. */
  lemma StageAtIndex<R>(ps: PipeState<R>, i: int)
    requires ValidState(ps)
    ensures StageAt(ps, ByIdx(i)).Success? <==> 0 <= i < |ps.stages|
    ensures StageAt(ps, ByIdx(i)).Success? ==> StageAt(ps, ByIdx(i)).value.idx == i
    ensures StageAt(ps, ByIdx(i)).Failure? ==>
      StageAt(ps, ByIdx(i)).error.message == NoStageMessage(ps.name, ByIdx(i))
  {
  }

  /** Looking a stage up by name finds the stage of that name, and fails
      exactly when no stage has it. */
  lemma StageAtName<R>(ps: PipeState<R>, n: string)
    requires ValidState(ps)
    ensures forall i :: 0 <= i < |ps.stages| && ps.stages[i].name == n ==> StageAt(ps, ByName(n)) == Success(ps.stages[i])
    ensures StageAt(ps, ByName(n)).Success? ==> StageAt(ps, ByName(n)).value.name == n
    ensures (forall i :: 0 <= i < |ps.stages| ==> ps.stages[i].name != n) ==>
      StageAt(ps, ByName(n)) == Failure(Err(NoStageMessage(ps.name, ByName(n))))
  {
    if n in ps.idxMap {
      var k := ps.idxMap[n];
      assert ps.stages[k].name == n;
    }
  }

  /** The success-only lookup fails unless the stage exists and succeeded. */
  lemma SuccessStateAtFails<R>(ps: PipeState<R>, key: Key)
    ensures SuccessStateAt(ps, key).Success? <==>
      StageAt(ps, key).Success? && StageAt(ps, key).value.state.SuccessState?
    ensures SuccessStateAt(ps, key).Success? ==> SuccessStateAt(ps, key).value == StageAt(ps, key).value.state
    ensures StageAt(ps, key).Success? && !StageAt(ps, key).value.state.SuccessState? ==>
      SuccessStateAt(ps, key) == Failure(Err(NotSuccessMessage(key, StageAt(ps, key).value.state.Status())))
  {
  }

  /** The previous stage's state is there once any stage is. */
  lemma PrevStageStateIsLast<R>(ps: PipeState<R>)
    ensures PrevStageState(ps).Success? <==> ps.stages != []
    ensures ps.stages != [] ==> PrevStageState(ps).value == ps.stages[|ps.stages| - 1].state
  {
  }

  // ---------------------------------------------------------------------
  // Lemmas: the bookkeeping functions

  lemma {:induction false} MustIndicesFacts<R>(stages: seq<Stage<R>>)
    requires IdsMatch(stages)
    ensures forall k :: 0 <= k < |MustIndices(stages)| ==>
      MustIndices(stages)[k] < |stages| && stages[MustIndices(stages)[k]].isMust
    ensures MustIndices(stages) == [] ==> forall j :: 0 <= j < |stages| ==> !stages[j].isMust
    ensures MustIndices(stages) != [] ==>
      forall j :: 0 <= j < |stages| && stages[j].isMust ==> j <= MustIndices(stages)[|MustIndices(stages)| - 1]
    decreases |stages|
  {
    if stages != [] {
      var pre := stages[..|stages| - 1];
      assert forall i :: 0 <= i < |pre| ==> pre[i] == stages[i];
      MustIndicesFacts(pre);
    }
  }

  lemma MustIndicesPush<R>(stages: seq<Stage<R>>, st: Stage<R>)
    ensures MustIndices(stages + [st]) == MustIndices(stages) + (if st.isMust then [st.idx] else [])
  {
    assert (stages + [st])[..|stages|] == stages;
  }

  lemma StatsOfPush<R>(stages: seq<Stage<R>>, st: Stage<R>)
    ensures StatsOf(stages + [st]) == AddToStats(StatsOf(stages), st.state.Status(), st.idx)
  {
    assert (stages + [st])[..|stages|] == stages;
  }

  function StatsTotal(st: Stats): nat {
    |st.success| + |st.failed| + |st.skipped| + |st.unset|
  }

  /** The bucket `stats` keeps for a status. */
  function Bucket(st: Stats, s: Status): seq<nat> {
    match s
    case StSuccess => st.success
    case StFailed => st.failed
    case StSkipped => st.skipped
    case StUnset => st.unset
  }

  lemma BucketAdd(st: Stats, t: Status, idx: nat, s: Status)
    ensures Bucket(AddToStats(st, t, idx), s) == if s == t then Bucket(st, s) + [idx] else Bucket(st, s)
  {
  }

  /** Each index lies in the bucket of its stage's status and in no other,
      and the buckets hold nothing else. */
  lemma {:induction false} StatsOfBuckets<R>(stages: seq<Stage<R>>)
    requires IdsMatch(stages)
    ensures forall s: Status, i :: 0 <= i < |stages| ==> (i in Bucket(StatsOf(stages), s) <==> stages[i].state.Status() == s)
    ensures forall s: Status, x :: x in Bucket(StatsOf(stages), s) ==> x < |stages|
    decreases |stages|
  {
    if stages != [] {
      var pre := stages[..|stages| - 1];
      var last := stages[|stages| - 1];
      assert forall i :: 0 <= i < |pre| ==> pre[i] == stages[i];
      StatsOfBuckets(pre);
      forall s: Status
        ensures Bucket(StatsOf(stages), s) == if s == last.state.Status() then Bucket(StatsOf(pre), s) + [|pre|] else Bucket(StatsOf(pre), s)
      {
        BucketAdd(StatsOf(pre), last.state.Status(), last.idx, s);
      }
    }
  }

  /** Every stage is counted once, and the success bucket holds all stages
      exactly when all of them succeeded. */
  lemma {:induction false} StatsOfCounts<R>(stages: seq<Stage<R>>)
    ensures StatsTotal(StatsOf(stages)) == |stages|
    ensures |StatsOf(stages).success| <= |stages|
    ensures |StatsOf(stages).success| == |stages| <==> forall i :: 0 <= i < |stages| ==> stages[i].state.SuccessState?
    decreases |stages|
  {
    if stages != [] {
      var pre := stages[..|stages| - 1];
      assert forall i :: 0 <= i < |pre| ==> pre[i] == stages[i];
      StatsOfCounts(pre);
    }
  }

  /** `finish`: the four buckets add up to the number of stages, and a
      complete success means every stage succeeded. */
  lemma FinishCounts<R>(ps: PipeState<R>)
    requires ValidState(ps)
    ensures var f := FinishOf(ps);
      f.success + f.failed + f.skipped + f.unset == f.totalStages
      && (f.completeSuccess <==> forall i :: 0 <= i < |ps.stages| ==> ps.stages[i].state.SuccessState?)
      && f.totalMustStages == |MustIndices(ps.stages)|
  {
    StatsOfCounts(ps.stages);
  }

  // ---------------------------------------------------------------------
  // Lemmas: single steps

  /** A push appends the stage with the next index and registers its name. */
  lemma PushShape<R>(ps: PipeState<R>, u: Unassigned<R>)
    ensures PushResult(ps, u).Success? <==> ps.isFromInvoked && !NameTaken(ps, u.name)
    ensures PushResult(ps, u).Success? ==>
      var ps2 := PushResult(ps, u).value;
      ps2.stages == ps.stages + [Assign(u, |ps.stages|)]
      && ps2.idxMap == ps.idxMap[u.name := |ps.stages|]
      && ps2.name == ps.name && ps2.isFromInvoked
  {
  }

  /** The handler runs exactly on an unset stage; it changes only the state. */
  lemma ExecuteKeeps<R>(ps: PipeState<R>, u: Unassigned<R>, handler: PipeState<R> -> HandlerResult<R>, flavor: Flavor)
    ensures var (u2, inv) := ExecuteResult(ps, u, handler, flavor);
      inv == u.state.UnsetState?
      && u2.name == u.name && u2.desc == u.desc && u2.isMust == u.isMust && u2.dependency == u.dependency
      && (!inv ==> u2 == u)
  {
  }

  /** A handler that throws leaves the stage failed: the thrown `Error`, or a
      new one carrying the reason. */
  lemma ThrowBecomesFailed<R>(ps: PipeState<R>, u: Unassigned<R>, handler: PipeState<R> -> HandlerResult<R>, flavor: Flavor)
    requires u.state.UnsetState? && handler(ps).Throws?
    ensures var reason := ThrowReason(flavor, u.name);
      ExecuteResult(ps, u, handler, flavor).0.state == FailedState(reason, AsError(handler(ps).thrown, reason), map[])
      && (handler(ps).thrown.AnError? ==> ExecuteResult(ps, u, handler, flavor).0.state.error == handler(ps).thrown.error)
  {
  }

  /** The must-stage list is the indices of the must stages, in order: its
      last entry is the latest must stage. */
  ghost predicate MustListed<R>(ps: PipeState<R>) {
    IdsMatch(ps.stages) && ps.mustStageIds == MustIndices(ps.stages)
  }

  /** An independent stage is re-pointed to the latest must stage; nothing
      else changes, and re-pointing cannot fail. */
  lemma RepointFacts<R>(ps: PipeState<R>, v: Unassigned<R>)
    requires MustListed(ps)
    ensures Repoint(ps, v).Success?
    ensures var u := Repoint(ps, v).value;
      u.name == v.name && u.desc == v.desc && u.isMust == v.isMust && u.state == v.state
      && (ps.mustStageIds != [] ==> u.dependency.DependsOn?)
      && (v.dependency.Independent? && ps.mustStageIds != [] ==>
            u.dependency.dependsOnIdx == ps.mustStageIds[|ps.mustStageIds| - 1])
      && (v.dependency.DependsOn? || ps.mustStageIds == [] ==> u == v)
  {
    MustIndicesFacts(ps.stages);
  }

  /** The gate keeps everything but the state, lets a dependent stage through
      only when its dependency exists, and skips it when that one did not succeed. */
  lemma GateFacts<R>(ps: PipeState<R>, u: Unassigned<R>)
    requires Gate(ps, u).Success?
    ensures var g := Gate(ps, u).value;
      g.name == u.name && g.desc == u.desc && g.isMust == u.isMust && g.dependency == u.dependency
      && (u.dependency.DependsOn? ==>
            0 <= u.dependency.dependsOnIdx < |ps.stages|
            && (ps.stages[u.dependency.dependsOnIdx].state.Status() != StSuccess ==> g.state.SkippedState?))
      && (u.dependency.Independent? ==> g == u)
  {
  }

  /** What the filter lets through depends on an existing stage, is skipped
      when that stage did not succeed, and depends on something once a must
      stage exists; an independent stage waits for the latest must stage. */
  lemma FilterFacts<R>(ps: PipeState<R>, u0: Unassigned<R>, ov: Overwrite)
    requires MustListed(ps)
    requires FilterResult(ps, u0, ov).Success?
    ensures var u := FilterResult(ps, u0, ov).value;
      var v := ApplyOverwrite(u0, ov);
      u.name == u0.name && u.desc == u0.desc && u.isMust == v.isMust
      && (u.dependency.DependsOn? ==>
            0 <= u.dependency.dependsOnIdx < |ps.stages|
            && (ps.stages[u.dependency.dependsOnIdx].state.Status() != StSuccess ==> u.state.SkippedState?))
      && (ps.mustStageIds != [] ==> u.dependency.DependsOn?)
      && (v.dependency.Independent? && ps.mustStageIds != [] ==>
            u.dependency.dependsOnIdx == ps.mustStageIds[|ps.mustStageIds| - 1])
      && (v.dependency.DependsOn? ==> u.dependency == v.dependency)
      && (v.dependency.Independent? && ps.mustStageIds == [] ==> u == v)
  {
    var v := ApplyOverwrite(u0, ov);
    RepointFacts(ps, v);
    GateFacts(ps, Repoint(ps, v).value);
  }

  /** The filter keeps the name and description, and the overwritten must flag. */
  lemma FilterKeepsName<R>(ps: PipeState<R>, u0: Unassigned<R>, ov: Overwrite)
    requires FilterResult(ps, u0, ov).Success?
    ensures var u := FilterResult(ps, u0, ov).value;
      u.name == u0.name && u.desc == u0.desc && u.isMust == ApplyOverwrite(u0, ov).isMust
  {
  }

  /** With no must stage, an independent stage passes the filter unchanged. */
  lemma FilterNoMust<R>(ps: PipeState<R>, u0: Unassigned<R>, ov: Overwrite)
    requires ps.mustStageIds == [] && ApplyOverwrite(u0, ov).dependency.Independent?
    ensures FilterResult(ps, u0, ov) == Success(ApplyOverwrite(u0, ov))
  {
  }

  /** The skip reason names the stage, the one it waited for and that one's status. */
  lemma GateSkips<R>(ps: PipeState<R>, u: Unassigned<R>)
    requires u.dependency.DependsOn? && 0 <= u.dependency.dependsOnIdx < |ps.stages|
    requires ps.stages[u.dependency.dependsOnIdx].state.Status() != StSuccess
    ensures var dep := ps.stages[u.dependency.dependsOnIdx];
      Gate(ps, u) == Success(u.(state := SkippedState(SkipReason(u.name, dep.name, dep.state.Status()), map[])))
  {
  }

  // ---------------------------------------------------------------------
  // Lemmas: the invariant is kept

  lemma PushNamesIndexed<R>(stages: seq<Stage<R>>, idxMap: map<string, nat>, st: Stage<R>)
    requires NamesIndexed(stages, idxMap) && st.name !in idxMap
    ensures NamesIndexed(stages + [st], idxMap[st.name := |stages|])
  {
    var s2 := stages + [st];
    var m2 := idxMap[st.name := |stages|];
    forall i | 0 <= i < |s2|
      ensures s2[i].name in m2 && m2[s2[i].name] == i
    {
      if i < |stages| {
        assert s2[i] == stages[i];
      }
    }
  }

  lemma PushGated<R>(stages: seq<Stage<R>>, st: Stage<R>)
    requires Gated(stages)
    requires st.dependency.DependsOn? ==>
      0 <= st.dependency.dependsOnIdx < |stages|
      && (stages[st.dependency.dependsOnIdx].state.Status() != StSuccess ==> st.state.SkippedState?)
    ensures Gated(stages + [st])
  {
    var s2 := stages + [st];
    forall i | 0 <= i < |s2| && s2[i].dependency.DependsOn?
      ensures 0 <= s2[i].dependency.dependsOnIdx < i
      ensures s2[s2[i].dependency.dependsOnIdx].state.Status() != StSuccess ==> s2[i].state.SkippedState?
    {
      if i < |stages| {
        assert s2[i] == stages[i];
      }
      assert s2[s2[i].dependency.dependsOnIdx] == stages[s2[i].dependency.dependsOnIdx];
    }
  }

  lemma PushMustCovered<R>(stages: seq<Stage<R>>, st: Stage<R>)
    requires MustCovered(stages)
    requires (exists j :: 0 <= j < |stages| && stages[j].isMust) ==> st.dependency.DependsOn?
    ensures MustCovered(stages + [st])
  {
    var s2 := stages + [st];
    forall i, j | 0 <= j < i < |s2| && s2[j].isMust
      ensures s2[i].dependency.DependsOn?
    {
      assert s2[j] == stages[j];
      if i < |stages| {
        assert s2[i] == stages[i];
      }
    }
  }

  lemma PushIds<R>(stages: seq<Stage<R>>, st: Stage<R>)
    requires IdsMatch(stages) && st.idx == |stages|
    ensures IdsMatch(stages + [st])
  {
    assert forall i :: 0 <= i < |stages| ==> (stages + [st])[i] == stages[i];
  }

  lemma PushNoPrototype<R>(stages: seq<Stage<R>>, st: Stage<R>)
    requires NoPrototypeNames(stages) && st.name !in ObjectPrototypeKeys
    ensures NoPrototypeNames(stages + [st])
  {
    assert forall i :: 0 <= i < |stages| ==> (stages + [st])[i] == stages[i];
  }

  lemma PushValid<R>(ps: PipeState<R>, u: Unassigned<R>)
    requires ValidState(ps)
    requires PushResult(ps, u).Success?
    requires u.dependency.DependsOn? ==>
      0 <= u.dependency.dependsOnIdx < |ps.stages|
      && (ps.stages[u.dependency.dependsOnIdx].state.Status() != StSuccess ==> u.state.SkippedState?)
    requires ps.mustStageIds != [] ==> u.dependency.DependsOn?
    ensures ValidState(PushResult(ps, u).value)
  {
    var st := Assign(u, |ps.stages|);
    MustIndicesPush(ps.stages, st);
    StatsOfPush(ps.stages, st);
    MustIndicesFacts(ps.stages);
    PushNamesIndexed(ps.stages, ps.idxMap, st);
    PushGated(ps.stages, st);
    PushMustCovered(ps.stages, st);
    PushIds(ps.stages, st);
    PushNoPrototype(ps.stages, st);
  }

  /** Adding a stage keeps the invariant, whatever the overwrites. */
  lemma AttachValid<R>(ps: PipeState<R>, skel: Skeleton<R>, ov: Overwrite, flavor: Flavor)
    requires ValidState(ps)
    ensures ValidState(AttachResult(ps, skel, ov, flavor).ps)
  {
    var f := FilterResult(ps, skel.unassigned, ov);
    if f.Success? {
      FilterFacts(ps, skel.unassigned, ov);
      var (u2, inv) := ExecuteResult(ps, f.value, skel.handler, flavor);
      ExecuteKeeps(ps, f.value, skel.handler, flavor);
      if PushResult(ps, u2).Success? {
        PushValid(ps, u2);
      }
    }
  }

  lemma FromValid<R>(ps: PipeState<R>, skel: Skeleton<R>, must: bool, flavor: Flavor)
    requires ValidState(ps)
    ensures ValidState(FromResult(ps, skel, must, flavor).ps)
  {
    if !ps.isFromInvoked {
      AttachValid(ps.(isFromInvoked := true), skel, MustOverwrite(must), flavor);
    }
  }

  lemma ThenValid<R>(ps: PipeState<R>, skel: Skeleton<R>, must: bool, flavor: Flavor)
    requires ValidState(ps)
    ensures ValidState(ThenResult(ps, skel, must, flavor).ps)
  {
    AttachValid(ps, skel, MustOverwrite(must), flavor);
  }

  lemma OnlyThenValid<R>(ps: PipeState<R>, skel: Skeleton<R>, flavor: Flavor)
    requires ValidState(ps)
    ensures ValidState(OnlyThenResult(ps, skel, flavor).ps)
  {
    if ps.stages != [] {
      var prev := ps.stages[|ps.stages| - 1];
      AttachValid(ps, skel, SetDependency(DependsOn(prev.name, prev.idx)), flavor);
    }
  }

  /** The stage a successful attach appends, in terms of the filtered stage. */
  lemma AttachAppends<R>(ps: PipeState<R>, skel: Skeleton<R>, ov: Overwrite, flavor: Flavor)
    requires AttachResult(ps, skel, ov, flavor).error.None?
    ensures FilterResult(ps, skel.unassigned, ov).Success?
    ensures var u := FilterResult(ps, skel.unassigned, ov).value;
      AttachResult(ps, skel, ov, flavor).ps.stages == ps.stages + [Assign(ExecuteResult(ps, u, skel.handler, flavor).0, |ps.stages|)]
  {
  }

  /** Appending a stage keeps must stages blocking when it waits for a stage
      at or after every must stage, and is skipped when that one did not succeed. */
  lemma PushBlocks<R>(stages: seq<Stage<R>>, st: Stage<R>)
    requires MustBlocks(stages)
    requires st.dependency.DependsOn? && 0 <= st.dependency.dependsOnIdx < |stages|
    requires forall j :: 0 <= j < |stages| && stages[j].isMust ==> j <= st.dependency.dependsOnIdx
    requires stages[st.dependency.dependsOnIdx].state.Status() != StSuccess ==> st.state.SkippedState?
    ensures MustBlocks(stages + [st])
  {
    var s2 := stages + [st];
    var d := st.dependency.dependsOnIdx;
    forall i, j | 0 <= j < i < |s2| && s2[j].isMust && s2[j].state.Status() != StSuccess
      ensures s2[i].state.SkippedState?
    {
      assert s2[j] == stages[j];
      if i < |stages| {
        assert s2[i] == stages[i];
      } else if j < d {
        assert stages[d].state.SkippedState?;
      }
    }
  }

  lemma NoMustBlocks<R>(stages: seq<Stage<R>>, st: Stage<R>)
    requires MustBlocks(stages) && forall j :: 0 <= j < |stages| ==> !stages[j].isMust
    ensures MustBlocks(stages + [st])
  {
    assert forall j :: 0 <= j < |stages| ==> (stages + [st])[j] == stages[j];
  }

  /** Must stages block: the property is kept by `thenStage`/`fromStage` of a
      created (independent) stage and by every `onlyThenStage`. */
  lemma AttachBlocks<R>(ps: PipeState<R>, skel: Skeleton<R>, ov: Overwrite, flavor: Flavor)
    requires MustListed(ps) && MustBlocks(ps.stages)
    requires ((ov.NoOverwrite? || ov.MakeMust?) && skel.unassigned.dependency.Independent?)
      || (ov.SetDependency? && ov.dependency.DependsOn? && ov.dependency.dependsOnIdx == |ps.stages| - 1)
    ensures MustBlocks(AttachResult(ps, skel, ov, flavor).ps.stages)
  {
    var out := AttachResult(ps, skel, ov, flavor);
    if out.error.None? {
      AttachAppends(ps, skel, ov, flavor);
      FilterFacts(ps, skel.unassigned, ov);
      MustIndicesFacts(ps.stages);
      var u := FilterResult(ps, skel.unassigned, ov).value;
      var u2 := ExecuteResult(ps, u, skel.handler, flavor).0;
      ExecuteKeeps(ps, u, skel.handler, flavor);
      if ps.mustStageIds == [] {
        NoMustBlocks(ps.stages, Assign(u2, |ps.stages|));
      } else {
        PushBlocks(ps.stages, Assign(u2, |ps.stages|));
      }
    }
  }

  lemma FromBlocks<R>(ps: PipeState<R>, skel: Skeleton<R>, must: bool, flavor: Flavor)
    requires MustListed(ps) && MustBlocks(ps.stages) && skel.unassigned.dependency.Independent?
    ensures MustBlocks(FromResult(ps, skel, must, flavor).ps.stages)
  {
    if !ps.isFromInvoked {
      AttachBlocks(ps.(isFromInvoked := true), skel, MustOverwrite(must), flavor);
    }
  }

  lemma ThenBlocks<R>(ps: PipeState<R>, skel: Skeleton<R>, must: bool, flavor: Flavor)
    requires MustListed(ps) && MustBlocks(ps.stages) && skel.unassigned.dependency.Independent?
    ensures MustBlocks(ThenResult(ps, skel, must, flavor).ps.stages)
  {
    AttachBlocks(ps, skel, MustOverwrite(must), flavor);
  }

  lemma OnlyThenBlocks<R>(ps: PipeState<R>, skel: Skeleton<R>, flavor: Flavor)
    requires MustListed(ps) && MustBlocks(ps.stages)
    ensures MustBlocks(OnlyThenResult(ps, skel, flavor).ps.stages)
  {
    if ps.stages != [] {
      var prev := ps.stages[|ps.stages| - 1];
      AttachBlocks(ps, skel, SetDependency(DependsOn(prev.name, prev.idx)), flavor);
    }
  }

  // ---------------------------------------------------------------------
  // Lemmas: the error paths

  /** Adding a stage before `fromStage` throws and leaves the pipeline as it
      was. The handler has already run exactly when the stage passed the
      filter still unset. */
  lemma ThenBeforeFromThrows<R>(ps: PipeState<R>, skel: Skeleton<R>, must: bool, flavor: Flavor)
    requires !ps.isFromInvoked
    ensures var out := ThenResult(ps, skel, must, flavor);
      var f := FilterResult(ps, skel.unassigned, MustOverwrite(must));
      out.error.Some? && out.ps == ps
      && (out.invoked <==> f.Success? && f.value.state.UnsetState?)
    ensures OnlyThenResult(ps, skel, flavor).error.Some? || ps.stages != []
  {
  }

  /** A second `fromStage` throws before anything runs. */
  lemma FromTwiceThrows<R>(ps: PipeState<R>, skel: Skeleton<R>, must: bool, flavor: Flavor)
    requires ps.isFromInvoked
    ensures FromResult(ps, skel, must, flavor) == Outcome(ps, Some(Err(FromTwiceMessage(flavor))), false)
  {
  }

  /** The first `fromStage` on a fresh pipeline adds stage 0 when its name is free. */
  lemma FromAddsFirst<R>(name: string, desc: string, skel: Skeleton<R>, must: bool, flavor: Flavor)
    requires skel.unassigned.name !in ObjectPrototypeKeys && skel.unassigned.dependency.Independent?
    ensures var out := FromResult(EmptyPipe<R>(name, desc), skel, must, flavor);
      out.error.None? && |out.ps.stages| == 1 && out.ps.isFromInvoked
      && out.ps.stages[0].isMust == (must || skel.unassigned.isMust)
      && out.invoked == skel.unassigned.state.UnsetState?
  {
  }

  /** A stage whose name is taken is rejected and nothing changes. The
      handler has already run exactly when the stage passed the filter still
      unset. */
  lemma DuplicateRejected<R>(ps: PipeState<R>, skel: Skeleton<R>, ov: Overwrite, flavor: Flavor, k: nat)
    requires NamesIndexed(ps.stages, ps.idxMap) && k < |ps.stages| && ps.stages[k].name == skel.unassigned.name
    ensures var out := AttachResult(ps, skel, ov, flavor);
      var f := FilterResult(ps, skel.unassigned, ov);
      out.error.Some? && out.ps == ps
      && (out.invoked <==> f.Success? && f.value.state.UnsetState?)
  {
    var f := FilterResult(ps, skel.unassigned, ov);
    if f.Success? {
      FilterKeepsName(ps, skel.unassigned, ov);
      ExecuteKeeps(ps, f.value, skel.handler, flavor);
      assert ps.stages[k].name in ps.idxMap;
    }
  }

  /** `onlyThenStage` after a stage that did not succeed adds a skipped stage
      whose reason names that stage and its status, without running the handler. */
  lemma OnlyThenSkips<R>(ps: PipeState<R>, skel: Skeleton<R>, flavor: Flavor)
    requires ValidState(ps) && ps.stages != [] && !NameTaken(ps, skel.unassigned.name)
    requires ps.stages[|ps.stages| - 1].state.Status() != StSuccess
    ensures var out := OnlyThenResult(ps, skel, flavor);
      var prev := ps.stages[|ps.stages| - 1];
      out.error.None? && !out.invoked && |out.ps.stages| == |ps.stages| + 1
      && out.ps.stages[|ps.stages|].state
         == SkippedState(SkipReason(skel.unassigned.name, prev.name, prev.state.Status()), map[])
      && out.ps.stages[|ps.stages|].dependency == DependsOn(prev.name, |ps.stages| - 1)
  {
    var prev := ps.stages[|ps.stages| - 1];
    var v := ApplyOverwrite(skel.unassigned, SetDependency(DependsOn(prev.name, prev.idx)));
    assert Repoint(ps, v) == Success(v);
    GateSkips(ps, v);
    var g := Gate(ps, v).value;
    assert ExecuteResult(ps, g, skel.handler, flavor) == (g, false);
    PushShape(ps, g);
  }

  /** With a must stage in place, a created stage waits for the latest one. */
  lemma RepointsToLatestMust<R>(ps: PipeState<R>, skel: Skeleton<R>, must: bool, flavor: Flavor)
    requires ValidState(ps) && ps.mustStageIds != [] && skel.unassigned.dependency.Independent?
    requires ThenResult(ps, skel, must, flavor).error.None?
    ensures var ps2 := ThenResult(ps, skel, must, flavor).ps;
      var last := ps.mustStageIds[|ps.mustStageIds| - 1];
      last < |ps.stages| && ps.stages[last].isMust
      && ps2.stages[|ps.stages|].dependency == DependsOn(ps.stages[last].name, last)
  {
    MustIndicesFacts(ps.stages);
    AttachAppends(ps, skel, MustOverwrite(must), flavor);
    FilterFacts(ps, skel.unassigned, MustOverwrite(must));
    ExecuteKeeps(ps, FilterResult(ps, skel.unassigned, MustOverwrite(must)).value, skel.handler, flavor);
  }

  /** Without must stages, a created stage runs its handler unconditionally. */
  lemma NoMustRunsHandler<R>(ps: PipeState<R>, stageName: string, desc: string, handler: PipeState<R> -> HandlerResult<R>, must: bool, flavor: Flavor)
    requires ValidState(ps) && ps.mustStageIds == []
    ensures ThenResult(ps, CreateStage(ps.name, stageName, desc, handler), must, flavor).invoked
  {
  }

  // ---------------------------------------------------------------------
  // The class

  /** `Pipeline`: the fields the source updates in place. */
  class Pipeline<R> {
    const name: string
    const desc: string
    var stages: seq<Stage<R>>
    var idxMap: map<string, nat>
    var mustStageIds: seq<nat>
    var isFromInvoked: bool
    var stats: Stats

    function State(): PipeState<R>
      reads this
    {
      PipeState(name, desc, stages, idxMap, mustStageIds, isFromInvoked, stats)
    }

    ghost predicate Valid()
      reads this
    {
      ValidState(State()) && MustBlocks(stages)
    }

    constructor(name: string, desc: string)
      ensures State() == EmptyPipe(name, desc) && Valid()
    {
      this.name := name;
      this.desc := desc;
      stages := [];
      idxMap := map[];
      mustStageIds := [];
      isFromInvoked := false;
      stats := Stats([], [], [], []);
    }

    method GetStage(key: Key) returns (r: Result<Stage<R>, Error>)
      ensures r == StageAt(State(), key)
    {
      var idx: int;
      match key {
        case ByName(n) => idx := if n in idxMap then idxMap[n] else -1;
        case ByIdx(i) => idx := i;
      }
      if 0 <= idx < |stages| {
        r := Success(stages[idx]);
      } else {
        r := Failure(Err(NoStageMessage(name, key)));
      }
    }

    method GetStageState(key: Key) returns (r: Result<State<R>, Error>)
      ensures r == StateAt(State(), key)
    {
      var s := GetStage(key);
      if s.Success? {
        r := Success(s.value.state);
      } else {
        r := Failure(s.error);
      }
    }

    method GetStageStateIfSuccess(key: Key) returns (r: Result<State<R>, Error>)
      ensures r == SuccessStateAt(State(), key)
    {
      r := GetStageState(key);
      if r.Success? && r.value.Status() != StSuccess {
        r := Failure(Err(NotSuccessMessage(key, r.value.Status())));
      }
    }

    method UpdateStatsAfterPush(idx: nat)
      requires idx < |stages|
      modifies this
      ensures stages == old(stages) && idxMap == old(idxMap) && mustStageIds == old(mustStageIds)
      ensures stats == AddToStats(old(stats), stages[idx].state.Status(), idx)
      ensures isFromInvoked == old(isFromInvoked)
    {
      var st := GetStageState(ByIdx(idx));
      stats := AddToStats(stats, st.value.Status(), idx);
    }

    method PushStageWithIdx(u: Unassigned<R>) returns (err: Option<Error>)
      modifies this
      ensures var res := PushResult(old(State()), u);
        (res.Success? ==> err.None? && State() == res.value)
        && (res.Failure? ==> err == Some(res.error) && State() == old(State()))
    {
      if !isFromInvoked {
        return Some(Err(FirstStageMessage));
      }
      if u.name in idxMap || u.name in ObjectPrototypeKeys {
        return Some(Err(DuplicateMessage(u.name)));
      }
      var stage := Assign(u, |stages|);
      idxMap := idxMap[stage.name := stage.idx];
      if stage.isMust {
        mustStageIds := mustStageIds + [stage.idx];
      }
      stages := stages + [stage];
      UpdateStatsAfterPush(stage.idx);
      err := None;
    }

    /** The re-pointing half of `filterStageBeforeExec`. */
    method RepointStage(v: Unassigned<R>) returns (r: Result<Unassigned<R>, Error>)
      ensures r == Repoint(State(), v)
    {
      var m := |mustStageIds|;
      if v.dependency.Independent? && m > 0 {
        var dep := GetStage(ByIdx(mustStageIds[m - 1]));
        if dep.Failure? {
          return Failure(dep.error);
        }
        return Success(v.(dependency := DependsOn(dep.value.name, dep.value.idx)));
      }
      r := Success(v);
    }

    /** The skipping half of `filterStageBeforeExec`. */
    method GateStage(u: Unassigned<R>) returns (r: Result<Unassigned<R>, Error>)
      ensures r == Gate(State(), u)
    {
      r := Success(u);
      if u.dependency.DependsOn? {
        var dep := GetStage(ByIdx(u.dependency.dependsOnIdx));
        if dep.Failure? {
          return Failure(dep.error);
        }
        if dep.value.state.Status() != StSuccess {
          r := Success(u.(state := SkippedState(SkipReason(u.name, dep.value.name, dep.value.state.Status()), map[])));
        }
      }
    }

    method FilterStageBeforeExec(u0: Unassigned<R>, ov: Overwrite) returns (r: Result<Unassigned<R>, Error>)
      ensures r == FilterResult(State(), u0, ov)
    {
      r := RepointStage(ApplyOverwrite(u0, ov));
      if r.Success? {
        r := GateStage(r.value);
      }
    }

    /** The private `ThenStage(skeleton, overwrites)`. */
    method Attach(skel: Skeleton<R>, ov: Overwrite, flavor: Flavor) returns (err: Option<Error>, invoked: bool)
      modifies this
      ensures Outcome(State(), err, invoked) == AttachResult(old(State()), skel, ov, flavor)
    {
      var f := FilterStageBeforeExec(skel.unassigned, ov);
      if f.Failure? {
        return Some(f.error), false;
      }
      var u := f.value;
      invoked := false;
      if u.state.UnsetState? {
        invoked := true;
        match skel.handler(State()) {
          case Returns(st) =>
            u := u.(state := st);
          case Throws(t) =>
            var reason := ThrowReason(flavor, u.name);
            u := u.(state := FailedState(reason, AsError(t, reason), map[]));
        }
      }
      err := PushStageWithIdx(u);
    }

    /** `fromStage` / `fromMustStage` (and their async twins, by `flavor`). */
    method FromStage(skel: Skeleton<R>, must: bool, flavor: Flavor) returns (err: Option<Error>, invoked: bool)
      requires Valid() && skel.unassigned.dependency.Independent?
      modifies this
      ensures Outcome(State(), err, invoked) == FromResult(old(State()), skel, must, flavor)
      ensures Valid()
    {
      FromValid(State(), skel, must, flavor);
      FromBlocks(State(), skel, must, flavor);
      if isFromInvoked {
        return Some(Err(FromTwiceMessage(flavor))), false;
      }
      isFromInvoked := true;
      err, invoked := Attach(skel, MustOverwrite(must), flavor);
    }

    /** `thenStage` / `thenMustStage`. */
    method ThenStage(skel: Skeleton<R>, must: bool, flavor: Flavor) returns (err: Option<Error>, invoked: bool)
      requires Valid() && skel.unassigned.dependency.Independent?
      modifies this
      ensures Outcome(State(), err, invoked) == ThenResult(old(State()), skel, must, flavor)
      ensures Valid()
    {
      ThenValid(State(), skel, must, flavor);
      ThenBlocks(State(), skel, must, flavor);
      err, invoked := Attach(skel, MustOverwrite(must), flavor);
    }

    /** `onlyThenStage`. */
    method OnlyThenStage(skel: Skeleton<R>, flavor: Flavor) returns (err: Option<Error>, invoked: bool)
      requires Valid()
      modifies this
      ensures Outcome(State(), err, invoked) == OnlyThenResult(old(State()), skel, flavor)
      ensures Valid()
    {
      OnlyThenValid(State(), skel, flavor);
      OnlyThenBlocks(State(), skel, flavor);
      var n := |stages|;
      if n == 0 {
        return Some(Err(FirstStageMessage)), false;
      }
      var prev := GetStage(ByIdx(n - 1));
      err, invoked := Attach(skel, SetDependency(DependsOn(prev.value.name, prev.value.idx)), flavor);
    }

    method Finish() returns (f: FinishStats)
      requires Valid()
      ensures f == FinishOf(State())
      ensures f.success + f.failed + f.skipped + f.unset == f.totalStages
      ensures f.completeSuccess <==> forall i :: 0 <= i < |stages| ==> stages[i].state.SuccessState?
    {
      FinishCounts(State());
      f := FinishStats(
        |stages|, |mustStageIds|, |stages| == |stats.success|,
        |stats.success|, |stats.failed|, |stats.skipped|, |stats.unset|);
    }

    /** `createStage(name).whatDoesStageDo(desc).handledBy(handler)` on this pipeline. */
    function NewStage(stageName: string, stageDesc: string, handler: PipeState<R> -> HandlerResult<R>): (s: Skeleton<R>)
      ensures s.unassigned.name == stageName && s.unassigned.dependency.Independent?
      ensures s.unassigned.state == UnsetState(UnassignedReason(stageName, name), map[])
    {
      CreateStage(name, stageName, stageDesc, handler)
    }
  }

  /** `createPipe(name).whatDoesPipeDo(desc)`. */
  method CreatePipe<R>(name: string, desc: string) returns (p: Pipeline<R>)
    ensures fresh(p) && p.State() == EmptyPipe(name, desc) && p.Valid()
  {
    p := new Pipeline(name, desc);
  }
}
