/** `util/pipeline.ts`: the older pipeline engine. A payload holds the
    pipeline's name, description, globals and a dictionary of stage results
    by stage name. `middleware` replaces the payload, `stage` records the
    result of a callback under its name, and `launch` hands the payload out.
    Callbacks are awaited one at a time, so they are functions of the payload
    here; the elapsed time is a parameter. */
module LegacyPipeline {
  import opened Wrappers

  /** `{ms?: number} & M`: the time, and the callback's own metadata, which
      is absent when the engine created the object. */
  datatype Metadata<M> = Metadata(ms: Option<int>, extra: Option<M>)

  /** `StageResult<T, M>`: `ok: true` with a return value, or `ok: false`
      with an error; the metadata is optional in both. */
  datatype StageResult<T, M> =
    | Ok(returnValue: T, metadata: Option<Metadata<M>>)
    | NotOk(error: Thrown, metadata: Option<Metadata<M>>)

  datatype PipelineStage<T, M> = PipelineStage(description: string, res: StageResult<T, M>)

  /** `PipelinePayload<G, S>`, with the stage dictionary as a map. */
  datatype Payload<G, T, M> = Payload(pipeName: string, pipeDescription: string, globals: G,
                                      stages: map<string, PipelineStage<T, M>>)

  /** `res.metadata ??= {}` and then `res.metadata.ms = ms`. */
  function Timed<T, M>(res: StageResult<T, M>, ms: int): StageResult<T, M> {
    var md := if res.metadata.None? then Metadata(None, None) else res.metadata.value;
    res.(metadata := Some(md.(ms := Some(ms))))
  }

  /** The entry `stage` writes for an awaited callback: the timed result, or
      for a rejection an `ok: false` result carrying the error and the time. */
  function Recorded<T, M>(description: string, outcome: Result<StageResult<T, M>, Thrown>, ms: int): PipelineStage<T, M> {
    match outcome
    case Success(res) => PipelineStage(description, Timed(res, ms))
    case Failure(e) => PipelineStage(description, NotOk(e, Some(Metadata(Some(ms), None))))
  }

  /** The payload after `stage(name, …)`: the entry under `name` is set,
      whatever was there before. */
  function StageEffect<G, T, M>(p: Payload<G, T, M>, name: string, description: string,
                                outcome: Result<StageResult<T, M>, Thrown>, ms: int): Payload<G, T, M> {
    p.(stages := p.stages[name := Recorded(description, outcome, ms)])
  }

  /** A resolved callback keeps its result and its own metadata and gains the
      time; a rejected one is recorded as `ok: false` with the error and the
      time, and no other metadata. */
  lemma RecordedFacts<T, M>(description: string, outcome: Result<StageResult<T, M>, Thrown>, ms: int)
    ensures var e := Recorded(description, outcome, ms);
      e.description == description
      && e.res.metadata.Some? && e.res.metadata.value.ms == Some(ms)
      && (outcome.Success? ==>
            e.res.Ok? == outcome.value.Ok?
            && (outcome.value.Ok? ==> e.res.returnValue == outcome.value.returnValue)
            && (outcome.value.NotOk? ==> e.res.error == outcome.value.error)
            && (outcome.value.metadata.Some? ==> e.res.metadata.value.extra == outcome.value.metadata.value.extra)
            && (outcome.value.metadata.None? ==> e.res.metadata.value.extra.None?))
      && (outcome.Failure? ==> e.res == NotOk(outcome.error, Some(Metadata(Some(ms), None))))
  {
  }

  /** A second stage under the same name overwrites the first: there is no
      uniqueness check. */
  lemma StageOverwrites<G, T, M>(p: Payload<G, T, M>, name: string,
                                 d1: string, o1: Result<StageResult<T, M>, Thrown>, ms1: int,
                                 d2: string, o2: Result<StageResult<T, M>, Thrown>, ms2: int)
    ensures StageEffect(StageEffect(p, name, d1, o1, ms1), name, d2, o2, ms2) == StageEffect(p, name, d2, o2, ms2)
  {
    var q := StageEffect(p, name, d1, o1, ms1);
    assert q.stages[name := Recorded(d2, o2, ms2)] == p.stages[name := Recorded(d2, o2, ms2)];
  }

  /** A stage adds its name, keeps every other entry, and leaves the name,
      description and globals of the pipeline alone. */
  lemma StageKeepsOthers<G, T, M>(p: Payload<G, T, M>, name: string, description: string,
                                  outcome: Result<StageResult<T, M>, Thrown>, ms: int)
    ensures var q := StageEffect(p, name, description, outcome, ms);
      q.stages.Keys == p.stages.Keys + {name}
      && q.stages[name] == Recorded(description, outcome, ms)
      && (forall other :: other in p.stages && other != name ==> q.stages[other] == p.stages[other])
      && q.pipeName == p.pipeName && q.pipeDescription == p.pipeDescription && q.globals == p.globals
  {
  }

  /** Two stages under different names are both recorded, whichever order. */
  lemma StagesCommute<G, T, M>(p: Payload<G, T, M>, n1: string, d1: string, o1: Result<StageResult<T, M>, Thrown>, ms1: int,
                               n2: string, d2: string, o2: Result<StageResult<T, M>, Thrown>, ms2: int)
    requires n1 != n2
    ensures StageEffect(StageEffect(p, n1, d1, o1, ms1), n2, d2, o2, ms2)
         == StageEffect(StageEffect(p, n2, d2, o2, ms2), n1, d1, o1, ms1)
  {
    var a := StageEffect(StageEffect(p, n1, d1, o1, ms1), n2, d2, o2, ms2);
    var b := StageEffect(StageEffect(p, n2, d2, o2, ms2), n1, d1, o1, ms1);
    assert a.stages == b.stages;
  }

  /** The default `handleError`: rethrow. */
  function Rethrow(error: Thrown): Option<Thrown> {
    Some(error)
  }

  class Pipeline<G, T, M> {
    var payload: Payload<G, T, M>

    constructor(payload: Payload<G, T, M>)
      ensures this.payload == payload
    {
      this.payload := payload;
    }

    /** `middleware(cfn)`: the payload becomes what the callback resolves
        to; a rejection propagates with the payload unchanged. */
    method Middleware(cfn: Payload<G, T, M> -> Result<Payload<G, T, M>, Thrown>)
      returns (self: Pipeline<G, T, M>, thrown: Option<Thrown>)
      modifies this
      ensures self == this
      ensures cfn(old(payload)).Success? ==> payload == cfn(old(payload)).value && thrown.None?
      ensures cfn(old(payload)).Failure? ==> payload == old(payload) && thrown == Some(cfn(old(payload)).error)
    {
      var r := cfn(payload);
      if r.Failure? {
        return this, Some(r.error);
      }
      payload := r.value;
      return this, None;
    }

    /** `stage(name, description, cfn, handleError)`: the result is recorded
        under `name` first; only then does a rejection go to `handleError`,
        whose own throw (`Some`) propagates. `elapsed` is `Date.now() - t0`. */
    method Stage(name: string, description: string, cfn: Payload<G, T, M> -> Result<StageResult<T, M>, Thrown>,
                 elapsed: int, handleError: Thrown -> Option<Thrown> := Rethrow)
      returns (self: Pipeline<G, T, M>, thrown: Option<Thrown>)
      modifies this
      ensures self == this
      ensures payload == StageEffect(old(payload), name, description, cfn(old(payload)), elapsed)
      ensures cfn(old(payload)).Success? ==> thrown.None?
      ensures cfn(old(payload)).Failure? ==> thrown == handleError(cfn(old(payload)).error)
    {
      var outcome := cfn(payload);
      match outcome {
        case Success(res) =>
          var md := if res.metadata.None? then Metadata(None, None) else res.metadata.value;
          md := md.(ms := Some(elapsed));
          var timed := res.(metadata := Some(md));
          payload := payload.(stages := payload.stages[name := PipelineStage(description, timed)]);
          thrown := None;
        case Failure(error) =>
          var failed := NotOk(error, Some(Metadata(Some(elapsed), None)));
          payload := payload.(stages := payload.stages[name := PipelineStage(description, failed)]);
          thrown := handleError(error);
      }
      self := this;
    }

    /** `launch()`: the current payload. */
    method Launch() returns (p: Payload<G, T, M>)
      ensures p == payload
    {
      p := payload;
    }
  }

  /** `pipeline(pipeName)(pipeDescription)({globals, stages})`. */
  method NewPipeline<G, T, M>(pipeName: string, pipeDescription: string, globals: G,
                              stages: map<string, PipelineStage<T, M>>) returns (p: Pipeline<G, T, M>)
    ensures fresh(p)
    ensures p.payload == Payload(pipeName, pipeDescription, globals, stages)
  {
    p := new Pipeline(Payload(pipeName, pipeDescription, globals, stages));
  }
}
