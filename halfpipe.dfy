/**
 * halfpipe: a sequential pipeline runner. Steps are registered under unique
 * ids in an append-only ordered map (`StepMap`) and run one after another by
 * `Pipeline.Run`, which threads a context through them and stops at the first
 * cancelled context or the first step error.
 */
module Halfpipe {
  import opened Wrappers
  import opened Contexts

  /** What a step (and a whole run) hands back: Go's `(context.Context, error)` pair. */
  datatype Outcome = Outcome(ctx: Context, err: Option<Error>)

  /** Go's `RunFunc`: the work a step does, as a function of the context it receives. */
  type RunFunc = Context -> Outcome

  /**
   * A `PipelineStep`. Every implementation of that one-method interface behaves
   * like a `SerialPipelineStep` wrapping its `Run`, so this is the only variant.
   */
  datatype PipelineStep = SerialPipelineStep(Action: RunFunc) {

    /** `SerialPipelineStep.Run` forwards to the wrapped action. */
    function Run(ctx: Context): (r: Outcome)
      ensures r == Action(ctx)
    {
      Action(ctx)
    }
  }

  // ---------------------------------------------------------------------------
  // Specification of a run
  // ---------------------------------------------------------------------------

  /**
   * The result of running `steps` from `ctx`: before each step the context is
   * checked for cancellation, a failing step ends the run with exactly what it
   * returned, and otherwise its context is handed on to the next step.
   */
  function RunSteps(steps: seq<PipelineStep>, ctx: Context): (out: Outcome)
  {
    if steps == [] then Outcome(ctx, None)
    else if ctx.Err().Some? then Outcome(ctx, ctx.Err())
    else
      var r := steps[0].Run(ctx);
      if r.err.Some? then r else RunSteps(steps[1..], r.ctx)
  }

  /** The contexts the invoked steps receive during that run, in invocation order. */
  function Received(steps: seq<PipelineStep>, ctx: Context): (given: seq<Context>)
  {
    if steps == [] || ctx.Err().Some? then []
    else
      var r := steps[0].Run(ctx);
      [ctx] + if r.err.Some? then [] else Received(steps[1..], r.ctx)
  }

  /** One step boundary of a run: `RunSteps` and `Received` unfolded at position `i`. */
  lemma Boundary(steps: seq<PipelineStep>, i: nat, ctx: Context)
    requires i < |steps|
    ensures RunSteps(steps[i..], ctx) ==
      if ctx.Err().Some? then Outcome(ctx, ctx.Err())
      else if steps[i].Run(ctx).err.Some? then steps[i].Run(ctx)
      else RunSteps(steps[i + 1..], steps[i].Run(ctx).ctx)
    ensures Received(steps[i..], ctx) ==
      if ctx.Err().Some? then []
      else if steps[i].Run(ctx).err.Some? then [ctx]
      else [ctx] + Received(steps[i + 1..], steps[i].Run(ctx).ctx)
  {
  }

  /** The steps bound to `ids`, in the order of `ids`. */
  function Lookup(ids: seq<string>, table: map<string, PipelineStep>): (plan: seq<PipelineStep>)
    requires forall id :: id in ids ==> id in table
    ensures |plan| == |ids|
    ensures forall i :: 0 <= i < |ids| ==> plan[i] == table[ids[i]]
  {
    seq(|ids|, i requires 0 <= i < |ids| => table[ids[i]])
  }

  // ---------------------------------------------------------------------------
  // The ordered step registry
  // ---------------------------------------------------------------------------

  predicate NoDuplicates(s: seq<string>) {
    forall i, j :: 0 <= i < j < |s| ==> s[i] != s[j]
  }

  function Elements(s: seq<string>): (xs: set<string>) {
    set x | x in s
  }

  /** The key list after `stepMap.Add(key, _)`: unchanged for a duplicate, else extended at the end. */
  function Insert(keys: seq<string>, key: string): (ks: seq<string>) {
    if key in keys then keys else keys + [key]
  }

  /** The key list of a fresh registry after adding `ids` one at a time, in order. */
  function Registered(ids: seq<string>): (ks: seq<string>) {
    if ids == [] then [] else Insert(Registered(ids[..|ids| - 1]), ids[|ids| - 1])
  }

  /** `contains`: a linear scan of `haystack` for `needle`. */
  method Contains(haystack: seq<string>, needle: string) returns (found: bool)
    ensures found <==> exists i :: 0 <= i < |haystack| && haystack[i] == needle
  {
    for i := 0 to |haystack|
      invariant forall j :: 0 <= j < i ==> haystack[j] != needle
    {
      if haystack[i] == needle {
        return true;
      }
    }
    return false;
  }

  /**
   * `stepMap`: an ordered map from step ids to steps that refuses duplicate ids.
   * `keys` records insertion order, `keyValues` the binding of each id.
   */
  class StepMap {
    var keys: seq<string>
    var keyValues: map<string, PipelineStep>

    /** No id twice, and exactly the listed ids are bound. */
    ghost predicate Valid()
      reads this
    {
      NoDuplicates(keys) && keyValues.Keys == Elements(keys)
    }

    /** `newStepMap`. */
    constructor ()
      ensures Valid()
      ensures keys == [] && keyValues == map[]
    {
      keys := [];
      keyValues := map[];
    }

    /**
     * `stepMap.Add`: a duplicate key is refused with an error and changes
     * nothing; a fresh key is appended to the order and bound to `value`.
     */
    method Add(key: string, value: PipelineStep) returns (err: Option<Error>)
      modifies this
      ensures err == if key in old(keys) then Some(Duplicate(key)) else None
      ensures keys == Insert(old(keys), key)
      ensures keyValues == if err.Some? then old(keyValues) else old(keyValues)[key := value]
      ensures old(Valid()) ==> Valid()
    {
      var dup := Contains(keys, key);
      if dup {
        return Some(Duplicate(key));
      }
      keys := keys + [key];
      keyValues := keyValues[key := value];
      return None;
    }

    /** `stepMap.Keys`: the ids in insertion order, each once, exactly the bound ones. */
    function Keys(): (ks: seq<string>)
      reads this
      ensures Valid() ==> NoDuplicates(ks) && forall k :: k in ks <==> k in keyValues
    {
      keys
    }
  }

  // ---------------------------------------------------------------------------
  // The pipeline
  // ---------------------------------------------------------------------------

  /** `Pipeline`: owns one step registry and runs its steps in registration order. */
  class Pipeline {
    const steps: StepMap

    ghost predicate Valid()
      reads this, steps
    {
      steps.Valid()
    }

    /** `NewPipeline`: a pipeline with no steps. */
    constructor ()
      ensures Valid() && fresh(steps)
      ensures Steps() == [] && steps.keyValues == map[]
    {
      steps := new StepMap();
    }

    /** `Pipeline.Steps`: the registered ids in the order `Run` will run them. */
    function Steps(): (ids: seq<string>)
      reads this, steps
      ensures Valid() ==> NoDuplicates(ids) && forall id :: id in ids <==> id in steps.keyValues
    {
      steps.Keys()
    }

    /** The steps `Run` will invoke, in order. */
    ghost function Schedule(): (plan: seq<PipelineStep>)
      reads this, steps
      requires Valid()
    {
      Lookup(steps.keys, steps.keyValues)
    }

    /** `Pipeline.AddStep`: passes on the registry's verdict unchanged. */
    method AddStep(id: string, step: PipelineStep) returns (err: Option<Error>)
      modifies steps
      ensures err == if id in old(Steps()) then Some(Duplicate(id)) else None
      ensures Steps() == Insert(old(Steps()), id)
      ensures steps.keyValues == if err.Some? then old(steps.keyValues) else old(steps.keyValues)[id := step]
      ensures old(Valid()) ==> Valid()
    {
      err := steps.Add(id, step);
      if err.Some? {
        return err;
      }
      return None;
    }

    /**
     * `Pipeline.MustAddStep`: registration that the caller knows cannot collide
     * (the Go code panics on a duplicate id, so it returns only for a fresh one).
     */
    method MustAddStep(id: string, step: PipelineStep)
      requires id !in Steps()
      modifies steps
      ensures Steps() == old(Steps()) + [id]
      ensures steps.keyValues == old(steps.keyValues)[id := step]
      ensures old(Valid()) ==> Valid()
    {
      var err := AddStep(id, step);
      assert err == None;
    }

    /**
     * `Pipeline.Run`: walks the registered ids in order, threading the context.
     * Its result is the specification `RunSteps` of the registered steps, and
     * `received` records the context each invoked step was given.
     */
    method Run(ctx0: Context) returns (ctx: Context, err: Option<Error>, ghost received: seq<Context>)
      requires Valid()
      ensures Outcome(ctx, err) == RunSteps(Schedule(), ctx0)
      ensures received == Received(Schedule(), ctx0)
    {
      ctx, err, received := ctx0, None, [];
      var ids := Steps();
      ghost var plan := Schedule();
      for i := 0 to |ids|
        invariant err == None
        invariant RunSteps(plan, ctx0) == RunSteps(plan[i..], ctx)
        invariant Received(plan, ctx0) == received + Received(plan[i..], ctx)
      {
        assert plan[i] == steps.keyValues[ids[i]];
        Boundary(plan, i, ctx);
        if ctx.Err().Some? {
          return ctx, ctx.Err(), received;
        }
        var r := steps.keyValues[ids[i]].Run(ctx);
        received := received + [ctx];
        ctx, err := r.ctx, r.err;
        if err.Some? {
          return ctx, err, received;
        }
      }
      assert plan[|ids|..] == [];
    }
  }
}
