/**
 * Properties of the pipeline runner and the step registry, stated over the
 * specification functions of module Halfpipe (which `Pipeline.Run` and
 * `StepMap.Add` are proved to follow), and client scenarios that exercise
 * the classes through their contracts only.
 */
module HalfpipeProperties {
  import opened Wrappers
  import opened Contexts
  import opened Halfpipe

  // ---------------------------------------------------------------------------
  // Running
  // ---------------------------------------------------------------------------

  /** With no steps, a run hands back its input context and no error, cancelled or not. */
  lemma RunNoSteps(ctx: Context)
    ensures RunSteps([], ctx) == Outcome(ctx, None)
    ensures Received([], ctx) == []
  {
  }

  /**
   * Running `a + b` is running `a` and then, only if that succeeded, running
   * `b` from the context `a` ended with.
   */
  lemma {:induction false} RunAppend(a: seq<PipelineStep>, b: seq<PipelineStep>, ctx: Context)
    ensures RunSteps(a + b, ctx) ==
      if RunSteps(a, ctx).err.Some? then RunSteps(a, ctx) else RunSteps(b, RunSteps(a, ctx).ctx)
    ensures Received(a + b, ctx) ==
      Received(a, ctx) + if RunSteps(a, ctx).err.Some? then [] else Received(b, RunSteps(a, ctx).ctx)
  {
    if a == [] {
      assert a + b == b;
    } else if ctx.Err().None? {
      assert (a + b)[0] == a[0] && (a + b)[1..] == a[1..] + b;
      var r := a[0].Run(ctx);
      if r.err.None? {
        RunAppend(a[1..], b, r.ctx);
      }
    }
  }

  /**
   * Cancellation is checked at every step boundary: if the context is
   * cancelled once the steps `a` have run, the run ends there with that
   * context and its `Err()`, and no step of `b` is invoked. With `a` empty
   * this is the pre-cancelled context: no step runs at all.
   */
  lemma CancelledAtBoundary(a: seq<PipelineStep>, b: seq<PipelineStep>, ctx: Context)
    requires RunSteps(a, ctx).err.None?
    requires RunSteps(a, ctx).ctx.Err().Some?
    requires b != []
    ensures RunSteps(a + b, ctx) == Outcome(RunSteps(a, ctx).ctx, RunSteps(a, ctx).ctx.Err())
    ensures Received(a + b, ctx) == Received(a, ctx)
  {
    RunAppend(a, b, ctx);
  }

  /**
   * The first failing step ends the run: its own `(ctx, err)` is the result,
   * unwrapped, and no later step is invoked.
   */
  lemma FailingStepEndsRun(a: seq<PipelineStep>, s: PipelineStep, b: seq<PipelineStep>, ctx: Context)
    requires RunSteps(a, ctx).err.None?
    requires RunSteps(a, ctx).ctx.Err().None?
    requires s.Run(RunSteps(a, ctx).ctx).err.Some?
    ensures RunSteps(a + [s] + b, ctx) == s.Run(RunSteps(a, ctx).ctx)
    ensures Received(a + [s] + b, ctx) == Received(a, ctx) + [RunSteps(a, ctx).ctx]
  {
    RunAppend(a, [s] + b, ctx);
    assert a + [s] + b == a + ([s] + b);
  }

  /**
   * Context threading: the first invoked step receives the input context, every
   * invoked step receives a live context, and each later one receives the
   * context its predecessor returned after that predecessor succeeded.
   */
  lemma {:induction false} ReceivedThreading(steps: seq<PipelineStep>, ctx: Context)
    ensures |Received(steps, ctx)| <= |steps|
    ensures |Received(steps, ctx)| > 0 ==> Received(steps, ctx)[0] == ctx
    ensures forall i :: 0 <= i < |Received(steps, ctx)| ==> Received(steps, ctx)[i].Err().None?
    ensures forall i :: 0 <= i < |Received(steps, ctx)| - 1 ==>
      steps[i].Run(Received(steps, ctx)[i]) == Outcome(Received(steps, ctx)[i + 1], None)
  {
    if steps != [] && ctx.Err().None? {
      var r := steps[0].Run(ctx);
      if r.err.None? {
        var tail := Received(steps[1..], r.ctx);
        ReceivedThreading(steps[1..], r.ctx);
        assert Received(steps, ctx) == [ctx] + tail;
        forall i | 0 <= i < |Received(steps, ctx)| - 1
          ensures steps[i].Run(Received(steps, ctx)[i]) == Outcome(Received(steps, ctx)[i + 1], None)
        {
          if i > 0 {
            assert steps[i] == steps[1..][i - 1];
          }
        }
      }
    }
  }

  /**
   * How a run ends, in terms of the steps it invoked: it succeeds exactly when
   * every step was invoked and the last one succeeded, with the last step's
   * context (the input context when there are no steps); otherwise either the
   * last invoked step failed and its result is returned verbatim, or the run
   * stopped at a cancelled context before a remaining step.
   */
  lemma {:induction false} RunEnds(steps: seq<PipelineStep>, ctx: Context)
    ensures |Received(steps, ctx)| <= |steps|
    ensures var out, k := RunSteps(steps, ctx), |Received(steps, ctx)|;
      var before := if k == 0 then ctx else steps[k - 1].Run(Received(steps, ctx)[k - 1]).ctx;
      && (out.err.None? <==> k == |steps| && (k == 0 || steps[k - 1].Run(Received(steps, ctx)[k - 1]).err.None?))
      && (out.err.None? ==> out.ctx == before)
      && (out.err.Some? ==>
            (k > 0 && out == steps[k - 1].Run(Received(steps, ctx)[k - 1]))
            || (k < |steps| && before.Err().Some? && out == Outcome(before, before.Err())))
  {
    ReceivedThreading(steps, ctx);
    if steps != [] && ctx.Err().None? {
      var r := steps[0].Run(ctx);
      if r.err.None? {
        var tail := Received(steps[1..], r.ctx);
        RunEnds(steps[1..], r.ctx);
        assert Received(steps, ctx) == [ctx] + tail;
        if |tail| > 0 {
          assert steps[|tail|] == steps[1..][|tail| - 1];
        }
      }
    }
  }

  /** A one-step pipeline runs the step's action on a live context and returns its result verbatim. */
  lemma SingleStep(f: RunFunc, ctx: Context)
    ensures RunSteps([SerialPipelineStep(f)], ctx) ==
      if ctx.Err().Some? then Outcome(ctx, ctx.Err()) else f(ctx)
    ensures Received([SerialPipelineStep(f)], ctx) == if ctx.Err().Some? then [] else [ctx]
  {
    assert [SerialPipelineStep(f)][1..] == [];
  }

  /** A step that records `key` in the context and never fails. */
  function Marker(key: string): (s: PipelineStep) {
    SerialPipelineStep(c => Outcome(WithValue(c, key, "true"), None))
  }

  function Markers(keys: seq<string>): (plan: seq<PipelineStep>) {
    seq(|keys|, i requires 0 <= i < |keys| => Marker(keys[i]))
  }

  /**
   * Steps that each write a marker into the context all run, in order, on a
   * live context: the final context holds every marker and keeps every other
   * value it started with.
   */
  lemma {:induction false} MarkersAllRecorded(keys: seq<string>, ctx: Context)
    requires ctx.Err().None?
    ensures RunSteps(Markers(keys), ctx).err.None?
    ensures RunSteps(Markers(keys), ctx).ctx.Err().None?
    ensures forall k :: k in keys ==> RunSteps(Markers(keys), ctx).ctx.Value(k) == Some("true")
    ensures forall k :: k !in keys && k in ctx.values ==> RunSteps(Markers(keys), ctx).ctx.Value(k) == ctx.Value(k)
    ensures |Received(Markers(keys), ctx)| == |keys|
  {
    if keys != [] {
      var next := WithValue(ctx, keys[0], "true");
      assert Markers(keys)[0] == Marker(keys[0]);
      assert Markers(keys)[1..] == Markers(keys[1..]);
      MarkersAllRecorded(keys[1..], next);
      forall k | k in keys
        ensures RunSteps(Markers(keys), ctx).ctx.Value(k) == Some("true")
      {
        if k != keys[0] {
          assert k in keys[1..];
        }
      }
    }
  }

  // ---------------------------------------------------------------------------
  // Registering
  // ---------------------------------------------------------------------------

  /** Whatever ids are added, the registry lists each added id exactly once. */
  lemma {:induction false} RegisteredUnique(ids: seq<string>)
    ensures NoDuplicates(Registered(ids))
    ensures Elements(Registered(ids)) == Elements(ids)
  {
    if ids != [] {
      var prefix, last := ids[..|ids| - 1], ids[|ids| - 1];
      RegisteredUnique(prefix);
      assert ids == prefix + [last];
      assert Elements(ids) == Elements(prefix) + {last};
      var before := Registered(prefix);
      if last !in before {
        assert Elements(before + [last]) == Elements(before) + {last};
      }
    }
  }

  /** Distinct ids are listed in exactly the order they were added, however many there are. */
  lemma {:induction false} RegisteredInOrder(ids: seq<string>)
    requires NoDuplicates(ids)
    ensures Registered(ids) == ids
  {
    if ids != [] {
      var prefix, last := ids[..|ids| - 1], ids[|ids| - 1];
      RegisteredInOrder(prefix);
      assert ids == prefix + [last];
    }
  }

  /** Later registrations never move earlier ones: the listing only grows at the end. */
  lemma {:induction false} RegisteredGrows(ids: seq<string>, k: nat)
    requires k <= |ids|
    ensures Registered(ids[..k]) <= Registered(ids)
    decreases |ids| - k
  {
    if k < |ids| {
      RegisteredGrows(ids, k + 1);
      assert ids[..k + 1][..k] == ids[..k];
    } else {
      assert ids[..k] == ids;
    }
  }

  /**
   * Adding `ids` one at a time to a new pipeline with `AddStep`, ignoring the
   * errors for repeated ids, leaves exactly `Registered(ids)` as its step list.
   */
  method RegisterAll(ids: seq<string>, step: PipelineStep) returns (p: Pipeline)
    ensures p.Valid()
    ensures p.Steps() == Registered(ids)
  {
    p := new Pipeline();
    for i := 0 to |ids|
      invariant p.Valid()
      invariant p.Steps() == Registered(ids[..i])
    {
      var _ := p.AddStep(ids[i], step);
      assert ids[..i + 1][..i] == ids[..i];
    }
    assert ids[..|ids|] == ids;
  }

  // ---------------------------------------------------------------------------
  // Scenarios: what a caller can rely on from the class contracts alone
  // ---------------------------------------------------------------------------

  /** Two value-writing steps both run and both writes are visible afterwards. */
  method BasicScenario() {
    var pipeline := new Pipeline();
    var tf1 := SerialPipelineStep(c => Outcome(WithValue(c, "tfcalled1", "true"), None));
    var tf2 := SerialPipelineStep(c => Outcome(WithValue(c, "tfcalled2", "true"), None));
    pipeline.MustAddStep("tf1", tf1);
    pipeline.MustAddStep("tf2", tf2);
    assert pipeline.Schedule() == [tf1, tf2];
    var ctx, err, _ := pipeline.Run(Background());
    var c1 := WithValue(Background(), "tfcalled1", "true");
    assert [tf1, tf2][1..] == [tf2] && [tf2][1..] == [];
    assert RunSteps([tf1, tf2], Background()) == RunSteps([tf2], c1);
    assert RunSteps([tf2], c1) == Outcome(WithValue(c1, "tfcalled2", "true"), None);
    assert err == None;
    assert ctx.Value("tfcalled1") == Some("true") && ctx.Value("tfcalled2") == Some("true");
  }

  /** A failing step's error is the run's error. */
  method ErrorScenario() {
    var pipeline := new Pipeline();
    var f := SerialPipelineStep(c => Outcome(c, Some(StepFailed("test error"))));
    pipeline.MustAddStep("cause an error", f);
    assert pipeline.Schedule() == [f];
    var ctx, err, _ := pipeline.Run(Background());
    assert err == Some(StepFailed("test error"));
  }

  /** A context cancelled before the run stops it before the first step. */
  method CancellationScenario() {
    var pipeline := new Pipeline();
    var noop := SerialPipelineStep(c => Outcome(c, None));
    pipeline.MustAddStep("cause an error", noop);
    assert pipeline.Schedule() == [noop];
    var ctx, err, received := pipeline.Run(Cancel(Background()));
    assert err == Some(Canceled) && received == [];
  }

  /** An added id is listed; adding it again fails and leaves the listing as it was. */
  method AddStepScenario() {
    var subject := new Pipeline();
    var noop := SerialPipelineStep(c => Outcome(c, None));
    var err := subject.AddStep("step", noop);
    assert err == None && "step" in subject.Steps();
    var before := subject.Steps();
    err := subject.AddStep("step", noop);
    assert err == Some(Duplicate("step")) && subject.Steps() == before;
  }
}
