# halfpipe in Dafny

A model of halfpipe, a minimal sequential pipeline runner written in Go. A pipeline
holds named steps in an append-only ordered map that refuses duplicate ids (`stepMap`).
`Pipeline.Run` invokes the steps one after another in registration order. It threads a
`context.Context` from each step into the next and checks for cancellation before every
step. It stops at the first cancelled context or the first step error.

Files:

- `wrappers.dfy`: `Option`, for Go's nil-or-value results.
- `contexts.dfy`: the part of Go's `context` package the runner uses. A context is an
  immutable value holding key/value pairs and an optional cancellation error (`Err()`).
  It also defines `Background`, `WithValue` and `Cancel`.
- `halfpipe.dfy`: the core.
  - `PipelineStep` is a `SerialPipelineStep` wrapping a `RunFunc` (`Context -> Outcome`).
  - `StepMap` is a class with a `keys: seq<string>` field and a
    `keyValues: map<string, PipelineStep>` field. `Add` reassigns both.
  - `Contains` is the linear scan.
  - `Pipeline` is a class owning one `StepMap`, with `AddStep`, `MustAddStep`, `Steps`
    and `Run`.
  - `Run` is a loop proved equal to the pure specification `RunSteps`. `RunSteps` folds
    over the steps until it meets a cancelled context or a step error. `Received` lists the
    contexts the invoked steps were given. `Registered`/`Insert` give the key order after a
    sequence of additions.
- `properties.dfy`: lemmas about those specification functions. It also has client
  scenarios that mirror `halfpipe_test.go`, using only the class contracts.

Three details of the code the model keeps:

- When a step fails, `Run` returns the context that the failing step *returned*, not the
  one it received (halfpipe.go:52-54).
- `Keys`/`Steps` return the registry's own slice, not a copy (halfpipe.go:108).
- The doc comment's "retrying" has no code behind it, so there is no retry in the model.

## Model

| member | source | states |
|---|---|---|
| `Halfpipe.Contains` | halfpipe.go:111-118 | the result is true exactly when some index of the haystack holds the needle |
| `Halfpipe.StepMap.constructor` | halfpipe.go:88-93 | a new registry has no keys and no bindings and satisfies the registry invariant |
| `Halfpipe.StepMap.Add` | halfpipe.go:97-104 | a key already present gives `Duplicate(key)` and leaves keys and bindings unchanged; a fresh key is appended at the end of the order and bound to the value, nothing else changes; the invariant (no duplicate keys, bound keys = listed keys) is preserved |
| `Halfpipe.StepMap.Keys` | halfpipe.go:106-109 | on a valid registry the listed keys are duplicate-free and are exactly the bound keys |
| `Halfpipe.Pipeline.constructor` | halfpipe.go:15-20 | a new pipeline owns a fresh, empty, valid registry |
| `Halfpipe.Pipeline.Steps` | halfpipe.go:40-43 | the ids listed are duplicate-free and exactly the registered ones |
| `Halfpipe.Pipeline.AddStep` | halfpipe.go:31-38 | returns the registry's error unchanged: `Duplicate(id)` exactly when the id is already listed; a fresh id is appended to `Steps()` and bound; the invariant is preserved |
| `Halfpipe.Pipeline.MustAddStep` | halfpipe.go:22-29 | for a fresh id (the Go code panics otherwise), the id is appended to `Steps()` and bound to the step |
| `Halfpipe.Pipeline.Run` | halfpipe.go:45-58 | the returned context and error are those of `RunSteps` over the registered steps in registration order, and the contexts handed to steps are those of `Received` |
| `Halfpipe.PipelineStep.Run` | halfpipe.go:73-76 | forwards the context to the wrapped action and returns its result unchanged (inside a run: `SingleStep`) |
| `Halfpipe.Boundary` | halfpipe.go:48-55 | helper for `Run`'s loop: `RunSteps` and `Received` unfolded at position `i` (cancellation check, then the step, then stop on its error or hand its context on) |
| `HalfpipeProperties.RunNoSteps` | halfpipe.go:47-57 | with no steps the input context comes back unchanged with no error, even when it is cancelled |
| `HalfpipeProperties.RunAppend` | halfpipe.go:47-57 | running `a + b` is running `a` and then, only if that succeeded, running `b` from `a`'s final context; the invoked steps are those of `a` followed by those of `b` |
| `HalfpipeProperties.CancelledAtBoundary` | halfpipe.go:48-51 | a context that is cancelled at a step boundary ends the run with that context and its `Err()`, and no later step is invoked; with nothing before the boundary, a pre-cancelled context runs no step |
| `HalfpipeProperties.FailingStepEndsRun` | halfpipe.go:52-55 | the first failing step's own `(ctx, err)` is the run's result, unwrapped, and no later step is invoked |
| `HalfpipeProperties.ReceivedThreading` | halfpipe.go:48-56 | at most one invocation per step; the first step gets the input context; every invoked step gets a live context; each later step gets the context its predecessor returned after that predecessor succeeded |
| `HalfpipeProperties.RunEnds` | halfpipe.go:46-58 | a run succeeds exactly when every step was invoked and none failed, and then ends with the last step's context. Otherwise it ends either with the last invoked step's result verbatim, or with `(c, c.Err())` for a cancelled context `c` at the boundary before a remaining step |
| `HalfpipeProperties.SingleStep` | halfpipe.go:73-76 | a one-step pipeline of `SerialPipelineStep(f)` returns `f(ctx)` verbatim on a live context, and `(ctx, ctx.Err())` without calling `f` on a cancelled one |
| `HalfpipeProperties.MarkersAllRecorded` | halfpipe_test.go:22-41 | steps that each write a marker into a live context all run, and the final context holds every marker and keeps all other values |
| `HalfpipeProperties.RegisteredUnique` | halfpipe.go:97-104 | after any sequence of additions the key list has no duplicates and holds exactly the ids that were added |
| `HalfpipeProperties.RegisteredInOrder` | halfpipe.go:106-109 | distinct ids are listed in exactly the order they were added |
| `HalfpipeProperties.RegisterAll` | halfpipe.go:31-38 | a series of `AddStep` calls on a new pipeline leaves a valid registry whose `Steps()` is exactly `Registered(ids)`, which ties the `Registered*` lemmas to the class |
| `HalfpipeProperties.RegisteredGrows` | halfpipe.go:101-101 | later additions never move earlier keys: the key list after a prefix of the additions is a prefix of the final list |

## Left out

- Go's `context` internals: deadlines, the parent chain and cancellation signalled by
  another goroutine. In the model a context is a value. It is cancelled exactly when its
  error field is set, so the poll at halfpipe.go:49 reads that field.
- Concurrency: the runner is sequential, and concurrent registration or running is not supported.
- Side effects of step actions: a step is a pure function from context to `(context, error)`.
- Other `PipelineStep` implementations (such as the tests' `noOpStep`): each one behaves
  like a `SerialPipelineStep` wrapping its `Run`, so that is the only variant modelled.
- The text `fmt.Errorf` builds for a duplicate id: the model returns `Duplicate(id)`, which
  carries the id.
- Halfpipe.Pipeline.MustAddStep: the panic on a duplicate id is not modelled. The method
  requires a fresh id instead.
- Halfpipe.StepMap.Keys: the aliasing of the returned slice (a caller could write through
  it into the registry) is not captured, because a Dafny `seq` is an immutable value.
- Go's nil values and panics. In the model a `Context` and a `PipelineStep` cannot be nil,
  and a `RunFunc` is a total function that always returns. So the model does not capture:
  `AddStep(id, nil)` succeeding and `Run` then panicking at that id (halfpipe.go:52); a step
  that returns a nil context, which makes `ctx.Err()` panic at the next boundary
  (halfpipe.go:49) or is returned as-is as `(nil, err)` or `(nil, nil)` (halfpipe.go:54, 57);
  and a step that panics or never returns, taking `Run` with it. "The returned context is
  never absent" holds in the model only because of this.
- The lookup `keyValues[id]` of an id that is not bound (a nil step in Go) cannot occur
  under the registry invariant, which `Run` requires.
