/**
 * The part of Go's `context.Context` the pipeline relies on, as an immutable value.
 * A context carries key/value pairs (the payload steps write with `WithValue`)
 * and, once cancelled, the error that `Err()` reports. Deadlines, parent
 * chains and cancellation signalled from another goroutine are not modelled:
 * a context is cancelled exactly when its value says so.
 */
module Contexts {
  import opened Wrappers

  /** Every error the pipeline hands back to its caller. */
  datatype Error =
    | Duplicate(id: string)       // a step id registered twice
    | Canceled                    // `context.Canceled`
    | DeadlineExceeded            // `context.DeadlineExceeded`
    | StepFailed(message: string) // whatever error a step's own action returns

  datatype Context = Context(values: map<string, string>, cancelErr: Option<Error>) {

    /** `ctx.Err()`: None while the context is live, the cancellation cause after. */
    function Err(): (e: Option<Error>) {
      cancelErr
    }

    /** `ctx.Value(key)`. */
    function Value(key: string): (v: Option<string>) {
      if key in values then Some(values[key]) else None
    }
  }

  /** `context.Background()`: no values, never cancelled. */
  function Background(): (c: Context) {
    Context(map[], None)
  }

  /** `context.WithValue(parent, key, val)`: a new context that sees `val` under `key`. */
  function WithValue(parent: Context, key: string, val: string): (c: Context) {
    parent.(values := parent.values[key := val])
  }

  /** The context after the cancel function of `context.WithCancel` has been called. */
  function Cancel(c: Context): (d: Context) {
    if c.cancelErr.Some? then c else c.(cancelErr := Some(Canceled))
  }
}
