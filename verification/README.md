# mole: resource pool, task runner and SQL statement builders in Dafny

This project models three parts of the Go repository koboshi/mole and proves
properties of the model:

- **The resource pool** (`pool/pool.go`). It caches closable resources in a
  buffered channel whose capacity is fixed by `New`. `Acquire` takes the oldest
  idle resource, or calls the caller's factory when none is idle. `Release`
  puts a resource back into the channel, or closes it when the pool is closed
  or the channel is full. `Close` marks the pool closed and closes every idle
  resource. The model is in `pool.dfy` (module `ResourcePool`). The class
  `Pool` keeps the channel as a ring buffer in an array. Its methods are proved
  to move the abstract `PoolState` exactly as the pure step functions
  `AcquireStep`, `ReleaseStep` and `CloseStep` do. The properties are proved
  about those functions and about arbitrary traces of calls (`Apply`).
- **The task runner's sequential loop** (`runner/runner.go`). A runner holds
  an ordered task list and a one-slot interrupt channel. `run` calls the tasks
  in index order and checks for an interrupt before each one. The model is in
  `runner.dfy` (module `TaskRunner`), as the class `Runner`. Interrupt
  delivery is an explicit input: a `Signal` method, and a set of check
  positions at which `Run` receives a signal. The ghost log `Log` records
  every task invocation.
- **The SQL statement builders** `buildInsertSql` and `buildUpdateSql`
  (`utils.go`). They turn a field→value map into a statement with `?`
  placeholders plus a positional value list. The model is in `sql.dfy` (module
  `SqlBuilder`). The Go map is a sequence of (field, value) pairs with distinct
  fields, which stands for one iteration order. No property depends on the
  order. The statement is specified by functions of the field names only, so
  values cannot reach the SQL text.

`options.dfy` holds the shared `Option` type.

Two behaviours of the code are worth stating outright:
- `Acquire` hands out the oldest idle resource, because the channel is FIFO
  (pool/pool.go:36-41).
- `Acquire` on a closed, drained pool returns `ErrPoolClosed`
  (pool/pool.go:38-39); it does not call the factory.

## Model

| member | source | states |
|---|---|---|
| ResourcePool.New | pool/pool.go:23-32 | size 0 fails with ErrPoolSize and makes no pool; otherwise a fresh, open pool with empty idle storage of capacity `size`, no resource closed, factory never called |
| ResourcePool.Pool.constructor | pool/pool.go:28-31 | the pool literal: capacity `size`, nothing idle, not closed |
| ResourcePool.AcquireStep | pool/pool.go:34-46 | a hit returns the oldest idle resource, removes it and does not call the factory; an empty closed pool gives ErrPoolClosed; an empty open pool calls the factory exactly once and returns its answer unchanged; idle storage is only ever shortened at the front; the invariant is kept |
| ResourcePool.Pool.Acquire | pool/pool.go:34-46 | the ring-buffer implementation changes the state and returns exactly what AcquireStep says |
| ResourcePool.ReleaseStep | pool/pool.go:48-64 | closed pool: the resource is closed and idle storage is unchanged; open with room: appended to idle storage, nothing closed; open and full: closed, idle unchanged; the resource ends up idle or closed, exactly once (multiset law); the invariant is kept |
| ResourcePool.Pool.Release | pool/pool.go:48-64 | the ring-buffer implementation changes the state exactly as ReleaseStep says |
| ResourcePool.CloseStep | pool/pool.go:66-87 | the first Close sets `closed`, empties idle storage and closes every idle resource once, in order; on a closed pool it changes nothing; nothing is lost |
| ResourcePool.Pool.Close | pool/pool.go:66-87 | the drain loop changes the state exactly as CloseStep says |
| ResourcePool.CloseIdempotent | pool/pool.go:70-72 | a second Close changes nothing |
| ResourcePool.AcquireAfterClose | pool/pool.go:35-40 | on a closed pool Acquire returns ErrPoolClosed, changes nothing and does not call the factory |
| ResourcePool.ReleaseThreeIntoTwo | pool/pool.go:57-63 | three releases into a capacity-2 pool keep the first two and close the third exactly once |
| ResourcePool.InvAlways | pool/pool.go:30 | along any sequence of calls, idle storage never exceeds the capacity, and a closed pool holds nothing idle |
| ResourcePool.ClosedIsTerminal | pool/pool.go:34-76 | once closed, a pool stays closed and holds nothing idle; it hands nothing out from idle storage and never calls the factory again |
| ResourcePool.Conservation | pool/pool.go:34-87 | over any sequence of calls, resources idle or closed before plus resources released equal resources idle or closed after plus resources handed out: none is lost or invented |
| ResourcePool.TakenWereReleased | pool/pool.go:34-64 | at every point of any sequence of calls on a new pool, the resources handed out from idle storage so far are contained (as a multiset) in those released into it so far |
| ResourcePool.ValidInv | pool/pool.go:30 | a live pool's abstract state satisfies the invariant (capacity bound, nothing idle once closed), so the lemmas about traces of calls apply to it |
| TaskRunner.Runner.constructor | runner/runner.go:28-35 | a new runner has no tasks and an empty interrupt slot |
| TaskRunner.Runner.Add | runner/runner.go:37-39 | the given tasks are appended in the given order; earlier tasks and the slot are unchanged |
| TaskRunner.Runner.Signal | runner/runner.go:30 | the slot holds at most one signal: a signal arriving at a full slot is dropped, not queued; after signal.Stop nothing is delivered |
| TaskRunner.Runner.GotInterrupt | runner/runner.go:66-74 | a pending signal is consumed, delivery is stopped and the result is true; otherwise the result is false and nothing changes |
| TaskRunner.Runner.Run | runner/runner.go:56-64 | with no full slot at any check, every task is called once, in index order, task i with argument i, and the result is nil; if the first full check is before task k, the result is ErrInterrupt and exactly tasks 0..k-1 have run, each to completion; with no tasks the result is nil even with a signal pending |
| TaskRunner.Calls | runner/runner.go:57-61 | the invocation log of the first k tasks has k entries, entry i calling task i with argument i |
| TaskRunner.FirstInterrupt | runner/runner.go:57-60 | the check that stops the loop, if any, is one of the checks from k to n-1 |
| TaskRunner.FirstInterruptIsFirst | runner/runner.go:57-60 | the loop stops before task m if and only if the slot is full at check m and at no earlier check |
| TaskRunner.NoInterruptIffQuiet | runner/runner.go:57-63 | the loop runs to the end if and only if no check finds the slot full |
| TaskRunner.CallsBefore | runner/runner.go:57-60 | a run stopped before task k never invoked task k or any later task |
| SqlBuilder.BuildInsertSql | utils.go:8-21 | the statement is the insert statement over the field names only; values never reach the text; the value list has one entry per field, in clause order; empty data gives a statement ending in "SET " and no values |
| SqlBuilder.BuildUpdateSql | utils.go:23-38 | the statement is the update statement over the field names only; the value list is the data values in clause order followed by whereArgs in order, as long as data and whereArgs together |
| SqlBuilder.SetListDecodes | utils.go:12-17 | for field names holding no backtick, the joined SET list decodes back to exactly the field names, in order: each field is backtick-quoted once, clauses are separated by ", " with no leading or trailing separator |
| SqlBuilder.InsertStatementDecodes | utils.go:17-18 | for field names holding no backtick, an insert statement is insertType, " INTO ", the table name and " SET " verbatim, followed by a SET list that decodes to the field names |
| SqlBuilder.UpdateStatementDecodes | utils.go:31-32 | for field names holding no backtick, an update statement is "UPDATE ", the table name and " SET " verbatim, a SET list decoding to the field names, then " WHERE " and whereStr verbatim |
| SqlBuilder.SetListPlaceholders | utils.go:13-17 | for field names holding no `?`, the SET list holds exactly one `?` per field |
| SqlBuilder.InsertPlaceholders | utils.go:12-18 | for field names holding no `?`, and apart from `?` in insertType and the table name, an insert statement holds one placeholder per field, as many as there are values |
| SqlBuilder.UpdatePlaceholders | utils.go:26-35 | for field names holding no `?`, and apart from `?` in the table name, an update statement holds one placeholder per field, then those of whereStr; so it matches the value list when the table name holds no `?` and whereArgs has one entry per `?` in whereStr |
| SqlBuilder.BacktickBreaksQuoting | utils.go:13 | field names are quoted without escaping: the field name "a`b" does not decode back from its SET list |
| SqlBuilder.PlaceholderInFieldName | utils.go:13 | field names are quoted without escaping: the SET list for the field name "a?" holds two `?` characters, not one |

## Left out

- Concurrency in the pool: the mutex, the lock-free `Acquire` fast path, and the goroutine-per-resource fan-out with `wg.Wait` in `Close`. The pool is modelled as a sequential state machine, and `Close` closes each idle resource once, in drain order.
- ResourcePool.Pool.Close: follows the intended one close per idle resource. Before Go 1.22 each goroutine captures the shared loop variable `r`, so the source could close one resource several times and miss others. Which Go version the repository builds with is not part of this model.
- Errors returned by a resource's `Close` are ignored by the source and are not modelled. Logging is not modelled either.
- The factory is an oracle: `Acquire` takes the factory's answer as a parameter and uses it only when the factory is called. The counter `factoryCalls` records each call. A factory error is an opaque code.
- Resources are identified by natural numbers. Releasing the same resource twice is not excluded, but nothing in the source guards against it either.
- `Runner.Start`, the `complete` channel, and the deadline race against `time.After`, including `ErrTimeout`. Wall-clock time is not modelled. `ErrTimeout` is declared but nothing in the model returns it.
- OS signal plumbing (`signal.Notify`, `signal.Stop`). Delivery becomes the `Signal` method and the `arrivals` input of `Run`. The `stopped` flag stands for `signal.Stop`. The model lets signals arrive before `Run` is called, although the source subscribes only in `Start`.
- What the tasks themselves do. A task invocation is recorded in the ghost log and has no other effect. Tasks are assumed not to touch the runner.
- The worker pool (`work/work.go`). Its behaviour is entirely concurrent: goroutines ranging over an unbuffered channel, plus a `WaitGroup`.
- The database layer (`database/database.go`, `database_tx.go`): connection setup, `Exec`, `Query`, `Commit`, and the panics on driver errors. The inline SQL building in `database_tx.go` duplicates `utils.go` and is modelled once, through `utils.go`.
- Go map iteration order. The model takes the map as one given order, and every property holds for any order.
- Escaping of field names. The source wraps each field name in backticks without escaping it (utils.go:13, utils.go:27). So the decoding laws hold only for field names without a backtick, and the one-`?`-per-field laws hold only for field names without a `?`. BacktickBreaksQuoting and PlaceholderInFieldName show each case failing.
- `fmt.Sprintf` formatting is modelled for `%s` with string arguments only. Those are the only arguments the builders pass to it.
