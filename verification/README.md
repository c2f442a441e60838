# gormtestutil expectations, modelled in Dafny

This project models the test-support core of `gormtestutil`, a Go library for testing code that uses the gorm ORM:

- **Expectations** (`expect.go`). `ExpectCreated`, `ExpectDeleted` and `ExpectUpdated` work in four steps:
  - They validate the database and the model.
  - They fold functional options over the defaults. The defaults are one call, strict, and a fresh `sync.WaitGroup`.
  - They arm the wait group by `Times`.
  - They register a gorm callback named `assert_<kind>_<table>` after `gorm:after_<kind>`.

  Every later invocation of that callback is a transition over three values: the call count, the wait group's pending count and the test reporter. A call for another table is ignored. The first `Times` matching calls each count the wait group down. Every later matching call reports an error when strict, or logs a line when lenient.
- **`EnsureCompletion`** (`await.go`). It rejects a nil wait group. It folds the timeout options over the 30-second default. It maps the branch of its `select` that won to a result and a report.
- **`NewMemoryDatabase`** (`memory.go`). It folds its options and picks the sqlite connection string. It then runs the setup steps in order: open, the foreign-key pragma, the connection limit, and the WAL and busy-timeout pragmas.

Layout (one module per file):

| file | module | contents |
|---|---|---|
| `wrappers.dfy` | `Wrappers` | `Option`, `Result` |
| `reporting.dfy` | `Reporting` | `*testing.T` as a log of `Error`/`Log` entries, and `Failed` |
| `waitgroups.dfy` | `WaitGroups` | wait groups as a heap of pending counts, `Add` (panics on nil or a negative count) |
| `expect_options.dfy` | `ExpectOptions` | `expectConfig`, the three options, the left-to-right fold, and the reference "last setter" readings |
| `assert_hooks.dfy` | `AssertHooks` | the registered callback, its transition, runs over table names, and a closed form of a run |
| `registry.dfy` | `Registry` | the callback registry as the library relies on it: named callbacks per processor, with a duplicate name assumed to be an error |
| `expect.dfy` | `Expect` | `expectHook`, the three `Expect*` entry points, and their properties |
| `await.dfy` | `Await` | `EnsureCompletion`, its options, and the timing constraint on the race |
| `memory.dfy` | `Memory` | `NewMemoryDatabase`, its options, the connection string and the setup steps |
| `scenarios.dfy` | `Scenarios` | end-to-end: register, invoke, then wait |

Inputs the library receives from code outside this model:
- gorm's `Statement.Parse` result: `TableResolution`.
- The table names of the statements that fire the hook: `tables`.
- The branch of the `select` that won the race: `Branch`, constrained by `Await.Admissible`.
- Failures of `gorm.Open` and of `Exec`: `openError` and `failing`.

Observations from the code:
- The kind check at `expect.go:74-75` accepts only a struct value. A pointer to a struct is rejected there, before the callback registry is consulted. `Expect.PointerToStructRejected` proves this.
  - The duplicate-callback test (`expect_test.go:93`) passes `&model`, which the kind check would reject. But `setup()` passes a nil `*testing.T` to `NewMemoryDatabase` (`expect_test.go:25`), so that test, like every test that calls `setup()`, panics before reaching either check.
  - The examples at `examples_test.go:64` and `examples_test.go:87` pass `&SomeModel{}`, which the kind check would reject. Both examples declare a nil `*testing.T` (`examples_test.go:56`, `examples_test.go:78`), so they would panic at the first `t.Helper()` before reaching that check. They have no expected-output comment, so they are compiled but not run.
- A nil pointer given to `WithExpectation` makes `Add` panic once the inputs are valid (`Expect.NilExpectationPanics`).
- The registration `switch` has no default case. An unknown kind string would register nothing but still return the armed wait group (`Expect.UnknownKindNotRegistered`). The public entry points only pass `create`, `delete` and `update`.

## Model

| member | source | states |
|---|---|---|
| `WaitGroups.Add` | expect.go:92 | `Add` fails (a Go panic) exactly on a nil pointer or when the count would go negative. Otherwise it raises only that group's count, by `delta`. |
| `WaitGroups.Allocate` | expect.go:84 | A fresh `sync.WaitGroup` is a new, distinct group whose count starts at zero. Every existing group keeps its count. |
| `ExpectOptions.Defaults` | expect.go:81-85 | Before any option runs, `Times` is 1, `Strict` is on and the counter is a fresh wait group. |
| `ExpectOptions.NoOptionsGiveDefaults` | expect.go:11-14 | With no options the configuration is `Times=1`, `Strict=true` and a fresh counter. |
| `ExpectOptions.FoldAppend` | expect.go:87-89 | Options apply left to right. Folding `a + b` equals folding `a`, then `b`. |
| `ExpectOptions.TimesIsLastCalls` | expect.go:20-24 | `Times` is the value of the right-most `WithCalls`. Without one, it is the starting value. |
| `ExpectOptions.ExpectationIsLastSupplied` | expect.go:27-31 | The counter is the pointer from the right-most `WithExpectation`. Without one, the starting choice stays. |
| `ExpectOptions.StrictUnlessWithoutMaximum` | expect.go:35-39 | Strictness stays on iff no `WithoutMaximum` is given. No other option touches it. |
| `ExpectOptions.ConfigOfOptions` | expect.go:80-89 | Field by field, the configuration seen by `expectHook` for any option list, starting from the defaults. |
| `AssertHooks.Invoke` | expect.go:103-120 | One statement moves the call count up by at most one and the pending count down by at most one. Reports are only ever appended, by at most one line. A call that counts the wait group down never also reports. |
| `AssertHooks.RunClosedForm` | expect.go:102-120 | From any state, `n` matching calls add `n` to the count and lower pending by the budget consumed. They append exactly the over-invocation lines for calls past `Times`, given by an independent closed form. |
| `AssertHooks.OtherTablesIgnored` | expect.go:106 | Invocations for other tables leave the call count, pending count and reporter unchanged. |
| `AssertHooks.DecrementsAtMostTimes` | expect.go:107-109 | After `n` matching calls, pending has dropped by exactly `min(n, Times)`, and never by more than `Times`. |
| `AssertHooks.NeverCountsBelowZero` | expect.go:92 | A wait group armed with `Times` is never counted below zero by its hook, so `Done` never panics. It reaches zero iff it held exactly `Times` and at least `Times` matching calls happened. |
| `AssertHooks.OverflowLines` | expect.go:110-117 | Earlier reports are kept. One line is added per matching call beyond `Times`, carrying the table, `Times` and that call's number. Each line is an error iff strict. |
| `AssertHooks.FailsIffStrictOverflow` | expect.go:110-117 | Starting from a reporter that has not failed, it ends up failed iff the hook is strict and saw more than `Times` (and at least one) matching calls. |
| `Registry.Register` | expect.go:126-129 | Registration fails with the name iff the processor already holds that name. Otherwise it appends the callback to that processor only. |
| `Expect.KindOf` | expect.go:74-75 | Only a struct value has kind `Struct`. A pointer, including one to a struct, has kind `Ptr`. |
| `Expect.ExpectHook` | expect.go:66-145 | A nil database reports one error and returns nil. A non-struct model does the same. In neither case is a counter armed. Valid inputs, a resolved table, an `Add` that does not panic and a free hook name return the armed counter itself. A non-nil result comes with no report. For the three registrable kinds it also comes with the hook registered under `assert_<kind>_<table>` after `gorm:after_<kind>`. Registration leaves every other processor's callbacks as they were. Every nil result comes with exactly one error. |
| `Expect.ArmsByTimes` | expect.go:91-92 | Once validation passes, the target counter rises by exactly `Times` before the table is resolved, and no other counter changes. This holds whatever resolution and registration do. It panics exactly on a nil target or a negative total. |
| `Expect.WithExpectationChains` | expect.go:144 | With `WithExpectation(w)`, the returned counter is `w` itself, and `w`'s pending count has grown by this call's `Times`. |
| `Expect.PointerToStructRejected` | expect.go:74-78 | A pointer to a struct gets the kind error and nil, with nothing armed. This holds even when the hook name is already registered. |
| `Expect.ParseErrorReported` | expect.go:94-99 | A table-resolution error is reported and nil returned. The database is untouched. |
| `Expect.DuplicateNameRejected` | expect.go:122-142 | When the hook name is taken, the registration error is reported, nil is returned and the database is unchanged. The test has failed. |
| `Expect.UnknownKindNotRegistered` | expect.go:123-144 | A kind without a case registers nothing and still returns the armed counter. |
| `Expect.NilExpectationPanics` | expect.go:92 | A nil `WithExpectation` pointer panics exactly when validation has passed. |
| `Expect.HookNameParts` | expect.go:122 | A hook name holds the kind at a fixed position, followed by the table name. |
| `Expect.HookNamesCollideIffSameKindAndTable` | expect.go:122 | Two hook names coincide iff their kinds and their tables coincide. |
| `Expect.ExpectCreated` | expect.go:42-45 | On success the `create` processor gains `assert_create_<table>` after `gorm:after_create`. Every other processor keeps its callbacks. |
| `Expect.ExpectDeleted` | expect.go:48-51 | On success the `delete` processor gains `assert_delete_<table>` after `gorm:after_delete`. Every other processor keeps its callbacks. |
| `Expect.ExpectUpdated` | expect.go:54-57 | On success the `update` processor gains `assert_update_<table>` after `gorm:after_update`. Every other processor keeps its callbacks. |
| `Await.TimeoutIsLastSet` | await.go:38-44 | The timeout is the last `WithTimeout`. Without one, it is 30 seconds. |
| `Await.EnsureCompletion` | await.go:29-63 | A nil wait group reports one error and returns false. Otherwise the result is true iff the completion branch won. A timer win reports one error carrying the configured timeout. |
| `Await.OutcomeFollowsRace` | await.go:46-62 | The completion case is ready once the count reaches zero and the waiting goroutine has closed its channel. Both times are measured from the start of the `select`, where the timer is created. If the channel is ready before the timer fires, the result is true with no report. If it is ready after, or never, the result is false and the test has failed. |
| `Await.NonPositiveTimeoutFails` | await.go:58-61 | A zero or negative timeout against a wait group still pending when the `select` starts gives false and a failed test. |
| `Await.NilWaitGroupFails` | await.go:32-36 | A nil wait group gives false and a failed test, whatever the options. |
| `Memory.FoldByField` | memory.go:72-93 | Each option sets only its field. The name is the last `WithName`. Foreign keys are off iff some `WithoutForeignKeys` is given. The connection is singular iff some `WithSingularConnection` is given. |
| `Memory.DefaultsWithoutOptions` | memory.go:32-36 | The configuration equals the default (no name, foreign keys on, not singular) iff no option changed a field. |
| `Memory.ConnectionStringRoundTrip` | memory.go:38-42 | An empty name selects `:memory:`. Any other name is placed between `file:` and `?mode=memory&cache=shared`, and is recovered exactly from that string, so distinct names give distinct connection strings. |
| `Memory.NewMemoryDatabase` | memory.go:29-70 | Opening comes first. Nil is returned iff the open fails, or the foreign-key pragma is issued and fails. Each failure reports exactly one error. |
| `Memory.OpenFailureStopsEarly` | memory.go:44-49 | An open failure reports an error and returns nil before any statement is executed. |
| `Memory.SetupSteps` | memory.go:44-67 | After a successful open, the steps are exactly the following, in order. First the foreign-key pragma, iff foreign keys are not disabled; its failure gives nil and a failed test after just the open and the pragma. Then the connection limit of one, iff a singular connection is asked for. Last the WAL and busy-timeout pragmas. No other step is taken. |
| `Memory.TrailingPragmaErrorsIgnored` | memory.go:66-67 | Failures of the WAL and busy-timeout pragmas do not change the outcome. |
| `Scenarios.MatchingCallsOutcome` | expect.go:81-120 | For a create, delete or update hook with its own counter, after `n` matching statements `max(Times - n, 0)` stay pending. The test has failed iff the expectation is strict and `n > Times`. |
| `Scenarios.SecondExpectationCollides` | expect.go:122-142 | A second expectation for the same kind and table on the same database returns nil and fails the test. |
| `Scenarios.ExactCallsThenEnsureSucceeds` | await.go:55-57 | Exactly `Times` matching statements, then `EnsureCompletion` with a timeout longer than the waiting goroutine's delay in closing its channel: true, and the test has not failed. |
| `Scenarios.NoCallsTimesOut` | await.go:58-61 | No matching statement while one is expected: `EnsureCompletion` returns false and reports the configured timeout. |

## Left out

- The goroutine, the `select` and `time.After` in `EnsureCompletion`: the winning branch is an input. `Await.Admissible` states which winners the timing allows. The goroutine's delay between `Wait` returning and the channel closing is an input too.
- `sync.WaitGroup` internals:
  - A blocking `Wait` is not modelled.
  - Counts are unbounded integers. The 32-bit counter inside `sync.WaitGroup` is not modelled.
  - Only the panics of `Add` in `expectHook` are kept: on a nil pointer and on a negative count. The panic of `Done` is covered by the `AssertHooks.Invoke` line below.
- gorm's `Statement.Parse`: its answer is the input `TableResolution`.
- gorm's callback registry is not modelled. In its place, the model assumes that registering a name the processor already holds fails with an error. This rule is what the library's own test `TestExpectCreated_DuplicatedCallbackThrowsError` (`expect_test.go:79-97`) expects, not something taken from gorm's code. gorm's code is not part of this model, and it may only log a duplicate name. `Expect.DuplicateNameRejected` and `Scenarios.SecondExpectationCollides` hold only under this assumption. `Before`/`After` ordering is recorded but not enforced.
- `gorm.Open`, `Exec` and `SetMaxOpenConns`: their effects become steps, and their failures become inputs. The error of `database.DB()`, which the code discards, is not modelled.
- Concurrent hook dispatch racing on `timesCalled`: invocations are assumed to be serialised, and a run is a sequential fold.
- `t.Helper()`, which on a non-nil reporter only affects how stack frames are reported. The reporter is assumed non-nil. A nil `*testing.T` panics at the first `t.Helper()` of every entry point, before any check is made.
- How sqlite parses the connection string. The name is inserted unescaped, so a name containing `#` or `?` changes the meaning of the URI. For example, the parameters after a `#` are read as a fragment, so two such names may open the same database, and not in memory. Distinct names give distinct strings, but the model does not promise distinct databases.
- Message texts: reports carry structured `Reporting.Message` values, not formatted strings.
- AssertHooks.Invoke: does not model the panic of `Done` when the count would go below zero. A hook's own armed count never gets there (`AssertHooks.NeverCountsBelowZero`). Only code outside this model that also counts the shared wait group down could reach it.
- A nil closure among the variadic options, which would panic when the option is applied: the option datatypes have no nil value. The library's own option constructors never return nil.
- Hook invocations for several registered expectations sharing one wait group: a run covers one hook and its own pending count.
