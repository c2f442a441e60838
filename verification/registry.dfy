/**
 * The part of gorm's callback registry an expectation relies on: per
 * processor (`create`, `delete`, `update`, ...), the callbacks registered so
 * far, each under a name and placed after another callback. gorm itself is
 * not part of this model; that registering a name the processor already
 * holds is refused with an error is an assumed rule, the one the library's
 * duplicated-callback test (expect_test.go:79-97) expects, not a statement
 * about gorm's implementation.
 */
module Registry {
  import opened Wrappers
  import opened AssertHooks

  /** What runs when the callback fires: an expectation's hook, or anything else. */
  datatype Handler = Assertion(hook: AssertHook) | Foreign

  datatype Callback = Callback(name: string, after: string, handler: Handler)

  /** A `*gorm.DB` as far as callbacks go: processor name to its callbacks, in registration order. */
  datatype Database = Database(processors: map<string, seq<Callback>>)

  function CallbacksOf(db: Database, processor: string): seq<Callback> {
    if processor in db.processors then db.processors[processor] else []
  }

  predicate HasName(callbacks: seq<Callback>, name: string) {
    exists i :: 0 <= i < |callbacks| && callbacks[i].name == name
  }

  /**
   * `Callback().<Processor>().After(after).Register(name, fn)`: appends the
   * callback, or fails with the clashing name when it is already taken.
   */
  function Register(db: Database, processor: string, cb: Callback): (r: Result<Database, string>)
    ensures r.Err? <==> HasName(CallbacksOf(db, processor), cb.name)
    ensures r.Err? ==> r.error == cb.name
    ensures r.Ok? ==> CallbacksOf(r.value, processor) == CallbacksOf(db, processor) + [cb]
    ensures r.Ok? ==> forall p :: p != processor ==> CallbacksOf(r.value, p) == CallbacksOf(db, p)
  {
    var existing := CallbacksOf(db, processor);
    if HasName(existing, cb.name) then Err(cb.name)
    else Ok(Database(db.processors[processor := existing + [cb]]))
  }
}
