/**
 * The test reporter (`*testing.T`) seen as an append-only log of entries.
 * `Error`/`Errorf` append an error entry and mark the test failed; `Log`
 * appends an entry that does not fail the test.
 */
module Reporting {

  /** What a reported line says; the Go code formats these as text. */
  datatype Message =
    | NilDatabase                                           // "database cannot be nil"
    | NotAStruct                                            // "model must be a struct"
    | ParseFailed(cause: string)                            // error from resolving the table name
    | RegisterFailed(cause: string)                         // error from the callback registry
    | CalledTooOften(table: string, times: int, called: nat) // over-invocation of a hook
    | NilWaitGroup                                          // "WithExpectation is nil"
    | NotCompletedWithin(timeout: int)                      // timeout, in nanoseconds
    | OpenFailed(cause: string)                             // error from opening a database
    | ExecFailed(cause: string)                             // error from executing a statement

  datatype Entry = Error(message: Message) | Log(message: Message)

  /** `t.Failed()`: some error entry has been reported. */
  predicate Failed(entries: seq<Entry>) {
    exists i :: 0 <= i < |entries| && entries[i].Error?
  }

  /** Failure of a log is failure of one of its parts. */
  lemma FailedAppend(a: seq<Entry>, b: seq<Entry>)
    ensures Failed(a + b) <==> Failed(a) || Failed(b)
  {
    if Failed(a) {
      var i :| 0 <= i < |a| && a[i].Error?;
      assert (a + b)[i] == a[i];
    }
    if Failed(b) {
      var i :| 0 <= i < |b| && b[i].Error?;
      assert (a + b)[|a| + i] == b[i];
    }
    if Failed(a + b) {
      var i :| 0 <= i < |a + b| && (a + b)[i].Error?;
      if i < |a| {
        assert a[i] == (a + b)[i];
      } else {
        assert b[i - |a|] == (a + b)[i];
      }
    }
  }

  /** Reporting one error always fails the test. */
  lemma ErrorFails(entries: seq<Entry>, m: Message)
    ensures Failed(entries + [Error(m)])
  {
    assert (entries + [Error(m)])[|entries|].Error?;
  }
}
