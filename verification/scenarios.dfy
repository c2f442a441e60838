/**
 * End-to-end behaviour of an expectation: register it with `expectHook`,
 * let the matching statements invoke its hook, then wait with
 * `EnsureCompletion`.
 */
module Scenarios {
  import opened Wrappers
  import opened Reporting
  import opened WaitGroups
  import opened ExpectOptions
  import opened AssertHooks
  import opened Registry
  import opened Expect
  import Await

  /** The hook state right after a successful `expectHook`: nothing called yet. */
  function StartOf(r: ExpectOutcome): HookState
    requires r.Returned? && r.counter.Group? && r.counter.id < |r.heap|
  {
    Fresh(r.heap[r.counter.id], r.reports)
  }

  /**
   * With its own fresh wait group, a create, delete or update expectation
   * that saw `n` matching statements leaves `max(Times - n, 0)` pending and
   * has failed the test exactly when it is strict and `n` exceeds `Times`.
   */
  lemma MatchingCallsOutcome(reports: seq<Entry>, heap: Heap, db: Option<Database>, model: ModelValue,
                             hook: string, options: seq<ExpectOption>, table: string, tables: seq<string>)
    requires Registrable(hook)
    requires SuppliedAddressable(heap, options) && LastExpectation(options).None?
    requires !Failed(reports)
    requires var r := ExpectHook(reports, heap, db, model, hook, options, Table(table));
             r.Returned? && r.counter != Nil
    ensures var r := ExpectHook(reports, heap, db, model, hook, options, Table(table));
            var c := ConfigOf(options);
            var n := Matches(table, tables);
            var s := Run(HookFor(table, c, r.counter.id), StartOf(r), tables);
            && c.times >= 0
            && s.pending == (if n < c.times then c.times - n else 0)
            && (Failed(s.reports) <==> WithoutMaximum !in options && n > c.times)
  {
    var r := ExpectHook(reports, heap, db, model, hook, options, Table(table));
    var c := ConfigOf(options);
    ConfigOfOptions(options);
    ArmsByTimes(reports, heap, db, model, hook, options, Table(table));
    assert r.counter == Group(|heap|);
    var h := HookFor(table, c, r.counter.id);
    DecrementsAtMostTimes(h, r.heap[r.counter.id], r.reports, tables);
    FailsIffStrictOverflow(h, r.heap[r.counter.id], r.reports, tables);
  }

  /**
   * Registering a second expectation for the same kind and table on the
   * database the first one returned fails: nil is returned and the test has
   * failed.
   */
  lemma SecondExpectationCollides(reports: seq<Entry>, heap: Heap, db: Option<Database>, model: ModelValue,
                                  hook: string, first: seq<ExpectOption>, second: seq<ExpectOption>, table: string)
    requires Registrable(hook)
    requires SuppliedAddressable(heap, first)
    requires var r := ExpectHook(reports, heap, db, model, hook, first, Table(table));
             r.Returned? && r.counter != Nil && SuppliedAddressable(r.heap, second)
    ensures var r := ExpectHook(reports, heap, db, model, hook, first, Table(table));
            var r2 := ExpectHook(r.reports, r.heap, r.db, model, hook, second, Table(table));
            r2.Panicked? || (r2.counter == Nil && Failed(r2.reports))
  {
    var r := ExpectHook(reports, heap, db, model, hook, first, Table(table));
    var cbs := CallbacksOf(r.db.value, hook);
    assert cbs[|cbs| - 1].name == HookName(hook, table);
    assert KindOf(model) == Struct;
    DuplicateNameRejected(r.reports, r.heap, r.db.value, model, hook, second, table);
  }

  /**
   * Exactly `Times` matching statements followed by `EnsureCompletion` with
   * a timeout longer than the waiting goroutine takes to close its channel:
   * the wait succeeds and the test has not failed.
   */
  lemma ExactCallsThenEnsureSucceeds(reports: seq<Entry>, heap: Heap, db: Option<Database>, model: ModelValue,
                                     hook: string, options: seq<ExpectOption>, table: string, tables: seq<string>,
                                     ensureOptions: seq<Await.EnsureOption>, winner: Await.Branch,
                                     completesAt: Option<nat>, delay: nat)
    requires Registrable(hook)
    requires SuppliedAddressable(heap, options) && LastExpectation(options).None?
    requires !Failed(reports)
    requires var r := ExpectHook(reports, heap, db, model, hook, options, Table(table));
             r.Returned? && r.counter != Nil
    requires Matches(table, tables) == ConfigOf(options).times
    requires Await.ConfigOf(ensureOptions).timeout > delay
    requires Await.Admissible(winner, 0, completesAt, delay, Await.ConfigOf(ensureOptions).timeout)
    ensures var r := ExpectHook(reports, heap, db, model, hook, options, Table(table));
            var s := Run(HookFor(table, ConfigOf(options), r.counter.id), StartOf(r), tables);
            var e := Await.EnsureCompletion(s.reports, r.counter, ensureOptions, winner);
            s.pending == 0 && e.ok && !Failed(e.reports)
  {
    MatchingCallsOutcome(reports, heap, db, model, hook, options, table, tables);
    var r := ExpectHook(reports, heap, db, model, hook, options, Table(table));
    var s := Run(HookFor(table, ConfigOf(options), r.counter.id), StartOf(r), tables);
    Await.OutcomeFollowsRace(s.reports, r.counter, ensureOptions, winner, 0, completesAt, delay);
  }

  /**
   * No matching statement at all while at least one is expected: whatever
   * the timing allows, `EnsureCompletion` times out, returns false and fails
   * the test.
   */
  lemma NoCallsTimesOut(reports: seq<Entry>, heap: Heap, db: Option<Database>, model: ModelValue,
                        hook: string, options: seq<ExpectOption>, table: string, tables: seq<string>,
                        ensureOptions: seq<Await.EnsureOption>, winner: Await.Branch, delay: nat)
    requires Registrable(hook)
    requires SuppliedAddressable(heap, options) && LastExpectation(options).None?
    requires !Failed(reports)
    requires var r := ExpectHook(reports, heap, db, model, hook, options, Table(table));
             r.Returned? && r.counter != Nil
    requires Matches(table, tables) == 0 && ConfigOf(options).times >= 1
    requires var r := ExpectHook(reports, heap, db, model, hook, options, Table(table));
             var s := Run(HookFor(table, ConfigOf(options), r.counter.id), StartOf(r), tables);
             Await.Admissible(winner, s.pending, None, delay, Await.ConfigOf(ensureOptions).timeout)
    ensures var r := ExpectHook(reports, heap, db, model, hook, options, Table(table));
            var s := Run(HookFor(table, ConfigOf(options), r.counter.id), StartOf(r), tables);
            var e := Await.EnsureCompletion(s.reports, r.counter, ensureOptions, winner);
            !e.ok && Failed(e.reports)
            && e.reports[|e.reports| - 1] == Error(NotCompletedWithin(Await.ConfigOf(ensureOptions).timeout))
  {
    MatchingCallsOutcome(reports, heap, db, model, hook, options, table, tables);
    var r := ExpectHook(reports, heap, db, model, hook, options, Table(table));
    var s := Run(HookFor(table, ConfigOf(options), r.counter.id), StartOf(r), tables);
    Await.OutcomeFollowsRace(s.reports, r.counter, ensureOptions, winner, s.pending, None, delay);
    Await.TimeoutIsLastSet(Await.EnsureConfig(Await.DefaultTimeout), ensureOptions);
  }
}
