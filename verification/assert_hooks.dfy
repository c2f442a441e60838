/**
 * The callback `expectHook` registers (`assertHook`) and its effect on the
 * closure's call count, the armed wait group's pending count and the test
 * reporter. Hook invocations are taken to arrive one at a time, so a run
 * of the hook is a left fold over the table names of the statements that
 * triggered it.
 */
module AssertHooks {
  import opened Reporting

  /**
   * The closure's captured values: the resolved table, the configured
   * `Times` and `Strict`, and which wait group (by id) it counts down.
   */
  datatype AssertHook = AssertHook(table: string, times: int, strict: bool, counter: nat)

  /** `timesCalled`, the pending count of the armed wait group, and the reporter. */
  datatype HookState = HookState(timesCalled: nat, pending: int, reports: seq<Entry>)

  /** The line reported for the `called`-th matching call once `Times` is exceeded. */
  function OverflowEntry(h: AssertHook, called: nat): Entry {
    var m := CalledTooOften(h.table, h.times, called);
    if h.strict then Error(m) else Log(m)
  }

  /** One invocation of the hook by a statement on table `table`. */
  function Invoke(h: AssertHook, s: HookState, table: string): (r: HookState)
    ensures s.timesCalled <= r.timesCalled <= s.timesCalled + 1
    ensures s.pending - 1 <= r.pending <= s.pending
    ensures |s.reports| <= |r.reports| <= |s.reports| + 1 && r.reports[..|s.reports|] == s.reports
    ensures r.pending < s.pending ==> |r.reports| == |s.reports|
  {
    if table != h.table then s
    else
      var called := s.timesCalled + 1;
      if called <= h.times then s.(timesCalled := called, pending := s.pending - 1)
      else s.(timesCalled := called, reports := s.reports + [OverflowEntry(h, called)])
  }

  /** The hook invoked once per table name, in order. */
  function Run(h: AssertHook, s: HookState, tables: seq<string>): HookState
    decreases |tables|
  {
    if |tables| == 0 then s else Run(h, Invoke(h, s, tables[0]), tables[1..])
  }

  /** The hook state before any invocation: nothing called, nothing reported yet by the hook. */
  function Fresh(pending: int, reports: seq<Entry>): HookState {
    HookState(0, pending, reports)
  }

  // ---------------------------------------------------------------------
  // A closed form of a run, defined without reference to `Invoke`.
  // ---------------------------------------------------------------------

  /** How many of the statements touched `table`. */
  function Matches(table: string, tables: seq<string>): (n: nat)
    ensures n <= |tables|
    decreases |tables|
  {
    if |tables| == 0 then 0
    else (if tables[0] == table then 1 else 0) + Matches(table, tables[1..])
  }

  /** Among the first `called` matching calls, how many are within the budget `times`. */
  function Budget(times: int, called: nat): (b: nat)
    ensures b <= called
    ensures times >= 0 ==> b <= times
  {
    if times <= 0 then 0 else if called < times then called else times
  }

  /** The first call number past the budget, never below `from + 1`. */
  function FirstOver(times: int, from: nat): nat {
    if times > from then times + 1 else from + 1
  }

  /** The lines reported by the calls numbered `from + 1` up to `to`. */
  function Overflows(h: AssertHook, from: nat, to: nat): (es: seq<Entry>)
    ensures |es| == if to + 1 > FirstOver(h.times, from) then to + 1 - FirstOver(h.times, from) else 0
    ensures forall i :: 0 <= i < |es| ==> es[i] == OverflowEntry(h, FirstOver(h.times, from) + i)
  {
    var lo := FirstOver(h.times, from);
    if to + 1 <= lo then []
    else seq(to + 1 - lo, i requires 0 <= i < to + 1 - lo => OverflowEntry(h, lo + i))
  }

  /** Peeling off the first call of a stretch of calls. */
  lemma OverflowsStep(h: AssertHook, from: nat, to: nat)
    requires from < to
    ensures Overflows(h, from, to) ==
            (if from + 1 > h.times then [OverflowEntry(h, from + 1)] else []) + Overflows(h, from + 1, to)
  {
    var lhs := Overflows(h, from, to);
    var rhs := (if from + 1 > h.times then [OverflowEntry(h, from + 1)] else []) + Overflows(h, from + 1, to);
    assert |lhs| == |rhs|;
    forall i | 0 <= i < |lhs|
      ensures lhs[i] == rhs[i]
    {
      if from + 1 > h.times && i > 0 {
        assert rhs[i] == Overflows(h, from + 1, to)[i - 1];
      }
    }
  }

  /**
   * A run from any state, in closed form: `n` matching calls advance the
   * call count by `n`, count the wait group down once per call still within
   * `Times`, and report one line per call beyond it; other tables change
   * nothing.
   */
  lemma {:induction false} RunClosedForm(h: AssertHook, s: HookState, tables: seq<string>)
    ensures var n := Matches(h.table, tables);
            Run(h, s, tables) ==
            HookState(s.timesCalled + n,
                      s.pending - (Budget(h.times, s.timesCalled + n) - Budget(h.times, s.timesCalled)),
                      s.reports + Overflows(h, s.timesCalled, s.timesCalled + n))
    decreases |tables|
  {
    if |tables| > 0 {
      var s' := Invoke(h, s, tables[0]);
      RunClosedForm(h, s', tables[1..]);
      var n := Matches(h.table, tables);
      if tables[0] == h.table {
        OverflowsStep(h, s.timesCalled, s.timesCalled + n);
        assert s.reports + Overflows(h, s.timesCalled, s.timesCalled + n)
            == s'.reports + Overflows(h, s'.timesCalled, s.timesCalled + n);
      } else {
        assert s.reports + Overflows(h, s.timesCalled, s.timesCalled) == s.reports;
      }
    }
  }

  /** Invocations for another table leave the call count, pending count and reporter alone. */
  lemma OtherTablesIgnored(h: AssertHook, s: HookState, tables: seq<string>)
    requires forall i :: 0 <= i < |tables| ==> tables[i] != h.table
    ensures Run(h, s, tables) == s
  {
    RunClosedForm(h, s, tables);
    assert Matches(h.table, tables) == 0 by { NoMatches(h.table, tables); }
  }

  lemma {:induction false} NoMatches(table: string, tables: seq<string>)
    requires forall i :: 0 <= i < |tables| ==> tables[i] != table
    ensures Matches(table, tables) == 0
    decreases |tables|
  {
    if |tables| > 0 {
      NoMatches(table, tables[1..]);
    }
  }

  /**
   * After `n` matching calls the hook has counted its wait group down
   * exactly `min(n, Times)` times, never more than `Times`.
   */
  lemma DecrementsAtMostTimes(h: AssertHook, pending: int, reports: seq<Entry>, tables: seq<string>)
    requires h.times >= 0
    ensures var n := Matches(h.table, tables);
            var r := Run(h, Fresh(pending, reports), tables);
            && r.timesCalled == n
            && r.pending == pending - (if n < h.times then n else h.times)
            && r.pending >= pending - h.times
  {
    RunClosedForm(h, Fresh(pending, reports), tables);
  }

  /** A wait group armed with `Times` is never counted below zero by its hook. */
  lemma NeverCountsBelowZero(h: AssertHook, pending: int, reports: seq<Entry>, tables: seq<string>)
    requires 0 <= h.times <= pending
    ensures Run(h, Fresh(pending, reports), tables).pending >= 0
    ensures Run(h, Fresh(pending, reports), tables).pending == 0 <==>
            pending == h.times && Matches(h.table, tables) >= h.times
  {
    RunClosedForm(h, Fresh(pending, reports), tables);
  }

  /**
   * Each matching call past `Times` adds one line naming the table, `Times`
   * and that call's number; an error when strict, a log line otherwise.
   */
  lemma OverflowLines(h: AssertHook, pending: int, reports: seq<Entry>, tables: seq<string>)
    requires h.times >= 0
    ensures var n := Matches(h.table, tables);
            var r := Run(h, Fresh(pending, reports), tables);
            && |r.reports| == |reports| + (if n > h.times then n - h.times else 0)
            && r.reports[..|reports|] == reports
            && forall k :: |reports| <= k < |r.reports| ==>
                 && r.reports[k].message == CalledTooOften(h.table, h.times, h.times + 1 + k - |reports|)
                 && (r.reports[k].Error? <==> h.strict)
  {
    var n := Matches(h.table, tables);
    RunClosedForm(h, Fresh(pending, reports), tables);
    var r := Run(h, Fresh(pending, reports), tables);
    var extra := Overflows(h, 0, n);
    assert r.reports == reports + extra;
    forall k | |reports| <= k < |r.reports|
      ensures r.reports[k].message == CalledTooOften(h.table, h.times, h.times + 1 + k - |reports|)
      ensures r.reports[k].Error? <==> h.strict
    {
      assert r.reports[k] == extra[k - |reports|];
    }
  }

  /** The hook's lines fail the test exactly when it is strict and was called more than `Times` times. */
  lemma {:induction false} OverflowsFail(h: AssertHook, from: nat, to: nat)
    ensures Failed(Overflows(h, from, to)) <==> h.strict && |Overflows(h, from, to)| > 0
  {
    var es := Overflows(h, from, to);
    if h.strict && |es| > 0 {
      assert es[0].Error?;
    }
  }

  /**
   * Starting from a reporter that had not failed, a run fails it iff the hook
   * is strict and saw more matching calls than `Times` (and at least one).
   */
  lemma FailsIffStrictOverflow(h: AssertHook, pending: int, reports: seq<Entry>, tables: seq<string>)
    ensures var n := Matches(h.table, tables);
            Failed(Run(h, Fresh(pending, reports), tables).reports) <==>
            Failed(reports) || (h.strict && n > h.times && n > 0)
  {
    var n := Matches(h.table, tables);
    RunClosedForm(h, Fresh(pending, reports), tables);
    FailedAppend(reports, Overflows(h, 0, n));
    OverflowsFail(h, 0, n);
  }
}
