/**
 * `EnsureCompletion`: wait for a wait group to reach zero, but no longer
 * than a timeout. The Go code races a goroutine blocked in `wg.Wait()`
 * against `time.After(timeout)`; here the branch of the `select` that won
 * is an input, and `Admissible` says which winners the timing allows.
 */
module Await {
  import opened Wrappers
  import opened Reporting
  import opened WaitGroups

  /** `time.Second`; durations are nanosecond counts like Go's `time.Duration`. */
  const Second: int := 1_000_000_000
  const DefaultTimeout: int := 30 * Second

  datatype EnsureOption = WithTimeout(timeout: int)

  datatype EnsureConfig = EnsureConfig(timeout: int)

  function Apply(c: EnsureConfig, o: EnsureOption): EnsureConfig {
    c.(timeout := o.timeout)
  }

  function Fold(c: EnsureConfig, options: seq<EnsureOption>): EnsureConfig
    decreases |options|
  {
    if |options| == 0 then c else Fold(Apply(c, options[0]), options[1..])
  }

  /** The configuration `EnsureCompletion` waits with. */
  function ConfigOf(options: seq<EnsureOption>): EnsureConfig {
    Fold(EnsureConfig(DefaultTimeout), options)
  }

  /** Reference reading of the options: the right-most timeout, if any. */
  function LastTimeout(options: seq<EnsureOption>): Option<int> {
    if |options| == 0 then None else Some(options[|options| - 1].timeout)
  }

  /** Only the last `WithTimeout` matters; without one the timeout is thirty seconds. */
  lemma {:induction false} TimeoutIsLastSet(c: EnsureConfig, options: seq<EnsureOption>)
    ensures Fold(c, options).timeout == LastTimeout(options).GetOr(c.timeout)
    ensures ConfigOf(options).timeout == LastTimeout(options).GetOr(30 * Second)
    decreases |options|
  {
    if |options| > 0 {
      TimeoutIsLastSet(Apply(c, options[0]), options[1..]);
      TimeoutIsLastSet(Apply(EnsureConfig(DefaultTimeout), options[0]), options[1..]);
      if |options| > 1 {
        assert options[1..][|options[1..]| - 1] == options[|options| - 1];
      }
    }
  }

  /** Which case of the `select` is taken. */
  datatype Branch = Completed | TimerFired

  datatype EnsureOutcome = EnsureOutcome(ok: bool, reports: seq<Entry>)

  /** `EnsureCompletion(t, wg, options...)`, given the branch that won the race. */
  function EnsureCompletion(reports: seq<Entry>, wg: Ref, options: seq<EnsureOption>, winner: Branch): (r: EnsureOutcome)
    ensures wg.Nil? ==> r == EnsureOutcome(false, reports + [Error(NilWaitGroup)])
    ensures wg.Group? ==> (r.ok <==> winner == Completed)
    ensures wg.Group? && winner == Completed ==> r.reports == reports
    ensures wg.Group? && winner == TimerFired ==>
              r.reports == reports + [Error(NotCompletedWithin(LastTimeout(options).GetOr(DefaultTimeout)))]
  {
    if wg.Nil? then EnsureOutcome(false, reports + [Error(NilWaitGroup)])
    else
      var config := ConfigOf(options);
      TimeoutIsLastSet(EnsureConfig(DefaultTimeout), options);
      match winner
      case Completed => EnsureOutcome(true, reports)
      case TimerFired => EnsureOutcome(false, reports + [Error(NotCompletedWithin(config.timeout))])
  }

  /**
   * When `time.After(timeout)` delivers, measured from the start of the
   * `select` that evaluates it: at once for a zero or negative duration.
   */
  function FiresAt(timeout: int): nat {
    if timeout <= 0 then 0 else timeout
  }

  /**
   * The winners the timing allows. `completesAt` is when the wait group's
   * count reaches zero, measured from the start of the `select` (None:
   * never); it is zero exactly when nothing is pending as the `select`
   * starts. The channel of the
   * `<-channel` case is closed only by the waiting goroutine after its
   * `Wait` returns, `delay` later, so that case is ready at
   * `completesAt + delay`. The timer runs independently. The case ready
   * first wins; when both are ready together Go's `select` may take either.
   */
  predicate Admissible(winner: Branch, pendingAtSelect: int, completesAt: Option<nat>, delay: nat, timeout: int) {
    && (pendingAtSelect == 0 <==> completesAt == Some(0))
    && (winner == Completed ==> completesAt.Some? && completesAt.value + delay <= FiresAt(timeout))
    && (winner == TimerFired ==> completesAt.None? || completesAt.value + delay >= FiresAt(timeout))
  }

  /**
   * The outcome follows the race: a channel ready before the timer gives
   * true with nothing reported; one ready after it, or never, gives false
   * and a failed test.
   */
  lemma OutcomeFollowsRace(reports: seq<Entry>, wg: Ref, options: seq<EnsureOption>, winner: Branch,
                           pendingAtSelect: int, completesAt: Option<nat>, delay: nat)
    requires wg.Group?
    requires Admissible(winner, pendingAtSelect, completesAt, delay, ConfigOf(options).timeout)
    ensures var r := EnsureCompletion(reports, wg, options, winner);
            var fire := FiresAt(ConfigOf(options).timeout);
            && (completesAt.Some? && completesAt.value + delay < fire ==> r.ok && r.reports == reports)
            && (completesAt.None? || completesAt.value + delay > fire ==> !r.ok && Failed(r.reports))
  {
    var r := EnsureCompletion(reports, wg, options, winner);
    if !r.ok {
      TimeoutIsLastSet(EnsureConfig(DefaultTimeout), options);
      ErrorFails(reports, NotCompletedWithin(ConfigOf(options).timeout));
    }
  }

  /**
   * A zero or negative timeout against a wait group that still has work
   * pending when the `select` starts gives false and a failed test,
   * whichever winner the timing allows.
   */
  lemma NonPositiveTimeoutFails(reports: seq<Entry>, wg: Ref, options: seq<EnsureOption>, winner: Branch,
                                pendingAtSelect: int, completesAt: Option<nat>, delay: nat)
    requires wg.Group? && pendingAtSelect != 0
    requires ConfigOf(options).timeout <= 0
    requires Admissible(winner, pendingAtSelect, completesAt, delay, ConfigOf(options).timeout)
    ensures !EnsureCompletion(reports, wg, options, winner).ok
    ensures Failed(EnsureCompletion(reports, wg, options, winner).reports)
  {
    OutcomeFollowsRace(reports, wg, options, winner, pendingAtSelect, completesAt, delay);
  }

  /** A nil wait group fails the test and gives false, whatever the options. */
  lemma NilWaitGroupFails(reports: seq<Entry>, options: seq<EnsureOption>, winner: Branch)
    ensures !EnsureCompletion(reports, Nil, options, winner).ok
    ensures Failed(EnsureCompletion(reports, Nil, options, winner).reports)
  {
    ErrorFails(reports, NilWaitGroup);
  }
}
