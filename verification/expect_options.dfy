/**
 * The configuration of an expectation (`expectConfig`) and the functional
 * options that adjust it, applied left to right over the defaults.
 */
module ExpectOptions {
  import opened Wrappers
  import opened WaitGroups

  const DefaultTimesCalled: int := 1
  const DefaultStrict: bool := true

  /** `WithCalls(n)`, `WithExpectation(wg)` and `WithoutMaximum()`. */
  datatype ExpectOption =
    | WithCalls(times: int)
    | WithExpectation(expectation: Ref)
    | WithoutMaximum

  /**
   * Which wait group the expectation arms: the fresh one allocated with the
   * defaults, or the pointer some `WithExpectation` supplied (possibly nil).
   */
  datatype CounterChoice = FreshCounter | Supplied(ref: Ref)

  datatype ExpectConfig = ExpectConfig(times: int, strict: bool, expectation: CounterChoice)

  /** The defaults `expectHook` starts from: one call, strict, a fresh counter. */
  function Defaults(): (c: ExpectConfig)
    ensures c.times == 1 && c.strict && c.expectation == FreshCounter
  {
    ExpectConfig(DefaultTimesCalled, DefaultStrict, FreshCounter)
  }

  /** Running one option closure on the configuration. */
  function Apply(c: ExpectConfig, o: ExpectOption): ExpectConfig {
    match o
    case WithCalls(n) => c.(times := n)
    case WithExpectation(w) => c.(expectation := Supplied(w))
    case WithoutMaximum => c.(strict := false)
  }

  /** Every option closure run on the configuration, first to last. */
  function Fold(c: ExpectConfig, options: seq<ExpectOption>): ExpectConfig
    decreases |options|
  {
    if |options| == 0 then c else Fold(Apply(c, options[0]), options[1..])
  }

  /** The configuration an `Expect*` call works with. */
  function ConfigOf(options: seq<ExpectOption>): ExpectConfig {
    Fold(Defaults(), options)
  }

  /** Folding a concatenation is folding its parts one after the other. */
  lemma {:induction false} FoldAppend(c: ExpectConfig, a: seq<ExpectOption>, b: seq<ExpectOption>)
    ensures Fold(c, a + b) == Fold(Fold(c, a), b)
    decreases |a|
  {
    if |a| == 0 {
      assert a + b == b;
    } else {
      assert (a + b)[0] == a[0];
      assert (a + b)[1..] == a[1..] + b;
      FoldAppend(Apply(c, a[0]), a[1..], b);
    }
  }

  /** Reference reading of the options: the count of the right-most `WithCalls`, if any. */
  function LastCalls(options: seq<ExpectOption>): Option<int>
    decreases |options|
  {
    if |options| == 0 then None
    else if options[|options| - 1].WithCalls? then Some(options[|options| - 1].times)
    else LastCalls(options[..|options| - 1])
  }

  /** Reference reading of the options: the pointer of the right-most `WithExpectation`, if any. */
  function LastExpectation(options: seq<ExpectOption>): Option<Ref>
    decreases |options|
  {
    if |options| == 0 then None
    else if options[|options| - 1].WithExpectation? then Some(options[|options| - 1].expectation)
    else LastExpectation(options[..|options| - 1])
  }

  /** The last `WithCalls` wins; without one the count is the starting count. */
  lemma {:induction false} TimesIsLastCalls(c: ExpectConfig, options: seq<ExpectOption>)
    ensures Fold(c, options).times == LastCalls(options).GetOr(c.times)
    decreases |options|
  {
    if |options| > 0 {
      var init, last := options[..|options| - 1], options[|options| - 1];
      assert options == init + [last];
      FoldAppend(c, init, [last]);
      TimesIsLastCalls(c, init);
    }
  }

  /** The last `WithExpectation` wins; without one the starting choice stays. */
  lemma {:induction false} ExpectationIsLastSupplied(c: ExpectConfig, options: seq<ExpectOption>)
    ensures Fold(c, options).expectation ==
            (match LastExpectation(options)
             case Some(w) => Supplied(w)
             case None => c.expectation)
    decreases |options|
  {
    if |options| > 0 {
      var init, last := options[..|options| - 1], options[|options| - 1];
      assert options == init + [last];
      FoldAppend(c, init, [last]);
      ExpectationIsLastSupplied(c, init);
    }
  }

  /** Strictness is switched off by any `WithoutMaximum` and by nothing else. */
  lemma {:induction false} StrictUnlessWithoutMaximum(c: ExpectConfig, options: seq<ExpectOption>)
    ensures Fold(c, options).strict <==> c.strict && WithoutMaximum !in options
    decreases |options|
  {
    if |options| > 0 {
      StrictUnlessWithoutMaximum(Apply(c, options[0]), options[1..]);
      assert options == [options[0]] + options[1..];
    }
  }

  /** With no options an expectation is strict, expects one call and arms a fresh counter. */
  lemma NoOptionsGiveDefaults()
    ensures ConfigOf([]) == ExpectConfig(1, true, FreshCounter)
  {
  }

  /** The configuration an `Expect*` call sees, field by field. */
  lemma ConfigOfOptions(options: seq<ExpectOption>)
    ensures ConfigOf(options).times == LastCalls(options).GetOr(1)
    ensures ConfigOf(options).strict <==> WithoutMaximum !in options
    ensures LastExpectation(options).None? ==> ConfigOf(options).expectation == FreshCounter
    ensures LastExpectation(options).Some? ==>
              ConfigOf(options).expectation == Supplied(LastExpectation(options).value)
  {
    TimesIsLastCalls(Defaults(), options);
    StrictUnlessWithoutMaximum(Defaults(), options);
    ExpectationIsLastSupplied(Defaults(), options);
  }
}
