/**
 * `expectHook` and its three entry points `ExpectCreated`, `ExpectDeleted`
 * and `ExpectUpdated`: validate the inputs, fold the options over the
 * defaults, arm the wait group by `Times`, resolve the model's table and
 * register an `assert_<kind>_<table>` hook after gorm's own after-hook.
 */
module Expect {
  import opened Wrappers
  import opened Reporting
  import opened WaitGroups
  import opened ExpectOptions
  import opened AssertHooks
  import opened Registry

  /** The model value handed to `Expect*`, as far as `reflect` tells kinds apart. */
  datatype ModelValue =
    | StructValue(typeName: string)
    | PointerValue(target: ModelValue)
    | IntValue(i: int)
    | StringValue(s: string)
    | NilValue

  /** `reflect.Kind`, restricted to the kinds the model values above can have. */
  datatype Kind = Invalid | Int | String | Ptr | Struct

  /** The reflected kind of the model: a pointer is a pointer, whatever it points to. */
  function KindOf(m: ModelValue): (k: Kind)
    ensures k == Struct <==> m.StructValue?
    ensures m.PointerValue? ==> k == Ptr
  {
    match m
    case StructValue(_) => Struct
    case PointerValue(_) => Ptr
    case IntValue(_) => Int
    case StringValue(_) => String
    case NilValue => Invalid
  }

  /** The answer of gorm's `Statement.Parse(model)`: the table name or the error. */
  datatype TableResolution = Table(name: string) | ParseError(cause: string)

  /**
   * What `expectHook` leaves behind: the returned pointer (Nil on every
   * failure), the wait groups, the database with its callbacks, and the
   * reporter; or a panic of `WaitGroup.Add`.
   */
  datatype ExpectOutcome =
    | Returned(counter: Ref, heap: Heap, db: Option<Database>, reports: seq<Entry>)
    | Panicked

  const CreateKind: string := "create"
  const DeleteKind: string := "delete"
  const UpdateKind: string := "update"

  /** The hook kinds the registration `switch` has a case for. */
  predicate Registrable(hook: string) {
    hook == CreateKind || hook == DeleteKind || hook == UpdateKind
  }

  /** The callback name: `assert_`, the hook kind, an underscore, the table name. */
  function HookName(hook: string, table: string): string {
    "assert_" + hook + "_" + table
  }

  /** gorm's own callback the hook is placed after, e.g. `gorm:after_create`. */
  function AfterHook(hook: string): string {
    "gorm:after_" + hook
  }

  /** Every `WithExpectation` pointer is nil or names an allocated wait group. */
  predicate SuppliedAddressable(heap: Heap, options: seq<ExpectOption>) {
    forall o | o in options && o.WithExpectation? :: Addressable(heap, o.expectation)
  }

  /** The wait group a configuration arms, once the default one is allocated at `|heap|`. */
  function Target(heap: Heap, c: ExpectConfig): Ref {
    match c.expectation
    case FreshCounter => Group(|heap|)
    case Supplied(w) => w
  }

  /** The hook value the registered callback closes over. */
  function HookFor(table: string, c: ExpectConfig, counter: nat): AssertHook {
    AssertHook(table, c.times, c.strict, counter)
  }

  /** The pending count the armed wait group had before `Add`: zero for the fresh one. */
  function PendingBefore(heap: Heap, target: Ref): int {
    if target.Group? && target.id < |heap| then heap[target.id] else 0
  }

  /**
   * `expectHook(t, database, model, hook, options...)`. `resolution` is what
   * gorm's `Statement.Parse` answers for `model`.
   */
  function ExpectHook(reports: seq<Entry>, heap: Heap, db: Option<Database>, model: ModelValue,
                      hook: string, options: seq<ExpectOption>, resolution: TableResolution): (r: ExpectOutcome)
    requires SuppliedAddressable(heap, options)
    ensures db.None? ==> r == Returned(Nil, heap, db, reports + [Error(NilDatabase)])
    ensures db.Some? && KindOf(model) != Struct ==> r == Returned(Nil, heap, db, reports + [Error(NotAStruct)])
    ensures db.Some? && KindOf(model) == Struct && resolution.Table?
            && Target(heap, ConfigOf(options)) != Nil
            && PendingBefore(heap, Target(heap, ConfigOf(options))) + ConfigOf(options).times >= 0
            && (Registrable(hook) ==> !HasName(CallbacksOf(db.value, hook), HookName(hook, resolution.name)))
            ==> r.Returned? && r.counter == Target(heap, ConfigOf(options))
    ensures r.Returned? ==> |r.heap| >= |heap|
    ensures r.Returned? ==> r.db.Some? == db.Some?
    ensures r.Returned? && db.Some? ==>
              forall p :: p != hook ==> CallbacksOf(r.db.value, p) == CallbacksOf(db.value, p)
    ensures r.Returned? && r.counter != Nil ==> r.reports == reports && db.Some? && r.db.Some?
    ensures r.Returned? && r.counter != Nil ==> r.counter.id < |r.heap| && r.heap[r.counter.id] >= 0
    ensures r.Returned? && r.counter != Nil && Registrable(hook) ==>
              && resolution.Table?
              && CallbacksOf(r.db.value, hook) == CallbacksOf(db.value, hook) +
                   [Callback(HookName(hook, resolution.name), AfterHook(hook),
                             Assertion(HookFor(resolution.name, ConfigOf(options), r.counter.id)))]
    ensures r.Returned? && r.counter == Nil ==>
              |r.reports| == |reports| + 1 && r.reports[..|reports|] == reports && r.reports[|reports|].Error?
  {
    if db.None? then Returned(Nil, heap, db, reports + [Error(NilDatabase)])
    else if KindOf(model) != Struct then Returned(Nil, heap, db, reports + [Error(NotAStruct)])
    else
      var config := ConfigOf(options);
      var (heap1, _) := Allocate(heap);
      var target := Target(heap, config);
      assert Addressable(heap1, target) by {
        if config.expectation.Supplied? {
          ExpectationIsLastSupplied(Defaults(), options);
          LastExpectationIsAnOption(options);
        }
      }
      match Add(heap1, target, config.times)
      case None => Panicked
      case Some(armed) =>
        match resolution
        case ParseError(cause) => Returned(Nil, armed, db, reports + [Error(ParseFailed(cause))])
        case Table(table) =>
          if !Registrable(hook) then Returned(target, armed, db, reports)
          else
            var cb := Callback(HookName(hook, table), AfterHook(hook), Assertion(HookFor(table, config, target.id)));
            match Register(db.value, hook, cb)
            case Err(cause) => Returned(Nil, armed, db, reports + [Error(RegisterFailed(cause))])
            case Ok(db') => Returned(target, armed, Some(db'), reports)
  }

  /** A pointer picked by the last `WithExpectation` is one of the supplied pointers. */
  lemma {:induction false} LastExpectationIsAnOption(options: seq<ExpectOption>)
    requires LastExpectation(options).Some?
    ensures WithExpectation(LastExpectation(options).value) in options
    decreases |options|
  {
    if !options[|options| - 1].WithExpectation? {
      LastExpectationIsAnOption(options[..|options| - 1]);
    }
  }

  /** `ExpectCreated`: an expectation on inserts into the model's table. */
  function ExpectCreated(reports: seq<Entry>, heap: Heap, db: Option<Database>, model: ModelValue,
                         options: seq<ExpectOption>, resolution: TableResolution): (r: ExpectOutcome)
    requires SuppliedAddressable(heap, options)
    ensures r.Returned? && r.counter != Nil ==>
              && resolution.Table? && db.Some? && r.db.Some?
              && CallbacksOf(r.db.value, "create") == CallbacksOf(db.value, "create") +
                   [Callback("assert_create_" + resolution.name, "gorm:after_create",
                             Assertion(HookFor(resolution.name, ConfigOf(options), r.counter.id)))]
    ensures r.Returned? ==> r.db.Some? == db.Some?
    ensures r.Returned? && db.Some? ==>
              forall p :: p != "create" ==> CallbacksOf(r.db.value, p) == CallbacksOf(db.value, p)
  {
    assert "assert_" + CreateKind + "_" == "assert_create_";
    assert "gorm:after_" + CreateKind == "gorm:after_create";
    ExpectHook(reports, heap, db, model, CreateKind, options, resolution)
  }

  /** `ExpectDeleted`: an expectation on deletes from the model's table. */
  function ExpectDeleted(reports: seq<Entry>, heap: Heap, db: Option<Database>, model: ModelValue,
                         options: seq<ExpectOption>, resolution: TableResolution): (r: ExpectOutcome)
    requires SuppliedAddressable(heap, options)
    ensures r.Returned? && r.counter != Nil ==>
              && resolution.Table? && db.Some? && r.db.Some?
              && CallbacksOf(r.db.value, "delete") == CallbacksOf(db.value, "delete") +
                   [Callback("assert_delete_" + resolution.name, "gorm:after_delete",
                             Assertion(HookFor(resolution.name, ConfigOf(options), r.counter.id)))]
    ensures r.Returned? ==> r.db.Some? == db.Some?
    ensures r.Returned? && db.Some? ==>
              forall p :: p != "delete" ==> CallbacksOf(r.db.value, p) == CallbacksOf(db.value, p)
  {
    assert "assert_" + DeleteKind + "_" == "assert_delete_";
    assert "gorm:after_" + DeleteKind == "gorm:after_delete";
    ExpectHook(reports, heap, db, model, DeleteKind, options, resolution)
  }

  /** `ExpectUpdated`: an expectation on updates of the model's table. */
  function ExpectUpdated(reports: seq<Entry>, heap: Heap, db: Option<Database>, model: ModelValue,
                         options: seq<ExpectOption>, resolution: TableResolution): (r: ExpectOutcome)
    requires SuppliedAddressable(heap, options)
    ensures r.Returned? && r.counter != Nil ==>
              && resolution.Table? && db.Some? && r.db.Some?
              && CallbacksOf(r.db.value, "update") == CallbacksOf(db.value, "update") +
                   [Callback("assert_update_" + resolution.name, "gorm:after_update",
                             Assertion(HookFor(resolution.name, ConfigOf(options), r.counter.id)))]
    ensures r.Returned? ==> r.db.Some? == db.Some?
    ensures r.Returned? && db.Some? ==>
              forall p :: p != "update" ==> CallbacksOf(r.db.value, p) == CallbacksOf(db.value, p)
  {
    assert "assert_" + UpdateKind + "_" == "assert_update_";
    assert "gorm:after_" + UpdateKind == "gorm:after_update";
    ExpectHook(reports, heap, db, model, UpdateKind, options, resolution)
  }

  // ---------------------------------------------------------------------
  // Properties of expectHook
  // ---------------------------------------------------------------------

  /**
   * Once the inputs are valid, the wait group is armed by exactly `Times`
   * before the table is resolved: whether resolution or registration then
   * fails, the count has risen and no other wait group has changed. `Add`
   * panics on a nil pointer and on a count that would go negative.
   */
  lemma ArmsByTimes(reports: seq<Entry>, heap: Heap, db: Option<Database>, model: ModelValue,
                    hook: string, options: seq<ExpectOption>, resolution: TableResolution)
    requires SuppliedAddressable(heap, options)
    requires db.Some? && KindOf(model) == Struct
    ensures var c := ConfigOf(options);
            var t := Target(heap, c);
            var r := ExpectHook(reports, heap, db, model, hook, options, resolution);
            && (r.Panicked? <==> t.Nil? || PendingBefore(heap, t) + c.times < 0)
            && (r.Returned? ==>
                  && t.Group? && t.id <= |heap|
                  && |r.heap| == |heap| + 1
                  && r.heap[t.id] == PendingBefore(heap, t) + c.times
                  && (t.id != |heap| ==> r.heap[|heap|] == 0)
                  && forall j :: 0 <= j < |heap| && j != t.id ==> r.heap[j] == heap[j])
  {
    var c := ConfigOf(options);
    if c.expectation.Supplied? {
      ExpectationIsLastSupplied(Defaults(), options);
      LastExpectationIsAnOption(options);
    }
  }

  /**
   * `WithExpectation(w)` chains: the returned pointer is `w` itself and its
   * pending count has grown by this call's `Times`.
   */
  lemma WithExpectationChains(reports: seq<Entry>, heap: Heap, db: Option<Database>, model: ModelValue,
                              hook: string, options: seq<ExpectOption>, resolution: TableResolution, w: Ref)
    requires SuppliedAddressable(heap, options)
    requires LastExpectation(options) == Some(w)
    ensures var r := ExpectHook(reports, heap, db, model, hook, options, resolution);
            && (r.Returned? && r.counter != Nil ==> r.counter == w)
            && (r.Returned? && db.Some? && KindOf(model) == Struct ==>
                  w.Group? && w.id < |heap| && r.heap[w.id] == heap[w.id] + ConfigOf(options).times)
  {
    ExpectationIsLastSupplied(Defaults(), options);
    LastExpectationIsAnOption(options);
    if db.Some? && KindOf(model) == Struct {
      ArmsByTimes(reports, heap, db, model, hook, options, resolution);
    }
  }

  /**
   * A model that is not a struct value is refused before anything else,
   * pointers to structs included: the refusal is the kind error even when
   * the hook name is already registered, and no wait group is armed.
   */
  lemma PointerToStructRejected(reports: seq<Entry>, heap: Heap, db: Database, typeName: string,
                                hook: string, options: seq<ExpectOption>, resolution: TableResolution)
    requires SuppliedAddressable(heap, options)
    requires resolution.Table? && HasName(CallbacksOf(db, hook), HookName(hook, resolution.name))
    ensures ExpectHook(reports, heap, Some(db), PointerValue(StructValue(typeName)), hook, options, resolution)
            == Returned(Nil, heap, Some(db), reports + [Error(NotAStruct)])
  {
    assert KindOf(PointerValue(StructValue(typeName))) == Ptr;
  }

  /** A table-resolution error is reported and nil returned, after the wait group was armed. */
  lemma ParseErrorReported(reports: seq<Entry>, heap: Heap, db: Option<Database>, model: ModelValue,
                           hook: string, options: seq<ExpectOption>, cause: string)
    requires SuppliedAddressable(heap, options)
    requires db.Some? && KindOf(model) == Struct
    ensures var r := ExpectHook(reports, heap, db, model, hook, options, ParseError(cause));
            r.Panicked? || (r.counter == Nil && r.db == db && r.reports == reports + [Error(ParseFailed(cause))])
  {
  }

  /**
   * A hook name that the processor already holds makes registration fail:
   * the error is reported and nil returned, although the wait group is armed.
   */
  lemma DuplicateNameRejected(reports: seq<Entry>, heap: Heap, db: Database, model: ModelValue,
                              hook: string, options: seq<ExpectOption>, table: string)
    requires SuppliedAddressable(heap, options)
    requires KindOf(model) == Struct && Registrable(hook)
    requires HasName(CallbacksOf(db, hook), HookName(hook, table))
    ensures var r := ExpectHook(reports, heap, Some(db), model, hook, options, Table(table));
            && (r.Panicked? || (r.counter == Nil && r.db == Some(db) &&
                                r.reports == reports + [Error(RegisterFailed(HookName(hook, table)))]))
            && (r.Returned? ==> Failed(r.reports))
  {
    var r := ExpectHook(reports, heap, Some(db), model, hook, options, Table(table));
    if r.Returned? {
      ErrorFails(reports, RegisterFailed(HookName(hook, table)));
    }
  }

  /**
   * A hook kind outside create/delete/update has no case in the registration
   * switch: nothing is registered, yet the armed wait group is returned.
   */
  lemma UnknownKindNotRegistered(reports: seq<Entry>, heap: Heap, db: Option<Database>, model: ModelValue,
                                 hook: string, options: seq<ExpectOption>, table: string)
    requires SuppliedAddressable(heap, options)
    requires db.Some? && KindOf(model) == Struct && !Registrable(hook)
    ensures var r := ExpectHook(reports, heap, db, model, hook, options, Table(table));
            r.Panicked? || (r.counter == Target(heap, ConfigOf(options)) && r.counter != Nil &&
                            r.db == db && r.reports == reports)
  {
  }

  /** The kind sits at a fixed place in a hook name, and the table follows it. */
  lemma HookNameParts(hook: string, table: string)
    requires Registrable(hook)
    ensures |HookName(hook, table)| == 14 + |table|
    ensures HookName(hook, table)[7..13] == hook
    ensures HookName(hook, table)[14..] == table
  {
    var n := HookName(hook, table);
    assert n == "assert_" + hook + "_" + table;
    assert n[7..13] == hook;
    assert n[14..] == table;
  }

  /**
   * Two expectations get the same hook name exactly when they are for the
   * same kind and the same table, so only such a pair can collide.
   */
  lemma HookNamesCollideIffSameKindAndTable(k1: string, t1: string, k2: string, t2: string)
    requires Registrable(k1) && Registrable(k2)
    ensures HookName(k1, t1) == HookName(k2, t2) <==> k1 == k2 && t1 == t2
  {
    HookNameParts(k1, t1);
    HookNameParts(k2, t2);
  }

  /**
   * A nil pointer passed through `WithExpectation` (and not overridden by a
   * later one) makes `Add` panic once the inputs pass validation.
   */
  lemma NilExpectationPanics(reports: seq<Entry>, heap: Heap, db: Option<Database>, model: ModelValue,
                             hook: string, options: seq<ExpectOption>, resolution: TableResolution)
    requires SuppliedAddressable(heap, options)
    requires LastExpectation(options) == Some(Nil)
    ensures ExpectHook(reports, heap, db, model, hook, options, resolution).Panicked? <==>
            db.Some? && KindOf(model) == Struct
  {
    ExpectationIsLastSupplied(Defaults(), options);
    if db.Some? && KindOf(model) == Struct {
      ArmsByTimes(reports, heap, db, model, hook, options, resolution);
    }
  }
}
