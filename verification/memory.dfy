/**
 * `NewMemoryDatabase`: fold the options, choose the sqlite connection
 * string, open the database and issue the setup statements. Opening and
 * executing are not performed; their failures are inputs, and the result
 * records the steps taken in order.
 */
module Memory {
  import opened Wrappers
  import opened Reporting

  /** `memoryDbConfig`; the zero value is the default. */
  datatype MemoryConfig = MemoryConfig(name: string, disableForeignKeys: bool, singularConnection: bool)

  datatype MemoryOption = WithoutForeignKeys | WithSingularConnection | WithName(name: string)

  const MemoryConnectionString: string := ":memory:"
  const SharedPrefix: string := "file:"
  const SharedSuffix: string := "?mode=memory&cache=shared"

  const ForeignKeysPragma: string := "PRAGMA foreign_keys = ON;"
  const JournalPragma: string := "PRAGMA journal_mode=WAL;"
  const BusyTimeoutPragma: string := "PRAGMA busy_timeout=10000;"

  function Defaults(): MemoryConfig {
    MemoryConfig("", false, false)
  }

  function Apply(c: MemoryConfig, o: MemoryOption): MemoryConfig {
    match o
    case WithoutForeignKeys => c.(disableForeignKeys := true)
    case WithSingularConnection => c.(singularConnection := true)
    case WithName(n) => c.(name := n)
  }

  function Fold(c: MemoryConfig, options: seq<MemoryOption>): MemoryConfig
    decreases |options|
  {
    if |options| == 0 then c else Fold(Apply(c, options[0]), options[1..])
  }

  function ConfigOf(options: seq<MemoryOption>): MemoryConfig {
    Fold(Defaults(), options)
  }

  /** Reference reading of the options: the right-most name, if any. */
  function LastName(options: seq<MemoryOption>): Option<string>
    decreases |options|
  {
    if |options| == 0 then None
    else if options[|options| - 1].WithName? then Some(options[|options| - 1].name)
    else LastName(options[..|options| - 1])
  }

  lemma {:induction false} FoldAppend(c: MemoryConfig, a: seq<MemoryOption>, b: seq<MemoryOption>)
    ensures Fold(c, a + b) == Fold(Fold(c, a), b)
    decreases |a|
  {
    if |a| == 0 {
      assert a + b == b;
    } else {
      assert (a + b)[0] == a[0];
      assert (a + b)[1..] == a[1..] + b;
      FoldAppend(Apply(c, a[0]), a[1..], b);
    }
  }

  /**
   * Each option sets only its own field: the name is the last `WithName`,
   * foreign keys are off once any `WithoutForeignKeys` is given, and the
   * connection is singular once any `WithSingularConnection` is given.
   */
  lemma {:induction false} FoldByField(c: MemoryConfig, options: seq<MemoryOption>)
    ensures Fold(c, options).name == LastName(options).GetOr(c.name)
    ensures Fold(c, options).disableForeignKeys <==> c.disableForeignKeys || WithoutForeignKeys in options
    ensures Fold(c, options).singularConnection <==> c.singularConnection || WithSingularConnection in options
    decreases |options|
  {
    if |options| > 0 {
      var init, last := options[..|options| - 1], options[|options| - 1];
      assert options == init + [last];
      FoldAppend(c, init, [last]);
      FoldByField(c, init);
    }
  }

  /** With no options: unnamed, foreign keys enforced, any number of connections. */
  lemma DefaultsWithoutOptions(options: seq<MemoryOption>)
    ensures ConfigOf(options) == Defaults() <==>
            LastName(options).GetOr("") == "" && WithoutForeignKeys !in options && WithSingularConnection !in options
  {
    FoldByField(Defaults(), options);
  }

  /** `:memory:` for an unnamed database, a shared-cache in-memory file URI otherwise. */
  function ConnectionString(name: string): string {
    if name == "" then MemoryConnectionString else SharedPrefix + name + SharedSuffix
  }

  /** Recovers the database name from a connection string built by `ConnectionString`. */
  function NameOf(connection: string): string {
    if |connection| >= |SharedPrefix| + |SharedSuffix|
       && connection[..|SharedPrefix|] == SharedPrefix
       && connection[|connection| - |SharedSuffix|..] == SharedSuffix
    then connection[|SharedPrefix|..|connection| - |SharedSuffix|]
    else ""
  }

  /** The connection string determines the name: distinct names give distinct connection strings. */
  lemma ConnectionStringRoundTrip(name: string)
    ensures NameOf(ConnectionString(name)) == name
    ensures name == "" <==> ConnectionString(name) == ":memory:"
  {
    var s := ConnectionString(name);
    if name != "" {
      assert s[..|SharedPrefix|] == SharedPrefix;
      assert s[|s| - |SharedSuffix|..] == SharedSuffix;
      assert s[|SharedPrefix|..|s| - |SharedSuffix|] == name;
    } else {
      assert MemoryConnectionString[0] != SharedPrefix[0];
    }
  }

  /** What `NewMemoryDatabase` does to the outside world, in order. */
  datatype Step = Open(connection: string) | Exec(sql: string) | SetMaxOpenConns(n: nat)

  /** The database handle returned, or nil; the steps taken; the reporter. */
  datatype MemoryOutcome = MemoryOutcome(db: Option<string>, steps: seq<Step>, reports: seq<Entry>)

  /**
   * `NewMemoryDatabase(t, options...)`. `openError` is the error of
   * `gorm.Open`, if any; `failing` holds the statements whose `Exec` fails.
   * The returned handle is identified by its connection string.
   */
  function NewMemoryDatabase(reports: seq<Entry>, options: seq<MemoryOption>,
                             openError: Option<string>, failing: set<string>): (r: MemoryOutcome)
    ensures |r.steps| > 0 && r.steps[0] == Open(ConnectionString(ConfigOf(options).name))
    ensures r.db.None? <==> openError.Some? || (!ConfigOf(options).disableForeignKeys && ForeignKeysPragma in failing)
    ensures r.db.Some? ==> r.db.value == ConnectionString(ConfigOf(options).name) && r.reports == reports
    ensures r.db.None? ==> |r.reports| == |reports| + 1 && r.reports[..|reports|] == reports && r.reports[|reports|].Error?
  {
    var config := ConfigOf(options);
    var connection := ConnectionString(config.name);
    var start := [Open(connection)];
    match openError
    case Some(e) => MemoryOutcome(None, start, reports + [Error(OpenFailed(e))])
    case None =>
      var pragma := if config.disableForeignKeys then [] else [Exec(ForeignKeysPragma)];
      if !config.disableForeignKeys && ForeignKeysPragma in failing then
        MemoryOutcome(None, start + pragma, reports + [Error(ExecFailed(ForeignKeysPragma))])
      else
        var limit := if config.singularConnection then [SetMaxOpenConns(1)] else [];
        MemoryOutcome(Some(connection), start + pragma + limit + [Exec(JournalPragma), Exec(BusyTimeoutPragma)], reports)
  }

  /** An open failure is reported before any statement is executed. */
  lemma OpenFailureStopsEarly(reports: seq<Entry>, options: seq<MemoryOption>, e: string, failing: set<string>)
    ensures var r := NewMemoryDatabase(reports, options, Some(e), failing);
            r.db.None? && |r.steps| == 1 && Failed(r.reports)
  {
    ErrorFails(reports, OpenFailed(e));
  }

  /**
   * After a successful open: the foreign-key pragma is issued exactly when
   * foreign keys are not disabled, right after the open; the connection
   * limit of one exactly when a singular connection is asked for, after the
   * pragma; the journal and busy-timeout pragmas come last whether or not
   * they fail; and no other step is taken.
   */
  lemma SetupSteps(reports: seq<Entry>, options: seq<MemoryOption>, failing: set<string>)
    ensures var r := NewMemoryDatabase(reports, options, None, failing);
            var fk := WithoutForeignKeys !in options;
            var single := WithSingularConnection in options;
            && (Exec(ForeignKeysPragma) in r.steps <==> fk)
            && (fk ==> |r.steps| >= 2 && r.steps[1] == Exec(ForeignKeysPragma))
            && (r.db.Some? ==>
                  && |r.steps| == 3 + (if fk then 1 else 0) + (if single then 1 else 0)
                  && (SetMaxOpenConns(1) in r.steps <==> single)
                  && (single ==> r.steps[if fk then 2 else 1] == SetMaxOpenConns(1))
                  && r.steps[|r.steps| - 2..] == [Exec(JournalPragma), Exec(BusyTimeoutPragma)])
            && (r.db.None? ==> fk && ForeignKeysPragma in failing && Failed(r.reports)
                               && |r.steps| == 2)
  {
    FoldByField(Defaults(), options);
    var r := NewMemoryDatabase(reports, options, None, failing);
    if r.db.None? {
      ErrorFails(reports, ExecFailed(ForeignKeysPragma));
    }
  }

  /** Failures of the journal and busy-timeout pragmas are ignored. */
  lemma TrailingPragmaErrorsIgnored(reports: seq<Entry>, options: seq<MemoryOption>,
                                    openError: Option<string>, failing: set<string>)
    ensures NewMemoryDatabase(reports, options, openError, failing) ==
            NewMemoryDatabase(reports, options, openError, failing - {JournalPragma, BusyTimeoutPragma})
  {
    assert ForeignKeysPragma != JournalPragma && ForeignKeysPragma != BusyTimeoutPragma;
  }
}
