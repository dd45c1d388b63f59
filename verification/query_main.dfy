/** The entry point of the query script: which of its modes runs. */
module QueryMain {
  import opened Wrappers
  import Priority
  import opened SearchResults

  /** The parsed command-line flags of the query script. */
  datatype QueryFlags = QueryFlags(file: Option<string>, query: Option<string>, interactive: bool, stats: bool)

  /** The branch `main` takes. */
  datatype QueryCommand =
    | ConnectionFailed
    | ShowStats
    | RunFile(path: string)
    | RunQuery(question: string)
    | RunInteractive
    | QueryUsage

  /** `main`'s dispatch, given whether connecting to the store succeeded:
      a failed connection ends the run before any flag is looked at; then
      `--stats` wins over `--file`, `--file` over `--query`, `--query` over
      `--interactive`, and with none of them the usage text is shown. An
      empty `--file` or `--query` value counts as absent. */
  function QueryDispatch(flags: QueryFlags, connected: bool): (c: QueryCommand)
    ensures c == ConnectionFailed <==> !connected
    ensures c == ShowStats <==> connected && flags.stats
    ensures c.RunFile? <==> connected && !flags.stats && Truthy(flags.file)
    ensures c.RunQuery? <==> connected && !flags.stats && !Truthy(flags.file) && Truthy(flags.query)
    ensures c == RunInteractive <==>
      connected && !flags.stats && !Truthy(flags.file) && !Truthy(flags.query) && flags.interactive
    ensures c.RunFile? ==> c.path == flags.file.value
    ensures c.RunQuery? ==> c.question == flags.query.value
  {
    if !connected then ConnectionFailed
    else if flags.stats then ShowStats
    else if Truthy(flags.file) then RunFile(flags.file.value)
    else if Truthy(flags.query) then RunQuery(flags.query.value)
    else if flags.interactive then RunInteractive
    else QueryUsage
  }

  /** The flags as candidate commands, highest precedence first. */
  function QueryCandidates(flags: QueryFlags): seq<Option<QueryCommand>> {
    [ if flags.stats then Some(ShowStats) else None,
      if Truthy(flags.file) then Some(RunFile(flags.file.value)) else None,
      if Truthy(flags.query) then Some(RunQuery(flags.query.value)) else None,
      if flags.interactive then Some(RunInteractive) else None ]
  }

  /** Once connected, the command run is the highest-precedence flag given,
      else the usage text. */
  lemma QueryDispatchIsFirstFlag(flags: QueryFlags)
    ensures QueryDispatch(flags, true) == Priority.FirstPresent(QueryCandidates(flags), QueryUsage)
  {
    var c := QueryCandidates(flags);
    var k := if c[0].Some? then 0 else if c[1].Some? then 1 else if c[2].Some? then 2
      else if c[3].Some? then 3 else 4;
    Priority.FirstPresentUnique(c, k);
  }

  /** Result cap of the search `get_database_stats` counts. */
  const StatsLimit: nat := 10000

  /** `get_database_stats`: the number of results an empty-query search
      returns, or 0 when it raises. */
  function DatabaseStats(store: Store): (n: nat)
    ensures store("", StatsLimit).Raised? ==> n == 0
    ensures store("", StatsLimit).Returned? ==> n == |store("", StatsLimit).value|
  {
    ApproximateCount(store("", StatsLimit))
  }
}
