/** The ingest script: loading files into the store, the `--all` batch
    and its summary, and the choice of mode. */
module Ingest {
  import opened Wrappers
  import Priority
  import opened SearchResults

  datatype KnowledgeKind = CsvKnowledge | TextKnowledge

  /** Chunk size given to the semantic chunker for every file. */
  const ChunkSize: nat := 100

  /** What a loader asks of the knowledge framework: build a knowledge
      base over `path` with semantic chunking and upsert it. */
  datatype LoadRequest = LoadRequest(kind: KnowledgeKind, path: string, chunkSize: nat, upsert: bool)

  /** The world outside the script: which paths exist, what each load
      does, what deleting all documents does, and the store's search. */
  datatype Environment = Environment(
    pathExists: string -> bool,
    load: LoadRequest -> Attempt<()>,
    delete: Attempt<()>,
    store: Store)

  function Request(kind: KnowledgeKind, path: string): LoadRequest {
    LoadRequest(kind, path, ChunkSize, true)
  }

  /** `load_csv_knowledge` and `load_text_knowledge`: true when building
      and loading returned, false when anything in them raised. They never
      raise themselves. */
  function LoadKnowledge(env: Environment, kind: KnowledgeKind, path: string): bool
  {
    match env.load(Request(kind, path))
    case Returned(_) => true
    case Raised(_) => false
  }

  /** `clear_vector_db`: true when deleting returned, false when it raised. */
  function ClearVectorDb(env: Environment): bool
  {
    env.delete.Returned?
  }

  /** Result cap of the search `get_document_count` counts. */
  const CountLimit: nat := 1000000

  /** `get_document_count`: the number of results of an empty-query
      search, or 0 when that search raises. */
  function GetDocumentCount(env: Environment): (n: nat)
    ensures env.store("", CountLimit).Raised? ==> n == 0
    ensures env.store("", CountLimit).Returned? ==> n == |env.store("", CountLimit).value|
  {
    ApproximateCount(env.store("", CountLimit))
  }

  /** The running counters of the `--all` branch, and the loads issued. */
  datatype Tally = Tally(success: nat, total: nat, requests: seq<LoadRequest>)

  /** One sample file of the batch: a missing file is skipped without
      counting; a present file is counted and loaded, and counts as a
      success when its loader returns true. */
  function Step(env: Environment, t: Tally, kind: KnowledgeKind, path: string): Tally {
    if !env.pathExists(path) then t
    else
      var ok := LoadKnowledge(env, kind, path);
      Tally(t.success + (if ok then 1 else 0), t.total + 1, t.requests + [Request(kind, path)])
  }

  /** The loads a batch issues over `files`: one per existing file, in order. */
  function Attempted(env: Environment, files: seq<(KnowledgeKind, string)>): seq<LoadRequest> {
    if |files| == 0 then []
    else
      var (kind, path) := files[|files| - 1];
      Attempted(env, files[..|files| - 1]) + (if env.pathExists(path) then [Request(kind, path)] else [])
  }

  /** How many of `requests` load without raising. */
  function CountLoaded(env: Environment, requests: seq<LoadRequest>): (n: nat)
    ensures n <= |requests|
  {
    if |requests| == 0 then 0
    else
      var last := requests[|requests| - 1];
      CountLoaded(env, requests[..|requests| - 1]) + (if env.load(last).Returned? then 1 else 0)
  }

  /** Running `Step` over the files, one after another. */
  function Sweep(env: Environment, t: Tally, files: seq<(KnowledgeKind, string)>): Tally {
    if |files| == 0 then t
    else
      var (kind, path) := files[|files| - 1];
      Step(env, Sweep(env, t, files[..|files| - 1]), kind, path)
  }

  /** The counters after a sweep: the total grows by the number of loads
      issued, which are exactly the existing files' loads in file order,
      and successes grow by the number of those loads that returned. A
      failed load never stops later files from being attempted. */
  lemma {:induction false} SweepCounts(env: Environment, t: Tally, files: seq<(KnowledgeKind, string)>)
    ensures var r := Sweep(env, t, files);
      && r.requests == t.requests + Attempted(env, files)
      && r.total == t.total + |Attempted(env, files)|
      && r.success == t.success + CountLoaded(env, Attempted(env, files))
  {
    if |files| > 0 {
      var init := files[..|files| - 1];
      var (kind, path) := files[|files| - 1];
      SweepCounts(env, t, init);
      var a := Attempted(env, init);
      assert Attempted(env, files) == a + (if env.pathExists(path) then [Request(kind, path)] else []);
      assert Sweep(env, t, files) == Step(env, Sweep(env, t, init), kind, path);
      if env.pathExists(path) {
        var a' := a + [Request(kind, path)];
        assert a'[..|a'| - 1] == a;
        var ok := env.load(Request(kind, path)).Returned?;
        assert CountLoaded(env, a') == CountLoaded(env, a) + (if ok then 1 else 0);
        assert LoadKnowledge(env, kind, path) == ok;
        assert Sweep(env, t, files).success == Sweep(env, t, init).success + (if ok then 1 else 0);
      } else {
        assert Attempted(env, files) == a;
        assert Sweep(env, t, files) == Sweep(env, t, init);
      }
    }
  }

  const SampleCsv: string := "data/sample.csv"
  const SampleText: string := "data/sample.txt"

  /** The batch of `--all`: the sample CSV first, then the sample text. */
  const SampleFiles: seq<(KnowledgeKind, string)> := [(CsvKnowledge, SampleCsv), (TextKnowledge, SampleText)]

  /** The summary `--all` prints: the counters, the loads issued, the
      failure count when it is shown, and the document count. */
  datatype BatchReport = BatchReport(tally: Tally, failures: Option<nat>, documents: nat)

  /** The failure line of the summary: shown exactly when fewer loads
      succeeded than were attempted, giving the difference. */
  function FailureLine(t: Tally): (f: Option<nat>)
    ensures f.Some? <==> t.success < t.total
    ensures f.Some? ==> t.success + f.value == t.total
  {
    if t.success < t.total then Some(t.total - t.success) else None
  }

  /** The `--all` branch of `main`. */
  function IngestAll(env: Environment): BatchReport
  {
    var t := Sweep(env, Tally(0, 0, []), SampleFiles);
    BatchReport(t, FailureLine(t), GetDocumentCount(env))
  }

  /** The summary of `--all` in terms of the environment: a missing sample
      is neither counted nor loaded, the CSV load comes before the text
      load, the text file is attempted whatever became of the CSV, and
      0 <= successes <= attempts <= 2. */
  lemma IngestAllSummary(env: Environment)
    ensures var t := IngestAll(env).tally;
      && t.success <= t.total <= 2
      && t.total == (if env.pathExists(SampleCsv) then 1 else 0) + (if env.pathExists(SampleText) then 1 else 0)
      && t.success == (if env.pathExists(SampleCsv) && env.load(Request(CsvKnowledge, SampleCsv)).Returned? then 1 else 0)
                    + (if env.pathExists(SampleText) && env.load(Request(TextKnowledge, SampleText)).Returned? then 1 else 0)
      && t.requests == (if env.pathExists(SampleCsv) then [Request(CsvKnowledge, SampleCsv)] else [])
                     + (if env.pathExists(SampleText) then [Request(TextKnowledge, SampleText)] else [])
  {
    var files := SampleFiles;
    var csv := Request(CsvKnowledge, SampleCsv);
    var text := Request(TextKnowledge, SampleText);
    assert files[..1] == [(CsvKnowledge, SampleCsv)];
    assert files[..1][..0] == [];
    var first := if env.pathExists(SampleCsv) then [csv] else [];
    var second := if env.pathExists(SampleText) then [text] else [];
    assert Attempted(env, files[..1]) == first;
    assert Attempted(env, files) == first + second;
    var loaded := first + second;
    assert |first| <= 1;
    if |second| == 1 {
      assert loaded[..|loaded| - 1] == first;
    } else {
      assert loaded == first;
    }
    SweepCounts(env, Tally(0, 0, []), files);
  }

  /** The parsed command-line flags of the ingest script. */
  datatype IngestFlags = IngestFlags(csv: Option<string>, text: Option<string>, all: bool, clear: bool)

  /** The branch `main` takes. */
  datatype IngestCommand = Clear | All | LoadCsv(path: string) | LoadText(path: string) | IngestUsage

  /** `main`'s dispatch: `--clear` wins over `--all`, `--all` over `--csv`,
      `--csv` over `--text`, and with none of them the usage text is
      shown. An empty `--csv` or `--text` value counts as absent. */
  function IngestDispatch(flags: IngestFlags): (c: IngestCommand)
    ensures c == Clear <==> flags.clear
    ensures c == All <==> !flags.clear && flags.all
    ensures c.LoadCsv? <==> !flags.clear && !flags.all && Truthy(flags.csv)
    ensures c.LoadText? <==> !flags.clear && !flags.all && !Truthy(flags.csv) && Truthy(flags.text)
    ensures c.LoadCsv? ==> c.path == flags.csv.value
    ensures c.LoadText? ==> c.path == flags.text.value
  {
    if flags.clear then Clear
    else if flags.all then All
    else if Truthy(flags.csv) then LoadCsv(flags.csv.value)
    else if Truthy(flags.text) then LoadText(flags.text.value)
    else IngestUsage
  }

  function IngestCandidates(flags: IngestFlags): seq<Option<IngestCommand>> {
    [ if flags.clear then Some(Clear) else None,
      if flags.all then Some(All) else None,
      if Truthy(flags.csv) then Some(LoadCsv(flags.csv.value)) else None,
      if Truthy(flags.text) then Some(LoadText(flags.text.value)) else None ]
  }

  /** The command run is the highest-precedence flag given, else the usage text. */
  lemma IngestDispatchIsFirstFlag(flags: IngestFlags)
    ensures IngestDispatch(flags) == Priority.FirstPresent(IngestCandidates(flags), IngestUsage)
  {
    var c := IngestCandidates(flags);
    var k := if c[0].Some? then 0 else if c[1].Some? then 1 else if c[2].Some? then 2
      else if c[3].Some? then 3 else 4;
    Priority.FirstPresentUnique(c, k);
  }

  /** What one run of the ingest script did. */
  datatype IngestRun =
    | Cleared(ok: bool)
    | Batch(report: BatchReport)
    | Single(request: LoadRequest, ok: bool)
    | Usage

  /** `main` after the store is set up: clearing returns straight away
      and loads nothing; a single-file flag issues exactly one load. */
  function IngestMain(flags: IngestFlags, env: Environment): (r: IngestRun)
    ensures r.Cleared? <==> flags.clear
    ensures r.Cleared? ==> r.ok == env.delete.Returned?
    ensures r.Batch? <==> IngestDispatch(flags) == All
    ensures r.Batch? ==> r.report == IngestAll(env)
    ensures r.Single? ==> r.ok == env.load(r.request).Returned?
    ensures r.Single? && Truthy(flags.csv) ==> r.request == Request(CsvKnowledge, flags.csv.value)
    ensures r.Single? && !Truthy(flags.csv) && Truthy(flags.text) ==> r.request == Request(TextKnowledge, flags.text.value)
    ensures r.Usage? <==> IngestDispatch(flags) == IngestUsage
  {
    match IngestDispatch(flags)
    case Clear => Cleared(ClearVectorDb(env))
    case All => Batch(IngestAll(env))
    case LoadCsv(p) => Single(Request(CsvKnowledge, p), LoadKnowledge(env, CsvKnowledge, p))
    case LoadText(p) => Single(Request(TextKnowledge, p), LoadKnowledge(env, TextKnowledge, p))
    case IngestUsage => Usage
  }
}
