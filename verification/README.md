# Vector-search query and ingest scripts, modelled in Dafny

This project models the two command-line scripts of a small retrieval demo
built on a pgvector-backed vector store:

- `src/query.py` answers questions with a similarity search. The questions
  come from a CSV file's `question` column, from a single `--query` value,
  or from an interactive loop. The script prints each answer as numbered,
  truncated result blocks. It can also print a rough document count
  (`--stats`).
- `src/ingest.py` loads a CSV or text file into the store with semantic
  chunking. It can also load both sample files with a success summary
  (`--all`) or clear the store (`--clear`).

The model keeps the scripts' decision logic and data flow. It leaves out
the printing, sleeping, network and framework calls. Everything outside the
scripts is a parameter:

- the vector store's `search(query, limit)` is a function `Store` from a
  query and limit to the results it returns or the exception it raises;
- file existence, each knowledge-base load and the store's `delete` are
  fields of an `Environment`;
- reading the CSV file is its outcome: the parsed `question` cells, or an
  exception;
- interactive input is a finite sequence of events: typed lines and
  interrupts.

A search result is what the formatter's duck-typed probes can observe:

- whether it has a `document` with a `content`;
- whether it has a `content` of its own;
- whether it is a mapping;
- its `str()`.

Several probes can answer for the same object, so the model adapts the
object into a single tagged union (`SearchResults.Classify`). It then
proves that the extracted text comes from the first probe that answers
(`SearchResults.ContentIsFirstPresent`). Both command dispatches are proved
against the same independent "first flag present" definition (module
`Priority`).

Modules, one file each:

- `wrappers.dfy` (`Wrappers`): option and return-or-raise outcomes, and
  Python string truthiness;
- `priority.dfy` (`Priority`): the first present value of a priority list;
- `text.dfy` (`Text`): ASCII `strip`, `lower` and decimal rendering of
  integers;
- `results.dfy` (`SearchResults`): result objects, content extraction and
  truncation;
- `format.dfy` (`Format`): `format_search_results`;
- `questions.dfy` (`Questions`): the CSV reader, `perform_search`,
  `query_single_question` and `query_from_csv`;
- `interactive.dfy` (`Interactive`): `interactive_query_mode`;
- `query_main.dfy` (`QueryMain`): the query script's `main` and
  `get_database_stats`;
- `ingest.dfy` (`Ingest`): the loaders, `clear_vector_db`,
  `get_document_count`, the `--all` batch and the ingest script's `main`.

Three behaviours of the code are easy to misread, and the model keeps
each one as written:

- **Blank questions.** `read_questions_from_csv` appends every stripped
  value, the empty string included (`src/query.py:39`). `query_from_csv`
  skips blank questions only when it searches (`src/query.py:113`). Its
  completion message still counts all of them (`src/query.py:118`).
  `Questions.BlankQuestionsKept`, `Questions.CsvCounts` and
  `Questions.BlankQuestionExample` state this behaviour.
- **Short CSV rows.** For a row that ends before the `question` column,
  the CSV reader gives `None` as the `question` value; a row that is short
  only after that column keeps its question. Stripping `None` raises, and the
  generic handler then drops every question of the file
  (`src/query.py:39`, `src/query.py:44-46`). `Questions.Collect` and
  `Questions.ReadQuestionsFromCsv` state that such a file yields no
  questions.
- **Empty flag values.** An empty `--file`, `--query`, `--csv` or `--text`
  value is falsy in Python, so it falls through to the next branch.

## Model

| member | source | states |
|---|---|---|
| Wrappers.Truthy | src/query.py:191-195 | Python truthiness of an optional string flag: present and non-empty |
| Text.IsSpace | src/query.py:39 | the whitespace set of ASCII `str.strip`: space, tab to carriage return, and 0x1C to 0x1F |
| Text.TrimEnd | src/query.py:39 | `str.rstrip` on ASCII whitespace, removing one trailing character at a time; its shape is stated by Text.TrimEndShape |
| Text.Strip | src/query.py:39 | `str.strip` on ASCII whitespace: leading characters removed one at a time, then the right end trimmed; its shape, idempotence and emptiness are stated by Text.StripShape, Text.StripIdempotent and Text.StripEmptyIff |
| Text.LowerChar | src/query.py:130 | `str.lower` on one character: ASCII capitals map to small letters, every other character is kept |
| Text.Lower | src/query.py:130 | `str.lower` on ASCII letters, character by character; stated by Text.LowerShape |
| Text.TrimEndShape | src/query.py:128 | right-stripping keeps a prefix of the input and removes only whitespace after it; the kept part does not end in whitespace |
| Text.StripShape | src/query.py:39 | stripping keeps the contiguous slice between the leading and the trailing whitespace; that slice neither starts nor ends with whitespace |
| Text.StripIdempotent | src/query.py:128 | stripping an already stripped line changes nothing |
| Text.StripEmptyIff | src/query.py:134-136 | a line strips to the empty string exactly when every character of it is whitespace |
| Text.LowerShape | src/query.py:130 | lower-casing keeps the length and maps each character independently |
| Text.NatToDecimal | src/query.py:85 | the rendering of a natural number is a non-empty digit string without a leading zero, except "0" itself |
| Text.DecimalRoundTrip | src/query.py:85 | reading the rendered digits back gives the original number |
| Text.IntToDecimal | src/query.py:63 | an integer's rendering is non-empty and starts with a minus sign exactly when the integer is negative |
| Text.NatToDecimalInjective | src/query.py:85 | distinct natural numbers render to distinct strings |
| Text.IntToDecimalInjective | src/query.py:63 | distinct integers render to distinct strings |
| Priority.FirstPresentIndex | src/query.py:72-79 | the chosen position holds a value, and no earlier position does |
| Priority.FirstPresentUnique | src/query.py:191-202 | any position that holds the first value of a priority list is the chosen one |
| SearchResults.ApproximateCount | src/query.py:156-163 | the count is the number of results a search returned, and 0 when the search raised |
| SearchResults.Classify | src/query.py:72-79 | a result is read as document content, attribute content, a mapping or an opaque object, each exactly when its probe answers and no earlier probe does; the payload is what that probe saw |
| SearchResults.ShapeText | src/query.py:72-79 | the text of each shape; a mapping without a "content" key falls back to the stringified result, as `dict.get` with a default does |
| SearchResults.ContentOf | src/query.py:72-79 | a document's content wins whenever present; otherwise the text is the direct content, the mapping's "content" entry, or the stringified result |
| SearchResults.ContentIsFirstPresent | src/query.py:72-79 | the extracted text equals the first probe that supplies one, with the stringified result as the fallback |
| SearchResults.Truncate | src/query.py:82-83 | text of at most 200 characters is unchanged; longer text becomes its first 200 characters followed by "...", 203 in all |
| SearchResults.TruncateIdempotent | src/query.py:82-83 | truncating already truncated text changes nothing |
| SearchResults.Display | src/query.py:72-83 | a displayed result is at most 203 characters long, and short content is shown unchanged |
| Format.LabelTextInjective | src/query.py:85 | label lines with different numbers have different texts |
| Format.BlocksShape | src/query.py:70-86 | the blocks hold two lines per result in input order: the result's label, numbered from the starting number, then its display text; there is no no-results marker among them |
| Format.HeaderThenBlocks | src/query.py:62-86 | with a header line in front, the j-th result's label is line 2j+1 with number j+1, and its text is line 2j+2 |
| Format.FormatSearchResults | src/query.py:59-88 | the first line is the query header, with or without a number; no results give exactly the header and the no-results marker; n results give 1+2n lines, 1-based labels in input order, each result's display text after its label, and no marker |
| Format.Render | src/query.py:63-86 | the exact printed text of each display line: "Query {i}: {q}", "Query: {q}", the no-results marker, "[Retrieved Document {k}]", or the content; stated by Format.RenderedLines and Format.LabelTextInjective |
| Format.Blocks | src/query.py:70-86 | a label line, then a content line, for each result in input order, numbered from the given start; stated by Format.BlocksShape |
| Format.FormattedText | src/query.py:95-98 | the printed lines of one answer: the formatted display lines, each rendered; stated by Format.RenderedLines and Format.LabelsDistinct |
| Format.RenderAll | src/query.py:97-98 | one printed text per display line |
| Format.RenderAllShape | src/query.py:97-98 | printed text k is the rendering of display line k |
| Format.LabelLine | src/query.py:85 | the printed label of result j is the rendering of its label line, numbered j+1 |
| Format.DistinctLabelLines | src/query.py:85 | two printed lines that carry the labels of different results differ |
| Format.LabelsDistinct | src/query.py:70-86 | in the printed text, different results are introduced by different label lines |
| Format.RenderedLines | src/query.py:62-86 | the printed header is "Query {i}: {q}" with a question number and "Query: {q}" without; an empty answer prints that header and the no-results text only; otherwise 1+2n lines are printed, result j as "[Retrieved Document {j+1}]" followed by its display text |
| Questions.QuestionTexts | src/query.py:37-39 | there are never more question values than rows |
| Questions.QuestionTextsMember | src/query.py:37-39 | a text is among the question values exactly when some row has that text in its question column |
| Questions.Collect | src/query.py:37-46 | reading fails exactly when some row has a missing question value; otherwise value k is the k-th raw question value, stripped |
| Questions.ReadQuestionsFromCsv | src/query.py:31-46 | an exception while reading gives no questions, and so does a row with a missing value; otherwise every row with a question value contributes its stripped value, in row order |
| Questions.BlankQuestionsKept | src/query.py:38-39 | a whitespace-only question is kept, as the empty string |
| Questions.PerformSearch | src/query.py:49-56 | the results are the store's results for the query with limit 1, and none when the search raises |
| Questions.FormattedAnswer | src/query.py:94-98 | the lines printed for one searched question: its search results formatted under a header without a question number |
| Questions.QuerySingleQuestion | src/query.py:91-98 | the separator, then the formatted answer; stated by Questions.SingleQuestionLines |
| Questions.SingleQuestionLines | src/query.py:91-98 | a single question prints the separator, then a header without a number, then at least one more line; when the search raises, that line is exactly the no-results marker |
| Questions.NonBlank | src/query.py:112-114 | the searched questions are non-blank questions taken from those read |
| Questions.SearchedPlusBlank | src/query.py:112-118 | every question read is either searched or blank |
| Questions.QueryFromCsv | src/query.py:101-118 | no questions gives the early return; otherwise the non-blank questions are searched once each, in order; each prints its single-question answer, and the completion count is the number of questions read, blanks included |
| Questions.BlankAfterStrip | src/query.py:37-39 | a stripped value is blank exactly when the raw value was whitespace only |
| Questions.CsvCounts | src/query.py:106-118 | for a file with no missing values, the completion count is the number of rows with a question value, and it exceeds the number of searches by the number of whitespace-only values |
| Questions.ExampleStrips | src/query.py:39 | the example's padded question strips to its inner text |
| Questions.ExampleTexts | src/query.py:37-39 | the example file's rows give the raw values "  What is X? ", "" and "How does Y work?" |
| Questions.ExampleRead | src/query.py:31-46 | reading the example file yields "What is X?", "" and "How does Y work?": the blank question is kept |
| Questions.BlankQuestionExample | src/query.py:106-118 | of the example's three questions two are searched, and the completion count is three |
| Interactive.Classify | src/query.py:128-136 | one turn's decision on a typed line: stop, re-prompt, or search the stripped line; stated by Interactive.ClassifyDecision |
| Interactive.Ends | src/query.py:130-132 | an event ends the loop when it is an interrupt or a line whose decision is to stop |
| Interactive.ClassifyDecision | src/query.py:128-136 | after stripping, an exit word in any letter case stops the loop; a whitespace-only line re-prompts; anything else is searched once, as stripped |
| Interactive.ExitWordsAnyCase | src/query.py:128-132 | "quit", "Exit", "Q" and "  QUIT " all stop the loop |
| Interactive.BlankLinesReprompt | src/query.py:134-136 | an empty line and a whitespace-only line re-prompt without searching |
| Interactive.Queries | src/query.py:126-145 | a run of events issues at most one search per event |
| Interactive.QueriesStep | src/query.py:126-145 | one more event adds that event's search, if it has one, and nothing else |
| Interactive.InteractiveQueryMode | src/query.py:121-152 | the loop consumes events up to and including the first interrupt or exit word, and stops there; without one it consumes all events and is still waiting; it searches once per searchable line in order, printing each formatted answer |
| QueryMain.QueryDispatch | src/query.py:178-202 | a failed connection ends the run first; then --stats wins over --file, --file over --query, and --query over --interactive; with none of them the usage text is shown; empty values count as absent; the chosen mode gets the flag's value |
| QueryMain.QueryDispatchIsFirstFlag | src/query.py:186-202 | once connected, the mode run is the first flag present in precedence order, else usage |
| QueryMain.DatabaseStats | src/query.py:154-163 | the statistic is the number of results of an empty-query search with limit 10000, or 0 when that search raises |
| Ingest.Request | src/ingest.py:40-49 | what a loader asks of the framework: a knowledge base of the given kind over the path, chunk size 100, loaded with upsert |
| Ingest.LoadKnowledge | src/ingest.py:34-79 | a loader returns true when building and loading returned, and false when either raised; it never raises itself; stated by Ingest.SweepCounts and Ingest.IngestMain |
| Ingest.ClearVectorDb | src/ingest.py:82-91 | true when deleting every document returned, false when it raised; stated by Ingest.IngestMain |
| Ingest.Step | src/ingest.py:128-144 | one sample file of the batch: a missing file changes nothing; a present file is counted and loaded, and is a success when its loader returns true |
| Ingest.Attempted | src/ingest.py:128-141 | the loads the batch issues: one per existing file, in file order |
| Ingest.Sweep | src/ingest.py:126-144 | the batch's steps run one after another over the files; stated by Ingest.SweepCounts |
| Ingest.IngestAll | src/ingest.py:122-154 | the --all branch: the counters after both samples, the failure line, and the document count; stated by Ingest.IngestAllSummary |
| Ingest.GetDocumentCount | src/ingest.py:94-101 | the count is the number of results of an empty-query search with limit 1000000, or 0 when that search raises |
| Ingest.CountLoaded | src/ingest.py:128-142 | no more loads succeed than are issued |
| Ingest.SweepCounts | src/ingest.py:126-144 | over the sample files, only existing files are loaded, in order, with chunk size 100 and upsert; each load adds one to the total, each load that returns adds one success, and a failed load does not stop the later ones |
| Ingest.FailureLine | src/ingest.py:149-151 | the failure line is shown exactly when fewer loads succeeded than were attempted, and it gives the difference |
| Ingest.IngestAllSummary | src/ingest.py:122-154 | --all attempts the sample CSV, then the sample text, each only if it exists; the total is the number of existing samples; the successes are the existing samples whose load returned; 0 <= successes <= total <= 2 |
| Ingest.IngestDispatch | src/ingest.py:118-171 | --clear wins over --all, --all over --csv, and --csv over --text; with none of them the usage text is shown; empty values count as absent; the chosen load gets the flag's path |
| Ingest.IngestDispatchIsFirstFlag | src/ingest.py:118-162 | the branch run is the first flag present in precedence order, else usage |
| Ingest.IngestMain | src/ingest.py:118-160 | --clear only deletes, and reports whether the deletion returned; --all runs the batch; --csv or --text issues exactly one load of that kind and path, and reports whether it returned; otherwise the usage text is shown |

## Left out

- All printing and the exact wording of messages are left out. The model
  keeps the lines a question's answer consists of, and whether the summary
  shows a failure line. The banners, progress messages and error messages
  are not modelled.
- `time.sleep` between CSV questions and between the two sample loads is
  left out. It affects timing only.
- Setting up the store is left out: the environment variables, `.env`
  loading and `PgVector` construction. The query script's connection
  attempt is a `connected` flag. The ingest script does not catch a
  failure in its setup (`src/ingest.py:115`), and that crash is not
  modelled.
- Argument parsing is left out. The parsed flags are the input, and
  argparse's own errors and `--help` are not modelled.
- CSV tokenisation and text decoding are left out. The reader's outcome is
  given as a parsed `question` cell per row, or as the exception it raised.
  A missing file and any other exception are both "no questions"; only the
  message differs.
- `str.strip` and `str.lower` are modelled on ASCII only. Python's Unicode
  whitespace beyond the ASCII separators, and non-ASCII case mapping, are
  not modelled.
- `str(result)` is opaque: a result's stringified form is part of its
  observable state.
- A result's content is taken to be a string: the document's content
  (`src/query.py:73`), the result's own content, and a mapping's "content"
  entry alike. Non-string content, such as a document content of `None`,
  would make `len` raise (`src/query.py:82`), or be printed through
  `str()`. That exception, and the interactive loop's generic handler that
  would catch it (`src/query.py:150-151`), are not modelled.
- QueryMain.DatabaseStats: the search limit is passed to the store but is
  not assumed to bound the number of results.
- Ingest.GetDocumentCount: the search limit is passed to the store but is
  not assumed to bound the number of results.
- Questions.QueryFromCsv: the store is a pure function of the query and
  the limit, so two searches for the same question get the same outcome.
  In the script, each search is a separate call (`src/query.py:51-56`): one
  call can raise and yield no results while another returns results. The
  same restriction holds for a question repeated in the interactive loop.
- Interactive.InteractiveQueryMode: an interrupt is modelled only in place
  of a typed line. In the script, a `KeyboardInterrupt` during the search or
  while printing is not caught by `except Exception` (`src/query.py:54`).
  It ends the loop (`src/query.py:147-149`) after the search was issued but
  before its answer is fully printed. The model gives every searched line
  its whole answer. The same per-call restriction on searches applies here.
- End of input in the interactive loop is not modelled. `input()` then
  raises `EOFError`, which the generic handler catches, so the loop prompts
  forever. The model treats input as a finite list of events, and running
  out of events leaves the loop still waiting.
- The knowledge framework's loading, semantic chunking and embedding are
  not modelled. A load is the outcome the environment gives for its
  request: kind, path, chunk size 100 and upsert.
