/** Questions read from a CSV file and answered one by one. */
module Questions {
  import opened Wrappers
  import Text
  import opened SearchResults
  import opened Format

  /** The `question` field of one parsed CSV row:
      - `NoQuestionColumn`: the row has no `question` key;
      - `NullQuestion`: the key is present with no value, as the CSV reader
        fills in for a row that ends before the `question` column;
      - `QuestionText`: the raw, unstripped value. */
  datatype QuestionCell = NoQuestionColumn | NullQuestion | QuestionText(text: string)

  /** The raw `question` values of the rows that have one, in row order. */
  function QuestionTexts(rows: seq<QuestionCell>): (texts: seq<string>)
    ensures |texts| <= |rows|
  {
    if |rows| == 0 then []
    else
      var last := rows[|rows| - 1];
      QuestionTexts(rows[..|rows| - 1]) + (if last.QuestionText? then [last.text] else [])
  }

  lemma {:induction false} QuestionTextsMember(rows: seq<QuestionCell>, s: string)
    ensures s in QuestionTexts(rows) <==> QuestionText(s) in rows
  {
    if |rows| > 0 {
      var init := rows[..|rows| - 1];
      QuestionTextsMember(init, s);
      assert rows == init + [rows[|rows| - 1]];
    }
  }

  /** The loop of `read_questions_from_csv`: strips each value, and fails
      (`None`) when stripping meets a missing value, which raises. */
  function Collect(rows: seq<QuestionCell>): (r: Option<seq<string>>)
    ensures r.None? <==> NullQuestion in rows
    ensures r.Some? ==> (|r.value| == |QuestionTexts(rows)|
      && forall k | 0 <= k < |r.value| :: r.value[k] == Text.Strip(QuestionTexts(rows)[k]))
  {
    if |rows| == 0 then Some([])
    else
      var init := rows[..|rows| - 1];
      var last := rows[|rows| - 1];
      assert rows == init + [last];
      match Collect(init)
      case None => None
      case Some(qs) =>
        match last
        case NullQuestion => None
        case NoQuestionColumn => Some(qs)
        case QuestionText(t) => Some(qs + [Text.Strip(t)])
  }

  /** `read_questions_from_csv`, given what reading the file produced: the
      parsed rows, or the exception opening, decoding or parsing raised.
      Any exception yields no questions at all; otherwise every row with a
      `question` value contributes its stripped value, blank or not. */
  function ReadQuestionsFromCsv(read: Attempt<seq<QuestionCell>>): (questions: seq<string>)
    ensures read.Raised? ==> questions == []
    ensures read.Returned? && NullQuestion in read.value ==> questions == []
    ensures read.Returned? && NullQuestion !in read.value ==>
      |questions| == |QuestionTexts(read.value)|
      && forall k | 0 <= k < |questions| :: questions[k] == Text.Strip(QuestionTexts(read.value)[k])
  {
    match read
    case Raised(_) => []
    case Returned(rows) =>
      match Collect(rows)
      case Some(qs) => qs
      case None => []
  }

  /** A row whose question is only whitespace still yields a question: the
      empty string. */
  lemma BlankQuestionsKept(rows: seq<QuestionCell>, s: string)
    requires NullQuestion !in rows && QuestionText(s) in rows && Text.AllSpace(s)
    ensures "" in ReadQuestionsFromCsv(Returned(rows))
  {
    QuestionTextsMember(rows, s);
    var texts := QuestionTexts(rows);
    var k :| 0 <= k < |texts| && texts[k] == s;
    Text.StripEmptyIff(s);
    assert ReadQuestionsFromCsv(Returned(rows))[k] == "";
  }

  /** Number of results `perform_search` asks for. */
  const DefaultLimit: nat := 1

  /** `perform_search`: the store's results for the query, or none when
      the search raises. */
  function PerformSearch(store: Store, query: string): (results: seq<ResultObject>)
    ensures store(query, DefaultLimit).Raised? ==> results == []
    ensures store(query, DefaultLimit).Returned? ==> results == store(query, DefaultLimit).value
  {
    match store(query, DefaultLimit)
    case Returned(rs) => rs
    case Raised(_) => []
  }

  const Separator: string := "---"

  /** The lines printed for one searched question: the formatted results
      under a header without a question number. */
  function FormattedAnswer(store: Store, question: string): seq<string> {
    FormattedText(question, PerformSearch(store, question), None)
  }

  /** `query_single_question`: a separator, then the formatted answer. */
  function QuerySingleQuestion(store: Store, question: string): seq<string> {
    [Separator] + FormattedAnswer(store, question)
  }

  /** A single question prints the separator and its header line; when the
      search raises, the answer is exactly the no-results marker. */
  lemma SingleQuestionLines(store: Store, question: string)
    ensures var lines := QuerySingleQuestion(store, question);
      && |lines| >= 3 && lines[0] == Separator && lines[1] == "Query: " + question
    ensures store(question, DefaultLimit).Raised? ==>
      QuerySingleQuestion(store, question) == [Separator, "Query: " + question, NoResultsText]
  {
    var out := FormatSearchResults(question, PerformSearch(store, question), None);
    RenderAllShape(out);
    assert FormattedAnswer(store, question)[0] == Render(out[0]);
  }

  /** The non-blank questions, in order: the ones that get searched. */
  function NonBlank(questions: seq<string>): (r: seq<string>)
    ensures |r| <= |questions|
    ensures forall q | q in r :: q != "" && q in questions
  {
    if |questions| == 0 then []
    else
      var last := questions[|questions| - 1];
      NonBlank(questions[..|questions| - 1]) + (if last != "" then [last] else [])
  }

  /** Number of blank questions. */
  function CountBlank(questions: seq<string>): nat {
    if |questions| == 0 then 0
    else CountBlank(questions[..|questions| - 1]) + (if questions[|questions| - 1] == "" then 1 else 0)
  }

  /** Every question is either searched or blank. */
  lemma {:induction false} SearchedPlusBlank(questions: seq<string>)
    ensures |NonBlank(questions)| + CountBlank(questions) == |questions|
  {
    if |questions| > 0 {
      SearchedPlusBlank(questions[..|questions| - 1]);
    }
  }

  /** What `query_from_csv` reports: nothing to do, or the questions it
      searched, the lines it printed for each, and the count in its
      completion message. */
  datatype CsvRun =
    | NoQuestions
    | Completed(searched: seq<string>, answers: seq<seq<string>>, processed: nat)

  /** `query_from_csv` over the questions read from the file: one search per
      non-blank question, in order; the completion count is the number of
      questions read, blanks included. */
  method QueryFromCsv(store: Store, questions: seq<string>) returns (run: CsvRun)
    ensures run.NoQuestions? <==> |questions| == 0
    ensures run.Completed? ==> run.processed == |questions|
    ensures run.Completed? ==> run.searched == NonBlank(questions)
    ensures run.Completed? ==> |run.answers| == |run.searched|
    ensures run.Completed? ==> forall k | 0 <= k < |run.answers| ::
      run.answers[k] == QuerySingleQuestion(store, run.searched[k])
  {
    if |questions| == 0 {
      return NoQuestions;
    }
    var searched: seq<string> := [];
    var answers: seq<seq<string>> := [];
    var i := 0;
    while i < |questions|
      invariant 0 <= i <= |questions|
      invariant searched == NonBlank(questions[..i])
      invariant |answers| == |searched|
      invariant forall k | 0 <= k < |answers| :: answers[k] == QuerySingleQuestion(store, searched[k])
    {
      var question := questions[i];
      assert questions[..i + 1][..i] == questions[..i];
      if question != "" {
        answers := answers + [QuerySingleQuestion(store, question)];
        searched := searched + [question];
      }
      i := i + 1;
    }
    assert questions[..i] == questions;
    run := Completed(searched, answers, |questions|);
  }

  /** Number of raw question values that are whitespace only. */
  function CountWhitespaceOnly(texts: seq<string>): nat {
    if |texts| == 0 then 0
    else CountWhitespaceOnly(texts[..|texts| - 1]) + (if Text.AllSpace(texts[|texts| - 1]) then 1 else 0)
  }

  /** Every raw value, stripped. */
  function StripAll(texts: seq<string>): seq<string>
  {
    seq(|texts|, k requires 0 <= k < |texts| => Text.Strip(texts[k]))
  }

  lemma {:induction false} BlankAfterStrip(texts: seq<string>)
    ensures CountBlank(StripAll(texts)) == CountWhitespaceOnly(texts)
  {
    if |texts| > 0 {
      var init := texts[..|texts| - 1];
      BlankAfterStrip(init);
      assert StripAll(texts)[..|texts| - 1] == StripAll(init);
      Text.StripEmptyIff(texts[|texts| - 1]);
    }
  }

  /** Reading then querying a file whose rows all have a value where they
      have the column: the completion count is the number of rows with a
      question, and it exceeds the number of searches by exactly the
      number of those questions that are whitespace only. */
  lemma CsvCounts(rows: seq<QuestionCell>)
    requires NullQuestion !in rows
    ensures var questions := ReadQuestionsFromCsv(Returned(rows));
      && |questions| == |QuestionTexts(rows)|
      && |questions| == |NonBlank(questions)| + CountWhitespaceOnly(QuestionTexts(rows))
  {
    var questions := ReadQuestionsFromCsv(Returned(rows));
    SearchedPlusBlank(questions);
    assert questions == StripAll(QuestionTexts(rows));
    BlankAfterStrip(QuestionTexts(rows));
  }

  /** A file with a padded question, a blank question and a plain one. */
  const ExampleRows: seq<QuestionCell> :=
    [QuestionText("  What is X? "), QuestionText(""), QuestionText("How does Y work?")]

  /** The raw question values of the example, in row order. */
  lemma ExampleTexts()
    ensures QuestionTexts(ExampleRows) == ["  What is X? ", "", "How does Y work?"]
  {
  }

  /** The example's questions, stripped. */
  lemma ExampleStrips()
    ensures Text.Strip("  What is X? ") == "What is X?"
    ensures Text.Strip("How does Y work?") == "How does Y work?"
  {
  }

  /** Reading the example yields all three questions, the blank one as the
      empty string. */
  lemma ExampleRead()
    ensures ReadQuestionsFromCsv(Returned(ExampleRows)) == ["What is X?", "", "How does Y work?"]
  {
    ExampleTexts();
    ExampleStrips();
  }

  /** Of the example's three questions, two are searched, and the
      completion count is three. */
  lemma BlankQuestionExample()
    ensures var questions := ReadQuestionsFromCsv(Returned(ExampleRows));
      && |questions| == 3
      && NonBlank(questions) == ["What is X?", "How does Y work?"]
  {
    ExampleRead();
    var questions: seq<string> := ["What is X?", "", "How does Y work?"];
    assert questions[..2][..1] == questions[..1];
    assert questions[..1][..0] == [];
  }
}
