/** The display lines `format_search_results` builds for one query. */
module Format {
  import opened Wrappers
  import Text
  import opened SearchResults

  /** One display line, before it is rendered to text. */
  datatype Line =
    | QueryLine(query: string, index: Option<int>)
    | NoResults
    | RetrievedLabel(number: int)
    | ContentLine(text: string)

  /** The single line shown when a search returns nothing. */
  const NoResultsText: string := "[検索結果が見つかりませんでした]"

  /** The exact text printed for a line: `"Query {i}: {q}"` when a question
      number is given, else `"Query: {q}"`; `"[Retrieved Document {k}]"`
      before the k-th result. */
  function Render(line: Line): string {
    match line
    case QueryLine(q, Some(i)) => "Query " + Text.IntToDecimal(i) + ": " + q
    case QueryLine(q, None) => "Query: " + q
    case NoResults => NoResultsText
    case RetrievedLabel(k) => "[Retrieved Document " + Text.IntToDecimal(k) + "]"
    case ContentLine(t) => t
  }

  /** Results with distinct numbers are introduced by distinct texts. */
  lemma LabelTextInjective(j: int, k: int)
    requires j != k
    ensures Render(RetrievedLabel(j)) != Render(RetrievedLabel(k))
  {
    if Render(RetrievedLabel(j)) == Render(RetrievedLabel(k)) {
      var p := "[Retrieved Document ";
      var dj := Text.IntToDecimal(j);
      var dk := Text.IntToDecimal(k);
      assert |dj| == |dk|;
      assert dj == Render(RetrievedLabel(j))[|p|..|p| + |dj|];
      assert dk == Render(RetrievedLabel(k))[|p|..|p| + |dk|];
      Text.IntToDecimalInjective(j, k);
      assert false;
    }
  }

  /** A label line followed by a content line for each result, numbered
      from `first` in input order. */
  function Blocks(results: seq<ResultObject>, first: int): seq<Line> {
    if |results| == 0 then []
    else [RetrievedLabel(first), ContentLine(Display(results[0]))] + Blocks(results[1..], first + 1)
  }

  /** The blocks have two lines per result: the j-th result's label,
      numbered `first + j`, then its display text. */
  lemma {:induction false} BlocksShape(results: seq<ResultObject>, first: int)
    ensures |Blocks(results, first)| == 2 * |results|
    ensures NoResults !in Blocks(results, first)
    ensures forall j | 0 <= j < |results| :: Blocks(results, first)[2 * j] == RetrievedLabel(first + j)
    ensures forall j | 0 <= j < |results| :: Blocks(results, first)[2 * j + 1] == ContentLine(Display(results[j]))
  {
    if |results| > 0 {
      var rest := Blocks(results[1..], first + 1);
      var head := [RetrievedLabel(first), ContentLine(Display(results[0]))];
      var lines := Blocks(results, first);
      assert lines == head + rest;
      BlocksShape(results[1..], first + 1);
      assert NoResults !in head;
      forall j | 1 <= j < |results|
        ensures lines[2 * j] == RetrievedLabel(first + j)
          && lines[2 * j + 1] == ContentLine(Display(results[j]))
      {
        assert results[j] == results[1..][j - 1];
        assert lines[2 * j] == rest[2 * (j - 1)];
        assert lines[2 * j + 1] == rest[2 * (j - 1) + 1];
      }
    }
  }

  /** Putting the header first shifts every block line down by one. */
  lemma HeaderThenBlocks(header: Line, results: seq<ResultObject>)
    requires header != NoResults
    ensures var out := [header] + Blocks(results, 1);
      && |out| == 1 + 2 * |results|
      && NoResults !in out
      && (forall j | 0 <= j < |results| :: out[2 * j + 1] == RetrievedLabel(j + 1))
      && (forall j | 0 <= j < |results| :: out[2 * j + 2] == ContentLine(Display(results[j])))
  {
    var blocks := Blocks(results, 1);
    var out := [header] + blocks;
    BlocksShape(results, 1);
    forall j | 0 <= j < |results|
      ensures out[2 * j + 1] == RetrievedLabel(j + 1) && out[2 * j + 2] == ContentLine(Display(results[j]))
    {
      assert blocks[2 * j] == RetrievedLabel(1 + j);
      assert blocks[2 * j + 1] == ContentLine(Display(results[j]));
      assert out[2 * j + 1] == blocks[2 * j] && out[2 * j + 2] == blocks[2 * j + 1];
    }
  }

  /** The header line, then either the no-results marker or one numbered
      block per result. */
  function FormatSearchResults(query: string, results: seq<ResultObject>, index: Option<int>): (out: seq<Line>)
    ensures |out| >= 2 && out[0] == QueryLine(query, index)
    ensures |results| == 0 ==> out == [QueryLine(query, index), NoResults]
    ensures |results| > 0 ==> |out| == 1 + 2 * |results| && NoResults !in out
    ensures |results| > 0 ==> forall j | 0 <= j < |results| ::
      out[2 * j + 1] == RetrievedLabel(j + 1)
    ensures |results| > 0 ==> forall j | 0 <= j < |results| ::
      out[2 * j + 2] == ContentLine(Display(results[j]))
  {
    if |results| == 0 then [QueryLine(query, index), NoResults]
    else
      HeaderThenBlocks(QueryLine(query, index), results);
      [QueryLine(query, index)] + Blocks(results, 1)
  }

  /** The formatted lines as the text the script prints. */
  function FormattedText(query: string, results: seq<ResultObject>, index: Option<int>): seq<string>
  {
    RenderAll(FormatSearchResults(query, results, index))
  }

  /** Each line rendered, in order. */
  function RenderAll(lines: seq<Line>): (text: seq<string>)
    ensures |text| == |lines|
  {
    if |lines| == 0 then []
    else RenderAll(lines[..|lines| - 1]) + [Render(lines[|lines| - 1])]
  }

  /** Rendering renders each line on its own, in order. */
  lemma {:induction false} RenderAllShape(lines: seq<Line>)
    ensures forall k | 0 <= k < |lines| :: RenderAll(lines)[k] == Render(lines[k])
  {
    if |lines| > 0 {
      var init := lines[..|lines| - 1];
      RenderAllShape(init);
      assert forall k | 0 <= k < |init| :: lines[k] == init[k];
    }
  }

  /** Every result of a non-empty answer is shown under a label of its own. */
  lemma LabelsDistinct(query: string, results: seq<ResultObject>, index: Option<int>, i: nat, j: nat)
    requires i < j < |results|
    ensures var text := FormattedText(query, results, index);
      text[2 * i + 1] != text[2 * j + 1]
  {
    LabelLine(query, results, index, i);
    LabelLine(query, results, index, j);
    DistinctLabelLines(FormattedText(query, results, index), i, j);
  }

  /** Lines that carry the labels of two different results differ. */
  lemma DistinctLabelLines(text: seq<string>, i: nat, j: nat)
    requires i < j && 2 * j + 1 < |text|
    requires text[2 * i + 1] == Render(RetrievedLabel(i + 1))
    requires text[2 * j + 1] == Render(RetrievedLabel(j + 1))
    ensures text[2 * i + 1] != text[2 * j + 1]
  {
    LabelTextInjective(i + 1, j + 1);
  }

  /** The printed label of result j is the rendering of its label line. */
  lemma LabelLine(query: string, results: seq<ResultObject>, index: Option<int>, j: nat)
    requires j < |results|
    ensures FormattedText(query, results, index)[2 * j + 1] == Render(RetrievedLabel(j + 1))
  {
    var out := FormatSearchResults(query, results, index);
    RenderAllShape(out);
    assert out[2 * j + 1] == RetrievedLabel(j + 1);
  }

  /** The printed header is `"Query {i}: {q}"` with a question number and
      `"Query: {q}"` without; an empty answer prints the header and the
      no-results text only; otherwise result j is printed as the label
      `"[Retrieved Document {j+1}]"` followed by its display text. */
  lemma RenderedLines(query: string, results: seq<ResultObject>, index: Option<int>)
    ensures var text := FormattedText(query, results, index);
      index.Some? ==> text[0] == "Query " + Text.IntToDecimal(index.value) + ": " + query
    ensures var text := FormattedText(query, results, index);
      index.None? ==> text[0] == "Query: " + query
    ensures |results| == 0 ==>
      FormattedText(query, results, index) == [Render(QueryLine(query, index)), NoResultsText]
    ensures |results| > 0 ==> |FormattedText(query, results, index)| == 1 + 2 * |results|
    ensures forall j | 0 <= j < |results| ::
      FormattedText(query, results, index)[2 * j + 1] == "[Retrieved Document " + Text.IntToDecimal(j + 1) + "]"
    ensures forall j | 0 <= j < |results| ::
      FormattedText(query, results, index)[2 * j + 2] == Display(results[j])
  {
    var out := FormatSearchResults(query, results, index);
    var text := FormattedText(query, results, index);
    RenderAllShape(out);
    assert text[0] == Render(out[0]);
    if |results| == 0 {
      assert text == [Render(out[0]), Render(out[1])];
    }
    forall j | 0 <= j < |results|
      ensures text[2 * j + 1] == "[Retrieved Document " + Text.IntToDecimal(j + 1) + "]"
      && text[2 * j + 2] == Display(results[j])
    {
      assert text[2 * j + 1] == Render(out[2 * j + 1]);
      assert text[2 * j + 2] == Render(out[2 * j + 2]);
    }
  }
}
