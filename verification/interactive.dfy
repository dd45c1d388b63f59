/** The read-search-print loop of `interactive_query_mode`. */
module Interactive {
  import Text
  import opened SearchResults
  import Questions

  /** The words that end the loop, compared after stripping and lower-casing. */
  const ExitWords: seq<string> := ["quit", "exit", "q"]

  /** What the loop does with one typed line. */
  datatype Action = Stop | Reprompt | Search(query: string)

  /** One turn's decision on a typed line. */
  function Classify(line: string): Action {
    var q := Text.Strip(line);
    if Text.Lower(q) in ExitWords then Stop
    else if q == "" then Reprompt
    else Search(q)
  }

  /** The line is stripped first; an exit word in any letter case stops
      the loop, an empty line asks again, and anything else is searched
      for exactly once, as stripped. A line of whitespace asks again. */
  lemma ClassifyDecision(line: string)
    ensures var q := Text.Strip(line); var a := Classify(line);
      && (a == Stop <==> Text.Lower(q) in ExitWords)
      && (a == Reprompt <==> Text.AllSpace(line))
      && (a.Search? <==> q != "" && Text.Lower(q) !in ExitWords)
      && (a.Search? ==> a.query == q && q != "")
  {
    Text.StripEmptyIff(line);
  }

  /** The letter case of an exit word does not matter, and surrounding
      whitespace is ignored. */
  lemma ExitWordsAnyCase()
    ensures Classify("quit") == Stop && Classify("Exit") == Stop && Classify("Q") == Stop
    ensures Classify("  QUIT ") == Stop
  {
    assert Text.Strip("quit") == "quit" && Text.Lower("quit") == "quit";
    assert Text.Strip("Exit") == "Exit" && Text.Lower("Exit") == "exit";
    assert Text.Strip("Q") == "Q" && Text.Lower("Q") == "q";
    assert Text.Strip("  QUIT ") == "QUIT" by {
      assert Text.Strip("  QUIT ") == Text.Strip(" QUIT ") == Text.Strip("QUIT ");
      assert Text.TrimEnd("QUIT ") == "QUIT";
    }
    assert Text.Lower("QUIT") == "quit";
  }

  /** Empty and whitespace-only lines only ask again. */
  lemma BlankLinesReprompt()
    ensures Classify("") == Reprompt && Classify(" \t ") == Reprompt
  {
  }

  /** One event of standard input: a typed line, or an interrupt (Ctrl-C). */
  datatype InputEvent = Typed(line: string) | Interrupt

  /** The event ends the loop. */
  predicate Ends(e: InputEvent) {
    e.Interrupt? || Classify(e.line) == Stop
  }

  /** The searches a run of events issues when none of them ends the loop. */
  function Queries(events: seq<InputEvent>): (qs: seq<string>)
    ensures |qs| <= |events|
  {
    if |events| == 0 then []
    else
      var last := events[|events| - 1];
      Queries(events[..|events| - 1])
        + (if last.Typed? && Classify(last.line).Search? then [Classify(last.line).query] else [])
  }

  /** Extending the events by one adds that event's search, if any. */
  lemma QueriesStep(events: seq<InputEvent>, n: nat)
    requires n < |events|
    ensures var e := events[n];
      Queries(events[..n + 1]) == Queries(events[..n])
        + (if e.Typed? && Classify(e.line).Search? then [Classify(e.line).query] else [])
  {
    assert events[..n + 1][..n] == events[..n];
  }

  /** `interactive_query_mode` over the events that arrive: it consumes
      events up to and including the first that ends the loop, issues one
      search per line that is neither blank nor an exit word, and prints
      each answer. When the events run out first the loop is still
      waiting (`stopped` is false). */
  method InteractiveQueryMode(store: Store, events: seq<InputEvent>)
    returns (searched: seq<string>, answers: seq<seq<string>>, consumed: nat, stopped: bool)
    ensures consumed <= |events|
    ensures stopped ==> consumed > 0 && Ends(events[consumed - 1])
    ensures forall k | 0 <= k < consumed && (k < consumed - 1 || !stopped) :: !Ends(events[k])
    ensures !stopped ==> consumed == |events|
    ensures searched == Queries(events[..consumed])
    ensures |answers| == |searched|
    ensures forall k | 0 <= k < |answers| ::
      answers[k] == Questions.FormattedAnswer(store, searched[k])
  {
    searched, consumed, stopped := [], 0, false;
    while consumed < |events|
      invariant consumed <= |events|
      invariant forall k | 0 <= k < consumed :: !Ends(events[k])
      invariant searched == Queries(events[..consumed])
    {
      var e := events[consumed];
      QueriesStep(events, consumed);
      if e.Interrupt? {
        consumed, stopped := consumed + 1, true;
        break;
      }
      var a := Classify(e.line);
      if a == Stop {
        consumed, stopped := consumed + 1, true;
        break;
      }
      if a.Search? {
        searched := searched + [a.query];
      }
      consumed := consumed + 1;
    }
    answers := seq(|searched|, k requires 0 <= k < |searched| => Questions.FormattedAnswer(store, searched[k]));
  }
}
