/** The search results the vector store hands back, and how the formatter
    reads display text out of them. */
module SearchResults {
  import opened Wrappers
  import Priority

  /** What the formatter can observe of a result's `document` attribute:
      whether it has a `content` attribute, and its value. */
  datatype Document = Document(content: Option<string>)

  /** One raw result object as the formatter's duck-typing probes see it.
      The probes are independent: one object may answer several of them,
      which is why their order matters.
      - `document`: `hasattr(result, "document")`, with that attribute;
      - `content`: `hasattr(result, "content")`, with its value;
      - `mapping`: `isinstance(result, dict)`, with its entries;
      - `repr`: `str(result)`, opaque to the model. */
  datatype ResultObject = ResultObject(
    document: Option<Document>,
    content: Option<string>,
    mapping: Option<map<string, string>>,
    repr: string)

  /** The vector store's `search(query, limit)`: the results it returns,
      or the exception it raises. */
  type Store = (string, nat) -> Attempt<seq<ResultObject>>

  /** The document-count estimate both scripts make: the number of results
      of one search, or 0 when that search raises. */
  function ApproximateCount(outcome: Attempt<seq<ResultObject>>): (n: nat)
    ensures outcome.Raised? ==> n == 0
    ensures outcome.Returned? ==> n == |outcome.value|
  {
    match outcome
    case Returned(rs) => |rs|
    case Raised(_) => 0
  }

  /** The shape a result is read as, after the probes have been applied in
      priority order: a single tagged union for the code that formats results. */
  datatype SearchResult =
    | DocumentContent(text: string)
    | AttributeContent(text: string)
    | Mapping(entries: map<string, string>, repr: string)
    | Opaque(repr: string)

  predicate HasDocumentContent(o: ResultObject) {
    o.document.Some? && o.document.value.content.Some?
  }

  /** Reads a raw result as one shape; each shape is taken exactly when its
      probe answers and no earlier probe does. */
  function Classify(o: ResultObject): (r: SearchResult)
    ensures r.DocumentContent? <==> HasDocumentContent(o)
    ensures r.AttributeContent? <==> !HasDocumentContent(o) && o.content.Some?
    ensures r.Mapping? <==> !HasDocumentContent(o) && o.content.None? && o.mapping.Some?
    ensures r.Opaque? <==> !HasDocumentContent(o) && o.content.None? && o.mapping.None?
    ensures r.DocumentContent? ==> r.text == o.document.value.content.value
    ensures r.AttributeContent? ==> r.text == o.content.value
    ensures r.Mapping? ==> r.entries == o.mapping.value && r.repr == o.repr
    ensures r.Opaque? ==> r.repr == o.repr
  {
    if HasDocumentContent(o) then DocumentContent(o.document.value.content.value)
    else if o.content.Some? then AttributeContent(o.content.value)
    else if o.mapping.Some? then Mapping(o.mapping.value, o.repr)
    else Opaque(o.repr)
  }

  /** The text of one shape; a mapping without a `"content"` key falls back
      to the stringified result, as `dict.get` with a default does. */
  function ShapeText(r: SearchResult): string {
    match r
    case DocumentContent(t) => t
    case AttributeContent(t) => t
    case Mapping(m, repr) => if "content" in m then m["content"] else repr
    case Opaque(repr) => repr
  }

  /** The untruncated display text of a raw result. */
  function ContentOf(o: ResultObject): (c: string)
    ensures HasDocumentContent(o) ==> c == o.document.value.content.value
    ensures c == o.repr
         || (o.document.Some? && o.document.value.content == Some(c))
         || o.content == Some(c)
         || (o.mapping.Some? && "content" in o.mapping.value && o.mapping.value["content"] == c)
  {
    ShapeText(Classify(o))
  }

  /** The three probes that can supply text, highest priority first. */
  function Candidates(o: ResultObject): seq<Option<string>> {
    [ if HasDocumentContent(o) then o.document.value.content else None,
      o.content,
      if o.mapping.Some? then Some(if "content" in o.mapping.value then o.mapping.value["content"] else o.repr)
      else None ]
  }

  /** The extracted text is the first probe that supplies one, else the
      stringified result. */
  lemma ContentIsFirstPresent(o: ResultObject)
    ensures ContentOf(o) == Priority.FirstPresent(Candidates(o), o.repr)
  {
    var c := Candidates(o);
    var k := if c[0].Some? then 0 else if c[1].Some? then 1 else if c[2].Some? then 2 else 3;
    Priority.FirstPresentUnique(c, k);
  }

  /** Longest content shown unshortened. */
  const MaxContentLength: nat := 200
  const Ellipsis: string := "..."

  /** Shortens over-long content to its first 200 characters plus `"..."`. */
  function Truncate(c: string): (r: string)
    ensures |c| <= MaxContentLength ==> r == c
    ensures |c| > MaxContentLength ==>
      |r| == MaxContentLength + |Ellipsis| && r[..MaxContentLength] == c[..MaxContentLength]
      && r[MaxContentLength..] == Ellipsis
  {
    if |c| > MaxContentLength then c[..MaxContentLength] + Ellipsis else c
  }

  /** Truncating an already truncated text changes nothing. */
  lemma TruncateIdempotent(c: string)
    ensures Truncate(Truncate(c)) == Truncate(c)
  {
  }

  /** The text shown for one result. */
  function Display(o: ResultObject): (d: string)
    ensures |d| <= MaxContentLength + |Ellipsis|
    ensures var c := ContentOf(o); |c| <= MaxContentLength ==> d == c
  {
    Truncate(ContentOf(o))
  }
}
