/** `VectorStoreDebugController`: the debug page's search and statistics handlers. Building
    the `SearchRequest` and running the similarity search are one oracle, since both the
    builder's argument checks and the search sit in Spring AI; what the controller itself
    does with the hits, and with a failure, is modelled. */
module VectorDebug {
  import opened Wrappers
  import opened Jvm
  import opened Text
  import opened Mvc

  // ---------------------------------------------------------------------------
  // Documents and their enrichment
  // ---------------------------------------------------------------------------

  /** What a metadata value is, as far as the casts `as? String` and `as? Number` can tell. */
  datatype MetaKind = TextKind | NumberKind | OtherKind

  /** A metadata value and its `toString()`; for a string that is the string itself. */
  datatype MetaValue = MetaValue(kind: MetaKind, rendered: string)

  /** A search hit: its text (possibly `null`) and its metadata, whose values may be `null`. */
  datatype Document = Document(text: Option<string>, metadata: map<string, Option<MetaValue>>)

  const ContentLimit: nat := 500
  const NoContent: string := "No content"
  const NotApplicable: string := "N/A"
  const DistanceKey: string := "distance"

  /** `metadata[key] as? String`. */
  function StringAt(d: Document, key: string): Option<string> {
    if key in d.metadata && d.metadata[key].Some? && d.metadata[key].value.kind == TextKind
    then Some(d.metadata[key].value.rendered)
    else None
  }

  /** `(metadata[key] as? Number)?.toString()`. */
  function NumberAt(d: Document, key: string): Option<string> {
    if key in d.metadata && d.metadata[key].Some? && d.metadata[key].value.kind == NumberKind
    then Some(d.metadata[key].value.rendered)
    else None
  }

  /** The body of the `results.map { … }` in `search`: the text cut to 500 characters, every
      metadata value rendered, and the distance as the score. */
  function Enrich(doc: Document): (r: DocumentResult)
    ensures doc.text.None? ==> r.content == NoContent
    ensures doc.text.Some? ==>
      && r.content <= doc.text.value
      && |r.content| == if |doc.text.value| <= ContentLimit then |doc.text.value| else ContentLimit
    ensures r.metadata.Keys == doc.metadata.Keys
    ensures forall k :: k in doc.metadata && doc.metadata[k].None? ==> r.metadata[k] == NotApplicable
    ensures forall k :: k in doc.metadata && doc.metadata[k].Some? ==> r.metadata[k] == doc.metadata[k].value.rendered
    ensures NumberAt(doc, DistanceKey).Some? ==> r.score == NumberAt(doc, DistanceKey).value
    ensures NumberAt(doc, DistanceKey).None? ==> r.score == NotApplicable
  {
    var content := match doc.text case Some(t) => Take(t, ContentLimit) case None => NoContent;
    var metadata := map k | k in doc.metadata :: match doc.metadata[k] case Some(v) => v.rendered case None => NotApplicable;
    DocumentResult(content, metadata, NumberAt(doc, DistanceKey).GetOr(NotApplicable))
  }

  /** A text of at most 500 characters is shown whole; a longer one is cut to exactly 500. */
  lemma EnrichKeepsShortText(doc: Document)
    requires doc.text.Some?
    ensures |doc.text.value| <= ContentLimit ==> Enrich(doc).content == doc.text.value
    ensures |doc.text.value| > ContentLimit ==> Enrich(doc).content == doc.text.value[..ContentLimit]
  {
    var r := Enrich(doc).content;
    assert r == doc.text.value[..|r|];
  }

  // ---------------------------------------------------------------------------
  // `distinct()` and `mapNotNull`
  // ---------------------------------------------------------------------------

  predicate NoDuplicates(xs: seq<string>) {
    forall i, j :: 0 <= i < j < |xs| ==> xs[i] != xs[j]
  }

  /** `distinct()` of `xs` with the elements of `seen` already taken: each element at its
      first occurrence, in order. */
  function DistinctAfter(xs: seq<string>, seen: set<string>): (r: seq<string>)
    ensures NoDuplicates(r)
    ensures forall x :: x in r <==> x in xs && x !in seen
    ensures |r| <= |xs|
  {
    if xs == [] then []
    else if xs[0] in seen then DistinctAfter(xs[1..], seen)
    else [xs[0]] + DistinctAfter(xs[1..], seen + {xs[0]})
  }

  /** `distinct()`. */
  function Distinct(xs: seq<string>): (r: seq<string>)
    ensures NoDuplicates(r)
    ensures forall x :: x in r <==> x in xs
    ensures |r| <= |xs|
  {
    DistinctAfter(xs, {})
  }

  /** Reading one more element appends it exactly when it has not been met before: the
      insertion-ordered set `distinct()` builds. */
  lemma {:induction false} DistinctAfterSnoc(xs: seq<string>, x: string, seen: set<string>)
    ensures DistinctAfter(xs + [x], seen) ==
      DistinctAfter(xs, seen) + (if x in xs || x in seen then [] else [x])
  {
    if xs == [] {
      assert xs + [x] == [x];
    } else {
      var head, tail := xs[0], xs[1..];
      assert xs == [head] + tail;
      assert (xs + [x])[0] == head;
      assert (xs + [x])[1..] == tail + [x];
      assert x in xs <==> x == head || x in tail;
      if head in seen {
        DistinctAfterSnoc(tail, x, seen);
      } else {
        var seen' := seen + {head};
        DistinctAfterSnoc(tail, x, seen');
        var extra := if x in tail || x in seen' then [] else [x];
        assert DistinctAfter(xs + [x], seen) == [head] + (DistinctAfter(tail, seen') + extra);
        assert [head] + (DistinctAfter(tail, seen') + extra) == ([head] + DistinctAfter(tail, seen')) + extra;
      }
    }
  }

  lemma DistinctSnoc(xs: seq<string>, x: string)
    ensures Distinct(xs + [x]) == Distinct(xs) + (if x in xs then [] else [x])
  {
    DistinctAfterSnoc(xs, x, {});
  }

  /** A list without repeats is its own `distinct()`. */
  lemma {:induction false} DistinctAfterOfNoDuplicates(xs: seq<string>, seen: set<string>)
    requires NoDuplicates(xs)
    requires forall i :: 0 <= i < |xs| ==> xs[i] !in seen
    ensures DistinctAfter(xs, seen) == xs
  {
    if xs != [] {
      assert forall i :: 0 < i < |xs| ==> xs[i] != xs[0];
      DistinctAfterOfNoDuplicates(xs[1..], seen + {xs[0]});
    }
  }

  /** `distinct()` is idempotent. */
  lemma DistinctIdempotent(xs: seq<string>)
    ensures Distinct(Distinct(xs)) == Distinct(xs)
  {
    DistinctAfterOfNoDuplicates(Distinct(xs), {});
  }

  /** `mapNotNull { it.metadata[key] as? String }`. */
  function StringsAt(docs: seq<Document>, key: string): (r: seq<string>)
    ensures |r| <= |docs|
    ensures forall s :: s in r <==> exists i :: 0 <= i < |docs| && StringAt(docs[i], key) == Some(s)
  {
    if docs == [] then []
    else
      var rest := StringsAt(docs[1..], key);
      assert forall i :: 0 < i < |docs| ==> docs[i] == docs[1..][i - 1];
      match StringAt(docs[0], key)
      case Some(s) => [s] + rest
      case None => rest
  }

  // ---------------------------------------------------------------------------
  // The handlers
  // ---------------------------------------------------------------------------

  /** The arguments of `SearchRequest.builder()`: query, `topK` and similarity threshold. */
  datatype SearchRequest = SearchRequest(query: string, topK: Int32, threshold: Double)

  /** What a handler leaves behind: its view, the model, and the searches it asked for. */
  datatype DebugPage = DebugPage(view: string, attrs: Attrs, searched: seq<SearchRequest>)

  /** Building a request and searching with it: the hits, or the exception either step throws. */
  type Searcher = SearchRequest -> Result<seq<Document>, Failure>

  const DebugView: string := "debug"
  const SearchErrorPrefix: string := "Error searching: "
  const StatsErrorPrefix: string := "Error fetching stats: "
  const StatsQuery: string := "airline loyalty program status qualification"
  const StatsRequest: SearchRequest := SearchRequest(StatsQuery, 100, PositiveZero)

  /** `search`: one search with the arguments as given; the hits are enriched one for one and
      in order, or the failure's message is shown. */
  function Search(query: string, topK: Int32, threshold: Double, search: Searcher): (p: DebugPage)
    ensures p.view == DebugView
    ensures p.searched == [SearchRequest(query, topK, threshold)]
    ensures search(SearchRequest(query, topK, threshold)).Err? ==>
      p.attrs == map["error" := Str(SearchErrorPrefix + MessageText(search(SearchRequest(query, topK, threshold)).error))]
    ensures search(SearchRequest(query, topK, threshold)).Ok? ==>
      var hits := search(SearchRequest(query, topK, threshold)).value;
      && p.attrs.Keys == {"query", "topK", "threshold", "results", "resultCount"}
      && p.attrs["query"] == Str(query)
      && p.attrs["topK"] == Count(topK as int)
      && p.attrs["threshold"] == Number(threshold)
      && p.attrs["results"].Results?
      && |p.attrs["results"].results| == |hits|
      && (forall i :: 0 <= i < |hits| ==> p.attrs["results"].results[i] == Enrich(hits[i]))
      && p.attrs["resultCount"] == Count(|hits|)
  {
    var request := SearchRequest(query, topK, threshold);
    var attrs := match search(request)
      case Err(e) => map["error" := Str(SearchErrorPrefix + MessageText(e))]
      case Ok(hits) =>
        map[
          "query" := Str(query),
          "topK" := Count(topK as int),
          "threshold" := Number(threshold),
          "results" := Results(seq(|hits|, i requires 0 <= i < |hits| => Enrich(hits[i]))),
          "resultCount" := Count(|hits|)
        ];
    DebugPage(DebugView, attrs, [request])
  }

  /** The `topK` Spring binds when the request leaves it out. */
  const DefaultTopK: Int32 := 5

  /** `search` as the web request reaches it: `topK` and `threshold` are optional request
      parameters, and an absent one is bound to its declared default, five hits and `0.0`. */
  function SearchRequested(query: string, topK: Option<Int32>, threshold: Option<Double>,
                           search: Searcher): (p: DebugPage)
    ensures |p.searched| == 1 && p.searched[0].query == query
    ensures p.searched[0].topK == (if topK.Some? then topK.value else DefaultTopK)
    ensures p.searched[0].threshold == (if threshold.Some? then threshold.value else PositiveZero)
    ensures search(p.searched[0]).Ok? ==>
      && "topK" in p.attrs && p.attrs["topK"] == Count(p.searched[0].topK as int)
      && "threshold" in p.attrs && p.attrs["threshold"] == Number(p.searched[0].threshold)
  {
    Search(query, topK.GetOr(DefaultTopK), threshold.GetOr(PositiveZero), search)
  }

  /** The statistics of a set of documents: the distinct string sources and titles among them,
      each listed once, and how many sources there are. */
  function StatsAttrs(docs: seq<Document>): (a: Attrs)
    ensures a.Keys == {"totalDocuments", "uniqueSources", "sources", "titles", "showStats"}
    ensures a["totalDocuments"] == Count(|docs|)
    ensures a["sources"].Strings?
    ensures a["sources"].strings == Distinct(StringsAt(docs, "source"))
    ensures a["uniqueSources"] == Count(|a["sources"].strings|)
    ensures a["uniqueSources"].count <= |docs|
    ensures NoDuplicates(a["sources"].strings)
    ensures forall s :: s in a["sources"].strings <==>
      exists i :: 0 <= i < |docs| && StringAt(docs[i], "source") == Some(s)
    ensures a["titles"].Strings?
    ensures a["titles"].strings == Distinct(StringsAt(docs, "title"))
    ensures NoDuplicates(a["titles"].strings)
    ensures forall s :: s in a["titles"].strings <==>
      exists i :: 0 <= i < |docs| && StringAt(docs[i], "title") == Some(s)
    ensures a["showStats"] == Flag(true)
  {
    var sources := Distinct(StringsAt(docs, "source"));
    map[
      "totalDocuments" := Count(|docs|),
      "uniqueSources" := Count(|sources|),
      "sources" := Strings(sources),
      "titles" := Strings(Distinct(StringsAt(docs, "title"))),
      "showStats" := Flag(true)
    ]
  }

  /** `getStats`: one broad search for up to 100 documents at threshold 0; the distinct string
      sources and titles among them, or the failure's message. */
  function Stats(search: Searcher): (p: DebugPage)
    ensures p.view == DebugView
    ensures p.searched == [StatsRequest]
    ensures search(StatsRequest).Err? ==>
      p.attrs == map["error" := Str(StatsErrorPrefix + MessageText(search(StatsRequest).error))]
    ensures search(StatsRequest).Ok? ==> p.attrs == StatsAttrs(search(StatsRequest).value)
  {
    var attrs := match search(StatsRequest)
      case Err(e) => map["error" := Str(StatsErrorPrefix + MessageText(e))]
      case Ok(docs) => StatsAttrs(docs);
    DebugPage(DebugView, attrs, [StatsRequest])
  }

  /** A failing search and a failing statistics run differ only in their prefix: both show
      the failure's message, `"null"` when it has none. */
  lemma NullMessageShown(search: Searcher, query: string, topK: Int32, threshold: Double)
    requires search(SearchRequest(query, topK, threshold)) == Err(Failure(None))
    requires search(StatsRequest) == Err(Failure(None))
    ensures Search(query, topK, threshold, search).attrs["error"] == Str("Error searching: null")
    ensures Stats(search).attrs["error"] == Str("Error fetching stats: null")
  {
  }
}
