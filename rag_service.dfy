/** The retrieval service in front of a guideline collection: which retriever
    a configuration builds, how a per-call `top_k` temporarily overrides the
    retriever's `k`, and how retrieved documents are rendered as the
    guidelines text an agent reads. The vector store is an input: `invoke`
    and `search` stand for its answers, and a Failure for an exception. */
module RagService {
  import opened Wrappers
  import opened Text
  import opened Sequences

  // ---------------------------------------------------------------------
  // Documents
  // ---------------------------------------------------------------------

  /** A metadata value: text or a number. */
  datatype MetaValue = Str(s: string) | Num(x: real)

  /** A retrieved document: its text and its metadata dictionary. */
  datatype Document = Document(pageContent: string, metadata: map<string, MetaValue>)

  /** Python's float renderings: `f"{x:.3f}"` and `f"{x}"`. */
  datatype FloatFormat = FloatFormat(fixed3: real -> string, repr: real -> string)

  const NoResults: string := "No relevant guidelines found."
  const Header: string := "Retrieved Guidelines:\n\n"
  /** The ValueError that `:.3f` raises for a text score. */
  const ScoreFormatError: string := "Unknown format code 'f' for object of type 'str'"

  /** `m.get(key, d)`. */
  function GetOr(m: map<string, MetaValue>, key: string, d: MetaValue): MetaValue {
    if key in m then m[key] else d
  }

  /** `f"{v}"`. */
  function Render(v: MetaValue, ff: FloatFormat): string {
    match v
    case Str(s) => s
    case Num(x) => ff.repr(x)
  }

  /** The metadata carries a score other than the text "N/A". */
  predicate HasScore(d: Document) {
    GetOr(d.metadata, "score", Str("N/A")) != Str("N/A")
  }

  /** A score that `:.3f` cannot render: text other than "N/A". */
  predicate HasTextScore(d: Document) {
    HasScore(d) && d.metadata["score"].Str?
  }

  /** The source shown for a document, "Unknown" when it has none. */
  function Source(d: Document, ff: FloatFormat): string {
    Render(GetOr(d.metadata, "source", Str("Unknown")), ff)
  }

  /** The score tag of an entry: empty without a score. */
  function ScoreTag(d: Document, ff: FloatFormat): string {
    if HasScore(d) && d.metadata["score"].Num? then "[Score: " + ff.fixed3(d.metadata["score"].x) + "] " else ""
  }

  /** The `i`-th entry: its number, the optional score tag, the source on
      the first line, then the document text and a blank line. */
  function Entry(i: int, d: Document, ff: FloatFormat): string {
    IntToString(i) + ". " + ScoreTag(d, ff) + Source(d, ff) + "\n" + d.pageContent + "\n\n"
  }

  /** The entries of `docs`, numbered from 1. */
  function Entries(docs: seq<Document>, ff: FloatFormat): (es: seq<string>)
    ensures |es| == |docs|
  {
    seq(|docs|, k requires 0 <= k < |docs| => Entry(k + 1, docs[k], ff))
  }

  /** The guidelines text for `docs`, or the error formatting raises. */
  function Formatted(docs: seq<Document>, ff: FloatFormat): Result<string> {
    if |docs| == 0 then Success(NoResults)
    else if exists d :: d in docs && HasTextScore(d) then Failure(ScoreFormatError)
    else Success(Header + Concat(Entries(docs, ff)))
  }

  lemma {:induction false} ConcatSnoc(parts: seq<string>, last: string)
    ensures Concat(parts + [last]) == Concat(parts) + last
  {
    if |parts| > 0 {
      assert (parts + [last])[1..] == parts[1..] + [last];
      ConcatSnoc(parts[1..], last);
    }
  }

  lemma EntriesSnoc(docs: seq<Document>, i: nat, ff: FloatFormat)
    requires i < |docs|
    ensures Entries(docs[..i + 1], ff) == Entries(docs[..i], ff) + [Entry(i + 1, docs[i], ff)]
  {
    var a := Entries(docs[..i + 1], ff);
    var b := Entries(docs[..i], ff) + [Entry(i + 1, docs[i], ff)];
    assert |a| == |b|;
    forall k | 0 <= k < |a| ensures a[k] == b[k] {
      assert docs[..i + 1][k] == docs[k];
    }
  }

  lemma FormatStep(docs: seq<Document>, i: nat, ff: FloatFormat, formatted: string, entry: string)
    requires i < |docs| && entry == Entry(i + 1, docs[i], ff)
    requires formatted == Header + Concat(Entries(docs[..i], ff))
    ensures formatted + entry == Header + Concat(Entries(docs[..i + 1], ff))
  {
    EntriesSnoc(docs, i, ff);
    ConcatSnoc(Entries(docs[..i], ff), entry);
  }

  /** The loop that accumulates the guidelines text; it stops with the
      formatting error at the first document whose score is text. */
  method FormatResults(docs: seq<Document>, ff: FloatFormat) returns (r: Result<string>)
    ensures r == Formatted(docs, ff)
  {
    if |docs| == 0 {
      return Success(NoResults);
    }
    var formatted := Header;
    var i := 0;
    while i < |docs|
      invariant 0 <= i <= |docs|
      invariant NoTextScore(docs[..i])
      invariant formatted == Header + Concat(Entries(docs[..i], ff))
    {
      var d := docs[i];
      if HasTextScore(d) {
        assert d in docs;
        return Failure(ScoreFormatError);
      }
      var entry := Entry(i + 1, d, ff);
      FormatStep(docs, i, ff, formatted, entry);
      NoTextScoreStep(docs, i);
      formatted := formatted + entry;
      i := i + 1;
    }
    assert docs[..i] == docs;
    NoTextScoreMeaning(docs);
    return Success(formatted);
  }

  /** No document of `ds` has a text score. */
  predicate NoTextScore(ds: seq<Document>) {
    forall j :: 0 <= j < |ds| ==> !HasTextScore(ds[j])
  }

  lemma NoTextScoreStep(docs: seq<Document>, i: nat)
    requires i < |docs| && NoTextScore(docs[..i]) && !HasTextScore(docs[i])
    ensures NoTextScore(docs[..i + 1])
  {
    TakeOneMore(docs, i);
  }

  lemma NoTextScoreMeaning(docs: seq<Document>)
    requires NoTextScore(docs)
    ensures !exists d :: d in docs && HasTextScore(d)
  {
  }

  // ---------------------------------------------------------------------
  // Properties of the guidelines text
  // ---------------------------------------------------------------------

  /** Formatting fails exactly when some document's score is text other
      than "N/A"; documents without a score or with a numeric one format. */
  lemma FormattedFailsOnlyOnTextScore(docs: seq<Document>, ff: FloatFormat)
    ensures Formatted(docs, ff).Failure? <==> exists k :: 0 <= k < |docs| && HasTextScore(docs[k])
  {
    if exists k :: 0 <= k < |docs| && HasTextScore(docs[k]) {
      var k :| 0 <= k < |docs| && HasTextScore(docs[k]);
      assert docs[k] in docs;
    }
  }

  /** No documents: exactly the fixed message. Some documents: the header,
      which the fixed message does not start with. */
  lemma FormattedHeader(docs: seq<Document>, ff: FloatFormat)
    ensures docs == [] ==> Formatted(docs, ff) == Success(NoResults)
    ensures docs != [] && Formatted(docs, ff).Success? ==>
      Header <= Formatted(docs, ff).value && Formatted(docs, ff).value != NoResults
  {
    if docs != [] && Formatted(docs, ff).Success? {
      var t := Formatted(docs, ff).value;
      assert t[..|Header|] == Header;
      assert t[0] == 'R' != NoResults[0];
    }
  }

  lemma {:induction false} ConcatHoldsPart(parts: seq<string>, k: nat)
    requires k < |parts|
    ensures Contains(Concat(parts), parts[k])
  {
    if k == 0 {
      ContainsItself(parts[0]);
      ContainsInConcat([], parts[0], Concat(parts[1..]), parts[0]);
      assert [] + parts[0] + Concat(parts[1..]) == Concat(parts);
    } else {
      ConcatHoldsPart(parts[1..], k - 1);
      ContainsInConcat(parts[0], Concat(parts[1..]), [], parts[k]);
      assert parts[0] + Concat(parts[1..]) + [] == Concat(parts);
    }
  }

  /** Every document appears in the text as its own numbered entry, and its
      text with it. */
  lemma FormattedHoldsEveryDocument(docs: seq<Document>, ff: FloatFormat, k: nat)
    requires k < |docs| && Formatted(docs, ff).Success?
    ensures Contains(Formatted(docs, ff).value, Entry(k + 1, docs[k], ff))
    ensures Contains(Formatted(docs, ff).value, docs[k].pageContent)
  {
    var es := Entries(docs, ff);
    var e := Entry(k + 1, docs[k], ff);
    ConcatHoldsPart(es, k);
    ContainsInConcat(Header, Concat(es), [], e);
    assert Header + Concat(es) + [] == Formatted(docs, ff).value;
    var pre := IntToString(k + 1) + ". " + ScoreTag(docs[k], ff) + Source(docs[k], ff) + "\n";
    ContainsItself(docs[k].pageContent);
    ContainsInConcat(pre, docs[k].pageContent, "\n\n", docs[k].pageContent);
    ContainsTransitive(Formatted(docs, ff).value, e, docs[k].pageContent);
  }

  /** An entry is its number, a score tag, the source line and the text;
      the tag is present exactly when the document has a numeric score. */
  lemma EntryShape(i: int, d: Document, ff: FloatFormat)
    ensures Entry(i, d, ff) == IntToString(i) + ". " + ScoreTag(d, ff) + Source(d, ff) + "\n" + d.pageContent + "\n\n"
    ensures ScoreTag(d, ff) != "" <==> HasScore(d) && !HasTextScore(d)
    ensures ScoreTag(d, ff) != "" ==> "[Score: " <= ScoreTag(d, ff)
    ensures !("source" in d.metadata) ==> Source(d, ff) == "Unknown"
  {
  }

  // ---------------------------------------------------------------------
  // Retrievers
  // ---------------------------------------------------------------------

  /** The retrieval part of a configuration. */
  datatype RetrievalConfig = RetrievalConfig(retrieverType: string, topK: int, metadataFilter: map<string, string>)

  /** The vector-store retriever's `search_kwargs`. */
  datatype SearchKwargs = SearchKwargs(k: Option<int>, filter: Option<map<string, string>>)

  /** The plain vector-store retriever, or the reranking wrapper around one. */
  datatype Retriever =
    | Base(kwargs: SearchKwargs)
    | Compression(topN: int, base: SearchKwargs)

  /** `_create_retriever`: "naive" and "rerank" are the supported types,
      anything else is the ValueError. */
  function CreateRetriever(c: RetrievalConfig): (r: Result<Retriever>)
    ensures r.Success? <==> c.retrieverType == "naive" || c.retrieverType == "rerank"
    ensures r.Success? && c.retrieverType == "naive" ==> r.value.Base?
    ensures r.Success? && c.retrieverType == "rerank" ==> r.value.Compression? && r.value.topN == c.topK
    ensures r.Success? ==> BaseKwargs(r.value).k == Some(c.topK)
    ensures r.Success? ==> (BaseKwargs(r.value).filter.Some? <==> |c.metadataFilter| > 0)
    ensures r.Success? && |c.metadataFilter| > 0 ==> BaseKwargs(r.value).filter == Some(c.metadataFilter)
  {
    var kwargs := SearchKwargs(Some(c.topK), if |c.metadataFilter| > 0 then Some(c.metadataFilter) else None);
    if c.retrieverType == "naive" then Success(Base(kwargs))
    else if c.retrieverType == "rerank" then Success(Compression(c.topK, kwargs))
    else Failure("Unsupported retriever type: " + c.retrieverType)
  }

  /** The search arguments of the underlying vector-store retriever. */
  function BaseKwargs(r: Retriever): SearchKwargs {
    match r
    case Base(kw) => kw
    case Compression(_, kw) => kw
  }

  /** The default retrieval configuration builds a plain retriever asking
      for three documents, without a filter. */
  lemma DefaultConfigRetriever()
    ensures CreateRetriever(RetrievalConfig("naive", 3, map[])) == Success(Base(SearchKwargs(Some(3), None)))
  {
  }

  /** The AttributeError an override raises on the reranking wrapper. */
  const NoSearchKwargs: string := "'ContextualCompressionRetriever' object has no attribute 'search_kwargs'"

  /** What a retrieval returns: the retriever's answer, asked with `k`
      replaced by `top_k` when one is given. */
  function Invoked(ret: Retriever, query: string, topK: Option<int>, invoke: (Retriever, string) -> Result<seq<Document>>)
    : (r: Result<seq<Document>>)
    ensures topK.None? ==> r == invoke(ret, query)
    ensures topK.Some? && ret.Base? ==> r == invoke(Base(SearchKwargs(topK, ret.kwargs.filter)), query)
    ensures topK.Some? && ret.Compression? ==> r.Failure?
  {
    if topK.None? then invoke(ret, query)
    else match ret
      case Compression(_, _) => Failure(NoSearchKwargs)
      case Base(kw) => invoke(Base(kw.(k := topK)), query)
  }

  /** The retrieval service. `invoke(r, q)` is what retriever `r` returns
      for query `q`; `search(q, k)` is the store's scored top-`k` search. */
  class RAGService {
    const config: RetrievalConfig
    var retriever: Retriever

    constructor (config: RetrievalConfig, retriever: Retriever)
      requires CreateRetriever(config) == Success(retriever)
      ensures this.config == config && this.retriever == retriever
    {
      this.config := config;
      this.retriever := retriever;
    }

    /** `retrieve`: with a `top_k`, the retriever's `k` is overridden for the
        call and restored afterwards, but not when `invoke` raises; the
        reranking wrapper has no `search_kwargs`, so an override raises. */
    method Retrieve(query: string, topK: Option<int>, invoke: (Retriever, string) -> Result<seq<Document>>)
      returns (r: Result<seq<Document>>)
      modifies this
      ensures r == Invoked(old(retriever), query, topK, invoke)
      ensures topK.None? || old(retriever).Compression? || r.Success? ==> retriever == old(retriever)
      ensures topK.Some? && old(retriever).Base? && r.Failure? ==> retriever == Base(old(retriever).kwargs.(k := topK))
    {
      if topK.None? {
        return invoke(retriever, query);
      }
      match retriever
      case Compression(_, _) =>
        return Failure(NoSearchKwargs);
      case Base(kwargs) =>
        var originalK := kwargs.k;
        retriever := Base(kwargs.(k := topK));
        r := invoke(retriever, query);
        if r.Failure? {
          return r;
        }
        retriever := Base(retriever.kwargs.(k := originalK));
    }

    /** `retrieve_with_scores`: a scored search for the requested `k`, the
        configured `top_k` when none is given. */
    method RetrieveWithScores(query: string, topK: Option<int>, search: (string, int) -> Result<seq<(Document, real)>>)
      returns (r: Result<seq<(Document, real)>>)
      ensures topK.Some? ==> r == search(query, topK.value)
      ensures topK.None? ==> r == search(query, config.topK)
    {
      var k := if topK.Some? then topK.value else config.topK;
      r := search(query, k);
    }
  }
}
