/** The retrieval service with a semantic cache in front: a lookup that
    finds a non-empty cached text answers with it, anything else runs the
    retrieval and, when it returned documents, stores their formatted text
    for the query. Each agent has its own cache, named after the agent. */
module CachedRagService {
  import opened Wrappers
  import opened RagService
  import opened SemanticCache

  const CacheSource: string := "semantic_cache"

  /** `_cached_guidelines_to_documents`: the cached text as the only
      document, its metadata naming the cache and the agent. */
  function CachedGuidelinesToDocuments(agentName: string, guidelines: string): (docs: seq<Document>)
    ensures |docs| == 1 && docs[0].pageContent == guidelines
    ensures docs[0].metadata.Keys == {"source", "agent"}
    ensures docs[0].metadata["source"] == Str(CacheSource) && docs[0].metadata["agent"] == Str(agentName)
  {
    [Document(guidelines, map["source" := Str(CacheSource), "agent" := Str(agentName)])]
  }

  /** On a hit the agent's guidelines are the cached text formatted once
      more: wrapped in the header as the single entry "1. semantic_cache". */
  lemma CachedHitIsRewrapped(agentName: string, guidelines: string, ff: FloatFormat)
    ensures Formatted(CachedGuidelinesToDocuments(agentName, guidelines), ff)
         == Success(Header + "1. " + CacheSource + "\n" + guidelines + "\n\n")
  {
    var docs := CachedGuidelinesToDocuments(agentName, guidelines);
    var d := docs[0];
    assert !HasTextScore(d) && !HasScore(d) by {
      assert "score" !in d.metadata;
    }
    assert !exists e :: e in docs && HasTextScore(e);
    assert Source(d, ff) == CacheSource;
    assert Text.IntToString(1) == "1";
    assert ScoreTag(d, ff) == "";
    assert Entry(1, d, ff) == "1. " + CacheSource + "\n" + guidelines + "\n\n";
    assert Entries(docs, ff) == [Entry(1, d, ff)];
    assert Text.Concat([Entry(1, d, ff)]) == Entry(1, d, ff) + Text.Concat([]);
    assert Formatted(docs, ff) == Success(Header + Text.Concat(Entries(docs, ff)));
    assert Text.Concat(Entries(docs, ff)) == "1. " + CacheSource + "\n" + guidelines + "\n\n";
    assert Header + ("1. " + CacheSource + "\n" + guidelines + "\n\n") == Header + "1. " + CacheSource + "\n" + guidelines + "\n\n";
  }

  /** A cached value the wrapper treats as a hit: present and non-empty. */
  predicate IsHit(cached: Option<string>) {
    cached.Some? && cached.value != ""
  }

  class CachedRAGService {
    const agentName: string
    const cacheEnabled: bool
    const cache: QdrantSemanticCache?
    const ragService: RAGService
    var totalQueries: nat
    var cacheHits: nat
    var cacheMisses: nat

    /** A cache exactly when caching is enabled; with it, every query is a
        hit or a miss; without it, neither is ever counted. */
    ghost predicate Valid()
      reads this, cache
    {
      && (cacheEnabled <==> cache != null)
      && (cache != null ==> cache.Valid())
      && (cacheEnabled ==> cacheHits + cacheMisses == totalQueries)
      && (!cacheEnabled ==> cacheHits == 0 && cacheMisses == 0)
    }

    /** The service for `agentName`; with caching on, its cache is named
        after the agent and opens over the points already `stored`. */
    constructor (agentName: string, cacheEnabled: bool, threshold: real, stored: map<int, CachePoint>, rag: RAGService)
      ensures Valid() && this.agentName == agentName && this.cacheEnabled == cacheEnabled && ragService == rag
      ensures totalQueries == 0 && cacheHits == 0 && cacheMisses == 0
      ensures cacheEnabled ==> fresh(cache) && cache.cacheName == agentName && cache.threshold == threshold
      ensures cacheEnabled ==> cache.collectionName == agentName + "_query_cache"
      ensures cacheEnabled ==> cache.points == stored && cache.collectionExists && cache.totalQueries == 0
    {
      this.agentName := agentName;
      this.cacheEnabled := cacheEnabled;
      this.ragService := rag;
      if cacheEnabled {
        this.cache := new QdrantSemanticCache(agentName, threshold, stored);
      } else {
        this.cache := null;
      }
      this.totalQueries := 0;
      this.cacheHits := 0;
      this.cacheMisses := 0;
    }

    /** `retrieve`: `lookup` is the cache's similarity search for the query,
        `invoke` the retriever's answer, `hash` Python's string hash, `now`
        the clock and `stored` whether the cache write goes through. */
    method Retrieve(query: string, topK: int, lookup: Result<seq<Hit>>, invoke: (Retriever, string) -> Result<seq<Document>>,
                    ff: FloatFormat, hash: string -> int, now: int, stored: bool)
      returns (r: Result<seq<Document>>)
      requires Valid()
      requires cache != null && lookup.Success? ==> SearchAnswer(lookup.value, cache.threshold, cache.points)
      modifies this`totalQueries, this`cacheHits, this`cacheMisses, cache, ragService
      ensures Valid()
      ensures totalQueries == old(totalQueries) + 1
      ensures cache != null ==> cache.totalQueries == old(cache.totalQueries) + 1
      // the cache's own counters, as its `get` keeps them; the collection stays
      ensures cache != null ==> cache.collectionExists == old(cache.collectionExists)
      ensures cache != null && old(cache.collectionExists) && lookup.Success? ==>
        var answer := Answer(old(cache.collectionExists), old(cache.points), lookup);
        cache.cacheHits == old(cache.cacheHits) + (if answer.Some? then 1 else 0) &&
        cache.cacheMisses == old(cache.cacheMisses) + (if answer.None? then 1 else 0)
      ensures cache != null && !(old(cache.collectionExists) && lookup.Success?) ==>
        cache.cacheHits == old(cache.cacheHits) && cache.cacheMisses == old(cache.cacheMisses)
      // a hit: the cached text as one document, nothing retrieved or stored
      ensures cache != null && IsHit(Answer(old(cache.collectionExists), old(cache.points), lookup)) ==>
        && r == Success(CachedGuidelinesToDocuments(agentName, Answer(old(cache.collectionExists), old(cache.points), lookup).value))
        && cacheHits == old(cacheHits) + 1 && cacheMisses == old(cacheMisses)
        && cache.points == old(cache.points) && ragService.retriever == old(ragService.retriever)
      // a miss with the cache on: counted, then retrieval as without a cache
      ensures cache != null && !IsHit(Answer(old(cache.collectionExists), old(cache.points), lookup)) ==>
        cacheMisses == old(cacheMisses) + 1 && cacheHits == old(cacheHits)
      ensures (cache == null || !IsHit(Answer(old(cache.collectionExists), old(cache.points), lookup))) ==>
        var rag := Invoked(old(ragService.retriever), query, Some(topK), invoke);
        r == (if cache != null && rag.Success? && |rag.value| > 0 && Formatted(rag.value, ff).Failure?
              then Failure(Formatted(rag.value, ff).error) else rag)
      // the write-back: only with the cache on and documents retrieved
      ensures cache != null && !IsHit(Answer(old(cache.collectionExists), old(cache.points), lookup)) ==>
        var rag := Invoked(old(ragService.retriever), query, Some(topK), invoke);
        cache.points ==
          if rag.Success? && |rag.value| > 0 && Formatted(rag.value, ff).Success? && stored && cache.collectionExists
          then old(cache.points)[PointId(hash(query)) := CachePoint(query, Formatted(rag.value, ff).value, now)]
          else old(cache.points)
      ensures r.Success? ==> ragService.retriever == old(ragService.retriever)
    {
      totalQueries := totalQueries + 1;
      if cacheEnabled {
        var cached := cache.Get(query, lookup);
        if IsHit(cached) {
          cacheHits := cacheHits + 1;
          return Success(CachedGuidelinesToDocuments(agentName, cached.value));
        }
        cacheMisses := cacheMisses + 1;
      }
      var results := ragService.Retrieve(query, Some(topK), invoke);
      if results.Failure? {
        return results;
      }
      if cacheEnabled && |results.value| > 0 {
        var formatted := FormatResults(results.value, ff);
        if formatted.Failure? {
          return Failure(formatted.error);
        }
        cache.Set(query, formatted.value, hash, now, stored);
      }
      return results;
    }

    /** `hit_rate_percent` of `get_stats`. */
    function HitRatePercent(): (rate: real)
      reads this, cache
      requires Valid()
      ensures 0.0 <= rate <= 100.0
      ensures totalQueries == 0 ==> rate == 0.0
      ensures totalQueries > 0 ==> rate * totalQueries as real == 100.0 * cacheHits as real
    {
      if totalQueries > 0 then cacheHits as real / totalQueries as real * 100.0 else 0.0
    }

    /** `flush_cache`: clears the cache when there is one, else nothing. */
    method FlushCache(dropped: bool, recreated: bool)
      requires Valid()
      modifies cache
      ensures Valid()
      ensures cache != null && dropped ==> cache.points == map[] && cache.collectionExists == recreated
      ensures cache != null && !dropped ==> cache.points == old(cache.points)
      ensures cache != null && !dropped ==> cache.collectionExists == old(cache.collectionExists)
      ensures cache != null ==>
        cache.totalQueries == old(cache.totalQueries) && cache.cacheHits == old(cache.cacheHits) &&
        cache.cacheMisses == old(cache.cacheMisses)
    {
      if cache != null {
        cache.Clear(dropped, recreated);
      }
    }
  }
}
