/** The query-level semantic cache: one collection per cache name holding
    query/result points, a top-1 similarity lookup that keeps hit and miss
    counters, an overwriting store keyed by the query's hash, and a clear
    that drops the collection. Embedding and similarity search are inputs:
    `search` is what the vector store answers for the query's embedding
    (a Failure for an exception), `hash` is Python's `hash` on strings. */
module SemanticCache {
  import opened Wrappers

  /** A stored point's payload. */
  datatype CachePoint = CachePoint(query: string, result: string, timestamp: int)

  /** A search answer: the id of a stored point and its similarity. */
  datatype Hit = Hit(id: int, score: real)

  const DefaultThreshold: real := 0.90
  const Suffix: string := "_query_cache"
  const IdSpace: int := 1_000_000_000

  /** The collection that holds the cache named `cacheName`. */
  function CollectionName(cacheName: string): (n: string)
    ensures |n| == |cacheName| + |Suffix| && cacheName <= n
  {
    cacheName + Suffix
  }

  /** Distinct cache names never share a collection. */
  lemma CollectionNamesDistinct(a: string, b: string)
    requires a != b
    ensures CollectionName(a) != CollectionName(b)
  {
  }

  /** `hash(query) % 10**9`: Python's `%` with a positive modulus is never
      negative, so the id lies in [0, 10^9) and differs from the hash by a
      multiple of 10^9. */
  function PointId(h: int): (id: int)
    ensures 0 <= id < IdSpace
    ensures (h - id) % IdSpace == 0
  {
    h % IdSpace
  }

  /** What the vector store may answer for a `limit=1` search with a score
      threshold: at most one hit, at or above the threshold, naming a
      stored point. */
  predicate SearchAnswer(hits: seq<Hit>, threshold: real, points: map<int, CachePoint>) {
    |hits| <= 1 && forall h :: h in hits ==> h.score >= threshold && h.id in points
  }

  /** What `get` returns: the best hit's stored result, None on a miss or
      when the lookup raises (a missing collection raises too). */
  function Answer(present: bool, points: map<int, CachePoint>, search: Result<seq<Hit>>): (r: Option<string>)
    requires search.Success? ==> forall h :: h in search.value ==> h.id in points
    ensures r.Some? <==> present && search.Success? && |search.value| > 0
    ensures r.Some? ==> r.value == points[search.value[0].id].result
  {
    if !present || search.Failure? || |search.value| == 0 then None
    else Some(points[search.value[0].id].result)
  }

  /** The points after `set` stores `p` at `id`: the point is written over
      when the collection exists and the write goes through, and nothing
      changes otherwise. */
  function AfterSet(points: map<int, CachePoint>, present: bool, id: int, p: CachePoint, stored: bool)
    : (r: map<int, CachePoint>)
    ensures stored && present ==> r.Keys == points.Keys + {id} && r[id] == p
    ensures stored && present ==> forall k :: k in points && k != id ==> r[k] == points[k]
    ensures !(stored && present) ==> r == points
  {
    if stored && present then points[id := p] else points
  }

  class QdrantSemanticCache {
    const cacheName: string
    const threshold: real
    const collectionName: string
    var collectionExists: bool
    var points: map<int, CachePoint>
    var totalQueries: nat
    var cacheHits: nat
    var cacheMisses: nat

    /** Every counted hit or miss was a query. */
    ghost predicate Valid()
      reads this
    {
      collectionName == CollectionName(cacheName) && cacheHits + cacheMisses <= totalQueries
    }

    /** A cache over a collection that exists (created empty when it did
        not) and holds `stored`. */
    constructor (cacheName: string, threshold: real, stored: map<int, CachePoint>)
      ensures Valid() && this.cacheName == cacheName && this.threshold == threshold
      ensures collectionExists && points == stored
      ensures totalQueries == 0 && cacheHits == 0 && cacheMisses == 0
    {
      this.cacheName := cacheName;
      this.threshold := threshold;
      this.collectionName := CollectionName(cacheName);
      this.collectionExists := true;
      this.points := stored;
      this.totalQueries := 0;
      this.cacheHits := 0;
      this.cacheMisses := 0;
    }

    /** `get`: every call is a query; a lookup that answers counts exactly
        one hit or one miss, one that raises counts neither. */
    method Get(query: string, search: Result<seq<Hit>>) returns (r: Option<string>)
      requires Valid()
      requires search.Success? ==> SearchAnswer(search.value, threshold, points)
      modifies this`totalQueries, this`cacheHits, this`cacheMisses
      ensures Valid()
      ensures r == Answer(collectionExists, points, search)
      ensures totalQueries == old(totalQueries) + 1
      ensures !collectionExists || search.Failure? ==> cacheHits == old(cacheHits) && cacheMisses == old(cacheMisses)
      ensures collectionExists && search.Success? ==>
        cacheHits == old(cacheHits) + (if r.Some? then 1 else 0) &&
        cacheMisses == old(cacheMisses) + (if r.None? then 1 else 0)
    {
      totalQueries := totalQueries + 1;
      if !collectionExists || search.Failure? {
        return None;
      }
      var found := search.value;
      if |found| > 0 {
        cacheHits := cacheHits + 1;
        return Some(points[found[0].id].result);
      }
      cacheMisses := cacheMisses + 1;
      return None;
    }

    /** `set`: the point for the query's id is written over, whatever it
        held; `stored` is false when embedding or the upsert raises, and
        errors never leave the call. */
    method Set(query: string, result: string, hash: string -> int, now: int, stored: bool)
      modifies this`points
      ensures points == AfterSet(old(points), collectionExists, PointId(hash(query)), CachePoint(query, result, now), stored)
    {
      if stored && collectionExists {
        points := points[PointId(hash(query)) := CachePoint(query, result, now)];
      }
    }

    /** `clear`: drop the collection and create it again; the counters are
        kept. An error while dropping leaves everything as it was. */
    method Clear(dropped: bool, recreated: bool)
      modifies this`points, this`collectionExists
      ensures dropped ==> points == map[] && collectionExists == recreated
      ensures !dropped ==> points == old(points) && collectionExists == old(collectionExists)
    {
      if dropped {
        points := map[];
        collectionExists := recreated;
      }
    }

    /** `hit_rate` of `get_stats`: the fraction of queries that hit. */
    function HitRate(): (rate: real)
      reads this
      requires Valid()
      ensures 0.0 <= rate <= 1.0
      ensures totalQueries == 0 ==> rate == 0.0
      ensures totalQueries > 0 ==> rate * totalQueries as real == cacheHits as real
    {
      if totalQueries > 0 then cacheHits as real / totalQueries as real else 0.0
    }
  }

  /** Two `set` calls for one query: when the second goes through, the
      store is as if only the second had been made, and a later lookup that
      finds the query's point answers the second result; when the second
      fails, the first call's effect stays. */
  lemma SecondSetWins(points: map<int, CachePoint>, present: bool, h: int, first: CachePoint, firstStored: bool,
                      second: CachePoint, secondStored: bool, threshold: real, hits: seq<Hit>)
    ensures secondStored ==>
      AfterSet(AfterSet(points, present, PointId(h), first, firstStored), present, PointId(h), second, true)
        == AfterSet(points, present, PointId(h), second, true)
    ensures !secondStored ==>
      AfterSet(AfterSet(points, present, PointId(h), first, firstStored), present, PointId(h), second, false)
        == AfterSet(points, present, PointId(h), first, firstStored)
    ensures (present && secondStored && (exists x :: x in hits && x.id == PointId(h)) &&
             SearchAnswer(hits, threshold, AfterSet(AfterSet(points, present, PointId(h), first, firstStored), present, PointId(h), second, true)))
      ==>
      Answer(present, AfterSet(AfterSet(points, present, PointId(h), first, firstStored), present, PointId(h), second, true),
             Success(hits)) == Some(second.result)
  {
    var id := PointId(h);
    var once := AfterSet(points, present, id, first, firstStored);
    var twice := AfterSet(once, present, id, second, true);
    if present && secondStored && (exists x :: x in hits && x.id == id) && SearchAnswer(hits, threshold, twice) {
      var x :| x in hits && x.id == id;
      assert hits[0] == x;
    }
  }

  /** A stored point is what any later lookup that finds it returns: the
      search answers at most one point, so it answers that one. */
  lemma StoredThenFound(points: map<int, CachePoint>, h: int, p: CachePoint, threshold: real, hits: seq<Hit>)
    requires SearchAnswer(hits, threshold, AfterSet(points, true, PointId(h), p, true))
    requires exists x :: x in hits && x.id == PointId(h)
    ensures Answer(true, AfterSet(points, true, PointId(h), p, true), Success(hits)) == Some(p.result)
  {
    var x :| x in hits && x.id == PointId(h);
    assert hits[0] == x;
  }
}
