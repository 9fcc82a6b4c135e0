/** The review-result cache: a finished review is stored under a point
    derived from the exact key of the document and its agent list, and is
    found again by a similarity search on the document's fingerprint,
    after which strict matching checks the exact key and the agent set,
    lenient matching the agent set only.
    SHA-256 (FIPS 180-4) is an input: any function giving 64 lowercase
    hexadecimal characters. The similarity search is an input too: the
    candidates the vector store answers with (a Failure for an exception).
    A stored review is kept as its serialised text; serialising and parsing
    back are taken to be inverse. */
module ReviewResultCache {
  import opened Wrappers
  import opened Text

  // ---------------------------------------------------------------------
  // Python's string order and `sorted`
  // ---------------------------------------------------------------------

  /** `a <= b` on Python strings: lexicographic by code point. */
  predicate StrLe(a: string, b: string)
    decreases |a|
  {
    |a| == 0 || (|b| > 0 && (a[0] < b[0] || (a[0] == b[0] && StrLe(a[1..], b[1..]))))
  }

  lemma {:induction false} StrLeTotal(a: string, b: string)
    ensures StrLe(a, b) || StrLe(b, a)
    decreases |a|
  {
    if |a| > 0 && |b| > 0 && a[0] == b[0] {
      StrLeTotal(a[1..], b[1..]);
    }
  }

  lemma {:induction false} StrLeAntisymmetric(a: string, b: string)
    requires StrLe(a, b) && StrLe(b, a)
    ensures a == b
    decreases |a|
  {
    if |a| > 0 {
      StrLeAntisymmetric(a[1..], b[1..]);
      assert a == [a[0]] + a[1..] && b == [b[0]] + b[1..];
    }
  }

  lemma {:induction false} StrLeTransitive(a: string, b: string, c: string)
    requires StrLe(a, b) && StrLe(b, c)
    ensures StrLe(a, c)
    decreases |a|
  {
    if |a| > 0 && a[0] == b[0] && b[0] == c[0] {
      StrLeTransitive(a[1..], b[1..], c[1..]);
    }
  }

  predicate SortedStrings(s: seq<string>) {
    forall i, j :: 0 <= i < j < |s| ==> StrLe(s[i], s[j])
  }

  function Insert(x: string, s: seq<string>): (r: seq<string>)
    ensures multiset(r) == multiset(s) + multiset{x}
  {
    if s == [] then [x]
    else if StrLe(x, s[0]) then [x] + s
    else
      assert s == [s[0]] + s[1..];
      [s[0]] + Insert(x, s[1..])
  }

  lemma {:induction false} StrLeReflexive(a: string)
    ensures StrLe(a, a)
    decreases |a|
  {
    if |a| > 0 {
      StrLeReflexive(a[1..]);
    }
  }

  /** A lower bound of a sorted list may go in front of it. */
  lemma SortedCons(h: string, s: seq<string>)
    requires SortedStrings(s)
    requires forall j :: 0 <= j < |s| ==> StrLe(h, s[j])
    ensures SortedStrings([h] + s)
  {
    var r := [h] + s;
    forall i, j | 0 <= i < j < |r| ensures StrLe(r[i], r[j]) {
      assert r[j] == s[j - 1];
      if i > 0 {
        assert r[i] == s[i - 1];
      }
    }
  }

  /** A bound below `x` and below all of `s` is below all of `Insert(x, s)`. */
  lemma InsertKeepsLowerBound(y: string, x: string, s: seq<string>)
    requires StrLe(y, x)
    requires forall j :: 0 <= j < |s| ==> StrLe(y, s[j])
    ensures forall j :: 0 <= j < |Insert(x, s)| ==> StrLe(y, Insert(x, s)[j])
  {
    var r := Insert(x, s);
    forall j | 0 <= j < |r| ensures StrLe(y, r[j]) {
      assert r[j] in multiset(r);
      if r[j] != x {
        assert r[j] in multiset(s);
        var k :| 0 <= k < |s| && s[k] == r[j];
      }
    }
  }

  lemma {:induction false} InsertSorted(x: string, s: seq<string>)
    requires SortedStrings(s)
    ensures SortedStrings(Insert(x, s))
  {
    if s == [] {
    } else if StrLe(x, s[0]) {
      forall j | 0 <= j < |s| ensures StrLe(x, s[j]) {
        if j > 0 {
          StrLeTransitive(x, s[0], s[j]);
        }
      }
      SortedCons(x, s);
    } else {
      InsertSorted(x, s[1..]);
      StrLeTotal(x, s[0]);
      InsertKeepsLowerBound(s[0], x, s[1..]);
      SortedCons(s[0], Insert(x, s[1..]));
    }
  }

  /** `sorted(xs)` for a list of strings. */
  function SortStrings(xs: seq<string>): (r: seq<string>)
    ensures multiset(r) == multiset(xs)
    ensures SortedStrings(r)
  {
    if xs == [] then []
    else
      var rest := SortStrings(xs[1..]);
      InsertSorted(xs[0], rest);
      assert xs == [xs[0]] + xs[1..];
      Insert(xs[0], rest)
  }

  /** Two non-empty sorted lists with the same elements start alike. */
  lemma SortedSameHead(s1: seq<string>, s2: seq<string>)
    requires |s1| > 0 && SortedStrings(s1) && SortedStrings(s2) && multiset(s1) == multiset(s2)
    ensures |s2| > 0 && s1[0] == s2[0]
  {
    assert s1[0] in multiset(s2) && s2[0] in multiset(s1);
    var k :| 0 <= k < |s2| && s2[k] == s1[0];
    var m :| 0 <= m < |s1| && s1[m] == s2[0];
    StrLeReflexive(s1[0]);
    StrLeReflexive(s2[0]);
    assert StrLe(s2[0], s2[k]);
    assert StrLe(s1[0], s1[m]);
    StrLeAntisymmetric(s1[0], s2[0]);
  }

  /** Dropping the head leaves the remaining elements. */
  lemma TailMultiset(s: seq<string>)
    requires |s| > 0
    ensures multiset(s[1..]) == multiset(s) - multiset{s[0]}
  {
    assert s == [s[0]] + s[1..];
  }

  /** Two sorted lists with the same elements are the same list. */
  lemma {:induction false} SortedUnique(s1: seq<string>, s2: seq<string>)
    requires SortedStrings(s1) && SortedStrings(s2) && multiset(s1) == multiset(s2)
    ensures s1 == s2
    decreases |s1|
  {
    if s1 == [] {
      assert |multiset(s2)| == 0;
    } else {
      SortedSameHead(s1, s2);
      TailMultiset(s1);
      TailMultiset(s2);
      SortedUnique(s1[1..], s2[1..]);
      assert s1 == [s1[0]] + s1[1..] && s2 == [s2[0]] + s2[1..];
    }
  }

  /** Sorting forgets the order of its input. */
  lemma SortPermutationInvariant(a: seq<string>, b: seq<string>)
    requires multiset(a) == multiset(b)
    ensures SortStrings(a) == SortStrings(b)
  {
    SortedUnique(SortStrings(a), SortStrings(b));
  }

  // ---------------------------------------------------------------------
  // Fingerprint, exact key and point id
  // ---------------------------------------------------------------------

  const CollectionName: string := "review_results_cache"
  const DefaultThreshold: real := 0.98
  const DefaultMaxFingerprintLength: nat := 2000
  const DefaultMaxCandidates: nat := 5
  const IdSpace: int := 1_000_000_000

  /** `_create_fingerprint`: the document's first `maxLength` characters. */
  function Fingerprint(content: string, maxLength: nat): (f: string)
    ensures f <= content
    ensures |f| == if |content| < maxLength then |content| else maxLength
  {
    Take(content, maxLength)
  }

  /** The text the exact key digests: the document, a bar, and the sorted
      agent names joined by commas. */
  function HashInput(content: string, agents: seq<string>): string {
    content + "|" + AgentsPart(agents)
  }

  /** `",".join(sorted(agents))`. */
  function AgentsPart(agents: seq<string>): string {
    Join(",", SortStrings(agents))
  }

  predicate IsHexDigit(c: char) {
    '0' <= c <= '9' || 'a' <= c <= 'f'
  }

  predicate IsHexDigest(s: string) {
    |s| == 64 && forall i :: 0 <= i < |s| ==> IsHexDigit(s[i])
  }

  function ZeroDigest(s: string): string {
    seq(64, _ => '0')
  }

  /** `hashlib.sha256(s.encode()).hexdigest()`, whichever function it is. */
  type Sha256 = f: string -> string | forall s :: IsHexDigest(f(s)) witness ZeroDigest

  /** `_create_full_hash`: the exact key. */
  function FullHash(sha: Sha256, content: string, agents: seq<string>): (key: string)
    ensures IsHexDigest(key)
  {
    sha(HashInput(content, agents))
  }

  function HexDigitValue(c: char): nat
    requires IsHexDigit(c)
  {
    if '0' <= c <= '9' then c as int - '0' as int else c as int - 'a' as int + 10
  }

  /** `int(s, 16)` for lowercase hexadecimal digits. */
  function HexValue(s: string): (v: nat)
    requires forall i :: 0 <= i < |s| ==> IsHexDigit(s[i])
  {
    if |s| == 0 then 0 else 16 * HexValue(s[..|s| - 1]) + HexDigitValue(s[|s| - 1])
  }

  /** The point id of a key: its first 16 hexadecimal digits as a number,
      modulo 10^9. */
  function PointIdOf(key: string): (id: int)
    requires IsHexDigest(key)
    ensures 0 <= id < IdSpace
    ensures (HexValue(key[..16]) - id) % IdSpace == 0
  {
    HexValue(key[..16]) % IdSpace
  }

  /** Reordering the agents changes neither the exact key nor the point. */
  lemma KeyIgnoresAgentOrder(sha: Sha256, content: string, a: seq<string>, b: seq<string>)
    requires multiset(a) == multiset(b)
    ensures HashInput(content, a) == HashInput(content, b)
    ensures FullHash(sha, content, a) == FullHash(sha, content, b)
    ensures PointIdOf(FullHash(sha, content, a)) == PointIdOf(FullHash(sha, content, b))
  {
    SortPermutationInvariant(a, b);
  }

  /** With the same agents, different documents digest different texts. */
  lemma HashInputSeparatesDocuments(c1: string, c2: string, a: seq<string>, b: seq<string>)
    requires multiset(a) == multiset(b) && c1 != c2
    ensures HashInput(c1, a) != HashInput(c2, b)
  {
    SortPermutationInvariant(a, b);
    var tail := "|" + AgentsPart(a);
    assert AgentsPart(a) == AgentsPart(b);
    assert HashInput(c1, a) == c1 + tail;
    assert HashInput(c2, b) == c2 + tail;
    SuffixCancels(c1, c2, tail);
  }

  lemma SuffixCancels(x: string, y: string, tail: string)
    ensures x + tail == y + tail ==> x == y
  {
    assert x == (x + tail)[..|x|];
    assert y == (y + tail)[..|y|];
  }

  /** An agent name as the request admits it: non-empty, without a comma. */
  predicate PlainName(a: string) {
    |a| > 0 && ',' !in a
  }

  lemma {:induction false} JoinEmptyOnlyForNone(parts: seq<string>)
    requires forall k :: 0 <= k < |parts| ==> PlainName(parts[k])
    ensures Join(",", parts) == "" <==> parts == []
  {
    if |parts| > 1 {
      assert |Join(",", parts)| >= |parts[0]| + 1;
    }
  }

  /** For the same document, different agent multisets of plain names
      digest different texts. */
  lemma HashInputSeparatesAgents(c: string, a: seq<string>, b: seq<string>)
    requires forall k :: 0 <= k < |a| ==> PlainName(a[k])
    requires forall k :: 0 <= k < |b| ==> PlainName(b[k])
    requires HashInput(c, a) == HashInput(c, b)
    ensures multiset(a) == multiset(b)
  {
    var sa, sb := SortStrings(a), SortStrings(b);
    forall k | 0 <= k < |sa| ensures PlainName(sa[k]) {
      assert sa[k] in multiset(a);
    }
    forall k | 0 <= k < |sb| ensures PlainName(sb[k]) {
      assert sb[k] in multiset(b);
    }
    var ja, jb := Join(",", sa), Join(",", sb);
    assert (c + "|") + ja == (c + "|") + jb;
    assert ja == ((c + "|") + ja)[|c| + 1..] == ((c + "|") + jb)[|c| + 1..] == jb;
    JoinEmptyOnlyForNone(sa);
    JoinEmptyOnlyForNone(sb);
    if sa != [] && sb != [] {
      assert Join([','], sa) == ja && Join([','], sb) == jb;
      SplitJoin(sa, ',');
      SplitJoin(sb, ',');
    }
    assert sa == sb;
  }

  /** An agent name that cannot be mistaken for the bar or a comma. */
  predicate BarFreeName(a: string) {
    PlainName(a) && '|' !in a
  }

  lemma {:induction false} JoinAvoidsBar(parts: seq<string>)
    requires forall k :: 0 <= k < |parts| ==> '|' !in parts[k]
    ensures '|' !in Join(",", parts)
  {
    if |parts| > 1 {
      JoinAvoidsBar(parts[1..]);
    }
  }

  /** In `x + "|" + j` with a bar-free `j`, the bar after `x` is the last. */
  lemma LastBar(x: string, j: string)
    requires '|' !in j
    ensures (x + "|" + j)[|x|] == '|'
    ensures forall i :: |x| < i < |x + "|" + j| ==> (x + "|" + j)[i] != '|'
  {
    var s := x + "|" + j;
    forall i | |x| < i < |s| ensures s[i] != '|' {
      assert s[i] == j[i - |x| - 1];
    }
  }

  /** The last bar splits a digested text back into its document and its
      agent part. */
  lemma SplitAtLastBar(x1: string, j1: string, x2: string, j2: string)
    requires '|' !in j1 && '|' !in j2
    requires x1 + "|" + j1 == x2 + "|" + j2
    ensures x1 == x2 && j1 == j2
  {
    var s := x1 + "|" + j1;
    LastBar(x1, j1);
    LastBar(x2, j2);
    assert |x1| == |x2|;
    assert x1 == s[..|x1|];
    assert x2 == s[..|x2|];
    assert j1 == s[|x1| + 1..];
    assert j2 == s[|x2| + 1..];
  }

  /** The agent part of bar-free names holds no bar. */
  lemma AgentsPartAvoidsBar(agents: seq<string>)
    requires forall k :: 0 <= k < |agents| ==> BarFreeName(agents[k])
    ensures '|' !in AgentsPart(agents)
  {
    var sa := SortStrings(agents);
    forall k | 0 <= k < |sa| ensures '|' !in sa[k] {
      assert sa[k] in multiset(agents);
    }
    JoinAvoidsBar(sa);
  }

  /** For agent names without bars or commas the digested text determines
      both the document and the agent multiset. */
  lemma HashInputInjective(c1: string, c2: string, a: seq<string>, b: seq<string>)
    requires forall k :: 0 <= k < |a| ==> BarFreeName(a[k])
    requires forall k :: 0 <= k < |b| ==> BarFreeName(b[k])
    requires HashInput(c1, a) == HashInput(c2, b)
    ensures c1 == c2 && multiset(a) == multiset(b)
  {
    AgentsPartAvoidsBar(a);
    AgentsPartAvoidsBar(b);
    SplitAtLastBar(c1, AgentsPart(a), c2, AgentsPart(b));
    HashInputSeparatesAgents(c1, a, b);
  }

  /** Without the bar-free condition the key is not injective: a document
      ending in "|clarity" asked by "rigor" digests the same text as the
      document without that ending asked by an agent named "clarity|rigor". */
  lemma HashInputCollision()
    ensures HashInput("x|clarity", ["rigor"]) == HashInput("x", ["clarity|rigor"])
  {
    assert SortStrings(["rigor"]) == ["rigor"];
    assert SortStrings(["clarity|rigor"]) == ["clarity|rigor"];
  }

  // ---------------------------------------------------------------------
  // Stored points and candidate matching
  // ---------------------------------------------------------------------

  /** A stored point's payload; `result` is the serialised review. */
  datatype ReviewPoint = ReviewPoint(
    fullHash: string,
    agents: seq<string>,
    result: string,
    fingerprintLength: nat,
    contentLength: nat,
    timestamp: int)

  /** A search answer: a stored point's id and its similarity. */
  datatype Candidate = Candidate(id: int, score: real)

  /** What the vector store may answer: at most `limit` stored points, each
      at or above the threshold, best first. */
  predicate SearchAnswer(cands: seq<Candidate>, limit: nat, threshold: real, points: map<int, ReviewPoint>) {
    && |cands| <= limit
    && (forall c :: c in cands ==> c.score >= threshold && c.id in points)
    && (forall i, j :: 0 <= i < j < |cands| ==> cands[i].score >= cands[j].score)
  }

  function AgentSet(agents: seq<string>): set<string> {
    set a | a in agents
  }

  /** Whether a stored point answers the request: strict matching wants the
      exact key and the agent set, lenient matching the agent set. */
  predicate Accepts(p: ReviewPoint, key: string, agents: seq<string>, strict: bool) {
    (!strict || p.fullHash == key) && AgentSet(p.agents) == AgentSet(agents)
  }

  /** The index of the first accepted candidate, in search order. */
  function FirstAccepted(cands: seq<Candidate>, points: map<int, ReviewPoint>, key: string, agents: seq<string>, strict: bool)
    : (r: Option<nat>)
    requires forall c :: c in cands ==> c.id in points
    ensures r.Some? ==> r.value < |cands| && Accepts(points[cands[r.value].id], key, agents, strict)
    ensures r.Some? ==> forall j :: 0 <= j < r.value ==> !Accepts(points[cands[j].id], key, agents, strict)
    ensures r.None? ==> forall j :: 0 <= j < |cands| ==> !Accepts(points[cands[j].id], key, agents, strict)
  {
    if cands == [] then None
    else if Accepts(points[cands[0].id], key, agents, strict) then Some(0)
    else match FirstAccepted(cands[1..], points, key, agents, strict)
      case None => None
      case Some(i) => Some(i + 1)
  }

  /** What `get` returns once the search has answered. */
  function Lookup(cands: seq<Candidate>, points: map<int, ReviewPoint>, key: string, agents: seq<string>, strict: bool)
    : (r: Option<string>)
    requires forall c :: c in cands ==> c.id in points
  {
    match FirstAccepted(cands, points, key, agents, strict)
    case None => None
    case Some(i) => Some(points[cands[i].id].result)
  }

  /** `Lookup` is the stored review of the first accepted candidate. */
  lemma LookupOfFirst(cands: seq<Candidate>, points: map<int, ReviewPoint>, key: string, agents: seq<string>, strict: bool)
    requires forall c :: c in cands ==> c.id in points
    ensures var f := FirstAccepted(cands, points, key, agents, strict);
      Lookup(cands, points, key, agents, strict) == if f.Some? then Some(points[cands[f.value].id].result) else None
  {
  }

  /** Lenient matching accepts whatever strict matching accepts. */
  lemma StrictHitIsLenientHit(cands: seq<Candidate>, points: map<int, ReviewPoint>, key: string, agents: seq<string>)
    requires forall c :: c in cands ==> c.id in points
    ensures Lookup(cands, points, key, agents, true).Some? ==> Lookup(cands, points, key, agents, false).Some?
  {
    var s := FirstAccepted(cands, points, key, agents, true);
    if s.Some? {
      assert Accepts(points[cands[s.value].id], key, agents, false);
    }
  }

  /** Every stored point sits at the id its key gives, as `set` writes
      them. */
  predicate KeyedPoints(points: map<int, ReviewPoint>) {
    forall id :: id in points ==> IsHexDigest(points[id].fullHash) && id == PointIdOf(points[id].fullHash)
  }

  /** The point `set` writes for a document, its agents and its review. */
  function PointFor(sha: Sha256, content: string, agents: seq<string>, result: string, maxLength: nat, now: int): ReviewPoint {
    ReviewPoint(FullHash(sha, content, agents), agents, result, |Fingerprint(content, maxLength)|, |content|, now)
  }

  class ReviewResultCache {
    const sha: Sha256
    const threshold: real
    const maxFingerprintLength: nat
    const maxCandidates: nat
    const strict: bool
    var collectionExists: bool
    var points: map<int, ReviewPoint>
    var totalQueries: nat
    var cacheHits: nat
    var cacheMisses: nat
    var falseCandidates: nat

    /** Every counted hit or miss was a query. */
    ghost predicate Valid()
      reads this
    {
      cacheHits + cacheMisses <= totalQueries
    }

    /** A cache over a collection that exists and holds `stored`. */
    constructor (sha: Sha256, threshold: real, maxFingerprintLength: nat, maxCandidates: nat, strict: bool,
                 stored: map<int, ReviewPoint>)
      ensures Valid() && this.sha == sha && this.threshold == threshold && this.strict == strict
      ensures this.maxFingerprintLength == maxFingerprintLength && this.maxCandidates == maxCandidates
      ensures collectionExists && points == stored
      ensures totalQueries == 0 && cacheHits == 0 && cacheMisses == 0 && falseCandidates == 0
    {
      this.sha := sha;
      this.threshold := threshold;
      this.maxFingerprintLength := maxFingerprintLength;
      this.maxCandidates := maxCandidates;
      this.strict := strict;
      this.collectionExists := true;
      this.points := stored;
      this.totalQueries := 0;
      this.cacheHits := 0;
      this.cacheMisses := 0;
      this.falseCandidates := 0;
    }

    /** `get`: the review of the first acceptable candidate, counted as a
        hit; otherwise a counted miss, where a strict miss among candidates
        also counts them all as false candidates. A search that raises
        (a missing collection raises) counts only the query. */
    method Get(content: string, agents: seq<string>, search: Result<seq<Candidate>>) returns (r: Option<string>)
      requires Valid()
      requires search.Success? ==> SearchAnswer(search.value, maxCandidates, threshold, points)
      modifies this`totalQueries, this`cacheHits, this`cacheMisses, this`falseCandidates
      ensures Valid()
      ensures totalQueries == old(totalQueries) + 1
      ensures !collectionExists || search.Failure? ==>
        r.None? && cacheHits == old(cacheHits) && cacheMisses == old(cacheMisses) && falseCandidates == old(falseCandidates)
      ensures collectionExists && search.Success? ==>
        r == Lookup(search.value, points, FullHash(sha, content, agents), agents, strict)
      ensures collectionExists && search.Success? && r.Some? ==>
        cacheHits == old(cacheHits) + 1 && cacheMisses == old(cacheMisses) && falseCandidates == old(falseCandidates)
      ensures collectionExists && search.Success? && r.None? ==>
        cacheHits == old(cacheHits) && cacheMisses == old(cacheMisses) + 1 &&
        falseCandidates == old(falseCandidates) + (if strict then |search.value| else 0)
    {
      totalQueries := totalQueries + 1;
      if !collectionExists || search.Failure? {
        return None;
      }
      r := Match(FullHash(sha, content, agents), agents, search.value);
    }

    /** The answered half of `get` for the request's key: the candidates
        are checked in search order and the outcome is counted. */
    method Match(key: string, agents: seq<string>, cands: seq<Candidate>) returns (r: Option<string>)
      requires cacheHits + cacheMisses < totalQueries
      requires forall c :: c in cands ==> c.id in points
      modifies this`cacheHits, this`cacheMisses, this`falseCandidates
      ensures Valid()
      ensures r == Lookup(cands, points, key, agents, strict)
      ensures r.Some? ==>
        cacheHits == old(cacheHits) + 1 && cacheMisses == old(cacheMisses) && falseCandidates == old(falseCandidates)
      ensures r.None? ==>
        cacheHits == old(cacheHits) && cacheMisses == old(cacheMisses) + 1 &&
        falseCandidates == old(falseCandidates) + (if strict then |cands| else 0)
    {
      if |cands| == 0 {
        cacheMisses := cacheMisses + 1;
        return None;
      }
      var found := FindAccepted(cands, points, key, agents, strict);
      LookupOfFirst(cands, points, key, agents, strict);
      if found.Some? {
        cacheHits := cacheHits + 1;
        return Some(points[cands[found.value].id].result);
      }
      cacheMisses := cacheMisses + 1;
      if strict {
        falseCandidates := falseCandidates + |cands|;
      }
      return None;
    }

    /** `set`: the point for the key is written over, whatever it held;
        `stored` is false when embedding or the upsert raises, and errors
        never leave the call. */
    method Set(content: string, agents: seq<string>, result: string, now: int, stored: bool)
      modifies this`points
      ensures KeyedPoints(old(points)) ==> KeyedPoints(points)
      ensures stored && collectionExists ==>
        points == old(points)[PointIdOf(FullHash(sha, content, agents)) :=
                              PointFor(sha, content, agents, result, maxFingerprintLength, now)]
      ensures !(stored && collectionExists) ==> points == old(points)
    {
      if stored && collectionExists {
        var key := FullHash(sha, content, agents);
        var fingerprint := Fingerprint(content, maxFingerprintLength);
        points := points[PointIdOf(key) := ReviewPoint(key, agents, result, |fingerprint|, |content|, now)];
      }
    }

    /** `clear`: drop the collection and create it again; the counters are
        reset only when both steps succeed. */
    method Clear(dropped: bool, recreated: bool)
      modifies this
      ensures dropped ==> points == map[] && collectionExists == recreated
      ensures !dropped ==> points == old(points) && collectionExists == old(collectionExists)
      ensures dropped && recreated ==> totalQueries == 0 && cacheHits == 0 && cacheMisses == 0 && falseCandidates == 0
      ensures !(dropped && recreated) ==>
        totalQueries == old(totalQueries) && cacheHits == old(cacheHits) &&
        cacheMisses == old(cacheMisses) && falseCandidates == old(falseCandidates)
      ensures Valid() <== old(Valid())
    {
      if dropped {
        points := map[];
        collectionExists := recreated;
        if recreated {
          totalQueries, cacheHits, cacheMisses, falseCandidates := 0, 0, 0, 0;
        }
      }
    }

    /** `hit_rate_percent` of `get_stats`. */
    function HitRatePercent(): (rate: real)
      reads this
      requires Valid()
      ensures 0.0 <= rate <= 100.0
      ensures totalQueries == 0 ==> rate == 0.0
      ensures totalQueries > 0 ==> rate * totalQueries as real == 100.0 * cacheHits as real
    {
      if totalQueries > 0 then cacheHits as real / totalQueries as real * 100.0 else 0.0
    }
  }

  /** The scan over the candidates in search order, stopping at the first
      one the matching mode accepts. */
  method FindAccepted(cands: seq<Candidate>, points: map<int, ReviewPoint>, key: string, agents: seq<string>, strict: bool)
    returns (found: Option<nat>)
    requires forall c :: c in cands ==> c.id in points
    ensures found == FirstAccepted(cands, points, key, agents, strict)
  {
    var i := 0;
    while i < |cands|
      invariant 0 <= i <= |cands|
      invariant forall j :: 0 <= j < i ==> !Accepts(points[cands[j].id], key, agents, strict)
    {
      var p := points[cands[i].id];
      if (!strict || p.fullHash == key) && AgentSet(p.agents) == AgentSet(agents) {
        FirstAcceptedIsFirst(cands, points, key, agents, strict, i);
        return Some(i);
      }
      i := i + 1;
    }
    return None;
  }

  /** The first accepted candidate is the one a left-to-right scan stops at. */
  lemma FirstAcceptedIsFirst(cands: seq<Candidate>, points: map<int, ReviewPoint>, key: string, agents: seq<string>,
                             strict: bool, i: nat)
    requires forall c :: c in cands ==> c.id in points
    requires i < |cands| && Accepts(points[cands[i].id], key, agents, strict)
    requires forall j :: 0 <= j < i ==> !Accepts(points[cands[j].id], key, agents, strict)
    ensures FirstAccepted(cands, points, key, agents, strict) == Some(i)
  {
  }

  // ---------------------------------------------------------------------
  // Storing and finding again
  // ---------------------------------------------------------------------

  /** Agent lists that are permutations of each other name the same set. */
  lemma PermutedAgentSet(a: seq<string>, b: seq<string>)
    requires multiset(a) == multiset(b)
    ensures AgentSet(a) == AgentSet(b)
  {
    forall x ensures x in a <==> x in b {
      assert x in a <==> x in multiset(a);
    }
  }

  /** Storing a review into a store whose points all sit at their keys'
      ids, and asking again in strict mode for the same document with the
      agents in any order, finds that review whenever the search answer
      holds its point anywhere: the exact key admits no other point. */
  lemma SetThenGet(sha: Sha256, points: map<int, ReviewPoint>, content: string, agents: seq<string>, asked: seq<string>,
                   result: string, maxLength: nat, now: int, cands: seq<Candidate>)
    requires KeyedPoints(points)
    requires multiset(asked) == multiset(agents)
    requires forall c :: c in cands ==> c.id in points || c.id == PointIdOf(FullHash(sha, content, agents))
    requires exists c :: c in cands && c.id == PointIdOf(FullHash(sha, content, agents))
    ensures
      var key := FullHash(sha, content, agents);
      var stored := points[PointIdOf(key) := PointFor(sha, content, agents, result, maxLength, now)];
      Lookup(cands, stored, FullHash(sha, content, asked), asked, true) == Some(result)
  {
    var key := FullHash(sha, content, agents);
    var id := PointIdOf(key);
    var stored := points[id := PointFor(sha, content, agents, result, maxLength, now)];
    KeyIgnoresAgentOrder(sha, content, agents, asked);
    PermutedAgentSet(agents, asked);
    var c :| c in cands && c.id == id;
    var i :| 0 <= i < |cands| && cands[i] == c;
    assert Accepts(stored[cands[i].id], key, asked, true);
    var f := FirstAccepted(cands, stored, key, asked, true);
    assert f.Some?;
    assert stored[cands[f.value].id].fullHash == key;
    assert cands[f.value].id == id;
  }

  /** The first review stored into an empty cache is found by a strict
      search that answers its point. */
  lemma FirstSetThenGet(sha: Sha256, content: string, agents: seq<string>, result: string, maxLength: nat, now: int,
                        score: real)
    ensures
      var key := FullHash(sha, content, agents);
      var stored := map[PointIdOf(key) := PointFor(sha, content, agents, result, maxLength, now)];
      Lookup([Candidate(PointIdOf(key), score)], stored, key, agents, true) == Some(result)
  {
    var key := FullHash(sha, content, agents);
    var empty: map<int, ReviewPoint> := map[];
    assert Candidate(PointIdOf(key), score) in [Candidate(PointIdOf(key), score)];
    SetThenGet(sha, empty, content, agents, agents, result, maxLength, now, [Candidate(PointIdOf(key), score)]);
    assert empty[PointIdOf(key) := PointFor(sha, content, agents, result, maxLength, now)]
      == map[PointIdOf(key) := PointFor(sha, content, agents, result, maxLength, now)];
  }

  /** In lenient mode the stored review is found when its point is the
      first candidate in the answer with the asked agent set. */
  lemma SetThenGetLenient(sha: Sha256, points: map<int, ReviewPoint>, content: string, agents: seq<string>,
                          asked: seq<string>, result: string, maxLength: nat, now: int, cands: seq<Candidate>, i: nat)
    requires multiset(asked) == multiset(agents)
    requires forall c :: c in cands ==> c.id in points || c.id == PointIdOf(FullHash(sha, content, agents))
    requires i < |cands| && cands[i].id == PointIdOf(FullHash(sha, content, agents))
    requires forall j :: 0 <= j < i && cands[j].id != PointIdOf(FullHash(sha, content, agents)) ==>
      AgentSet(points[cands[j].id].agents) != AgentSet(asked)
    ensures
      var key := FullHash(sha, content, agents);
      var stored := points[PointIdOf(key) := PointFor(sha, content, agents, result, maxLength, now)];
      Lookup(cands, stored, FullHash(sha, content, asked), asked, false) == Some(result)
  {
    var id := PointIdOf(FullHash(sha, content, agents));
    var stored := points[id := PointFor(sha, content, agents, result, maxLength, now)];
    var k := FullHash(sha, content, asked);
    PermutedAgentSet(agents, asked);
    assert Accepts(stored[cands[i].id], k, asked, false);
    var f := FirstAccepted(cands, stored, k, asked, false);
    assert f.Some? && f.value <= i;
    assert cands[f.value].id == id;
  }

  /** Asking with a different agent set never finds a stored review. */
  lemma OtherAgentsMiss(cands: seq<Candidate>, points: map<int, ReviewPoint>, key: string, asked: seq<string>, strict: bool)
    requires forall c :: c in cands ==> c.id in points && AgentSet(points[c.id].agents) != AgentSet(asked)
    ensures Lookup(cands, points, key, asked, strict) == None
  {
  }

  /** A clarity-only request misses, in either mode, whenever every
      candidate holds a review stored for clarity and rigor. */
  lemma ClarityOnlyMissesBoth(cands: seq<Candidate>, points: map<int, ReviewPoint>, key: string, strict: bool)
    requires forall c :: c in cands ==> c.id in points && AgentSet(points[c.id].agents) == AgentSet(["clarity", "rigor"])
    ensures Lookup(cands, points, key, ["clarity"], strict) == None
  {
    assert "rigor" in AgentSet(["clarity", "rigor"]);
    assert "rigor" !in AgentSet(["clarity"]);
    OtherAgentsMiss(cands, points, key, ["clarity"], strict);
  }

  /** In strict mode an edited document finds a review stored for the
      original document (under the asked agents, in any order, which all give
      the same key) only if SHA-256 gives the two different digested texts the
      same digest. */
  lemma EditedDocumentMisses(sha: Sha256, cands: seq<Candidate>, points: map<int, ReviewPoint>,
                             content: string, edited: string, agents: seq<string>)
    requires edited != content
    requires forall c :: c in cands ==> c.id in points && points[c.id].fullHash == FullHash(sha, content, agents)
    ensures Lookup(cands, points, FullHash(sha, edited, agents), agents, true).Some? ==>
      HashInput(content, agents) != HashInput(edited, agents) &&
      sha(HashInput(content, agents)) == sha(HashInput(edited, agents))
  {
    HashInputSeparatesDocuments(content, edited, agents, agents);
    var f := FirstAccepted(cands, points, FullHash(sha, edited, agents), agents, true);
    if f.Some? {
      assert cands[f.value] in cands;
    }
  }
}
