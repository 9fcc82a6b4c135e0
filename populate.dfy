/** Loading guideline chunks into the vector store: the quality filter
    that drops short, link-only and cross-reference chunks, the numbering
    of the points to upload, and the upload in batches of one hundred that
    stops at the first rejected batch. Chunking, embedding and the HTTP
    requests are inputs: `accepted(j)` says whether the store answered the
    j-th batch with status 200. */
module Populate {
  import opened Text

  /** A chunk of a guideline document. */
  datatype Chunk = Chunk(pageContent: string, metadata: map<string, string>)

  /** A point as uploaded: its id, its vector and its payload. */
  datatype Point = Point(id: nat, vector: seq<real>, pageContent: string, metadata: map<string, string>)

  const BatchSize: nat := 100
  const MathMinLength: nat := 50
  const PlainMinLength: nat := 200
  const SeeMaxLength: nat := 100

  /** The symbols whose presence marks a chunk as mathematical. */
  const MathSymbols: seq<string> := [
    "=", "\U{222B}", "\U{2211}", "\U{2202}", "\U{2206}", "lim", "sup", "inf", "\U{B1}", "\U{2264}", "\U{2265}",
    "\U{2200}", "\U{2203}", "\U{22A5}", "\U{2227}", "\U{2228}", "\U{2192}", "\U{AC}", "\U{2208}", "\U{2282}",
    "\U{2286}", "\U{222A}", "\U{2229}"]

  /** The length a stripped chunk needs: shorter for mathematical text. */
  function MinLength(content: string): (n: nat)
    ensures AnyContains(content, MathSymbols) ==> n == MathMinLength
    ensures !AnyContains(content, MathSymbols) ==> n == PlainMinLength
  {
    if AnyContains(content, MathSymbols) then MathMinLength else PlainMinLength
  }

  /** Whether `filter_chunks` keeps a chunk, judged on its stripped text. */
  predicate Keeps(chunk: Chunk) {
    var content := Strip(chunk.pageContent);
    && |content| >= MinLength(content)
    && !("http://" <= content || "https://" <= content)
    && !("see " <= Lower(content) && |content| < SeeMaxLength)
  }

  /** The chunks `keep` admits, in input order; each is judged on its own. */
  function Select(chunks: seq<Chunk>, keep: Chunk -> bool): (r: seq<Chunk>)
    ensures |r| <= |chunks|
  {
    if chunks == [] then []
    else
      var rest := Select(chunks[..|chunks| - 1], keep);
      if keep(chunks[|chunks| - 1]) then rest + [chunks[|chunks| - 1]] else rest
  }

  /** The chunks `filter_chunks` keeps. */
  function Filtered(chunks: seq<Chunk>): seq<Chunk> {
    Select(chunks, Keeps)
  }

  /** `r` is `s` with some elements left out, the rest in order. */
  predicate SubsequenceOf(r: seq<Chunk>, s: seq<Chunk>)
    decreases |s|
  {
    if r == [] then true
    else if s == [] then false
    else if r[|r| - 1] == s[|s| - 1] then SubsequenceOf(r[..|r| - 1], s[..|s| - 1])
    else SubsequenceOf(r, s[..|s| - 1])
  }

  /** A subsequence of all but the last element is a subsequence of all. */
  lemma {:induction false} SubsequenceExtend(r: seq<Chunk>, s: seq<Chunk>)
    requires s != [] && SubsequenceOf(r, s[..|s| - 1])
    ensures SubsequenceOf(r, s)
    decreases |s|, 0
  {
    if r != [] && r[|r| - 1] == s[|s| - 1] {
      SubsequenceDropLast(r, s[..|s| - 1]);
    }
  }

  /** Leaving out the last element of a subsequence keeps it one. */
  lemma {:induction false} SubsequenceDropLast(r: seq<Chunk>, s: seq<Chunk>)
    requires r != [] && SubsequenceOf(r, s)
    ensures SubsequenceOf(r[..|r| - 1], s)
    decreases |s|, 1
  {
    if r[|r| - 1] != s[|s| - 1] {
      SubsequenceDropLast(r, s[..|s| - 1]);
    }
    SubsequenceExtend(r[..|r| - 1], s);
  }

  lemma {:induction false} SelectIsSubsequence(chunks: seq<Chunk>, keep: Chunk -> bool)
    ensures SubsequenceOf(Select(chunks, keep), chunks)
    decreases |chunks|
  {
    if chunks != [] {
      var init := chunks[..|chunks| - 1];
      var r := Select(chunks, keep);
      SelectIsSubsequence(init, keep);
      if keep(chunks[|chunks| - 1]) {
        assert r[..|r| - 1] == Select(init, keep);
      } else {
        SubsequenceExtend(r, chunks);
      }
    }
  }

  /** The result is an order-preserving subsequence of the input. */
  lemma FilteredIsSubsequence(chunks: seq<Chunk>)
    ensures SubsequenceOf(Filtered(chunks), chunks)
  {
    SelectIsSubsequence(chunks, Keeps);
  }

  lemma {:induction false} SelectMembers(chunks: seq<Chunk>, keep: Chunk -> bool, c: Chunk)
    ensures c in Select(chunks, keep) <==> c in chunks && keep(c)
    decreases |chunks|
  {
    if chunks != [] {
      var init := chunks[..|chunks| - 1];
      SelectMembers(init, keep, c);
      assert chunks == init + [chunks[|chunks| - 1]];
    }
  }

  /** A chunk is in the result exactly when it is in the input and passes. */
  lemma FilteredMembers(chunks: seq<Chunk>, c: Chunk)
    ensures c in Filtered(chunks) <==> c in chunks && Keeps(c)
  {
    SelectMembers(chunks, Keeps, c);
  }

  lemma {:induction false} SelectIdempotent(chunks: seq<Chunk>, keep: Chunk -> bool)
    ensures Select(Select(chunks, keep), keep) == Select(chunks, keep)
    decreases |chunks|
  {
    if chunks != [] {
      var init := chunks[..|chunks| - 1];
      SelectIdempotent(init, keep);
      if keep(chunks[|chunks| - 1]) {
        var r := Select(chunks, keep);
        assert r[..|r| - 1] == Select(init, keep);
      }
    }
  }

  /** Each chunk is kept or dropped on its own, so filtering twice keeps
      what filtering once keeps. */
  lemma FilterIdempotent(chunks: seq<Chunk>)
    ensures Filtered(Filtered(chunks)) == Filtered(chunks)
  {
    SelectIdempotent(chunks, Keeps);
  }

  /** What a kept chunk's stripped text is like: long enough for its kind,
      not a bare link, and not a short cross-reference. */
  lemma KeptChunkQuality(chunks: seq<Chunk>, c: Chunk)
    requires c in Filtered(chunks)
    ensures var content := Strip(c.pageContent);
      && (AnyContains(content, MathSymbols) ==> |content| >= MathMinLength)
      && (!AnyContains(content, MathSymbols) ==> |content| >= PlainMinLength)
      && !("http://" <= content) && !("https://" <= content)
      && ("see " <= Lower(content) ==> |content| >= SeeMaxLength)
  {
    FilteredMembers(chunks, c);
  }

  /** `filter_chunks`: one pass, each chunk judged by `QualityCheck`. */
  method FilterChunks(chunks: seq<Chunk>) returns (quality: seq<Chunk>)
    ensures quality == Filtered(chunks)
  {
    quality := [];
    for i := 0 to |chunks|
      invariant quality == Select(chunks[..i], Keeps)
    {
      assert chunks[..i + 1][..i] == chunks[..i];
      var keep := QualityCheck(chunks[i]);
      if keep {
        quality := quality + [chunks[i]];
      }
    }
    assert chunks[..|chunks|] == chunks;
  }

  /** The body of the filtering loop: each `continue` of the source is a
      False here. */
  method QualityCheck(chunk: Chunk) returns (keep: bool)
    ensures keep == Keeps(chunk)
  {
    var content := Strip(chunk.pageContent);
    var hasMath := AnyContains(content, MathSymbols);
    var minLength := if hasMath then MathMinLength else PlainMinLength;
    if |content| < minLength {
      return false;
    }
    if "http://" <= content || "https://" <= content {
      return false;
    }
    if "see " <= Lower(content) && |content| < SeeMaxLength {
      return false;
    }
    return true;
  }

  // ---------------------------------------------------------------------
  // Points and batches
  // ---------------------------------------------------------------------

  /** `chunk.metadata["agent_type"] = agent_type` for every chunk. */
  function Tagged(chunks: seq<Chunk>, agentType: string): (r: seq<Chunk>)
    ensures |r| == |chunks|
    ensures forall k :: 0 <= k < |r| ==> r[k].pageContent == chunks[k].pageContent
    ensures forall k :: 0 <= k < |r| ==> r[k].metadata.Keys == chunks[k].metadata.Keys + {"agent_type"}
    ensures forall k :: 0 <= k < |r| ==> r[k].metadata["agent_type"] == agentType
    ensures forall k, key :: 0 <= k < |r| && key in chunks[k].metadata && key != "agent_type" ==>
      r[k].metadata[key] == chunks[k].metadata[key]
  {
    seq(|chunks|, k requires 0 <= k < |chunks| =>
      Chunk(chunks[k].pageContent, chunks[k].metadata["agent_type" := agentType]))
  }

  /** The point preparation loop: the k-th chunk and the k-th vector
      become the point with id k, as far as both lists go. */
  method PreparePoints(chunks: seq<Chunk>, vectors: seq<seq<real>>) returns (points: seq<Point>)
    ensures |points| == if |chunks| < |vectors| then |chunks| else |vectors|
    ensures forall k :: 0 <= k < |points| ==>
      points[k] == Point(k, vectors[k], chunks[k].pageContent, chunks[k].metadata)
  {
    points := [];
    var idx := 0;
    while idx < |chunks| && idx < |vectors|
      invariant idx <= |chunks| && idx <= |vectors| && |points| == idx
      invariant forall k :: 0 <= k < idx ==>
        points[k] == Point(k, vectors[k], chunks[k].pageContent, chunks[k].metadata)
    {
      points := points + [Point(idx, vectors[idx], chunks[idx].pageContent, chunks[idx].metadata)];
      idx := idx + 1;
    }
  }

  /** Prepared ids are 0 .. n-1, so no two points share one. */
  lemma PointIdsDistinct(points: seq<Point>)
    requires forall k :: 0 <= k < |points| ==> points[k].id == k
    ensures forall i, j :: 0 <= i < j < |points| ==> points[i].id != points[j].id
  {
  }

  function Min(a: int, b: int): int {
    if a < b then a else b
  }

  /** The consecutive batches the upload sends. */
  function Batches<T>(points: seq<T>): (bs: seq<seq<T>>)
    ensures forall b :: b in bs ==> 0 < |b| <= BatchSize
    ensures |bs| == (|points| + BatchSize - 1) / BatchSize
    decreases |points|
  {
    if |points| == 0 then []
    else if |points| <= BatchSize then [points]
    else [points[..BatchSize]] + Batches(points[BatchSize..])
  }

  function Flatten<T>(bs: seq<seq<T>>): seq<T> {
    if bs == [] then [] else bs[0] + Flatten(bs[1..])
  }

  /** The batches cover the points, in order. */
  lemma {:induction false} BatchesCover<T>(points: seq<T>)
    ensures Flatten(Batches(points)) == points
    decreases |points|
  {
    if |points| > BatchSize {
      BatchesCover(points[BatchSize..]);
      assert Batches(points)[1..] == Batches(points[BatchSize..]);
      assert points == points[..BatchSize] + points[BatchSize..];
    } else if |points| > 0 {
      assert Batches(points)[1..] == [];
      assert points + [] == points;
    }
  }

  /** Batch `j > 0` of a list is batch `j - 1` of the list after the first
      batch. */
  lemma BatchesStep<T>(points: seq<T>, j: nat)
    requires 0 < j < |Batches(points)|
    ensures |points| > BatchSize && j - 1 < |Batches(points[BatchSize..])|
    ensures Batches(points)[j] == Batches(points[BatchSize..])[j - 1]
  {
  }

  /** Batch `j` starts inside the list. */
  lemma {:induction false} BatchStart<T>(points: seq<T>, j: nat)
    requires j < |Batches(points)|
    ensures j * BatchSize < |points|
    decreases j
  {
    if j > 0 {
      BatchesStep(points, j);
      BatchStart(points[BatchSize..], j - 1);
    }
  }

  /** A slice of the list after the first batch, shifted back by a batch. */
  lemma ShiftedSlice<T>(points: seq<T>, j: nat)
    requires 0 < j && BatchSize < |points| && j * BatchSize < |points|
    ensures var lo := (j - 1) * BatchSize;
      lo <= Min(lo + BatchSize, |points| - BatchSize) &&
      points[BatchSize..][lo..Min(lo + BatchSize, |points| - BatchSize)] ==
        points[j * BatchSize..Min(j * BatchSize + BatchSize, |points|)]
  {
  }

  /** The j-th batch is the slice starting at `j * BatchSize`. */
  lemma {:induction false} BatchAt<T>(points: seq<T>, j: nat)
    requires j < |Batches(points)|
    ensures j * BatchSize < |points|
    ensures Batches(points)[j] == points[j * BatchSize..Min(j * BatchSize + BatchSize, |points|)]
    decreases j
  {
    BatchStart(points, j);
    if j == 0 {
      assert |points| > 0;
    } else {
      BatchesStep(points, j);
      BatchAt(points[BatchSize..], j - 1);
      ShiftedSlice(points, j);
    }
  }

  /** The index of the first batch the store refuses, among the first `n`. */
  function FirstRejected(n: nat, accepted: nat -> bool): (r: nat)
    ensures r <= n
    ensures forall j :: 0 <= j < r ==> accepted(j)
    ensures r < n ==> !accepted(r)
  {
    if n == 0 then 0
    else if FirstRejected(n - 1, accepted) < n - 1 then FirstRejected(n - 1, accepted)
    else if accepted(n - 1) then n else n - 1
  }

  /** `upload_points_via_api`: the batches go out in order; the first one
      refused ends the upload with False and nothing after it is sent;
      True when every batch, possibly none, is accepted. */
  method UploadPoints<T>(points: seq<T>, accepted: nat -> bool) returns (ok: bool, sent: seq<seq<T>>)
    ensures ok <==> forall j :: 0 <= j < |Batches(points)| ==> accepted(j)
    ensures |sent| <= |Batches(points)| && sent == Batches(points)[..|sent|]
    ensures ok ==> sent == Batches(points)
    ensures !ok ==> |sent| == FirstRejected(|Batches(points)|, accepted) + 1
    ensures forall j :: 0 <= j < |sent| - 1 ==> accepted(j)
  {
    ghost var bs := Batches(points);
    sent := [];
    var i := 0;
    while i < |points|
      invariant |sent| <= |bs| && sent == bs[..|sent|]
      invariant i == |sent| * BatchSize
      invariant |sent| < |bs| <==> i < |points|
      invariant forall j :: 0 <= j < |sent| ==> accepted(j)
    {
      var batch := points[i..Min(i + BatchSize, |points|)];
      BatchAt(points, |sent|);
      assert batch == bs[|sent|];
      sent := sent + [batch];
      assert sent == bs[..|sent|];
      if !accepted(|sent| - 1) {
        return false, sent;
      }
      i := i + BatchSize;
    }
    return true, sent;
  }
}
