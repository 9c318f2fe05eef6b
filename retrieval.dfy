/**
 * The vector store's bookkeeping: which chunks it holds, whether an index has been built, and
 * how the positions reported by the nearest-neighbour engine become chunk texts.
 *
 * The engine itself (sentence embeddings and an exact L2 index) is not modelled: it is a
 * function from the query and `k` to the row of positions it reports. When the index holds
 * fewer than `k` vectors the engine pads that row with -1.
 */
module Retrieval {
  import opened Text

  /** What a search produces: the chunks found, or the `IndexError` raised by `chunks[idx]`. */
  datatype Selection = Found(chunks: seq<string>) | IndexError

  /** The nearest-neighbour engine: the positions of the `k` chunks closest to the query. */
  type Engine = (string, nat) -> seq<int>

  /** The filter applied to each reported position. A negative position passes it. */
  predicate Kept(chunks: seq<string>, idx: int) {
    idx < |chunks|
  }

  /** Python's `chunks[idx]`: a negative position counts from the end. */
  function PyIndex(chunks: seq<string>, idx: int): (c: string)
    requires -|chunks| <= idx < |chunks|
    ensures c in chunks
    ensures idx >= 0 ==> c == chunks[idx]
    ensures idx < 0 ==> c == chunks[|chunks| + idx]
  {
    if idx >= 0 then chunks[idx] else chunks[|chunks| + idx]
  }

  /**
   * The loop of `search` over the reported positions: a kept position appends its chunk,
   * a kept position below `-len(chunks)` raises, and the rest are skipped.
   */
  function SelectChunks(chunks: seq<string>, labels: seq<int>): Selection {
    if labels == [] then Found([])
    else
      match SelectChunks(chunks, labels[..|labels| - 1])
      case IndexError => IndexError
      case Found(rs) =>
        var idx := Last(labels);
        if !Kept(chunks, idx) then Found(rs)
        else if idx < -|chunks| then IndexError
        else Found(rs + [PyIndex(chunks, idx)])
  }

  // ----- an independent description of the selection ----------------------------------------

  /** The reported positions that pass the filter, in reported order. */
  function KeptLabels(chunks: seq<string>, labels: seq<int>): (kept: seq<int>)
    ensures |kept| <= |labels|
    ensures forall idx :: idx in kept ==> idx in labels && Kept(chunks, idx)
  {
    if labels == [] then []
    else if Kept(chunks, labels[0]) then [labels[0]] + KeptLabels(chunks, labels[1..])
    else KeptLabels(chunks, labels[1..])
  }

  /** The chunk at each of the given positions, in order. */
  function ChunksAt(chunks: seq<string>, idxs: seq<int>): (cs: seq<string>)
    requires InRange(chunks, idxs)
    ensures |cs| == |idxs|
    ensures forall j :: 0 <= j < |idxs| ==> cs[j] == PyIndex(chunks, idxs[j])
  {
    if idxs == [] then [] else [PyIndex(chunks, idxs[0])] + ChunksAt(chunks, idxs[1..])
  }

  predicate InRange(chunks: seq<string>, idxs: seq<int>) {
    forall j :: 0 <= j < |idxs| ==> -|chunks| <= idxs[j] < |chunks|
  }

  predicate NoneBelow(chunks: seq<string>, labels: seq<int>) {
    forall j :: 0 <= j < |labels| ==> -|chunks| <= labels[j]
  }

  lemma KeptLabelsSnoc(chunks: seq<string>, labels: seq<int>, idx: int)
    ensures KeptLabels(chunks, labels + [idx]) ==
      KeptLabels(chunks, labels) + (if Kept(chunks, idx) then [idx] else [])
    decreases |labels|
  {
    if labels != [] {
      assert (labels + [idx])[1..] == labels[1..] + [idx];
      KeptLabelsSnoc(chunks, labels[1..], idx);
    }
  }

  lemma ChunksAtSnoc(chunks: seq<string>, idxs: seq<int>, idx: int)
    requires InRange(chunks, idxs) && -|chunks| <= idx < |chunks|
    ensures InRange(chunks, idxs + [idx])
    ensures ChunksAt(chunks, idxs + [idx]) == ChunksAt(chunks, idxs) + [PyIndex(chunks, idx)]
  {
  }

  /**
   * The search raises exactly when some reported position lies below `-len(chunks)`; every
   * such position passes the `idx < len(chunks)` filter.
   */
  lemma {:induction false} SelectChunksFails(chunks: seq<string>, labels: seq<int>)
    ensures SelectChunks(chunks, labels) == IndexError <==> !NoneBelow(chunks, labels)
    decreases |labels|
  {
    if labels != [] {
      var init := labels[..|labels| - 1];
      SelectChunksFails(chunks, init);
      assert NoneBelow(chunks, labels) <==> NoneBelow(chunks, init) && -|chunks| <= Last(labels) by {
        if NoneBelow(chunks, init) && -|chunks| <= Last(labels) {
          forall j | 0 <= j < |labels| ensures -|chunks| <= labels[j] {
            if j < |init| {
              assert labels[j] == init[j];
            }
          }
        }
        if NoneBelow(chunks, labels) {
          forall j | 0 <= j < |init| ensures -|chunks| <= init[j] {
            assert init[j] == labels[j];
          }
        }
      }
    }
  }

  /**
   * When it does not raise, the search returns the chunk at every position that passes the
   * filter, in the engine's order, and nothing else.
   */
  lemma {:induction false} SelectChunksFound(chunks: seq<string>, labels: seq<int>)
    requires NoneBelow(chunks, labels)
    ensures InRange(chunks, KeptLabels(chunks, labels))
    ensures SelectChunks(chunks, labels) == Found(ChunksAt(chunks, KeptLabels(chunks, labels)))
    decreases |labels|
  {
    var kept := KeptLabels(chunks, labels);
    forall i | 0 <= i < |kept| ensures -|chunks| <= kept[i] < |chunks| {
      assert kept[i] in kept;
      var j :| 0 <= j < |labels| && labels[j] == kept[i];
    }
    if labels != [] {
      var init := labels[..|labels| - 1];
      var idx := Last(labels);
      assert labels == init + [idx];
      assert NoneBelow(chunks, init) by {
        forall j | 0 <= j < |init| ensures -|chunks| <= init[j] {
          assert init[j] == labels[j];
        }
      }
      SelectChunksFound(chunks, init);
      KeptLabelsSnoc(chunks, init, idx);
      if Kept(chunks, idx) {
        ChunksAtSnoc(chunks, KeptLabels(chunks, init), idx);
      }
    }
  }

  /** A search returns no more chunks than the engine reported positions, all of them stored. */
  lemma SelectChunksBound(chunks: seq<string>, labels: seq<int>)
    ensures SelectChunks(chunks, labels).Found? ==>
      var rs := SelectChunks(chunks, labels).chunks;
      |rs| <= |labels| && forall c :: c in rs ==> c in chunks
  {
    SelectChunksFails(chunks, labels);
    if NoneBelow(chunks, labels) {
      SelectChunksFound(chunks, labels);
      var rs := ChunksAt(chunks, KeptLabels(chunks, labels));
      forall c | c in rs ensures c in chunks {
        var j :| 0 <= j < |rs| && rs[j] == c;
      }
    }
  }

  /**
   * The padding position -1 passes the filter and yields the last stored chunk, so when the
   * store holds fewer chunks than were asked for the last chunk is returned again.
   */
  lemma PaddingRepeatsLast(chunks: seq<string>, labels: seq<int>)
    requires chunks != [] && NoneBelow(chunks, labels)
    ensures SelectChunks(chunks, labels).Found?
    ensures SelectChunks(chunks, labels + [-1]) ==
      Found(SelectChunks(chunks, labels).chunks + [Last(chunks)])
  {
    SelectChunksFails(chunks, labels);
    assert (labels + [-1])[..|labels|] == labels;
  }

  // ----- the store ---------------------------------------------------------------------------

  /** `SimpleVectorStore`: the chunks it holds and whether an index has been built over them. */
  class SimpleVectorStore {
    var chunks: seq<string>
    var indexed: bool

    /** An index exists exactly when chunks were added, and chunks are only added together with one. */
    ghost predicate Valid()
      reads this
    {
      indexed <==> chunks != []
    }

    constructor()
      ensures Valid()
      ensures chunks == [] && !indexed
    {
      chunks := [];
      indexed := false;
    }

    /** `add_documents`: keeps the chunks and builds the index over their embeddings. */
    method AddDocuments(newChunks: seq<string>)
      requires newChunks != []
      modifies this
      ensures Valid()
      ensures chunks == newChunks && indexed
    {
      chunks := newChunks;
      indexed := true;
    }

    /** `search`: nothing before an index exists, otherwise the engine's positions filtered. */
    method Search(query: string, k: nat, nearest: Engine) returns (r: Selection)
      requires Valid()
      ensures !indexed ==> r == Found([])
      ensures indexed ==> r == SelectChunks(chunks, nearest(query, k))
    {
      if !indexed {
        return Found([]);
      }
      var labels := nearest(query, k);
      var results: seq<string> := [];
      for j := 0 to |labels|
        invariant SelectChunks(chunks, labels[..j]) == Found(results)
      {
        assert labels[..j + 1][..j] == labels[..j];
        var idx := labels[j];
        if idx < |chunks| {
          if idx < -|chunks| {
            SelectErrorSticks(chunks, labels, j + 1);
            return IndexError;
          }
          results := results + [PyIndex(chunks, idx)];
        }
      }
      assert labels[..|labels|] == labels;
      r := Found(results);
    }
  }

  /** Once a prefix of the positions raises, the whole search raises. */
  lemma {:induction false} SelectErrorSticks(chunks: seq<string>, labels: seq<int>, n: nat)
    requires n <= |labels| && SelectChunks(chunks, labels[..n]) == IndexError
    ensures SelectChunks(chunks, labels) == IndexError
    decreases |labels| - n
  {
    if n == |labels| {
      assert labels[..n] == labels;
    } else {
      assert labels[..n + 1][..n] == labels[..n];
      SelectErrorSticks(chunks, labels, n + 1);
    }
  }
}
