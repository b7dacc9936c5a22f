// Cutting a gateway response into stream chunks (`build_stream_chunks` in
// core/runtime/src/lib.rs). Only the sizes of the pieces are recorded.

module Stream {
  import opened Prelude

  datatype Chunk = Chunk(sequence: nat, bytes: nat, finalChunk: bool)

  /** `slice::chunks`: consecutive pieces of `size`, the last one maybe shorter. */
  function Pieces<T>(body: seq<T>, size: nat): seq<seq<T>>
    requires size > 0
    decreases |body|
  {
    if |body| == 0 then []
    else if |body| <= size then [body]
    else [body[..size]] + Pieces(body[size..], size)
  }

  /** The pieces' sizes, numbered from `index`, with the source's test for the last one. */
  function Number<T>(pieces: seq<seq<T>>, index: nat, chunkSize: nat, total: nat): (r: seq<Chunk>)
    ensures |r| == |pieces|
  {
    if pieces == [] then []
    else [Chunk(index, |pieces[0]|, (index + 1) * chunkSize >= total)] + Number(pieces[1..], index + 1, chunkSize, total)
  }

  function BuildStreamChunks<T>(body: seq<T>, chunkSize: nat): seq<Chunk> {
    if |body| == 0 then [Chunk(0, 0, true)] else Number(Pieces(body, Max(chunkSize, 1)), 0, chunkSize, |body|)
  }

  function TotalBytes(chunks: seq<Chunk>): nat {
    if chunks == [] then 0 else chunks[0].bytes + TotalBytes(chunks[1..])
  }

  function Joined<T>(pieces: seq<seq<T>>): seq<T> {
    if pieces == [] then [] else pieces[0] + Joined(pieces[1..])
  }

  lemma {:induction false} PiecesJoin<T>(body: seq<T>, size: nat)
    requires size > 0
    ensures Joined(Pieces(body, size)) == body
    decreases |body|
  {
    if |body| > size {
      PiecesJoin(body[size..], size);
      assert Pieces(body, size)[1..] == Pieces(body[size..], size);
    } else if |body| > 0 {
      assert Pieces(body, size)[1..] == [];
    }
  }

  lemma {:induction false} NumberTotals<T>(pieces: seq<seq<T>>, index: nat, chunkSize: nat, total: nat)
    ensures TotalBytes(Number(pieces, index, chunkSize, total)) == |Joined(pieces)|
    decreases pieces
  {
    if pieces != [] {
      NumberTotals(pieces[1..], index + 1, chunkSize, total);
    }
  }

  /** Numbered in order, every chunk full but the last one, which is not empty. */
  predicate InOrder(chunks: seq<Chunk>, index: nat, size: nat) {
    && chunks != []
    && (forall k :: 0 <= k < |chunks| ==> chunks[k].sequence == index + k)
    && (forall k :: 0 <= k < |chunks| - 1 ==> chunks[k].bytes == size)
    && 0 < chunks[|chunks| - 1].bytes <= size
  }

  predicate OnlyLastFinal(chunks: seq<Chunk>) {
    forall k :: 0 <= k < |chunks| ==> (chunks[k].finalChunk <==> k == |chunks| - 1)
  }

  lemma {:induction false} NumberOrders<T>(body: seq<T>, index: nat, size: nat, chunkSize: nat, total: nat)
    requires |body| > 0 && size > 0
    ensures InOrder(Number(Pieces(body, size), index, chunkSize, total), index, size)
    decreases |body|
  {
    var pieces := Pieces(body, size);
    if |body| > size {
      assert pieces[1..] == Pieces(body[size..], size);
      NumberOrders(body[size..], index + 1, size, chunkSize, total);
    }
  }

  lemma {:induction false} NumberEnds<T>(body: seq<T>, index: nat, size: nat, total: nat)
    requires |body| > 0 && size > 0 && index * size + |body| == total
    ensures OnlyLastFinal(Number(Pieces(body, size), index, size, total))
    decreases |body|
  {
    var pieces := Pieces(body, size);
    assert (index + 1) * size == index * size + size;
    if |body| > size {
      assert pieces[1..] == Pieces(body[size..], size);
      NumberEnds(body[size..], index + 1, size, total);
      assert Number(pieces, index, size, total)[1..] == Number(pieces[1..], index + 1, size, total);
    }
  }

  lemma {:induction false} ZeroNeverEnds<T>(pieces: seq<seq<T>>, index: nat, total: nat, k: nat)
    requires total > 0 && k < |pieces|
    ensures !Number(pieces, index, 0, total)[k].finalChunk
    decreases pieces
  {
    if k > 0 {
      ZeroNeverEnds(pieces[1..], index + 1, total, k - 1);
    } else {
      assert (index + 1) * 0 == 0;
    }
  }

  /** Chunking conserves the body: sizes add up and chunks come in order, full but for
      the last; an empty body is one empty final chunk. A chunk size of zero is one. */
  lemma ChunksConserve<T>(body: seq<T>, chunkSize: nat)
    ensures TotalBytes(BuildStreamChunks(body, chunkSize)) == |body|
    ensures |body| > 0 ==> InOrder(BuildStreamChunks(body, chunkSize), 0, if chunkSize == 0 then 1 else chunkSize)
    ensures |body| == 0 ==> BuildStreamChunks(body, chunkSize) == [Chunk(0, 0, true)]
  {
    var size := Max(chunkSize, 1);
    if |body| == 0 {
      assert [Chunk(0, 0, true)][1..] == [];
    } else {
      PiecesJoin(body, size);
      NumberTotals(Pieces(body, size), 0, chunkSize, |body|);
      NumberOrders(body, 0, size, chunkSize, |body|);
    }
  }

  /** Exactly the last chunk is marked final, except for a non-empty body and chunk
      size zero: the mark is computed from the size before it is raised to one. */
  lemma LastIsMarkedIff<T>(body: seq<T>, chunkSize: nat)
    ensures OnlyLastFinal(BuildStreamChunks(body, chunkSize)) <==> chunkSize > 0 || |body| == 0
  {
    if |body| > 0 {
      if chunkSize > 0 {
        NumberEnds(body, 0, chunkSize, |body|);
      } else {
        NumberOrders(body, 0, 1, 0, |body|);
        var pieces := Pieces(body, 1);
        ZeroNeverEnds(pieces, 0, |body|, |pieces| - 1);
      }
    }
  }
}
