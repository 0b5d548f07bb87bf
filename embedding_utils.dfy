/**
  The code around the embedding provider and the vector index in embedding_utils.py.

  The provider (the remote embedding model) is a function from a batch of texts to
  the vectors it returns; the index's nearest-neighbour search is a function from a
  block of query rows and `k` to its distance and position rows. Both are opaque:
  this module models only how the repository's code calls them and what it builds
  from their answers. `V` is the vector type and `D` the distance type, whose
  values are carried through unchanged.
*/
module EmbeddingUtils {
  import opened Common

  /** The default `batch_size` of `embed`. */
  const DefaultBatchSize: int := 100

  /** The default `k` of `search`. */
  const DefaultK: int := 5

  /** The Python exception raised instead of a result. */
  datatype EmbedError = RangeStepZero

  /** What `index.search` returns: one row of distances and one row of positions per query row. */
  datatype IndexAnswer<D> = IndexAnswer(distances: seq<seq<D>>, positions: seq<seq<int>>)

  /** One entry of a search result list. */
  datatype SearchResult<D> = SearchResult(distance: D, doc: string, table: string, column: string)

  /** The metadata columns `doc`, `TABLE_NAME` and `COLUMN_NAME`; a data frame keeps them the same length. */
  datatype MetadataFrame = MetadataFrame(doc: seq<string>, tableName: seq<string>, columnName: seq<string>)
  {
    ghost predicate Valid()
    {
      |doc| == |tableName| == |columnName|
    }
  }

  // ---------------------------------------------------------------------------
  // Batching in `embed`
  // ---------------------------------------------------------------------------

  /** The slices `texts[i:i+b]` for `i` in `range(start, len(texts), b)`. */
  function BatchesFrom(texts: seq<string>, b: int, start: nat): (batches: seq<seq<string>>)
    requires b > 0
    decreases |texts| - start
  {
    if start >= |texts| then []
    else [texts[start..Min(start + b, |texts|)]] + BatchesFrom(texts, b, start + b)
  }

  /** The batches `embed` sends: none at all when `range` with a negative step is empty. */
  function Batches(texts: seq<string>, b: int): (batches: seq<seq<string>>)
    requires b != 0
  {
    if b < 0 then [] else BatchesFrom(texts, b, 0)
  }

  /** Concatenation of a sequence of sequences, in order. */
  function Concat<T>(parts: seq<seq<T>>): (joined: seq<T>)
  {
    if parts == [] then [] else Concat(parts[..|parts| - 1]) + parts[|parts| - 1]
  }

  /** The provider's answer to each batch, in batch order. */
  function Responses<V>(provider: seq<string> -> seq<V>, batches: seq<seq<string>>): (answers: seq<seq<V>>)
  {
    seq(|batches|, j requires 0 <= j < |batches| => provider(batches[j]))
  }

  lemma {:induction false} ConcatPrepend<T>(x: seq<T>, parts: seq<seq<T>>)
    ensures Concat([x] + parts) == x + Concat(parts)
    decreases |parts|
  {
    if parts == [] {
      assert [x] + parts == [x];
      assert Concat([x][..0]) == [];
    } else {
      var all := [x] + parts;
      assert all[..|all| - 1] == [x] + parts[..|parts| - 1];
      ConcatPrepend(x, parts[..|parts| - 1]);
    }
  }

  /** The batches, joined back together, are the remaining texts. */
  lemma {:induction false} BatchesFromCover(texts: seq<string>, b: int, start: nat)
    requires b > 0 && start <= |texts|
    ensures Concat(BatchesFrom(texts, b, start)) == texts[start..]
    decreases |texts| - start
  {
    if start < |texts| {
      var next := Min(start + b, |texts|);
      BatchesFromCover(texts, b, next);
      if next < start + b {
        assert BatchesFrom(texts, b, start + b) == [];
        assert BatchesFrom(texts, b, start + b) == BatchesFrom(texts, b, next);
      }
      ConcatPrepend(texts[start..next], BatchesFrom(texts, b, start + b));
      assert texts[start..] == texts[start..next] + texts[next..];
    }
  }

  /** Every batch is non-empty and holds at most `b` texts. */
  lemma {:induction false} BatchesFromSized(texts: seq<string>, b: int, start: nat)
    requires b > 0
    ensures forall j :: 0 <= j < |BatchesFrom(texts, b, start)| ==>
              0 < |BatchesFrom(texts, b, start)[j]| <= b
    decreases |texts| - start
  {
    if start < |texts| {
      BatchesFromSized(texts, b, start + b);
    }
  }

  /** Batch `j` is the slice `texts[start + j*b : start + (j+1)*b]`, clamped at the end. */
  lemma {:induction false} BatchesFromAt(texts: seq<string>, b: int, start: nat, j: nat)
    requires b > 0 && j < |BatchesFrom(texts, b, start)|
    ensures start + j * b < |texts|
    ensures BatchesFrom(texts, b, start)[j] == texts[start + j * b..Min(start + (j + 1) * b, |texts|)]
    decreases j
  {
    if j > 0 {
      var rest := BatchesFrom(texts, b, start + b);
      assert BatchesFrom(texts, b, start)[j] == rest[j - 1];
      BatchesFromAt(texts, b, start + b, j - 1);
      MulStep(j, b);
    }
  }

  lemma MulStep(j: int, b: int)
    ensures (j - 1) * b + b == j * b
    ensures (j - 1 + 1) * b + b == (j + 1) * b
  {
  }

  lemma MulSign(d: int, b: int)
    requires b > 0
    ensures d >= 1 ==> d * b >= b
    ensures d <= -1 ==> d * b <= -b
  {
    if d >= 1 { assert d * b == (d - 1) * b + b; assert (d - 1) * b >= 0; }
    if d <= -1 { assert d * b == (d + 1) * b - b; assert (d + 1) * b <= 0; }
  }

  lemma DivUnique(n: int, b: int, q: int, r: int)
    requires b > 0 && 0 <= r < b && n == q * b + r
    ensures n / b == q
  {
    var d := n / b - q;
    assert n == (n / b) * b + n % b;
    assert d * b == r - n % b by {
      assert (n / b) * b == (q + d) * b == q * b + d * b;
    }
    MulSign(d, b);
  }

  lemma DivStep(x: int, b: int)
    requires b > 0 && x >= 0
    ensures (x + b) / b == x / b + 1
  {
    var q, r := x / b, x % b;
    assert x == q * b + r;
    assert x + b == (q + 1) * b + r;
    DivUnique(x + b, b, q + 1, r);
  }

  /** There are `ceil((len(texts) - start) / b)` batches. */
  lemma {:induction false} BatchesFromCount(texts: seq<string>, b: int, start: nat)
    requires b > 0 && start <= |texts|
    ensures |BatchesFrom(texts, b, start)| == (|texts| - start + b - 1) / b
    decreases |texts| - start
  {
    var n := |texts| - start;
    if n == 0 {
      DivUnique(b - 1, b, 0, b - 1);
    } else if b <= n {
      BatchesFromCount(texts, b, start + b);
      assert |texts| - (start + b) + b - 1 == n - 1;
      DivStep(n - 1, b);
      assert n - 1 + b == n + b - 1;
    } else {
      assert BatchesFrom(texts, b, start + b) == [];
      DivUnique(n + b - 1, b, 1, n - 1);
    }
  }

  /**
    The batches of `embed` for a positive batch size: batch `j` is
    `texts[j*b : (j+1)*b]`, each is non-empty with at most `b` texts, there are
    `ceil(len(texts) / b)` of them, and joined together they are `texts`.
  */
  lemma BatchesPartition(texts: seq<string>, b: int)
    requires b > 0
    ensures |Batches(texts, b)| == (|texts| + b - 1) / b
    ensures Concat(Batches(texts, b)) == texts
    ensures forall j :: 0 <= j < |Batches(texts, b)| ==> 0 < |Batches(texts, b)[j]| <= b
    ensures forall j :: 0 <= j < |Batches(texts, b)| ==>
              j * b < |texts| && Batches(texts, b)[j] == texts[j * b..Min((j + 1) * b, |texts|)]
  {
    BatchesFromCount(texts, b, 0);
    BatchesFromCover(texts, b, 0);
    BatchesFromSized(texts, b, 0);
    BatchesSlices(texts, b);
  }

  lemma BatchesSlices(texts: seq<string>, b: int)
    requires b > 0
    ensures forall j :: 0 <= j < |BatchesFrom(texts, b, 0)| ==>
              j * b < |texts| && BatchesFrom(texts, b, 0)[j] == texts[j * b..Min((j + 1) * b, |texts|)]
  {
    forall j | 0 <= j < |BatchesFrom(texts, b, 0)|
      ensures j * b < |texts| && BatchesFrom(texts, b, 0)[j] == texts[j * b..Min((j + 1) * b, |texts|)]
    {
      BatchesFromAt(texts, b, 0, j);
    }
  }

  lemma ConcatAppend<T>(parts: seq<seq<T>>, x: seq<T>)
    ensures Concat(parts + [x]) == Concat(parts) + x
  {
    assert (parts + [x])[..|parts|] == parts;
  }

  lemma ResponsesAppend<V>(provider: seq<string> -> seq<V>, batches: seq<seq<string>>, batch: seq<string>)
    ensures Responses(provider, batches + [batch]) == Responses(provider, batches) + [provider(batch)]
  {
  }

  /** An empty input makes no provider call, for any non-zero batch size. */
  lemma NoTextsNoBatches(b: int)
    requires b != 0
    ensures Batches([], b) == []
  {
  }

  /** A single text is sent as the single batch `[text]`. */
  lemma OneTextOneBatch(text: string, b: int)
    requires b > 0
    ensures Batches([text], b) == [[text]]
  {
    assert BatchesFrom([text], b, b) == [];
    assert [text][0..Min(b, 1)] == [text];
  }

  /** `embed([query])` sends the one batch `[query]` and returns exactly the provider's answer to it. */
  lemma EmbedOneText<V>(query: string, provider: seq<string> -> seq<V>)
    ensures Batches([query], DefaultBatchSize) == [[query]]
    ensures Concat(Responses(provider, Batches([query], DefaultBatchSize))) == provider([query])
  {
    OneTextOneBatch(query, DefaultBatchSize);
    assert Responses(provider, [[query]]) == [provider([query])];
    assert [provider([query])][..0] == [];
  }

  /** The provider answers every batch with one vector per text. */
  ghost predicate OnePerText<V>(provider: seq<string> -> seq<V>)
  {
    forall batch :: |provider(batch)| == |batch|
  }

  /** Each text's own vector, in order. */
  function MapTexts<V>(f: string -> V, texts: seq<string>): (vs: seq<V>)
    ensures |vs| == |texts|
  {
    seq(|texts|, i requires 0 <= i < |texts| => f(texts[i]))
  }

  lemma MapTextsAppend<V>(f: string -> V, a: seq<string>, b: seq<string>)
    ensures MapTexts(f, a + b) == MapTexts(f, a) + MapTexts(f, b)
  {
  }

  /** The provider embeds each text on its own, so a batch's answer is the texts' vectors in order. */
  ghost predicate ElementWise<V>(provider: seq<string> -> seq<V>, f: string -> V)
  {
    forall batch: seq<string> :: provider(batch) == MapTexts(f, batch)
  }

  lemma {:induction false} ConcatLength<V>(provider: seq<string> -> seq<V>, batches: seq<seq<string>>)
    requires OnePerText(provider)
    ensures |Concat(Responses(provider, batches))| == |Concat(batches)|
    decreases |batches|
  {
    if batches != [] {
      var init := batches[..|batches| - 1];
      assert Responses(provider, batches)[..|batches| - 1] == Responses(provider, init);
      ConcatLength(provider, init);
    }
  }

  lemma {:induction false} ConcatElementWise<V>(provider: seq<string> -> seq<V>, f: string -> V,
                                                batches: seq<seq<string>>)
    requires ElementWise(provider, f)
    ensures Concat(Responses(provider, batches)) == MapTexts(f, Concat(batches))
    decreases |batches|
  {
    if batches != [] {
      var init := batches[..|batches| - 1];
      var last := batches[|batches| - 1];
      assert Responses(provider, batches)[..|batches| - 1] == Responses(provider, init);
      ConcatElementWise(provider, f, init);
      MapTextsAppend(f, Concat(init), last);
    }
  }

  /**
    When the provider answers each batch with one vector per text, `embed`
    returns one vector per text; when it embeds texts independently, vector `i`
    is the embedding of `texts[i]`.
  */
  lemma EmbeddingsFollowTexts<V>(texts: seq<string>, b: int, provider: seq<string> -> seq<V>, f: string -> V)
    requires b > 0
    ensures OnePerText(provider) ==> |Concat(Responses(provider, Batches(texts, b)))| == |texts|
    ensures ElementWise(provider, f) ==>
              Concat(Responses(provider, Batches(texts, b))) == MapTexts(f, texts)
  {
    BatchesPartition(texts, b);
    if OnePerText(provider) {
      ConcatLength(provider, Batches(texts, b));
    }
    if ElementWise(provider, f) {
      ConcatElementWise(provider, f, Batches(texts, b));
    }
  }

  /** One turn of `embed`'s loop sends the next slice, so the batches still to send shrink by one. */
  lemma BatchStep(texts: seq<string>, b: int, i: nat, calls: seq<seq<string>>)
    requires b > 0 && i < |texts|
    requires calls + BatchesFrom(texts, b, i) == BatchesFrom(texts, b, 0)
    ensures (calls + [texts[i..Min(i + b, |texts|)]]) + BatchesFrom(texts, b, i + b) == BatchesFrom(texts, b, 0)
  {
    var batch := texts[i..Min(i + b, |texts|)];
    var rest := BatchesFrom(texts, b, i + b);
    assert BatchesFrom(texts, b, i) == [batch] + rest;
    assert (calls + [batch]) + rest == calls + ([batch] + rest);
  }

  /** One turn of `embed`'s loop appends the provider's answer to the batch it sends. */
  lemma VectorStep<V>(calls: seq<seq<string>>, batch: seq<string>, vectors: seq<V>, provider: seq<string> -> seq<V>)
    requires vectors == Concat(Responses(provider, calls))
    ensures vectors + provider(batch) == Concat(Responses(provider, calls + [batch]))
  {
    ResponsesAppend(provider, calls, batch);
    ConcatAppend(Responses(provider, calls), provider(batch));
  }

  /**
    `embed(texts, batch_size)`: one provider call per slice of `batch_size` texts,
    the answers concatenated in batch order. A zero batch size makes `range`
    raise; a negative one makes `range` empty. `calls` records the batches sent
    to the provider.
  */
  method Embed<V>(texts: seq<string>, batchSize: int := DefaultBatchSize, provider: seq<string> -> seq<V>)
    returns (result: Result<seq<V>, EmbedError>, ghost calls: seq<seq<string>>)
    ensures batchSize == 0 <==> result == Err(RangeStepZero)
    ensures batchSize == 0 ==> calls == []
    ensures batchSize != 0 ==> calls == Batches(texts, batchSize)
    ensures batchSize != 0 ==> result == Ok(Concat(Responses(provider, Batches(texts, batchSize))))
  {
    if batchSize == 0 {
      return Err(RangeStepZero), [];
    } else if batchSize < 0 {
      assert Responses(provider, []) == [];
      return Ok([]), [];
    }
    var vectors;
    vectors, calls := EmbedBatches(texts, batchSize, provider);
    result := Ok(vectors);
  }

  /** The loop of `embed` for a positive batch size. */
  method EmbedBatches<V>(texts: seq<string>, batchSize: int, provider: seq<string> -> seq<V>)
    returns (vectors: seq<V>, ghost calls: seq<seq<string>>)
    requires batchSize > 0
    ensures calls == BatchesFrom(texts, batchSize, 0)
    ensures vectors == Concat(Responses(provider, BatchesFrom(texts, batchSize, 0)))
  {
    vectors, calls := [], [];
    assert Responses(provider, calls) == [];
    var i: nat := 0;
    while i < |texts|
      invariant calls + BatchesFrom(texts, batchSize, i) == BatchesFrom(texts, batchSize, 0)
      invariant vectors == Concat(Responses(provider, calls))
      decreases |texts| - i
    {
      var batch := texts[i..Min(i + batchSize, |texts|)];
      var response := provider(batch);
      BatchStep(texts, batchSize, i, calls);
      VectorStep(calls, batch, vectors, provider);
      vectors := vectors + response;
      calls := calls + [batch];
      i := i + batchSize;
    }
    assert BatchesFrom(texts, batchSize, i) == [];
    assert calls + [] == calls;
  }

  // ---------------------------------------------------------------------------
  // The hit-to-metadata join in `search`
  // ---------------------------------------------------------------------------

  /** Every position in the first row of hits is a row of the frame, Python-style. */
  predicate HitsInFrame<D>(answer: IndexAnswer<D>, frame: MetadataFrame)
    requires frame.Valid()
  {
    && |answer.distances| > 0 && |answer.positions| > 0
    && forall i :: 0 <= i < Min(|answer.distances[0]|, |answer.positions[0]|) ==>
         ValidPyIndex(frame.doc, answer.positions[0][i])
  }

  /**
    `search(query, df_metadata, index, k)`: embeds the query once as a one-text
    batch, asks the index once for the `k` nearest rows of that one query row, and
    builds one result per `(distance, position)` pair that `zip` yields, in hit
    order, from the frame's row at that position. `embedCalls` and `indexQueries`
    record the calls made to the two collaborators.
  */
  method Search<V, D>(query: string, frame: MetadataFrame, indexSearch: (seq<V>, int) -> IndexAnswer<D>,
                      k: int := DefaultK, provider: seq<string> -> seq<V>)
    returns (results: seq<SearchResult<D>>, ghost embedCalls: seq<seq<string>>, ghost indexQueries: seq<(seq<V>, int)>)
    requires frame.Valid()
    requires |provider([query])| > 0
    requires HitsInFrame(indexSearch([provider([query])[0]], k), frame)
    ensures embedCalls == [[query]]
    ensures indexQueries == [([provider([query])[0]], k)]
    ensures var answer := indexSearch([provider([query])[0]], k);
      && |results| == Min(|answer.distances[0]|, |answer.positions[0]|)
      && forall i :: 0 <= i < |results| ==>
           var pos := answer.positions[0][i];
           results[i] == SearchResult(answer.distances[0][i], PyIndex(frame.doc, pos),
                                      PyIndex(frame.tableName, pos), PyIndex(frame.columnName, pos))
  {
    var embedded;
    embedded, embedCalls := Embed([query], provider := provider);
    EmbedOneText(query, provider);
    var qVec := embedded.value[0];
    var answer := indexSearch([qVec], k);
    indexQueries := [([qVec], k)];
    var dists, positions := answer.distances[0], answer.positions[0];
    var n := Min(|dists|, |positions|);
    results := [];
    var i := 0;
    while i < n
      invariant 0 <= i <= n
      invariant |results| == i
      invariant forall j :: 0 <= j < i ==>
                  results[j] == SearchResult(dists[j], PyIndex(frame.doc, positions[j]),
                                             PyIndex(frame.tableName, positions[j]),
                                             PyIndex(frame.columnName, positions[j]))
    {
      var idx := positions[i];
      results := results + [SearchResult(dists[i], PyIndex(frame.doc, idx),
                                         PyIndex(frame.tableName, idx), PyIndex(frame.columnName, idx))];
      i := i + 1;
    }
  }
}
