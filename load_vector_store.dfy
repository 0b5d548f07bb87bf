/**
  `semantic_search` of load_vector_store.py: the same query embedding and index
  call as `search`, joined with the metadata held as two parallel lists, `docs`
  and `paths` (each path a `[TABLE_NAME, COLUMN_NAME]` pair).
*/
module VectorStoreLoad {
  import opened Common
  import opened EmbeddingUtils

  /** Position `idx` names an entry of both lists, and that path unpacks into two names. */
  predicate RowAt(docs: seq<string>, paths: seq<seq<string>>, idx: int)
  {
    ValidPyIndex(docs, idx) && ValidPyIndex(paths, idx) && |PyIndex(paths, idx)| == 2
  }

  /** Every position in the first row of hits that `zip` reaches is such a row. */
  predicate HitsInLists<D>(answer: IndexAnswer<D>, docs: seq<string>, paths: seq<seq<string>>)
  {
    && |answer.distances| > 0 && |answer.positions| > 0
    && forall i :: 0 <= i < Min(|answer.distances[0]|, |answer.positions[0]|) ==>
         RowAt(docs, paths, answer.positions[0][i])
  }

  /** The result for one hit: `table, column = paths[idx]` and `doc = docs[idx]`. */
  function ResultAt<D>(distance: D, docs: seq<string>, paths: seq<seq<string>>, idx: int): (r: SearchResult<D>)
    requires RowAt(docs, paths, idx)
    ensures r.distance == distance && r.doc == PyIndex(docs, idx)
    ensures [r.table, r.column] == PyIndex(paths, idx)
  {
    var path := PyIndex(paths, idx);
    SearchResult(distance, PyIndex(docs, idx), path[0], path[1])
  }

  /**
    The two metadata layouts give the same result rows: when `docs` is the
    frame's `doc` column and each path is that row's table and column name,
    the `semantic_search` join and the `search` join agree at every position.
  */
  lemma ListsAgreeWithFrame<D>(frame: MetadataFrame, docs: seq<string>, paths: seq<seq<string>>,
                               distance: D, idx: int)
    requires frame.Valid() && docs == frame.doc && |paths| == |frame.doc|
    requires forall i :: 0 <= i < |paths| ==> paths[i] == [frame.tableName[i], frame.columnName[i]]
    requires ValidPyIndex(frame.doc, idx)
    ensures RowAt(docs, paths, idx)
    ensures ResultAt(distance, docs, paths, idx)
         == SearchResult(distance, PyIndex(frame.doc, idx), PyIndex(frame.tableName, idx), PyIndex(frame.columnName, idx))
  {
  }

  /**
    `semantic_search(query, k, index, docs, paths)`: embeds the query once as a
    one-text batch, asks the index once for `k` neighbours of that one row, and
    returns one result per `(distance, position)` pair, in hit order, whose doc
    and path are the lists' entries at that position.
  */
  method SemanticSearch<V, D>(query: string, k: int, indexSearch: (seq<V>, int) -> IndexAnswer<D>,
                              docs: seq<string>, paths: seq<seq<string>>, provider: seq<string> -> seq<V>)
    returns (results: seq<SearchResult<D>>, ghost embedCalls: seq<seq<string>>, ghost indexQueries: seq<(seq<V>, int)>)
    requires |provider([query])| > 0
    requires HitsInLists(indexSearch([provider([query])[0]], k), docs, paths)
    ensures embedCalls == [[query]]
    ensures indexQueries == [([provider([query])[0]], k)]
    ensures var answer := indexSearch([provider([query])[0]], k);
      && |results| == Min(|answer.distances[0]|, |answer.positions[0]|)
      && forall i :: 0 <= i < |results| ==>
           var idx := answer.positions[0][i];
           && results[i].distance == answer.distances[0][i]
           && results[i].doc == PyIndex(docs, idx)
           && [results[i].table, results[i].column] == PyIndex(paths, idx)
  {
    var embedded;
    embedded, embedCalls := Embed([query], provider := provider);
    EmbedOneText(query, provider);
    var qVec := embedded.value[0];
    var answer := indexSearch([qVec], k);
    indexQueries := [([qVec], k)];
    var dists, positions := answer.distances[0], answer.positions[0];
    var n := Min(|dists|, |positions|);
    results := [];
    var i := 0;
    while i < n
      invariant 0 <= i <= n
      invariant |results| == i
      invariant forall j :: 0 <= j < i ==> results[j] == ResultAt(dists[j], docs, paths, positions[j])
    {
      results := results + [ResultAt(dists[i], docs, paths, positions[i])];
      i := i + 1;
    }
  }
}
