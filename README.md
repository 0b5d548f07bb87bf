# Marwin data assistant: conversation memory and retrieval glue, in Dafny

This project models the two parts of the Marwin metadata assistant that have logic of
their own, and proves properties of them.

The first part is the **conversation memory log** (`chat_memory.py`). A JSON file holds
the list of logged turns. Each turn carries an id, a user id, a timestamp, the query,
the answer, the retrieval matches, and two feedback fields. The model is a class
`ChatMemory.MemoryStore` whose one field is the file's state: missing, text that
`json.load` rejects as JSON, or a list of records. Reading the file (`ReadJson`, `Load`), the recent-turns slice
(`RecentTurns`, `GetRecent`), append, clear and the feedback update are modelled. The
feedback update is the scan-and-`break` loop of the source.

The second part is the **retrieval glue** (`embedding_utils.py`, `load_vector_store.py`).
This is the code around two library calls: the embedding provider and the index's
nearest-neighbour search. Both collaborators are function-valued parameters. Vectors
and distances are type parameters, so their values pass through unchanged.
- `EmbeddingUtils.Embed` is the batching loop of `embed`.
- `EmbeddingUtils.Search` and `VectorStoreLoad.SemanticSearch` are the loops that
  join hits to metadata rows by position.

Modules:
- `Common` (common.dfy): `Option`, `Result`, `Min`, and Python's list indexing and
  `s[start:]` slicing.
- `ChatMemory` (chat_memory.dfy): chat_memory.py.
- `EmbeddingUtils` (embedding_utils.dfy): embedding_utils.py.
- `VectorStoreLoad` (load_vector_store.dfy): `semantic_search` of load_vector_store.py.

Facts about the code that the model follows:
- `update_feedback_to_memory` finds a record by its query and answer, not by its id
  (chat_memory.py:131-132).
- `semantic_search` and `search` index the Python lists and the data frame columns
  directly, with no range check (embedding_utils.py:68-70, load_vector_store.py:62-65).
  A negative position counts from the end, as Python lists and `.iloc` do.
- `append_to_memory` writes the user id `"823471"` (chat_memory.py:85), while the module
  docstring's example shows `"843920"` (chat_memory.py:12).
- `get_recent_memory` defaults to `n = 10` (chat_memory.py:97), while its docstring
  says 5 (chat_memory.py:37). The model uses 10.
- The docstring of load_vector_store.py says that `load_index` returns `index, docs, paths`
  (load_vector_store.py:14-17), but the function returns `df_metadata, index`
  (load_vector_store.py:50). `load_index` is not part of this model.

The source's default arguments are default-valued parameters here: `batch_size = 100`
of `embed`, `n = 10` of `get_recent_memory`, `k = 5` of `search` and `comment = None`
of `update_feedback_to_memory`. With the last default, a "like" without a comment
sets the stored comment back to null.

## Model

| member | source | states |
|---|---|---|
| `ChatMemory.ReadJson` | chat_memory.py:56-63 | a missing file and a file whose text `json.load` rejects both read as the empty history; a parsed file reads as its records |
| `ChatMemory.MemoryStore.Load` | chat_memory.py:73-75 | `load_memory` gives the stored records, or the empty history when the file is missing or corrupt |
| `ChatMemory.RecentTurns` | chat_memory.py:97-100 | `history[-n:]`: for `n > 0` the last `min(n, len)` turns in their original order; for `n == 0` the whole history; for `n < 0` all but the first `-n` turns |
| `ChatMemory.MemoryStore.GetRecent` | chat_memory.py:97-100 | with `n` defaulting to 10, returns the last `min(n, len)` stored turns for `n > 0` and the whole history for `n == 0`; changes nothing (no `modifies`) |
| `ChatMemory.MemoryStore.Append` | chat_memory.py:78-93 | the file is rewritten with the old history plus one record; the length grows by one and the earlier records are unchanged and in order; the new last record carries the given id, timestamp, query, answer and matches, the user id "823471", and null feedback fields |
| `ChatMemory.MemoryStore.Clear` | chat_memory.py:104-106 | the file holds the empty list afterwards, so the next load returns `[]` |
| `ChatMemory.FirstMatch` | chat_memory.py:131-136 | the position found is the first record whose query and answer both match; `None` means no record matches |
| `ChatMemory.FirstMatchUnique` | chat_memory.py:131-136 | a matching position with no match before it is the one the scan stops at |
| `ChatMemory.FeedbackApplied` | chat_memory.py:128-136 | the length is unchanged; the first matching record gets the new feedback type and comment; every later record and every non-matching record is unchanged |
| `ChatMemory.FeedbackWithoutMatchIsIdentity` | chat_memory.py:138-142 | when no record matches, the history is unchanged |
| `ChatMemory.FeedbackIdempotent` | chat_memory.py:131-136 | applying the same feedback twice gives the same history as applying it once |
| `ChatMemory.MemoryStore.UpdateFeedback` | chat_memory.py:111-142 | `updated` holds exactly when some record matches; then the file is rewritten to the history with the feedback applied; otherwise the file is not written and stays as it was |
| `EmbeddingUtils.Embed` | embedding_utils.py:22-42 | a zero batch size raises (`range` step zero); otherwise the provider is called once per batch of `Batches(texts, batch_size)`, in order, and the result is the responses concatenated in batch order; a negative batch size makes no call and returns nothing |
| `EmbeddingUtils.EmbedBatches` | embedding_utils.py:33-41 | for a positive batch size, the loop sends exactly the batches `BatchesFrom(texts, b, 0)`, in order, and gathers the provider's answers concatenated in that order |
| `EmbeddingUtils.BatchesPartition` | embedding_utils.py:34-35 | for a positive batch size `b`, batch `j` is `texts[j*b : (j+1)*b]` clamped at the end; every batch is non-empty with at most `b` texts; there are `ceil(len(texts) / b)` batches; concatenated they equal `texts` |
| `EmbeddingUtils.NoTextsNoBatches` | embedding_utils.py:34-42 | an empty input makes no provider call, so `embed` returns the empty result |
| `EmbeddingUtils.OneTextOneBatch` | embedding_utils.py:34-35 | a one-text input is sent as the single batch `[text]` |
| `EmbeddingUtils.EmbedOneText` | embedding_utils.py:62 | `embed([query])` sends exactly the batch `[query]` and its result is the provider's answer to that batch |
| `EmbeddingUtils.EmbeddingsFollowTexts` | embedding_utils.py:36-42 | if the provider returns one vector per text in every batch, the output has one vector per input text; if it embeds texts independently, output vector `i` is the embedding of `texts[i]` |
| `EmbeddingUtils.Search` | embedding_utils.py:49-72 | the query is embedded once as `[query]`; the index is asked once, with the one-row query and the given `k`; there is one result per `(distance, position)` pair of `zip`, in hit order; result `i` has the hit's distance and the `doc`, `TABLE_NAME` and `COLUMN_NAME` values of the row at hit `i`'s position; `k` defaults to 5 |
| `VectorStoreLoad.ResultAt` | load_vector_store.py:62-68 | a hit's result carries its distance unchanged, `docs[idx]` as doc, and the two components of `paths[idx]` as table and column |
| `VectorStoreLoad.ListsAgreeWithFrame` | load_vector_store.py:61-68 | when `docs` is the frame's `doc` column and each path is the row's table and column name, the list join and the frame join give the same result at every valid position |
| `VectorStoreLoad.SemanticSearch` | load_vector_store.py:56-69 | the query is embedded once as `[query]`; the index is asked once, with the one-row query and `k`; one result per `(dist, idx)` pair, in order; result `i` has the hit's distance, `docs[idx_i]`, and `(table, column) == paths[idx_i]` |

## Left out

- The JSON file I/O (`open`, `json.load`, `json.dump`) is left out. The file's content is the store's state, and "missing" and "rejected as JSON" are two of its values.
- ReadJson: `Corrupt` stands only for text that `json.load` rejects with `JSONDecodeError`. A file whose bytes are not valid UTF-8 makes `json.load` raise `UnicodeDecodeError`, which `read_json` does not catch, so every operation that reads the file raises in the source. The model has no state for such a file.
- `uuid4` and `datetime.now` are left out. The turn id and the timestamp are parameters of `Append`.
- The `print` messages are left out. `UpdateFeedback` returns `updated`, which tells which of the two messages the source prints.
- ReadJson: a file holding valid JSON that is not a list of turn records is not modelled. A parsed file is always a list of complete records, so the `item.get` lookups of missing keys do not arise.
- The embedding provider's network call and API-key setup are left out. The provider is a total function. Its failures (quota, network) propagate unchanged in the source and are not modelled.
- The index's nearest-neighbour ranking, index construction, tie-breaking and `k` validation belong to the FAISS library and are left out. They sit behind the opaque `indexSearch` parameter. So does FAISS's padding of missing hits with position `-1`, which the join reads Python-style as the last row.
- Search: requires that the provider returns at least one vector for the batch `[query]`. The `IndexError` of `[0]` on an empty answer is not modelled.
- Search: requires that every position `zip` reaches is a valid Python index into the metadata. The source does no range check, so an out-of-range position raises there.
- SemanticSearch: requires that every position `zip` reaches is a valid Python index into `docs` and `paths`, and that the path there has exactly two components. Otherwise the unpacking or the indexing raises in the source.
- The `float(dist)` conversion and the `float32` array packing are left out. Distances and vectors are opaque values carried through unchanged.
- `load_index`, `build_faiss_index` and `save_index` are not part of this model. They are pickle, pandas and FAISS calls with no logic of the repository's own.
- app.py is not part of this model. It is a Streamlit caller of the modelled functions.
- The `__main__` self-tests of chat_memory.py and load_vector_store.py are not modelled. They call the functions with the wrong arity or unpacking.
