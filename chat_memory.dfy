/**
  The conversation log: a JSON file holding a list of turn records.

  The file is the state of a `MemoryStore`. Reading it goes through `ReadJson`,
  which turns a missing file, or one whose text is not valid JSON, into the empty
  history. The turn id and the timestamp, which the Python code draws from `uuid4`
  and the clock, are parameters here. `M` is the type of the retrieval matches stored with a turn.
*/
module ChatMemory {
  import opened Common

  /** One logged turn. `feedbackType` and `comment` are JSON `null` until feedback is given. */
  datatype Record<M> = Record(
    id: string,
    userId: string,
    timestamp: string,
    query: string,
    answer: string,
    matches: M,
    feedbackType: Option<string>,
    comment: Option<string>)

  /**
    What the memory file can hold when it is read. `Corrupt` is text that
    `json.load` rejects as JSON; a file that is not valid UTF-8 has no value here.
  */
  datatype StoredFile<M> = Missing | Corrupt | Json(records: seq<Record<M>>)

  /** The user id that every appended turn carries. */
  const AppendUserId: string := "823471"

  /** The default `n` of `get_recent_memory`. */
  const DefaultRecent: int := 10

  /** Reading the file: a missing or corrupt file reads as the empty history. */
  function ReadJson<M>(f: StoredFile<M>): (history: seq<Record<M>>)
    ensures f.Json? ==> history == f.records
    ensures !f.Json? ==> history == []
  {
    match f
    case Missing => []
    case Corrupt => []
    case Json(records) => records
  }

  /** The record that `append_to_memory` adds: feedback fields start out null. */
  function NewTurn<M>(id: string, timestamp: string, query: string, answer: string, matches: M): (turn: Record<M>)
  {
    Record(id, AppendUserId, timestamp, query, answer, matches, None, None)
  }

  /** `history[-n:]`: the `n` most recent turns for `n > 0`, everything for `n == 0`. */
  function RecentTurns<M>(history: seq<Record<M>>, n: int): (recent: seq<Record<M>>)
    ensures n > 0 ==> |recent| == Min(n, |history|)
    ensures n == 0 ==> recent == history
    ensures n < 0 ==> |recent| == |history| - Min(-n, |history|)
    ensures forall i :: 0 <= i < |recent| ==> recent[i] == history[|history| - |recent| + i]
  {
    PySliceFrom(history, -n)
  }

  predicate IsTurnFor<M>(r: Record<M>, query: string, answer: string)
  {
    r.query == query && r.answer == answer
  }

  /** Position of the first record whose query and answer both match. */
  function FirstMatch<M>(history: seq<Record<M>>, query: string, answer: string): (pos: Option<nat>)
    ensures pos.Some? ==> pos.value < |history| && IsTurnFor(history[pos.value], query, answer)
    ensures pos.Some? ==> forall j :: 0 <= j < pos.value ==> !IsTurnFor(history[j], query, answer)
    ensures pos.None? ==> forall j :: 0 <= j < |history| ==> !IsTurnFor(history[j], query, answer)
    decreases |history|
  {
    if history == [] then None
    else if IsTurnFor(history[0], query, answer) then Some(0)
    else
      match FirstMatch(history[1..], query, answer)
      case None => None
      case Some(p) => Some(p + 1)
  }

  function WithFeedback<M>(r: Record<M>, feedbackType: string, comment: Option<string>): (annotated: Record<M>)
  {
    r.(feedbackType := Some(feedbackType), comment := comment)
  }

  /**
    The history after feedback is attached to the first matching turn, if any:
    only that turn changes, and only in its two feedback fields.
  */
  function FeedbackApplied<M>(history: seq<Record<M>>, query: string, answer: string,
                              feedbackType: string, comment: Option<string>): (updated: seq<Record<M>>)
    ensures |updated| == |history|
    ensures forall i :: 0 <= i < |history| && IsTurnFor(history[i], query, answer)
              && (forall j :: 0 <= j < i ==> !IsTurnFor(history[j], query, answer))
              ==> updated[i] == WithFeedback(history[i], feedbackType, comment)
    ensures forall i, j :: 0 <= j < i < |history| && IsTurnFor(history[j], query, answer)
              ==> updated[i] == history[i]
    ensures forall i :: 0 <= i < |history| && !IsTurnFor(history[i], query, answer)
              ==> updated[i] == history[i]
  {
    match FirstMatch(history, query, answer)
    case None => history
    case Some(p) => history[p := WithFeedback(history[p], feedbackType, comment)]
  }

  /** With no matching turn the history is left exactly as it was. */
  lemma FeedbackWithoutMatchIsIdentity<M>(history: seq<Record<M>>, query: string, answer: string,
                                         feedbackType: string, comment: Option<string>)
    requires forall i :: 0 <= i < |history| ==> !IsTurnFor(history[i], query, answer)
    ensures FeedbackApplied(history, query, answer, feedbackType, comment) == history
  {
  }

  /** Attaching the same feedback twice gives the same history as attaching it once. */
  lemma FeedbackIdempotent<M>(history: seq<Record<M>>, query: string, answer: string,
                              feedbackType: string, comment: Option<string>)
    ensures var once := FeedbackApplied(history, query, answer, feedbackType, comment);
      FeedbackApplied(once, query, answer, feedbackType, comment) == once
  {
  }

  /** `FirstMatch` is the only position that matches with no match before it. */
  lemma FirstMatchUnique<M>(history: seq<Record<M>>, query: string, answer: string, p: nat)
    requires p < |history| && IsTurnFor(history[p], query, answer)
    requires forall j :: 0 <= j < p ==> !IsTurnFor(history[j], query, answer)
    ensures FirstMatch(history, query, answer) == Some(p)
  {
  }

  /** The memory file and the operations of chat_memory.py on it. */
  class MemoryStore<M> {
    var file: StoredFile<M>

    constructor (initial: StoredFile<M>)
      ensures file == initial
    {
      file := initial;
    }

    /** `load_memory`: the whole history, empty when the file is missing or corrupt. */
    function Load(): (history: seq<Record<M>>)
      reads this
      ensures file.Json? ==> history == file.records
      ensures !file.Json? ==> history == []
    {
      ReadJson(file)
    }

    /** `get_recent_memory`: reads the file and slices, changing nothing. */
    method GetRecent(n: int := DefaultRecent) returns (recent: seq<Record<M>>)
      ensures n > 0 ==> |recent| == Min(n, |Load()|) && recent == Load()[|Load()| - |recent|..]
      ensures n == 0 ==> recent == Load()
      ensures recent == RecentTurns(Load(), n)
    {
      recent := RecentTurns(Load(), n);
    }

    /** `append_to_memory`: the file is rewritten with one more turn at the end. */
    method Append(id: string, timestamp: string, query: string, answer: string, matches: M)
      modifies this
      ensures file == Json(old(Load()) + [NewTurn(id, timestamp, query, answer, matches)])
      ensures |Load()| == |old(Load())| + 1
      ensures Load()[..|old(Load())|] == old(Load())
      ensures Load()[|Load()| - 1] == NewTurn(id, timestamp, query, answer, matches)
    {
      var memory := Load();
      memory := memory + [NewTurn(id, timestamp, query, answer, matches)];
      file := Json(memory);
    }

    /** `clear_memory`: the file is overwritten with the empty list. */
    method Clear()
      modifies this
      ensures file == Json([])
      ensures Load() == []
    {
      file := Json([]);
    }

    /**
      `update_feedback_to_memory`: scans for the first turn with this query and
      answer, sets its feedback fields and rewrites the file; when no turn matches
      the file is not written. `updated` tells which of the two messages is printed.
    */
    method UpdateFeedback(query: string, answer: string, feedbackType: string, comment: Option<string> := None)
      returns (updated: bool)
      modifies this
      ensures updated <==> exists i :: 0 <= i < |old(Load())| && IsTurnFor(old(Load())[i], query, answer)
      ensures updated ==> file == Json(FeedbackApplied(old(Load()), query, answer, feedbackType, comment))
      ensures !updated ==> file == old(file)
      ensures Load() == FeedbackApplied(old(Load()), query, answer, feedbackType, comment)
    {
      var memory := Load();
      ghost var history := memory;
      updated := false;
      var i := 0;
      while i < |memory|
        invariant 0 <= i <= |memory|
        invariant memory == history
        invariant forall j :: 0 <= j < i ==> !IsTurnFor(history[j], query, answer)
      {
        if memory[i].query == query && memory[i].answer == answer {
          FirstMatchUnique(history, query, answer, i);
          memory := memory[i := WithFeedback(memory[i], feedbackType, comment)];
          updated := true;
          break;
        }
        i := i + 1;
      }
      if updated {
        file := Json(memory);
      } else {
        FeedbackWithoutMatchIsIdentity(history, query, answer, feedbackType, comment);
      }
    }
  }
}
