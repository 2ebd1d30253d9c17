/**
 * The prediction history of UserContext.js: a list that starts empty and
 * whose only update, `addPrediction`, appends one entry at the end.
 */
module UserContext {

  /** One saved prediction, as AIPrediction.js builds it. */
  datatype Prediction = Prediction(condition: string, date: string, suggestedTreatment: string)

  /** The history after `addPrediction` is called with each of `added` in turn. */
  function AddAll(history: seq<Prediction>, added: seq<Prediction>): (r: seq<Prediction>)
    ensures |r| == |history| + |added|
    decreases |added|
  {
    if added == [] then history else AddAll(history + [added[0]], added[1..])
  }

  /** Any run of additions keeps every earlier entry in place and appends the new ones in
      the order they were added; no entry is ever removed or reordered. */
  lemma {:induction false} AddAllAppends(history: seq<Prediction>, added: seq<Prediction>)
    ensures AddAll(history, added) == history + added
    decreases |added|
  {
    if added != [] {
      AddAllAppends(history + [added[0]], added[1..]);
      assert history + [added[0]] + added[1..] == history + added;
    }
  }

  /** A history that started empty holds exactly the added entries, in order. */
  lemma HistoryFromEmpty(added: seq<Prediction>)
    ensures AddAll([], added) == added
  {
    AddAllAppends([], added);
  }

  class PredictionHistory {
    var predictions: seq<Prediction>

    constructor ()
      ensures predictions == []
    {
      predictions := [];
    }

    method AddPrediction(p: Prediction)
      modifies this
      ensures predictions == AddAll(old(predictions), [p])
      ensures |predictions| == |old(predictions)| + 1 && predictions[|predictions| - 1] == p
      ensures predictions[..|old(predictions)|] == old(predictions)
    {
      predictions := predictions + [p];
    }
  }
}
