/**
 * The skin-image screen of InAppScreens/AIPrediction.js as a state machine over
 * `selectedImage`, `isLoading`, `prediction` and `suggestedTreatment`. The
 * picker's outcome is a parameter; each press of "Analyze" schedules one
 * five-second timeout, counted in `pendingAnalyses`, whose firing is a step of
 * its own. Saving appends to the shared prediction history.
 */
module AIPrediction {
  import opened Common
  import UserContext

  const PredictedCondition := "Eczema"
  const DisplayedTreatment := "1. Use a hydrocortisone cream as directed.\n2. Avoid scratching the affected area.\n3. Keep skin moisturized with fragrance-free creams.\n4. Wear soft, non-irritating fabrics."
  /** The treatment text stored with a saved prediction (not the one on screen). */
  const SavedTreatment := "Apply moisturizer and consult a dermatologist."

  datatype Screen = Screen(
    selectedImage: Option<string>,
    isLoading: bool,
    prediction: Option<string>,
    suggestedTreatment: Option<string>,
    pendingAnalyses: nat)

  const Initial := Screen(None, false, None, None, 0)

  /** `pickImage`: nothing changes unless an image was picked; a new image clears the result. */
  function PickStep(s: Screen, outcome: PickOutcome): (r: Screen)
    ensures !outcome.Picked? ==> r == s
    ensures outcome.Picked? ==> r.selectedImage == Some(outcome.uri) && r.prediction.None? && r.suggestedTreatment.None?
    ensures r.isLoading == s.isLoading && r.pendingAnalyses == s.pendingAnalyses
  {
    match outcome
    case Picked(uri) => s.(selectedImage := Some(uri), prediction := None, suggestedTreatment := None)
    case _ => s
  }

  /** `analyzeImage`: without an image nothing happens; otherwise loading starts and one
      completion is scheduled. */
  function AnalyzeStep(s: Screen): (r: Screen)
    ensures !Truthy(s.selectedImage) ==> r == s
    ensures Truthy(s.selectedImage) ==> r.isLoading && r.pendingAnalyses == s.pendingAnalyses + 1
    ensures r.selectedImage == s.selectedImage && r.prediction == s.prediction && r.suggestedTreatment == s.suggestedTreatment
  {
    if Truthy(s.selectedImage) then s.(isLoading := true, pendingAnalyses := s.pendingAnalyses + 1) else s
  }

  /** The scheduled timeout fires: loading stops and the simulated result is shown. */
  function CompleteStep(s: Screen): (r: Screen)
    requires s.pendingAnalyses > 0
    ensures !r.isLoading && r.prediction == Some(PredictedCondition) && r.suggestedTreatment == Some(DisplayedTreatment)
    ensures r.selectedImage == s.selectedImage && r.pendingAnalyses == s.pendingAnalyses - 1
  {
    s.(isLoading := false, prediction := Some(PredictedCondition), suggestedTreatment := Some(DisplayedTreatment),
       pendingAnalyses := s.pendingAnalyses - 1)
  }

  /** `removeImage`: image, prediction and treatment all become null. */
  function RemoveStep(s: Screen): (r: Screen)
    ensures r.selectedImage.None? && r.prediction.None? && r.suggestedTreatment.None?
    ensures r.isLoading == s.isLoading && r.pendingAnalyses == s.pendingAnalyses
  {
    s.(selectedImage := None, prediction := None, suggestedTreatment := None)
  }

  /** The entry `savePrediction` adds, if any: none without a prediction; otherwise the current
      prediction, the formatted date and the fixed treatment text. */
  function SaveEntry(prediction: Option<string>, date: string): (r: Option<UserContext.Prediction>)
    ensures r.Some? <==> Truthy(prediction)
    ensures r.Some? ==>
      r.value.condition == prediction.value && r.value.date == date && r.value.suggestedTreatment == SavedTreatment
  {
    if Truthy(prediction) then Some(UserContext.Prediction(prediction.value, date, SavedTreatment)) else None
  }

  /** A freshly picked image has no prediction, so saving right after a pick adds nothing. */
  lemma PickThenSaveAddsNothing(s: Screen, uri: string, date: string)
    ensures SaveEntry(PickStep(s, Picked(uri)).prediction, date).None?
  {
  }

  /** With an image selected, analysing, letting the timeout fire and saving adds an "Eczema"
      entry whose treatment is the fixed text, which differs from the one displayed. */
  lemma AnalyzeThenSave(s: Screen, date: string)
    requires Truthy(s.selectedImage)
    ensures var done := CompleteStep(AnalyzeStep(s));
      SaveEntry(done.prediction, date) == Some(UserContext.Prediction(PredictedCondition, date, SavedTreatment))
      && done.suggestedTreatment != Some(SavedTreatment)
  {
    var done := CompleteStep(AnalyzeStep(s));
    assert |SavedTreatment| < |DisplayedTreatment|;
  }

  class AIPredictionScreen {
    var selectedImage: Option<string>
    var isLoading: bool
    var prediction: Option<string>
    var suggestedTreatment: Option<string>
    var pendingAnalyses: nat
    const history: UserContext.PredictionHistory

    function State(): Screen
      reads this
    {
      Screen(selectedImage, isLoading, prediction, suggestedTreatment, pendingAnalyses)
    }

    constructor (history: UserContext.PredictionHistory)
      ensures State() == Initial && this.history == history
    {
      selectedImage := None;
      isLoading := false;
      prediction := None;
      suggestedTreatment := None;
      pendingAnalyses := 0;
      this.history := history;
    }

    method PickImage(outcome: PickOutcome)
      modifies this
      ensures State() == PickStep(old(State()), outcome)
    {
      if outcome.PermissionDenied? {
        return;
      }
      if outcome.Picked? {
        selectedImage := Some(outcome.uri);
        prediction := None;
        suggestedTreatment := None;
      }
    }

    method AnalyzeImage()
      modifies this
      ensures State() == AnalyzeStep(old(State()))
    {
      if !Truthy(selectedImage) {
        return;
      }
      isLoading := true;
      pendingAnalyses := pendingAnalyses + 1;
    }

    /** The five-second timeout scheduled by `AnalyzeImage` fires. */
    method AnalysisCompletes()
      requires pendingAnalyses > 0
      modifies this
      ensures State() == CompleteStep(old(State()))
    {
      pendingAnalyses := pendingAnalyses - 1;
      isLoading := false;
      prediction := Some(PredictedCondition);
      suggestedTreatment := Some(DisplayedTreatment);
    }

    method RemoveImage()
      modifies this
      ensures State() == RemoveStep(old(State()))
    {
      selectedImage := None;
      prediction := None;
      suggestedTreatment := None;
    }

    /** `savePrediction`, with `date` the formatted current date. */
    method SavePrediction(date: string)
      modifies history
      ensures history.predictions == old(history.predictions) + (match SaveEntry(prediction, date)
        case Some(e) => [e]
        case None => [])
    {
      if !Truthy(prediction) {
        return;
      }
      history.AddPrediction(UserContext.Prediction(prediction.value, date, SavedTreatment));
    }
  }
}
