/**
 * The Prediction tab: the machine type is encoded as an ordinal, the six
 * features are passed to the classifier in a fixed order, and every
 * prediction is appended to the session's prediction history.
 *
 * The pre-trained classifier is not part of the model: it is a parameter
 * `classify` from the feature vector to the predicted class.
 */
module Prediction {
  import opened Wrappers
  import opened MaintenanceData

  /** The ordinal the classifier expects for a machine type. */
  function TypeOrdinal(m: MachineType): (n: nat)
    ensures n < 3
    ensures MachineTypeOfOrdinal(n) == Some(m)
  {
    match m
    case Low => 0
    case Medium => 1
    case High => 2
  }

  /** The machine type an ordinal stands for, if any. */
  function MachineTypeOfOrdinal(n: int): (m: Option<MachineType>)
    ensures m.Some? <==> 0 <= n < 3
  {
    if n == 0 then Some(Low)
    else if n == 1 then Some(Medium)
    else if n == 2 then Some(High)
    else None
  }

  /** The choices of the machine-type selector, in the order of the mapping's keys. */
  const MACHINE_TYPE_CHOICES: seq<MachineType> := [Low, Medium, High]

  /** Each choice's ordinal is its position among the choices, so distinct choices get distinct ordinals. */
  lemma TypeOrdinalIsPosition()
    ensures forall i :: 0 <= i < |MACHINE_TYPE_CHOICES| ==> TypeOrdinal(MACHINE_TYPE_CHOICES[i]) == i
    ensures forall a, b :: TypeOrdinal(a) == TypeOrdinal(b) ==> a == b
  {
    forall a, b | TypeOrdinal(a) == TypeOrdinal(b) ensures a == b {
      assert MachineTypeOfOrdinal(TypeOrdinal(a)) == Some(a);
    }
  }

  /** The operating parameters entered in the sidebar. */
  datatype PredictionRequest = PredictionRequest(
    machineType: MachineType,
    airTemperature: real,      // Air Temperature [K]
    processTemperature: real,  // Process Temperature [K]
    rotationalSpeed: int,      // Rotational Speed [RPM]
    torque: real,              // Torque [N-m]
    toolWear: int)             // Tool Wear [min]

  /** r is a whole number. */
  predicate IsWhole(r: real) {
    r.Floor as real == r
  }

  /**
   * The classifier's input: the type ordinal, then air temperature, process
   * temperature, rotational speed, torque and tool wear, in that order.
   */
  function FeatureVector(request: PredictionRequest): (features: seq<real>)
    ensures |features| == 6
    ensures DecodeFeatures(features) == Some(request)
  {
    [TypeOrdinal(request.machineType) as real,
     request.airTemperature,
     request.processTemperature,
     request.rotationalSpeed as real,
     request.torque,
     request.toolWear as real]
  }

  /** Reads a request back from a feature vector, if it is one. */
  function DecodeFeatures(features: seq<real>): (request: Option<PredictionRequest>)
    ensures request.Some? ==> |features| == 6
  {
    if |features| != 6 || !IsWhole(features[0]) || !IsWhole(features[3]) || !IsWhole(features[5]) then None
    else
      match MachineTypeOfOrdinal(features[0].Floor)
      case None => None
      case Some(m) =>
        Some(PredictionRequest(m, features[1], features[2], features[3].Floor, features[4], features[5].Floor))
  }

  /** Different requests reach the classifier as different feature vectors. */
  lemma FeatureVectorInjective(a: PredictionRequest, b: PredictionRequest)
    requires FeatureVector(a) == FeatureVector(b)
    ensures a == b
  {
    assert Some(a) == DecodeFeatures(FeatureVector(a)) == DecodeFeatures(FeatureVector(b)) == Some(b);
  }

  const FAILURE: string := "Failure"

  /** The verdict shown and logged for the classifier's answer: Failure exactly for class 1. */
  function PredictionLabel(prediction: int): (verdict: string)
    ensures verdict == FAILURE <==> prediction == 1
    ensures verdict == FAILURE || verdict == NO_FAILURE
  {
    if prediction == 1 then FAILURE else NO_FAILURE
  }

  /** One row of the prediction history: the inputs and the verdict. */
  datatype HistoryEntry = HistoryEntry(request: PredictionRequest, prediction: string)

  /** The per-session state that survives the reruns of the dashboard script. */
  class Session {
    var hasHistory: bool
    var predictionHistory: seq<HistoryEntry>

    /** A new session holds no history yet. */
    constructor ()
      ensures !hasHistory && predictionHistory == []
    {
      hasHistory := false;
      predictionHistory := [];
    }

    /** Creates the empty history unless the session already holds one. */
    method InitHistory()
      modifies this
      ensures hasHistory
      ensures predictionHistory == if old(hasHistory) then old(predictionHistory) else []
    {
      if !hasHistory {
        predictionHistory := [];
        hasHistory := true;
      }
    }

    /** Adds one entry at the end of the history; earlier entries stay as they were. */
    method Append(entry: HistoryEntry)
      requires hasHistory
      modifies this
      ensures hasHistory
      ensures predictionHistory == old(predictionHistory) + [entry]
    {
      predictionHistory := predictionHistory + [entry];
    }

    /** Asks the classifier about a request, logs the answer and returns its verdict. */
    method Predict(request: PredictionRequest, classify: seq<real> -> int) returns (verdict: string)
      requires hasHistory
      modifies this
      ensures verdict == FAILURE <==> classify(FeatureVector(request)) == 1
      ensures verdict == PredictionLabel(classify(FeatureVector(request)))
      ensures hasHistory
      ensures predictionHistory == old(predictionHistory) + [HistoryEntry(request, verdict)]
    {
      var prediction := classify(FeatureVector(request));
      verdict := PredictionLabel(prediction);
      Append(HistoryEntry(request, verdict));
    }

    /**
     * One run of the Prediction tab: make sure the history exists, then, if
     * the button was pressed, predict and log. The history grows by exactly
     * one entry per press.
     */
    method RunPredictionTab(request: PredictionRequest, pressed: bool, classify: seq<real> -> int)
      returns (verdict: Option<string>)
      modifies this
      ensures hasHistory
      ensures verdict.Some? <==> pressed
      ensures var before := if old(hasHistory) then old(predictionHistory) else [];
        predictionHistory == before + (if pressed then [HistoryEntry(request, verdict.value)] else [])
      ensures pressed ==> verdict.value == PredictionLabel(classify(FeatureVector(request)))
    {
      InitHistory();
      if pressed {
        var l := Predict(request, classify);
        verdict := Some(l);
      } else {
        verdict := None;
      }
    }
  }
}
