/**
 * The `/predict` flow once the trained artefacts are given: lower-case the
 * three categorical inputs, encode each with its fitted encoder, ask the
 * classifier for a label and pick the advisory message for it.
 */
module Inference {
  import opened Wrappers
  import opened Text

  /** The feature row `[age, gender, symptoms, family]` handed to the classifier. */
  datatype Features = Features(age: int, gender: int, symptoms: int, familyHistory: int)

  /** The fields of a `/predict` request body, with `age` already an integer. */
  datatype Request = Request(age: int, gender: string, symptoms: string, familyHistory: string)

  /**
   * What the server loads at start-up: one fitted encoder per categorical
   * field, each a partial map from its vocabulary to codes, and the
   * classifier, an opaque function from a feature row to a label.
   */
  datatype Artifacts = Artifacts(
    genderCodes: map<string, int>,
    symptomCodes: map<string, int>,
    familyCodes: map<string, int>,
    classify: Features -> int)

  /** The categorical field whose value an encoder has never seen. */
  datatype Field = Gender | Symptoms | FamilyHistory

  const HighRisk: string := "High Risk - Genetic counseling recommended."
  const LowRisk: string := "Low Risk - No action needed now."

  /** A successful prediction: the classifier's label and the message shown for it. */
  datatype Prediction = Prediction(predicted: int, message: string)

  /** `transform([value.lower()])[0]`: the code of the lower-cased value, if the encoder knows it. */
  function Encode(codes: map<string, int>, value: string): (r: Option<int>)
    ensures r.Some? <==> Lower(value) in codes
    ensures r.Some? ==> r.value == codes[Lower(value)]
  {
    var key := Lower(value);
    if key in codes then Some(codes[key]) else None
  }

  /** The message for a label: high risk for 1 and low risk for every other label. */
  function Advice(predicted: int): (message: string)
    ensures message == HighRisk <==> predicted == 1
    ensures message == LowRisk <==> predicted != 1
  {
    assert HighRisk[0] != LowRisk[0];
    if predicted == 1 then HighRisk else LowRisk
  }

  /** The feature row built from a request whose three values the encoders all know. */
  function FeaturesOf(a: Artifacts, req: Request): Features
    requires Lower(req.gender) in a.genderCodes
    requires Lower(req.symptoms) in a.symptomCodes
    requires Lower(req.familyHistory) in a.familyCodes
  {
    Features(req.age, a.genderCodes[Lower(req.gender)], a.symptomCodes[Lower(req.symptoms)],
             a.familyCodes[Lower(req.familyHistory)])
  }

  /** Whether all three encoders know the request's lower-cased values. */
  predicate Encodable(a: Artifacts, req: Request) {
    && Lower(req.gender) in a.genderCodes
    && Lower(req.symptoms) in a.symptomCodes
    && Lower(req.familyHistory) in a.familyCodes
  }

  /**
   * Encoding then classification. Fails, naming the first field in the
   * order gender, symptoms, family history, when an encoder does not know
   * the value; otherwise the label is the classifier's answer on the
   * encoded row and the message is the one for that label.
   */
  function Predict(a: Artifacts, req: Request): (r: Result<Prediction, Field>)
    ensures r.Success? <==> Encodable(a, req)
    ensures r.Failure? && Lower(req.gender) !in a.genderCodes ==> r.error == Gender
    ensures r.Failure? && Lower(req.gender) in a.genderCodes && Lower(req.symptoms) !in a.symptomCodes ==>
      r.error == Symptoms
    ensures r.Failure? && Lower(req.gender) in a.genderCodes && Lower(req.symptoms) in a.symptomCodes ==>
      r.error == FamilyHistory
    ensures r.Success? ==> r.value.predicted == a.classify(FeaturesOf(a, req))
    ensures r.Success? ==> (r.value.message == HighRisk <==> r.value.predicted == 1)
    ensures r.Success? ==> (r.value.message == LowRisk <==> r.value.predicted != 1)
  {
    match Encode(a.genderCodes, req.gender)
    case None => Failure(Gender)
    case Some(gender) =>
      match Encode(a.symptomCodes, req.symptoms)
      case None => Failure(Symptoms)
      case Some(symptoms) =>
        match Encode(a.familyCodes, req.familyHistory)
        case None => Failure(FamilyHistory)
        case Some(family) =>
          var predicted := a.classify(Features(req.age, gender, symptoms, family));
          Success(Prediction(predicted, Advice(predicted)))
  }

  /** Requests that differ only in the case of their categorical values predict alike. */
  lemma PredictIgnoresCase(a: Artifacts, r1: Request, r2: Request)
    requires r1.age == r2.age
    requires Lower(r1.gender) == Lower(r2.gender)
    requires Lower(r1.symptoms) == Lower(r2.symptoms)
    requires Lower(r1.familyHistory) == Lower(r2.familyHistory)
    ensures Predict(a, r1) == Predict(a, r2)
  {
  }

  /** The vocabularies the shipped encoders were fitted on. */
  predicate TrainedVocabularies(a: Artifacts) {
    && a.genderCodes.Keys == {"female", "male"}
    && a.symptomCodes.Keys == {"no", "yes"}
    && a.familyCodes.Keys == {"no", "yes"}
  }

  /** With the trained vocabularies, "unknown" is not a gender: the request fails on that field. */
  lemma UnseenGenderRejected(a: Artifacts, age: int, symptoms: string, familyHistory: string)
    requires TrainedVocabularies(a)
    ensures Predict(a, Request(age, "unknown", symptoms, familyHistory)) == Failure(Gender)
  {
    var key := Lower("unknown");
    assert key[0] == 'u';
    assert key !in a.genderCodes;
  }

  /** With the trained vocabularies, upper-case spellings of known values are accepted. */
  lemma UpperCaseAccepted(a: Artifacts, age: int)
    requires TrainedVocabularies(a)
    ensures Predict(a, Request(age, "MALE", "Yes", "NO")).Success?
  {
    assert Lower("MALE") == "male";
    assert Lower("Yes") == "yes";
    assert Lower("NO") == "no";
  }
}
