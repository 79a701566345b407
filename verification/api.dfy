/**
 * The HTTP handlers of the server as state transitions: each takes the
 * state (both tables and the prediction log) and the request, and yields
 * the response and the next state.
 */
module Api {
  import opened Wrappers
  import opened Store
  import opened PredictionLog
  import Matching
  import Inference

  /** Everything a request can read or change. */
  datatype State = State(donors: Table, patients: Table, log: Log)

  /** A new database with empty tables and no log file. */
  function Initial(): State {
    State(map[], map[], None)
  }

  /** Both tables keep every row under its own positive id. */
  predicate Consistent(s: State) {
    Store.Valid(s.donors) && Store.Valid(s.patients)
  }

  datatype Response =
    | Message(text: string)                  // {"message": text}
    | Assessment(message: string)            // predict's {"message": ..., "confidence": ...}
    | Records(records: seq<Record>)          // [{id, name, blood_type, location}, ...]
    | Matches(matches: seq<Matching.MatchRow>) // {"matches": [{id, name, location}, ...]}
    | RiskCounts(high: nat, low: nat)        // {"high": ..., "low": ...}
    | ErrorJson(status: nat, error: string)  // {"error": ...} with a status code
    | Abort(status: nat)                     // the framework's own error page

  /** The HTTP status of a response. */
  function Status(r: Response): nat {
    match r
    case ErrorJson(status, _) => status
    case Abort(status) => status
    case _ => 200
  }

  datatype Reply = Reply(response: Response, next: State)

  /** The two methods `/donor/<id>` and `/patient/<id>` accept. */
  datatype Modification = HttpPut(fields: Fields) | HttpDelete

  /**
   * `POST /predict`. An encoder that does not know a value raises, which
   * the framework turns into a 500 with nothing logged. Otherwise exactly
   * one line, the label, is appended to the log and the advice for the
   * label is returned; the tables are untouched either way.
   */
  function Predict(s: State, a: Inference.Artifacts, req: Inference.Request): (r: Reply)
    ensures r.next.donors == s.donors && r.next.patients == s.patients
    ensures !Inference.Encodable(a, req) ==> r == Reply(Abort(500), s)
    ensures Status(r.response) == (if Inference.Encodable(a, req) then 200 else 500)
    ensures Inference.Encodable(a, req) ==>
      var predicted := a.classify(Inference.FeaturesOf(a, req));
      && r.next.log == Append(s.log, predicted)
      && r.response.Assessment?
      && (r.response.message == Inference.HighRisk <==> predicted == 1)
      && (r.response.message == Inference.LowRisk <==> predicted != 1)
  {
    match Inference.Predict(a, req)
    case Failure(_) => Reply(Abort(500), s)
    case Success(p) => Reply(Assessment(p.message), s.(log := Append(s.log, p.predicted)))
  }

  /** `POST /register_donor`: one new donor row; patients and log untouched. */
  function RegisterDonor(s: State, f: Fields): (r: Reply)
    ensures r.response == Message("Donor registered successfully")
    ensures exists id :: Added(s.donors, r.next.donors, f, id)
    ensures r.next.patients == s.patients && r.next.log == s.log
    ensures Consistent(s) ==> Consistent(r.next)
  {
    var (id, donors) := Insert(s.donors, f);
    assert Added(s.donors, donors, f, id);
    Reply(Message("Donor registered successfully"), s.(donors := donors))
  }

  /** `POST /register_patient`: one new patient row; donors and log untouched. */
  function RegisterPatient(s: State, f: Fields): (r: Reply)
    ensures r.response == Message("Patient registered successfully")
    ensures exists id :: Added(s.patients, r.next.patients, f, id)
    ensures r.next.donors == s.donors && r.next.log == s.log
    ensures Consistent(s) ==> Consistent(r.next)
  {
    var (id, patients) := Insert(s.patients, f);
    assert Added(s.patients, patients, f, id);
    Reply(Message("Patient registered successfully"), s.(patients := patients))
  }

  /**
   * `GET /match_donors/<patient_id>`: a JSON 404 for an unknown patient,
   * otherwise exactly the donors sharing the patient's blood type. Reads only.
   */
  function MatchDonors(s: State, patientId: int): (r: Reply)
    ensures r.next == s
    ensures patientId !in s.patients ==> r.response == ErrorJson(404, "Patient not found")
    ensures Status(r.response) == (if patientId in s.patients then 200 else 404)
    ensures patientId in s.patients ==>
      r.response.Matches?
      && Matching.ExactMatches(s.donors, s.patients[patientId].bloodType, r.response.matches)
  {
    match Matching.FindMatches(s.donors, s.patients, patientId)
    case None => Reply(ErrorJson(404, "Patient not found"), s)
    case Some(rows) => Reply(Matches(rows), s)
  }

  /** `GET /donors`: every donor with all four fields. Reads only. */
  function GetDonors(s: State): (r: Reply)
    ensures r.next == s
    ensures r.response.Records? && Lists(s.donors, r.response.records)
  {
    Reply(Records(All(s.donors)), s)
  }

  /** `GET /patients`: every patient with all four fields. Reads only. */
  function GetPatients(s: State): (r: Reply)
    ensures r.next == s
    ensures r.response.Records? && Lists(s.patients, r.response.records)
  {
    Reply(Records(All(s.patients)), s)
  }

  /**
   * `PUT` or `DELETE /donor/<id>`: the framework's 404 with nothing changed
   * when there is no such donor; otherwise the row is updated or removed
   * and nothing else changes.
   */
  function ModifyDonor(s: State, id: int, m: Modification): (r: Reply)
    ensures id !in s.donors ==> r == Reply(Abort(404), s)
    ensures Status(r.response) == (if id in s.donors then 200 else 404)
    ensures r.next.patients == s.patients && r.next.log == s.log
    ensures id in s.donors && m.HttpDelete? ==>
      r.response == Message("Donor deleted successfully") && Deleted(s.donors, r.next.donors, id)
    ensures id in s.donors && m.HttpPut? ==>
      r.response == Message("Donor updated successfully") && Updated(s.donors, r.next.donors, id, m.fields)
    ensures Consistent(s) ==> Consistent(r.next)
  {
    match Get(s.donors, id)
    case None => Reply(Abort(404), s)
    case Some(_) =>
      match m
      case HttpDelete =>
        Reply(Message("Donor deleted successfully"), s.(donors := Delete(s.donors, id).value))
      case HttpPut(f) =>
        Reply(Message("Donor updated successfully"), s.(donors := Update(s.donors, id, f).value))
  }

  /** `PUT` or `DELETE /patient/<id>`, as for donors. */
  function ModifyPatient(s: State, id: int, m: Modification): (r: Reply)
    ensures id !in s.patients ==> r == Reply(Abort(404), s)
    ensures Status(r.response) == (if id in s.patients then 200 else 404)
    ensures r.next.donors == s.donors && r.next.log == s.log
    ensures id in s.patients && m.HttpDelete? ==>
      r.response == Message("Patient deleted successfully") && Deleted(s.patients, r.next.patients, id)
    ensures id in s.patients && m.HttpPut? ==>
      r.response == Message("Patient updated successfully") && Updated(s.patients, r.next.patients, id, m.fields)
    ensures Consistent(s) ==> Consistent(r.next)
  {
    match Get(s.patients, id)
    case None => Reply(Abort(404), s)
    case Some(_) =>
      match m
      case HttpDelete =>
        Reply(Message("Patient deleted successfully"), s.(patients := Delete(s.patients, id).value))
      case HttpPut(f) =>
        Reply(Message("Patient updated successfully"), s.(patients := Update(s.patients, id, f).value))
  }

  /**
   * `GET /risk_stats`: the lines of the log that strip to "1" and to "0";
   * zero for both when the log does not exist. Reads only.
   */
  function RiskStats(s: State): (r: Reply)
    ensures r.next == s
    ensures r.response.RiskCounts?
    ensures r.response.high + r.response.low <= |Lines(s.log)|
    ensures s.log.None? ==> r.response == RiskCounts(0, 0)
    ensures r.response == RiskCounts(Count(Lines(s.log), "1"), Count(Lines(s.log), "0"))
  {
    CountsDisjoint(Lines(s.log));
    Reply(RiskCounts(Count(Lines(s.log), "1"), Count(Lines(s.log), "0")), s)
  }

  /** A registered donor shows up in the next listing with the submitted fields, under a new id. */
  lemma RegisterThenListed(s: State, f: Fields)
    requires Consistent(s)
    ensures var rows := GetDonors(RegisterDonor(s, f).next).response.records;
      exists id :: id !in s.donors && Record(id, f.name, f.bloodType, f.location) in rows
  {
    var after := RegisterDonor(s, f).next.donors;
    var id :| Added(s.donors, after, f, id);
    assert after[id] in All(after);
  }

  /** After a PUT the listing shows the new fields under the same id, and no stale row for it. */
  lemma UpdateThenListed(s: State, id: int, f: Fields)
    requires Consistent(s) && id in s.donors
    ensures var rows := GetDonors(ModifyDonor(s, id, HttpPut(f)).next).response.records;
      && Record(id, f.name, f.bloodType, f.location) in rows
      && forall i :: 0 <= i < |rows| && rows[i].id == id ==> rows[i] == Record(id, f.name, f.bloodType, f.location)
  {
    var after := ModifyDonor(s, id, HttpPut(f)).next.donors;
    assert after[id] in All(after);
  }

  /** After a DELETE the listing no longer shows the id and is one row shorter. */
  lemma DeleteThenUnlisted(s: State, id: int)
    requires Consistent(s) && id in s.donors
    ensures var rows := GetDonors(ModifyDonor(s, id, HttpDelete).next).response.records;
      && |rows| == |GetDonors(s).response.records| - 1
      && forall i :: 0 <= i < |rows| ==> rows[i].id != id
  {
    var after := ModifyDonor(s, id, HttpDelete).next.donors;
    assert after.Keys == s.donors.Keys - {id};
    assert |after.Keys| == |s.donors.Keys| - 1;
  }

  /**
   * A donor registered with a patient's blood type is among that patient's
   * matches, projected to id, name and location.
   */
  lemma RegisteredDonorMatches(s: State, f: Fields, patientId: int)
    requires Consistent(s)
    requires patientId in s.patients && s.patients[patientId].bloodType == f.bloodType
    ensures var r := MatchDonors(RegisterDonor(s, f).next, patientId).response;
      r.Matches? && exists id :: id !in s.donors && Matching.MatchRow(id, f.name, f.location) in r.matches
  {
    var after := RegisterDonor(s, f).next;
    var id :| Added(s.donors, after.donors, f, id);
    assert Matching.Project(after.donors[id]) == Matching.MatchRow(id, f.name, f.location);
  }

  /** The state after the predict calls `reqs`, made in order. */
  function PredictAll(s: State, a: Inference.Artifacts, reqs: seq<Inference.Request>): (r: State)
    ensures r.donors == s.donors && r.patients == s.patients
  {
    if reqs == [] then s
    else Predict(PredictAll(s, a, reqs[..|reqs| - 1]), a, reqs[|reqs| - 1]).next
  }

  /** The labels of the accepted calls among `reqs`, in order. */
  function AcceptedLabels(a: Inference.Artifacts, reqs: seq<Inference.Request>): (labels: seq<int>)
    ensures |labels| <= |reqs|
    ensures (forall i :: 0 <= i < |reqs| ==> Inference.Encodable(a, reqs[i])) ==> |labels| == |reqs|
  {
    if reqs == [] then []
    else
      var last := reqs[|reqs| - 1];
      AcceptedLabels(a, reqs[..|reqs| - 1])
        + (if Inference.Encodable(a, last) then [a.classify(Inference.FeaturesOf(a, last))] else [])
  }

  /** A run of predict calls leaves the log of the accepted calls' labels, rejected calls leaving no trace. */
  lemma {:induction false} PredictAllLogs(s: State, a: Inference.Artifacts, reqs: seq<Inference.Request>)
    ensures PredictAll(s, a, reqs).log == Replay(s.log, AcceptedLabels(a, reqs))
  {
    if reqs != [] {
      var init := reqs[..|reqs| - 1];
      var last := reqs[|reqs| - 1];
      PredictAllLogs(s, a, init);
      var before := PredictAll(s, a, init);
      var labels := AcceptedLabels(a, reqs);
      if Inference.Encodable(a, last) {
        var predicted := a.classify(Inference.FeaturesOf(a, last));
        assert labels == AcceptedLabels(a, init) + [predicted];
        assert labels[..|labels| - 1] == AcceptedLabels(a, init);
        assert PredictAll(s, a, reqs).log == Append(before.log, predicted);
      } else {
        assert labels == AcceptedLabels(a, init);
        assert PredictAll(s, a, reqs).log == before.log;
      }
    }
  }

  /** The classifier answers 0 or 1 on every accepted call among `reqs`. */
  predicate BinaryOn(a: Inference.Artifacts, reqs: seq<Inference.Request>) {
    forall i :: 0 <= i < |reqs| && Inference.Encodable(a, reqs[i]) ==>
      a.classify(Inference.FeaturesOf(a, reqs[i])) in {0, 1}
  }

  lemma {:induction false} AcceptedLabelsBinary(a: Inference.Artifacts, reqs: seq<Inference.Request>)
    requires BinaryOn(a, reqs)
    ensures forall i :: 0 <= i < |AcceptedLabels(a, reqs)| ==>
      AcceptedLabels(a, reqs)[i] == 0 || AcceptedLabels(a, reqs)[i] == 1
  {
    if reqs != [] {
      var init := reqs[..|reqs| - 1];
      assert BinaryOn(a, init) by {
        forall i | 0 <= i < |init| ensures init[i] == reqs[i] { }
      }
      AcceptedLabelsBinary(a, init);
    }
  }

  /**
   * Starting from no log, the statistics count every accepted predict call
   * once: high counts label 1, low counts label 0, and with a classifier
   * answering 0 or 1 high + low is the number of accepted calls (all of
   * them when every request is well formed).
   */
  lemma StatsCountAcceptedPredictions(a: Inference.Artifacts, reqs: seq<Inference.Request>)
    requires BinaryOn(a, reqs)
    ensures var r := RiskStats(PredictAll(Initial(), a, reqs)).response;
      && r.high == Occurrences(AcceptedLabels(a, reqs), 1)
      && r.low == Occurrences(AcceptedLabels(a, reqs), 0)
      && r.high + r.low == |AcceptedLabels(a, reqs)|
      && ((forall i :: 0 <= i < |reqs| ==> Inference.Encodable(a, reqs[i])) ==> r.high + r.low == |reqs|)
  {
    var labels := AcceptedLabels(a, reqs);
    PredictAllLogs(Initial(), a, reqs);
    ReplayCounts(None, labels);
    AcceptedLabelsBinary(a, reqs);
    BinaryLabelsSplit(labels);
  }
}
