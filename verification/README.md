# Thalassemia screening server: a functional model

This project models the request handlers of `thalassemia-server/app.py`: a
small Flask service that predicts thalassemia risk from four answers, keeps
two registries (donors and patients), matches patients to donors by blood
type and reports how many high- and low-risk predictions have been made.

The framework, the SQLite database, the log file and the trained classifier
are taken out. What is left is a state machine over immutable values:

- `Store`: one table, a `map<int, Record>` keyed by the primary key. A new
  row gets the key SQLite gives an `INTEGER PRIMARY KEY` table: one more
  than the largest key in use, or 1 when the table is empty. `query.all()`
  lists rows in ascending key order, the order of a rowid scan.
- `Matching`: the donors whose `blood_type` string equals the patient's,
  each projected to `{id, name, location}`. This is plain string equality,
  with no transfusion-compatibility rules.
- `PredictionLog`: `results_log.txt` as `Option<seq<string>>`. `None` means
  the file does not exist yet. Each line is kept as file iteration yields
  it, newline included. `predict` appends `str(label) + "\n"`.
  `risk_stats` counts the lines that strip to `"1"` and to `"0"`.
- `Inference`: the three fitted `LabelEncoder`s are partial maps from
  vocabulary to code, and the classifier is a function parameter. Inputs
  are lower-cased before lookup. Label 1 selects the high-risk message and
  every other label the low-risk one.
- `Text`: the Python string operations the handlers depend on: `lower()`,
  `strip()` with Python's whitespace set, and `str()` of an integer.
- `Api`: one function per route. Each maps the state (both tables and the
  log) and a request to a response and the next state.

Behaviour of the code that a reader might not expect, and that the model keeps:

- An unknown category value makes `LabelEncoder.transform` raise. Nothing
  catches the exception, so Flask answers 500 (a server error, not a 4xx)
  and nothing is logged.
- `PUT`/`DELETE` on a missing id goes through `get_or_404`, which answers
  with the framework's own 404 page, not a JSON body. `match_donors`
  instead returns JSON `{"error": "Patient not found"}` with status 404.
- Labels are not checked: the log records whatever label the classifier
  returns, and `risk_stats` ignores lines other than "0" and "1".
- The age is not checked for being non-negative.

## Model

| member | source | states |
|---|---|---|
| Store.FreshId | thalassemia-server/app.py:18 | the new key is larger than every key in use; it is 1 for an empty table and otherwise one past an existing key; it is positive in a consistent table |
| Store.Insert | thalassemia-server/app.py:71-73 | the table gains exactly one row, under a key not used before, holding the submitted fields verbatim; every earlier row is unchanged; consistency is preserved |
| Store.Update | thalassemia-server/app.py:122-127 | succeeds exactly when the id exists; then the keys stay the same, the row keeps its id and takes the three submitted fields, and every other row is unchanged |
| Store.Delete | thalassemia-server/app.py:117-119 | succeeds exactly when the id exists; then only that key is removed and every remaining row is unchanged |
| Store.Get | thalassemia-server/app.py:86 | finds a row exactly when the id is a key, and returns the row stored there |
| Store.SortedKeys | thalassemia-server/app.py:97 | lists each key of the set exactly once, in strictly ascending order |
| Store.All | thalassemia-server/app.py:97-101 | lists one entry per stored row, every stored row with all four fields, each entry being the row stored under its id, ids ascending |
| Matching.WithBloodType | thalassemia-server/app.py:90 | keeps exactly the rows whose blood type equals the key, and drops the rest |
| Matching.FilterKeepsOrder | thalassemia-server/app.py:90 | filtering keeps scan order, so rows listed by ascending id stay in ascending order |
| Matching.DonorsOfType | thalassemia-server/app.py:90-91 | every donor of the blood type appears projected to id, name and location; every entry is such a donor; no donor appears twice |
| Matching.FindMatches | thalassemia-server/app.py:86-93 | no result exactly when the patient is absent, whatever the donors; otherwise exactly the donors of the patient's blood type, projected |
| Text.Lower | thalassemia-server/app.py:44-46 | keeps the length; turns each letter 'A'..'Z' into the letter at the same place in 'a'..'z'; leaves every other character as it is |
| Text.Strip | thalassemia-server/app.py:154 | the result neither starts nor ends with whitespace |
| Text.StripPadded | thalassemia-server/app.py:154 | the stripped text is an infix of the line with only whitespace before and after it |
| Text.StripLine | thalassemia-server/app.py:154 | a word followed by its newline strips back to the word |
| Text.DecimalOneZero | thalassemia-server/app.py:54 | the decimal text of a label is "1" exactly for 1 and "0" exactly for 0 |
| Inference.Encode | thalassemia-server/app.py:44 | succeeds exactly when the lower-cased value is in the encoder's vocabulary, giving that value's code |
| Inference.Advice | thalassemia-server/app.py:56-65 | the message is the high-risk text exactly when the label is 1, and the low-risk text exactly when it is not |
| Inference.Predict | thalassemia-server/app.py:43-65 | succeeds exactly when all three lower-cased values are known; a failure names the first unknown field in gender, symptoms, family-history order; on success the label is the classifier's answer on the encoded row and the message matches the label |
| Inference.UnseenGenderRejected | thalassemia-server/app.py:44 | with the trained vocabularies, gender "unknown" is rejected on the gender field |
| Inference.UpperCaseAccepted | thalassemia-server/app.py:44-46 | with the trained vocabularies, "MALE", "Yes" and "NO" are accepted because they are lower-cased first |
| PredictionLog.Append | thalassemia-server/app.py:53-54 | the log then exists and is the old lines followed by exactly one new line, the label's |
| PredictionLog.Count | thalassemia-server/app.py:153-157 | a count never exceeds the number of lines |
| PredictionLog.CountConcat | thalassemia-server/app.py:153-157 | counting the lines of two concatenated logs adds their counts |
| PredictionLog.CountsDisjoint | thalassemia-server/app.py:154-157 | no line counts as both high and low, so high + low is at most the number of lines |
| PredictionLog.LogLineClass | thalassemia-server/app.py:54 | a logged label's line strips to "1" exactly for label 1 and to "0" exactly for label 0 |
| PredictionLog.AppendCounts | thalassemia-server/app.py:53-57 | one append adds 1 to the high count for label 1, adds 1 to the low count for label 0, and otherwise changes neither |
| PredictionLog.ScanLog | thalassemia-server/app.py:148-161 | the loop's high and low equal the reference counts of lines stripping to "1" and "0"; both are zero when the file is missing |
| PredictionLog.ReplayCounts | thalassemia-server/app.py:53-54 | after appending a run of labels, high grows by the number of 1 labels and low by the number of 0 labels |
| PredictionLog.BinaryLabelsSplit | thalassemia-server/app.py:154-157 | when every label is 0 or 1, the 1s and 0s together number all the labels |
| PredictionLog.StatsCountEveryPrediction | thalassemia-server/app.py:149-161 | starting with no log, n predictions labelled 0 or 1 give high + low = n |
| Api.Predict | thalassemia-server/app.py:39-65 | rejected input gives status 500 with the state unchanged, accepted input status 200; accepted input appends exactly the label to the log and answers with the message for that label; neither table changes |
| Api.RegisterDonor | thalassemia-server/app.py:68-74 | confirms, and adds one donor under a new id with the submitted fields; every other donor, the patients and the log are unchanged |
| Api.RegisterPatient | thalassemia-server/app.py:76-82 | confirms, and adds one patient under a new id with the submitted fields; every other patient, the donors and the log are unchanged |
| Api.MatchDonors | thalassemia-server/app.py:84-93 | an absent patient gives the JSON 404 "Patient not found"; otherwise the response holds exactly the donors of that patient's blood type; nothing changes |
| Api.GetDonors | thalassemia-server/app.py:95-102 | lists every donor once with all four fields, and changes nothing |
| Api.GetPatients | thalassemia-server/app.py:104-111 | lists every patient once with all four fields, and changes nothing |
| Api.ModifyDonor | thalassemia-server/app.py:113-128 | a missing id gives 404 with nothing changed; DELETE removes exactly that donor; PUT replaces its three fields and keeps its id; patients and log are never touched |
| Api.ModifyPatient | thalassemia-server/app.py:130-145 | a missing id gives 404 with nothing changed; DELETE removes exactly that patient; PUT replaces its three fields and keeps its id; donors and log are never touched |
| Api.RiskStats | thalassemia-server/app.py:147-161 | reads only; high and low are the numbers of log lines that strip to "1" and to "0" (the counts `PredictionLog.ScanLog` computes), so high + low never exceeds the number of lines; both are zero when the log does not exist |
| Api.RegisterThenListed | thalassemia-server/app.py:71-74 | after registering, the donor listing holds a row with the submitted fields under an id that was not in use |
| Api.UpdateThenListed | thalassemia-server/app.py:122-128 | after a PUT, the listing shows the new fields under the same id, with no stale row for that id |
| Api.DeleteThenUnlisted | thalassemia-server/app.py:117-120 | after a DELETE, the listing is one row shorter and no row has the deleted id |
| Api.RegisteredDonorMatches | thalassemia-server/app.py:86-93 | a donor registered with a patient's blood type is among that patient's matches, as id, name and location |
| Api.PredictAll | thalassemia-server/app.py:39-54 | a run of predict calls never touches the tables |
| Api.AcceptedLabels | thalassemia-server/app.py:43-54 | a run yields at most one logged label per call, and exactly one per call when every request is well formed |
| Api.PredictAllLogs | thalassemia-server/app.py:43-54 | after a run of predict calls, the log is the old log followed by the labels of the accepted calls, in order |
| Api.StatsCountAcceptedPredictions | thalassemia-server/app.py:147-161 | starting with no log, high counts the accepted calls labelled 1 and low those labelled 0; with a classifier answering 0 or 1, high + low is the number of accepted calls |

## Left out

- Flask routing, JSON parsing and serialisation, and CORS are not modelled. A request body missing a key raises `KeyError`, which the framework turns into an error page; this is not modelled either.
- The route parameter of `/match_donors/<patient_id>` is text. SQLite's integer affinity makes a decimal text find the integer key. The model takes the id as an integer, so non-numeric ids, which find no patient, are not represented.
- SQLite persistence, sessions and commits are replaced by immutable maps. When the largest key is already 2^63-1, SQLite picks a random unused key instead of max + 1; that case is not modelled. The `String(5)`, `String(100)` and `String(200)` column lengths are not enforced by SQLite and are not modelled.
- File I/O is left out. The log is a sequence of lines, as iterating over the file yields them. Concurrent appends, edits made by anything other than `predict`, and newline translation are not modelled.
- The classifier is a function parameter, and `predict_proba` and the confidence `round(probability * 100, 2)` are left out (floating point). Indexing the probabilities by the label would raise for a label the trained classes do not cover; that path is not modelled.
- `LabelEncoder` codes are abstract: each encoder is a partial map, and the ordering of its vocabulary is not modelled.
- `int(data['age'])` is taken as already done. A non-numeric age, which raises and gives a 500, is not modelled.
- Text.Lower: only ASCII letters are lower-cased; Python's `str.lower` also maps other Unicode letters.
- `thalassemia-server/train_model.py` is offline training. Only the vocabularies it fits ("female"/"male", "no"/"yes") appear, as the hypothesis of Inference.UnseenGenderRejected and Inference.UpperCaseAccepted.
