/**
 * The prediction log `results_log.txt`: `predict` appends one line per
 * call holding the label, and `risk_stats` counts the lines that strip to
 * "1" (high risk) and to "0" (low risk).
 */
module PredictionLog {
  import opened Wrappers
  import opened Text

  /**
   * The log's lines as iterating over the open file yields them, each with
   * its newline; `None` while the file does not exist.
   */
  type Log = Option<seq<string>>

  function Lines(log: Log): seq<string> {
    match log
    case None => []
    case Some(lines) => lines
  }

  /** The line `predict` writes for a prediction: its decimal text and a newline. */
  function LogLine(prediction: int): string {
    Decimal(prediction) + "\n"
  }

  /** Opening in append mode creates a missing file; one line is written at the end. */
  function Append(log: Log, prediction: int): (r: Log)
    ensures r.Some?
    ensures |Lines(r)| == |Lines(log)| + 1
    ensures Lines(r)[..|Lines(log)|] == Lines(log)
    ensures Lines(r)[|Lines(log)|] == LogLine(prediction)
  {
    Some(Lines(log) + [LogLine(prediction)])
  }

  /** The number of lines whose stripped text is `key`. */
  function Count(lines: seq<string>, key: string): (n: nat)
    ensures n <= |lines|
  {
    if lines == [] then 0
    else Count(lines[..|lines| - 1], key) + (if Strip(lines[|lines| - 1]) == key then 1 else 0)
  }

  /** Counting is additive over concatenation of logs. */
  lemma {:induction false} CountConcat(a: seq<string>, b: seq<string>, key: string)
    ensures Count(a + b, key) == Count(a, key) + Count(b, key)
    decreases |b|
  {
    if b != [] {
      var b' := b[..|b| - 1];
      assert (a + b)[..|a + b| - 1] == a + b';
      CountConcat(a, b', key);
    } else {
      assert a + b == a;
    }
  }

  /** No line counts as both high and low, so the two counts never exceed the line count. */
  lemma {:induction false} CountsDisjoint(lines: seq<string>)
    ensures Count(lines, "1") + Count(lines, "0") <= |lines|
  {
    if lines != [] {
      CountsDisjoint(lines[..|lines| - 1]);
    }
  }

  /** A written line strips to "1" exactly for prediction 1 and to "0" exactly for prediction 0. */
  lemma LogLineClass(prediction: int)
    ensures Strip(LogLine(prediction)) == "1" <==> prediction == 1
    ensures Strip(LogLine(prediction)) == "0" <==> prediction == 0
  {
    var d := Decimal(prediction);
    assert !IsSpace(d[0]) && !IsSpace(d[|d| - 1]);
    StripLine(d);
    DecimalOneZero(prediction);
  }

  /** One append moves the high count for prediction 1, the low count for prediction 0, and nothing else. */
  lemma AppendCounts(log: Log, prediction: int)
    ensures Count(Lines(Append(log, prediction)), "1") == Count(Lines(log), "1") + (if prediction == 1 then 1 else 0)
    ensures Count(Lines(Append(log, prediction)), "0") == Count(Lines(log), "0") + (if prediction == 0 then 1 else 0)
  {
    var after := Lines(Append(log, prediction));
    assert after[..|after| - 1] == Lines(log);
    LogLineClass(prediction);
  }

  /** Extending a prefix by one line adds that line's contribution. */
  lemma CountStep(lines: seq<string>, i: int, key: string)
    requires 0 <= i < |lines|
    ensures Count(lines[..i + 1], key) == Count(lines[..i], key) + (if Strip(lines[i]) == key then 1 else 0)
  {
    assert lines[..i + 1][..i] == lines[..i];
  }

  /** One more line adds to the high count, to the low count, or to neither. */
  lemma ScanStep(lines: seq<string>, i: int)
    requires 0 <= i < |lines|
    ensures Strip(lines[i]) == "1" ==>
      Count(lines[..i + 1], "1") == Count(lines[..i], "1") + 1 && Count(lines[..i + 1], "0") == Count(lines[..i], "0")
    ensures Strip(lines[i]) == "0" ==>
      Count(lines[..i + 1], "1") == Count(lines[..i], "1") && Count(lines[..i + 1], "0") == Count(lines[..i], "0") + 1
    ensures Strip(lines[i]) != "1" && Strip(lines[i]) != "0" ==>
      Count(lines[..i + 1], "1") == Count(lines[..i], "1") && Count(lines[..i + 1], "0") == Count(lines[..i], "0")
  {
    assert "1"[0] != "0"[0];
    CountStep(lines, i, "1");
    CountStep(lines, i, "0");
  }

  /** The body of `risk_stats`: one pass over the lines, zero counts for a missing file. */
  method ScanLog(log: Log) returns (high: nat, low: nat)
    ensures high == Count(Lines(log), "1")
    ensures low == Count(Lines(log), "0")
    ensures log.None? ==> high == 0 && low == 0
  {
    var lines := Lines(log);
    high, low := 0, 0;
    var i := 0;
    while i < |lines|
      invariant 0 <= i <= |lines|
      invariant high == Count(lines[..i], "1")
      invariant low == Count(lines[..i], "0")
    {
      var text := Strip(lines[i]);
      ScanStep(lines, i);
      if text == "1" {
        high := high + 1;
      } else if text == "0" {
        low := low + 1;
      }
      i := i + 1;
    }
    assert lines[..i] == lines;
  }

  /** The log after predictions with these labels, in order. */
  function Replay(log: Log, labels: seq<int>): (r: Log)
    ensures labels != [] ==> r.Some?
    ensures labels == [] ==> r == log
  {
    if labels == [] then log
    else Append(Replay(log, labels[..|labels| - 1]), labels[|labels| - 1])
  }

  /** How many of the labels equal `v`. */
  function Occurrences(labels: seq<int>, v: int): nat {
    if labels == [] then 0
    else Occurrences(labels[..|labels| - 1], v) + (if labels[|labels| - 1] == v then 1 else 0)
  }

  /** After a run of predictions the counts grew by the number of 1 labels and of 0 labels. */
  lemma {:induction false} ReplayCounts(log: Log, labels: seq<int>)
    ensures Count(Lines(Replay(log, labels)), "1") == Count(Lines(log), "1") + Occurrences(labels, 1)
    ensures Count(Lines(Replay(log, labels)), "0") == Count(Lines(log), "0") + Occurrences(labels, 0)
  {
    if labels != [] {
      var init := labels[..|labels| - 1];
      ReplayCounts(log, init);
      AppendCounts(Replay(log, init), labels[|labels| - 1]);
    }
  }

  /** With labels drawn from {0, 1}, every prediction is one or the other. */
  lemma {:induction false} BinaryLabelsSplit(labels: seq<int>)
    requires forall i :: 0 <= i < |labels| ==> labels[i] == 0 || labels[i] == 1
    ensures Occurrences(labels, 1) + Occurrences(labels, 0) == |labels|
  {
    if labels != [] {
      BinaryLabelsSplit(labels[..|labels| - 1]);
    }
  }

  /** From a missing log, n predictions labelled 0 or 1 give high + low == n. */
  lemma StatsCountEveryPrediction(labels: seq<int>)
    requires forall i :: 0 <= i < |labels| ==> labels[i] == 0 || labels[i] == 1
    ensures Count(Lines(Replay(None, labels)), "1") + Count(Lines(Replay(None, labels)), "0") == |labels|
  {
    ReplayCounts(None, labels);
    BinaryLabelsSplit(labels);
  }
}
