/**
 * Donor matching: the donors whose blood type is exactly the patient's,
 * each reduced to the three columns the client sees.
 */
module Matching {
  import opened Wrappers
  import opened Store

  /** One entry of the `matches` list: a donor without its blood type. */
  datatype MatchRow = MatchRow(id: int, name: string, location: string)

  function Project(d: Record): MatchRow {
    MatchRow(d.id, d.name, d.location)
  }

  /** `filter_by(blood_type=bt)`: the rows whose blood type equals `bt`, scan order kept. */
  function WithBloodType(rows: seq<Record>, bt: string): (r: seq<Record>)
    ensures |r| <= |rows|
    ensures forall i :: 0 <= i < |r| ==> r[i] in rows && r[i].bloodType == bt
    ensures forall d :: d in rows && d.bloodType == bt ==> d in r
  {
    if rows == [] then []
    else
      var rest := WithBloodType(rows[1..], bt);
      if rows[0].bloodType == bt then [rows[0]] + rest else rest
  }

  /** Filtering keeps the scan order, so ascending ids stay ascending. */
  lemma {:induction false} FilterKeepsOrder(rows: seq<Record>, bt: string)
    ensures IdsIncreasing(rows) ==> IdsIncreasing(WithBloodType(rows, bt))
  {
    if rows != [] && IdsIncreasing(rows) {
      FilterKeepsOrder(rows[1..], bt);
      forall i | 0 <= i < |WithBloodType(rows[1..], bt)|
        ensures WithBloodType(rows[1..], bt)[i].id > rows[0].id
      {
        FilteredAfterHead(rows, bt, i);
      }
    }
  }

  lemma FilteredAfterHead(rows: seq<Record>, bt: string, i: int)
    requires rows != [] && IdsIncreasing(rows)
    requires 0 <= i < |WithBloodType(rows[1..], bt)|
    ensures WithBloodType(rows[1..], bt)[i].id > rows[0].id
  {
    var tail := rows[1..];
    var x := WithBloodType(tail, bt)[i];
    assert x in tail;
    var j :| 0 <= j < |tail| && tail[j] == x;
    assert rows[j + 1] == x;
  }

  /** The list comprehension building one `{id, name, location}` per row. */
  function ProjectAll(rows: seq<Record>): (r: seq<MatchRow>)
    ensures |r| == |rows|
    ensures forall i :: 0 <= i < |rows| ==> r[i] == Project(rows[i])
  {
    if rows == [] then [] else [Project(rows[0])] + ProjectAll(rows[1..])
  }

  lemma ProjectedMember(rows: seq<Record>, d: Record)
    requires d in rows
    ensures Project(d) in ProjectAll(rows)
  {
    var i :| 0 <= i < |rows| && rows[i] == d;
    assert ProjectAll(rows)[i] == Project(d);
  }

  /**
   * `r` holds exactly the donors of blood type `bt`, projected: every such
   * donor appears, and (ids being row keys) every entry is such a donor,
   * each once, ids ascending.
   */
  predicate ExactMatches(donors: Table, bt: string, r: seq<MatchRow>) {
    && (forall k :: k in donors && donors[k].bloodType == bt ==> Project(donors[k]) in r)
    && (Valid(donors) ==>
         forall i :: 0 <= i < |r| ==>
           && r[i].id in donors
           && donors[r[i].id].bloodType == bt
           && r[i] == Project(donors[r[i].id]))
    && (Valid(donors) ==> forall i, j :: 0 <= i < j < |r| ==> r[i].id < r[j].id)
  }

  /** The projected donors of blood type `bt`, in ascending id order. */
  function DonorsOfType(donors: Table, bt: string): (r: seq<MatchRow>)
    ensures ExactMatches(donors, bt, r)
  {
    var r := ProjectAll(WithBloodType(All(donors), bt));
    DonorsOfTypeSound(donors, bt, r);
    DonorsOfTypeComplete(donors, bt, r);
    DonorsOfTypeOrdered(donors, bt, r);
    r
  }

  lemma DonorsOfTypeSound(donors: Table, bt: string, r: seq<MatchRow>)
    requires r == ProjectAll(WithBloodType(All(donors), bt))
    ensures Valid(donors) ==>
      forall i :: 0 <= i < |r| ==>
        && r[i].id in donors
        && donors[r[i].id].bloodType == bt
        && r[i] == Project(donors[r[i].id])
  {
    var rows := All(donors);
    var same := WithBloodType(rows, bt);
    if Valid(donors) {
      forall i | 0 <= i < |r|
        ensures r[i].id in donors && donors[r[i].id].bloodType == bt && r[i] == Project(donors[r[i].id])
      {
        StoredRow(donors, rows, same[i]);
        assert r[i] == Project(same[i]);
      }
    }
  }

  /** A row listed by `All` is the row stored under its id. */
  lemma StoredRow(t: Table, rows: seq<Record>, d: Record)
    requires Valid(t) && rows == All(t) && d in rows
    ensures d.id in t && t[d.id] == d
  {
    var j :| 0 <= j < |rows| && rows[j] == d;
  }

  lemma DonorsOfTypeComplete(donors: Table, bt: string, r: seq<MatchRow>)
    requires r == ProjectAll(WithBloodType(All(donors), bt))
    ensures forall k :: k in donors && donors[k].bloodType == bt ==> Project(donors[k]) in r
  {
    var same := WithBloodType(All(donors), bt);
    forall k | k in donors && donors[k].bloodType == bt
      ensures Project(donors[k]) in ProjectAll(same)
    {
      ProjectedMember(same, donors[k]);
    }
  }

  lemma DonorsOfTypeOrdered(donors: Table, bt: string, r: seq<MatchRow>)
    requires r == ProjectAll(WithBloodType(All(donors), bt))
    ensures Valid(donors) ==> forall i, j :: 0 <= i < j < |r| ==> r[i].id < r[j].id
  {
    FilterKeepsOrder(All(donors), bt);
  }

  /**
   * The matches for a patient: `None` when the patient does not exist,
   * whatever the donors; otherwise one projected row per donor of the
   * patient's blood type, in ascending id order.
   */
  function FindMatches(donors: Table, patients: Table, patientId: int): (r: Option<seq<MatchRow>>)
    ensures r.None? <==> patientId !in patients
    ensures r.Some? ==> ExactMatches(donors, patients[patientId].bloodType, r.value)
  {
    match Get(patients, patientId)
    case None => None
    case Some(patient) => Some(DonorsOfType(donors, patient.bloodType))
  }
}
