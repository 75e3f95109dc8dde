/**
 * The two relational queries the handlers use: "first row in storage order that
 * satisfies a filter" (`.filter(...).first()`, `filter_by(...).first()` and the
 * primary-key `get`) and "all assessment rows of one patient" (the
 * `outcome_assessments` relationship, app.py:29).
 */
module Query {
  import opened Wrappers
  import opened Records

  /** Index of the first row satisfying `cond`, or `None` when no row does. */
  function FirstWhere<T>(rows: seq<T>, cond: T -> bool): (r: Option<nat>)
    ensures r.Some? ==> r.value < |rows| && cond(rows[r.value])
    ensures r.Some? ==> forall j :: 0 <= j < r.value ==> !cond(rows[j])
    ensures r.None? <==> forall j :: 0 <= j < |rows| ==> !cond(rows[j])
  {
    if rows == [] then None
    else if cond(rows[0]) then Some(0)
    else match FirstWhere(rows[1..], cond)
      case None => None
      case Some(k) => Some(k + 1)
  }

  /** The assessment rows that belong to patient `pid`, in storage order. */
  function AssessmentsOf(rows: seq<OutcomeAssessment>, pid: int): (r: seq<OutcomeAssessment>)
    ensures |r| <= |rows|
    ensures forall a :: a in r <==> a in rows && a.patientId == pid
  {
    if rows == [] then []
    else (if rows[0].patientId == pid then [rows[0]] else []) + AssessmentsOf(rows[1..], pid)
  }

  /** Appending a row extends the patient's assessments by that row exactly when it is theirs. */
  lemma {:induction false} AssessmentsOfAppend(rows: seq<OutcomeAssessment>, a: OutcomeAssessment, pid: int)
    ensures AssessmentsOf(rows + [a], pid)
         == AssessmentsOf(rows, pid) + (if a.patientId == pid then [a] else [])
  {
    if rows == [] {
      assert rows + [a] == [a];
    } else {
      assert (rows + [a])[1..] == rows[1..] + [a];
      AssessmentsOfAppend(rows[1..], a, pid);
    }
  }

  /**
   * Each of the patient's rows appears in the list as often as in the table, and no
   * other row appears, so the list's length is the number of rows carrying `pid`.
   */
  lemma {:induction false} AssessmentsOfMultiplicity(rows: seq<OutcomeAssessment>, pid: int, a: OutcomeAssessment)
    ensures multiset(AssessmentsOf(rows, pid))[a] == if a.patientId == pid then multiset(rows)[a] else 0
  {
    if rows != [] {
      assert rows == [rows[0]] + rows[1..];
      AssessmentsOfMultiplicity(rows[1..], pid, a);
    }
  }
}
