/**
 * The per-patient record workflow of the clinic application (app.py:57-141) as
 * transitions of an abstract store: each request handler maps a store and a
 * submitted form to the next store and the response it chooses.
 */
module Workflow {
  import opened Wrappers
  import opened Records
  import opened Query

  /** The three tables, each in storage (insertion) order. */
  datatype Db = Db(
    patients: seq<Patient>,
    baselines: seq<BaselineTreatment>,
    assessments: seq<OutcomeAssessment>)

  /** What a handler answers with, instead of a rendered page or a redirect URL. */
  datatype Response =
    | DuplicateError                          // registration form re-rendered with the duplicate error
    | RedirectBaseline(patientId: int)         // on to the baseline form of the new patient
    | RedirectIndex                            // silent redirect to the landing page
    | Success                                  // baseline confirmation page
    | RedirectDetails(regNo: string)           // on to the details page searched by this number
    | NotFound                                 // landing page with the not-found error
    | Found(patient: Patient, assessments: seq<OutcomeAssessment>)
    | ShowAssessmentForm(patient: Patient, assessmentNumber: int, showPdfForms: bool)

  /** A handler's result: the store after the request and the response. */
  datatype Handled = Handled(db: Db, response: Response)

  const EmptyDb := Db([], [], [])

  // ---------------------------------------------------------------- filters

  function RegNoIs(regNo: string): Patient -> bool
  {
    (p: Patient) => p.regNo == regNo
  }

  function IdIs(id: int): Patient -> bool
  {
    (p: Patient) => p.id == id
  }

  /** The search filter: registration number or screening number equal to the query. */
  function MatchesQuery(query: Option<string>): Patient -> bool
  {
    (p: Patient) => query == Some(p.regNo) || query == Some(p.screeningNo)
  }

  // ---------------------------------------------------------------- store facts

  predicate RegNoTaken(ps: seq<Patient>, regNo: string)
  {
    exists k :: 0 <= k < |ps| && ps[k].regNo == regNo
  }

  predicate HasPatient(ps: seq<Patient>, id: int)
  {
    exists k :: 0 <= k < |ps| && ps[k].id == id
  }

  /** The number of assessments patient `pid` already has. */
  function AssessmentCount(db: Db, pid: int): nat
  {
    |AssessmentsOf(db.assessments, pid)|
  }

  // ---------------------------------------------------------------- invariant

  /** No deletes: the primary keys of each table are 1, 2, ... in storage order. */
  ghost predicate IdsDense(db: Db)
  {
    && (forall k :: 0 <= k < |db.patients| ==> db.patients[k].id == k + 1)
    && (forall k :: 0 <= k < |db.baselines| ==> db.baselines[k].id == k + 1)
    && (forall k :: 0 <= k < |db.assessments| ==> db.assessments[k].id == k + 1)
  }

  ghost predicate RegNoUnique(ps: seq<Patient>)
  {
    forall i, j :: 0 <= i < j < |ps| ==> ps[i].regNo != ps[j].regNo
  }

  /** Every baseline and assessment row points at an existing patient. */
  ghost predicate ReferencesResolve(db: Db)
  {
    && (forall k :: 0 <= k < |db.baselines| ==> HasPatient(db.patients, db.baselines[k].patientId))
    && (forall k :: 0 <= k < |db.assessments| ==> HasPatient(db.patients, db.assessments[k].patientId))
  }

  /** One patient's assessments, in storage order, are numbered 1, 2, ..., n with n at most 6. */
  ghost predicate NumberedFromOne(rows: seq<OutcomeAssessment>)
  {
    && |rows| <= FinalAssessment
    && forall k :: 0 <= k < |rows| ==> rows[k].assessmentNumber == k + 1
  }

  ghost predicate AssessmentsNumbered(db: Db)
  {
    forall pid :: NumberedFromOne(AssessmentsOf(db.assessments, pid))
  }

  /** The terminal-only fields are empty on every assessment but the final one. */
  ghost predicate TerminalFieldsOnlyOnFinal(db: Db)
  {
    forall k :: 0 <= k < |db.assessments| && db.assessments[k].assessmentNumber != FinalAssessment ==>
      db.assessments[k].miasmData == None && db.assessments[k].susceptibilityData == None
  }

  ghost predicate Valid(db: Db)
  {
    && IdsDense(db)
    && RegNoUnique(db.patients)
    && ReferencesResolve(db)
    && AssessmentsNumbered(db)
    && TerminalFieldsOnlyOnFinal(db)
  }

  // ---------------------------------------------------------------- handlers

  /** POST /add_patient (app.py:59-85). */
  function Register(db: Db, form: PatientForm): (h: Handled)
    ensures h.response == DuplicateError <==> RegNoTaken(db.patients, form.regNo)
    ensures RegNoTaken(db.patients, form.regNo) ==> h.db == db
    ensures !RegNoTaken(db.patients, form.regNo) ==>
      && h.response == RedirectBaseline(|db.patients| + 1)
      && h.db == db.(patients := db.patients + [NewPatient(|db.patients| + 1, form)])
  {
    match FirstWhere(db.patients, RegNoIs(form.regNo))
    case Some(_) => Handled(db, DuplicateError)
    case None =>
      var id := |db.patients| + 1;
      Handled(db.(patients := db.patients + [NewPatient(id, form)]), RedirectBaseline(id))
  }

  /** POST /add_baseline_treatment/<patient_id> (app.py:90-105). */
  function AddBaseline(db: Db, pid: int, form: BaselineForm): (h: Handled)
    ensures h.response == RedirectIndex <==> !HasPatient(db.patients, pid)
    ensures !HasPatient(db.patients, pid) ==> h.db == db
    ensures HasPatient(db.patients, pid) ==>
      && h.response == Success
      && h.db == db.(baselines := db.baselines + [NewBaseline(|db.baselines| + 1, pid, form)])
  {
    match FirstWhere(db.patients, IdIs(pid))
    case None => Handled(db, RedirectIndex)
    case Some(k) =>
      var patient := db.patients[k];
      var row := NewBaseline(|db.baselines| + 1, patient.id, form);
      Handled(db.(baselines := db.baselines + [row]), Success)
  }

  /** POST /add_outcome_assessment/<patient_id> (app.py:118-139). */
  function AddAssessment(db: Db, pid: int, form: AssessmentForm): (h: Handled)
    ensures h.response == RedirectIndex <==>
              !HasPatient(db.patients, pid) || AssessmentCount(db, pid) >= FinalAssessment
    ensures h.response == RedirectIndex ==> h.db == db
    ensures h.response != RedirectIndex ==>
      h.db == db.(assessments := db.assessments +
                  [NewAssessment(|db.assessments| + 1, pid, AssessmentCount(db, pid) + 1, form)])
    ensures h.response != RedirectIndex ==>
      && h.db.patients == db.patients
      && h.db.baselines == db.baselines
      && |h.db.assessments| == |db.assessments| + 1
      && h.db.assessments[..|db.assessments|] == db.assessments
      && (exists k :: 0 <= k < |db.patients| && db.patients[k].id == pid &&
                      h.response == RedirectDetails(db.patients[k].regNo))
    ensures h.response != RedirectIndex ==>
      var a := h.db.assessments[|db.assessments|];
      && a.id == |db.assessments| + 1
      && a.patientId == pid
      && a.assessmentNumber == AssessmentCount(db, pid) + 1
      && a.date == form.date && a.briefNotes == form.briefNotes && a.prescription == form.prescription
      && a.oridlMainComplaint == form.oridlMainComplaint && a.oridlWellbeing == form.oridlWellbeing
      && (a.assessmentNumber == FinalAssessment ==>
            a.miasmData == form.miasmData && a.susceptibilityData == form.susceptibilityData)
      && (a.assessmentNumber != FinalAssessment ==>
            a.miasmData == None && a.susceptibilityData == None)
  {
    match FirstWhere(db.patients, IdIs(pid))
    case None => Handled(db, RedirectIndex)
    case Some(k) =>
      var patient := db.patients[k];
      var count := |AssessmentsOf(db.assessments, patient.id)|;
      if count >= FinalAssessment then Handled(db, RedirectIndex)
      else
        var row := NewAssessment(|db.assessments| + 1, patient.id, count + 1, form);
        Handled(db.(assessments := db.assessments + [row]), RedirectDetails(patient.regNo))
  }

  /** GET /add_outcome_assessment/<patient_id> (app.py:119-123, app.py:141). */
  function AssessmentFormView(db: Db, pid: int): (r: Response)
    ensures r.RedirectIndex? <==>
              !HasPatient(db.patients, pid) || AssessmentCount(db, pid) >= FinalAssessment
    ensures r.RedirectIndex? || r.ShowAssessmentForm?
    ensures r.ShowAssessmentForm? ==>
      && r.patient in db.patients && r.patient.id == pid
      && r.assessmentNumber == AssessmentCount(db, pid) + 1
      && (r.showPdfForms <==> r.assessmentNumber == FinalAssessment)
  {
    match FirstWhere(db.patients, IdIs(pid))
    case None => RedirectIndex
    case Some(k) =>
      var patient := db.patients[k];
      var count := |AssessmentsOf(db.assessments, patient.id)|;
      if count >= FinalAssessment then RedirectIndex
      else
        var number := count + 1;
        ShowAssessmentForm(patient, number, number == FinalAssessment)
  }

  /** GET /patient_details?search_query=... (app.py:110-115); `None` when the parameter is absent. */
  function Details(db: Db, query: Option<string>): (r: Response)
    ensures r.NotFound? || r.Found?
    ensures r.NotFound? <==>
              forall k :: 0 <= k < |db.patients| ==>
                query != Some(db.patients[k].regNo) && query != Some(db.patients[k].screeningNo)
    ensures r.Found? ==>
      exists k :: 0 <= k < |db.patients| && r.patient == db.patients[k]
        && (query == Some(db.patients[k].regNo) || query == Some(db.patients[k].screeningNo))
        && (forall j :: 0 <= j < k ==>
              query != Some(db.patients[j].regNo) && query != Some(db.patients[j].screeningNo))
        && r.assessments == AssessmentsOf(db.assessments, db.patients[k].id)
  {
    match FirstWhere(db.patients, MatchesQuery(query))
    case None => NotFound
    case Some(k) =>
      var patient := db.patients[k];
      Found(patient, AssessmentsOf(db.assessments, patient.id))
  }
}
