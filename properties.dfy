/**
 * What the workflow guarantees across requests: the store invariant is kept by
 * every handler, the assessment numbering is dense and capped, and the search and
 * redirects land on the patients they should.
 */
module Properties {
  import opened Wrappers
  import opened Records
  import opened Query
  import opened Workflow

  // ---------------------------------------------------------------- primary keys

  /** With dense ids, `get(id)` finds a patient exactly for the ids 1..n. */
  lemma HasPatientIffInRange(db: Db, id: int)
    requires IdsDense(db)
    ensures HasPatient(db.patients, id) <==> 1 <= id <= |db.patients|
  {
    if 1 <= id <= |db.patients| {
      assert db.patients[id - 1].id == id;
    }
  }

  // ---------------------------------------------------------------- invariant

  lemma EmptyDbValid()
    ensures Valid(EmptyDb)
  {
    forall pid ensures NumberedFromOne(AssessmentsOf([], pid)) {
      assert AssessmentsOf([], pid) == [];
    }
  }

  /** Registration keeps the invariant; in particular registration numbers stay unique. */
  lemma RegisterPreservesValid(db: Db, form: PatientForm)
    requires Valid(db)
    ensures Valid(Register(db, form).db)
  {
    var h := Register(db, form);
    if !RegNoTaken(db.patients, form.regNo) {
      var p := NewPatient(|db.patients| + 1, form);
      assert h.db.patients == db.patients + [p];
      forall k | 0 <= k < |db.baselines|
        ensures HasPatient(h.db.patients, db.baselines[k].patientId)
      {
        var i :| 0 <= i < |db.patients| && db.patients[i].id == db.baselines[k].patientId;
        assert h.db.patients[i] == db.patients[i];
      }
      forall k | 0 <= k < |db.assessments|
        ensures HasPatient(h.db.patients, db.assessments[k].patientId)
      {
        var i :| 0 <= i < |db.patients| && db.patients[i].id == db.assessments[k].patientId;
        assert h.db.patients[i] == db.patients[i];
      }
    }
  }

  lemma AddBaselinePreservesValid(db: Db, pid: int, form: BaselineForm)
    requires Valid(db)
    ensures Valid(AddBaseline(db, pid, form).db)
  {
  }

  /** Appending the next assessment of an existing patient, below the ceiling, keeps the invariant. */
  lemma AppendAssessmentKeepsValid(db: Db, a: OutcomeAssessment)
    requires Valid(db)
    requires a.id == |db.assessments| + 1
    requires HasPatient(db.patients, a.patientId)
    requires a.assessmentNumber == AssessmentCount(db, a.patientId) + 1 <= FinalAssessment
    requires a.assessmentNumber != FinalAssessment ==> a.miasmData == None && a.susceptibilityData == None
    ensures Valid(db.(assessments := db.assessments + [a]))
  {
    var next := db.(assessments := db.assessments + [a]);
    assert IdsDense(next);
    assert ReferencesResolve(next);
    assert TerminalFieldsOnlyOnFinal(next);
    forall q ensures NumberedFromOne(AssessmentsOf(next.assessments, q)) {
      AssessmentsOfAppend(db.assessments, a, q);
      assert NumberedFromOne(AssessmentsOf(db.assessments, q));
    }
  }

  /** Adding an assessment keeps the numbering dense and capped and the terminal fields confined. */
  lemma AddAssessmentPreservesValid(db: Db, pid: int, form: AssessmentForm)
    requires Valid(db)
    ensures Valid(AddAssessment(db, pid, form).db)
  {
    var h := AddAssessment(db, pid, form);
    if h.response != RedirectIndex {
      var a := NewAssessment(|db.assessments| + 1, pid, AssessmentCount(db, pid) + 1, form);
      AppendAssessmentKeepsValid(db, a);
    }
  }

  // ---------------------------------------------------------------- registration

  /**
   * A successful registration adds the one patient holding the submitted number,
   * under an id no patient had, and the baseline step it redirects to accepts that id.
   */
  lemma RegisterAssignsFreshId(db: Db, form: PatientForm, bform: BaselineForm)
    requires Valid(db)
    requires !RegNoTaken(db.patients, form.regNo)
    ensures var h := Register(db, form);
      && h.response.RedirectBaseline?
      && !HasPatient(db.patients, h.response.patientId)
      && HasPatient(h.db.patients, h.response.patientId)
      && AddBaseline(h.db, h.response.patientId, bform).response == Success
  {
    var h := Register(db, form);
    HasPatientIffInRange(db, h.response.patientId);
    RegisterPreservesValid(db, form);
    HasPatientIffInRange(h.db, h.response.patientId);
  }

  /**
   * Submitting the same registration number twice stores one patient: the second
   * attempt answers with the duplicate error and leaves the store as the first left it.
   */
  lemma DuplicateRegistrationKeepsOne(db: Db, first: PatientForm, second: PatientForm)
    requires Valid(db)
    requires first.regNo == second.regNo
    ensures var h1 := Register(db, first);
            var h2 := Register(h1.db, second);
      && h2.response == DuplicateError
      && h2.db == h1.db
      && RegNoTaken(h2.db.patients, first.regNo)
      && forall i, j :: 0 <= i < j < |h2.db.patients| ==> h2.db.patients[i].regNo != h2.db.patients[j].regNo
  {
    var h1 := Register(db, first);
    RegisterPreservesValid(db, first);
    if !RegNoTaken(db.patients, first.regNo) {
      var n := |db.patients|;
      assert h1.db.patients[n].regNo == first.regNo;
    }
  }

  // ---------------------------------------------------------------- baseline

  /** There is no one-baseline-per-patient check: a second post stores a second row for the patient. */
  lemma BaselinePostedTwice(db: Db, pid: int, first: BaselineForm, second: BaselineForm)
    requires HasPatient(db.patients, pid)
    ensures var h1 := AddBaseline(db, pid, first);
            var h2 := AddBaseline(h1.db, pid, second);
      && h2.response == Success
      && |h2.db.baselines| == |db.baselines| + 2
      && h2.db.baselines[..|db.baselines|] == db.baselines
      && h2.db.baselines[|db.baselines|].patientId == pid
      && h2.db.baselines[|db.baselines| + 1].patientId == pid
  {
    var h1 := AddBaseline(db, pid, first);
    assert h1.db.patients == db.patients;
    var h2 := AddBaseline(h1.db, pid, second);
    assert h2.db.baselines[..|db.baselines|] == h1.db.baselines[..|db.baselines|];
  }

  // ---------------------------------------------------------------- assessments

  /** The set of assessment numbers used by some rows. */
  function Numbers(rows: seq<OutcomeAssessment>): set<int>
  {
    set a | a in rows :: a.assessmentNumber
  }

  /** Numbers 1..n in order are exactly the set {1..n}, each used once. */
  lemma NumbersAreOneToN(rows: seq<OutcomeAssessment>)
    requires NumberedFromOne(rows)
    ensures forall n :: n in Numbers(rows) <==> 1 <= n <= |rows|
    ensures forall i, j :: 0 <= i < j < |rows| ==> rows[i].assessmentNumber != rows[j].assessmentNumber
  {
    forall n | 1 <= n <= |rows| ensures n in Numbers(rows) {
      assert rows[n - 1] in rows;
    }
  }

  /** Each patient's assessment numbers are exactly {1..n}, without repeats, and n is at most 6. */
  lemma PatientAssessmentNumbers(db: Db, pid: int)
    requires Valid(db)
    ensures var rows := AssessmentsOf(db.assessments, pid);
      && |rows| <= FinalAssessment
      && (forall n :: n in Numbers(rows) <==> 1 <= n <= |rows|)
      && forall i, j :: 0 <= i < j < |rows| ==> rows[i].assessmentNumber != rows[j].assessmentNumber
  {
    assert NumberedFromOne(AssessmentsOf(db.assessments, pid));
    NumbersAreOneToN(AssessmentsOf(db.assessments, pid));
  }

  /** One assessment post raises the patient's count by one, up to the ceiling. */
  lemma AddAssessmentCount(db: Db, pid: int, form: AssessmentForm)
    requires Valid(db)
    requires HasPatient(db.patients, pid)
    ensures var h := AddAssessment(db, pid, form);
      && h.db.patients == db.patients
      && AssessmentCount(h.db, pid)
         == if AssessmentCount(db, pid) < FinalAssessment then AssessmentCount(db, pid) + 1
            else FinalAssessment
  {
    var h := AddAssessment(db, pid, form);
    assert NumberedFromOne(AssessmentsOf(db.assessments, pid));
    if h.response != RedirectIndex {
      var a := h.db.assessments[|db.assessments|];
      assert h.db.assessments == db.assessments + [a];
      AssessmentsOfAppend(db.assessments, a, pid);
    }
  }

  /** The store after posting each form in turn for patient `pid`. */
  function SubmitAll(db: Db, pid: int, forms: seq<AssessmentForm>): Db
    decreases forms
  {
    if forms == [] then db
    else SubmitAll(AddAssessment(db, pid, forms[0]).db, pid, forms[1..])
  }

  /**
   * However many assessments are posted for a patient, the count grows by one per post
   * until it reaches 6 and stays there; the invariant holds throughout.
   */
  lemma {:induction false} AssessmentCeiling(db: Db, pid: int, forms: seq<AssessmentForm>)
    requires Valid(db)
    requires HasPatient(db.patients, pid)
    decreases forms
    ensures Valid(SubmitAll(db, pid, forms))
    ensures SubmitAll(db, pid, forms).patients == db.patients
    ensures AssessmentCount(SubmitAll(db, pid, forms), pid)
         == if AssessmentCount(db, pid) + |forms| <= FinalAssessment
            then AssessmentCount(db, pid) + |forms| else FinalAssessment
  {
    assert NumberedFromOne(AssessmentsOf(db.assessments, pid));
    if forms != [] {
      var next := AddAssessment(db, pid, forms[0]).db;
      AddAssessmentPreservesValid(db, pid, forms[0]);
      AddAssessmentCount(db, pid, forms[0]);
      AssessmentCeiling(next, pid, forms[1..]);
    }
  }

  /** A patient with six assessments gets no seventh: the post redirects and stores nothing. */
  lemma SeventhAssessmentRejected(db: Db, pid: int, forms: seq<AssessmentForm>, extra: AssessmentForm)
    requires Valid(db)
    requires HasPatient(db.patients, pid)
    requires AssessmentCount(db, pid) + |forms| >= FinalAssessment
    ensures var full := SubmitAll(db, pid, forms);
      && AssessmentCount(full, pid) == FinalAssessment
      && AddAssessment(full, pid, extra) == Handled(full, RedirectIndex)
  {
    AssessmentCeiling(db, pid, forms);
  }

  /**
   * The form page and the post agree: the form is shown exactly when the post is
   * accepted, the post stores the number the form announced, and it keeps the
   * terminal-only fields exactly when the form shows them.
   */
  lemma FormViewAgreesWithPost(db: Db, pid: int, form: AssessmentForm)
    ensures var v := AssessmentFormView(db, pid);
            var h := AddAssessment(db, pid, form);
      && (v.ShowAssessmentForm? <==> h.response.RedirectDetails?)
      && (v.ShowAssessmentForm? ==>
            var a := h.db.assessments[|db.assessments|];
            && a.assessmentNumber == v.assessmentNumber
            && (v.showPdfForms ==>
                  a.miasmData == form.miasmData && a.susceptibilityData == form.susceptibilityData)
            && (!v.showPdfForms ==> a.miasmData == None && a.susceptibilityData == None))
  {
  }

  // ---------------------------------------------------------------- search

  /**
   * When a patient's registration and screening numbers are held by no other patient,
   * searching by either finds that patient and their assessments.
   */
  lemma SearchByEitherNumber(db: Db, k: int)
    requires Valid(db)
    requires 0 <= k < |db.patients|
    requires forall j :: 0 <= j < |db.patients| && j != k ==>
      && db.patients[j].screeningNo != db.patients[k].regNo
      && db.patients[j].regNo != db.patients[k].screeningNo
      && db.patients[j].screeningNo != db.patients[k].screeningNo
    ensures Details(db, Some(db.patients[k].regNo))
         == Found(db.patients[k], AssessmentsOf(db.assessments, db.patients[k].id))
    ensures Details(db, Some(db.patients[k].screeningNo))
         == Found(db.patients[k], AssessmentsOf(db.assessments, db.patients[k].id))
  {
    var ps := db.patients;
    var r1 := Details(db, Some(ps[k].regNo));
    var i :| 0 <= i < |ps| && r1.patient == ps[i] && (Some(ps[k].regNo) == Some(ps[i].regNo) || Some(ps[k].regNo) == Some(ps[i].screeningNo))
          && r1.assessments == AssessmentsOf(db.assessments, ps[i].id);
    assert i == k;
    var r2 := Details(db, Some(ps[k].screeningNo));
    var j :| 0 <= j < |ps| && r2.patient == ps[j] && (Some(ps[k].screeningNo) == Some(ps[j].regNo) || Some(ps[k].screeningNo) == Some(ps[j].screeningNo))
          && r2.assessments == AssessmentsOf(db.assessments, ps[j].id);
    assert j == k;
  }

  // ---------------------------------------------------------------- redirect after an assessment

  /**
   * The details page an accepted assessment redirects to shows the assessed patient,
   * with the new row last, provided no other patient's screening number equals that
   * patient's registration number.
   */
  lemma DetailsRedirectShowsAssessedPatient(db: Db, pid: int, form: AssessmentForm)
    requires Valid(db)
    requires AddAssessment(db, pid, form).response.RedirectDetails?
    requires forall j :: 0 <= j < |db.patients| && db.patients[j].id != pid ==>
               db.patients[j].screeningNo != AddAssessment(db, pid, form).response.regNo
    ensures var h := AddAssessment(db, pid, form);
            var r := Details(h.db, Some(h.response.regNo));
      && r.Found?
      && r.patient.id == pid
      && r.assessments == AssessmentsOf(db.assessments, pid) + [h.db.assessments[|db.assessments|]]
  {
    var h := AddAssessment(db, pid, form);
    var k :| 0 <= k < |db.patients| && db.patients[k].id == pid && h.response == RedirectDetails(db.patients[k].regNo);
    var r := Details(h.db, Some(h.response.regNo));
    var i :| 0 <= i < |h.db.patients| && r.patient == h.db.patients[i]
          && (Some(h.response.regNo) == Some(h.db.patients[i].regNo) || Some(h.response.regNo) == Some(h.db.patients[i].screeningNo))
          && r.assessments == AssessmentsOf(h.db.assessments, h.db.patients[i].id);
    assert i == k;
    var a := h.db.assessments[|db.assessments|];
    assert h.db.assessments == db.assessments + [a];
    AssessmentsOfAppend(db.assessments, a, pid);
  }

  /** A patient row with the given keys and every other field empty. */
  function SamplePatient(id: int, regNo: string, screeningNo: string): Patient
  {
    Patient(id, regNo, "", screeningNo, "", "", "", "", "", "", "", "", "", "", "", "", "")
  }

  /**
   * Without that proviso the redirect can land on another patient: the search also
   * matches screening numbers and takes the first match in storage order.
   */
  lemma DetailsRedirectCanShowAnotherPatient(form: AssessmentForm)
    ensures var db := Db([SamplePatient(1, "R1", "R2"), SamplePatient(2, "R2", "S2")], [], []);
            var h := AddAssessment(db, 2, form);
      && Valid(db)
      && h.response == RedirectDetails("R2")
      && Details(h.db, Some("R2")).Found?
      && Details(h.db, Some("R2")).patient.id == 1
  {
    var db := Db([SamplePatient(1, "R1", "R2"), SamplePatient(2, "R2", "S2")], [], []);
    EmptyDbValid();
    forall pid ensures NumberedFromOne(AssessmentsOf(db.assessments, pid)) {
      assert AssessmentsOf([], pid) == [];
    }
    assert db.patients[1].id == 2;
    var h := AddAssessment(db, 2, form);
    assert db.patients[0].id != 2;
    assert h.db.patients[0].screeningNo == "R2";
  }

  // ---------------------------------------------------------------- a whole session

  /**
   * Register a patient in an empty store, enter a baseline, post six assessments:
   * a seventh is refused, and searching by the registration number returns the
   * patient with six assessments numbered 1 to 6.
   */
  lemma ExampleSession(patient: PatientForm, baseline: BaselineForm, forms: seq<AssessmentForm>, extra: AssessmentForm)
    requires |forms| == FinalAssessment
    ensures var h1 := Register(EmptyDb, patient);
            var h2 := AddBaseline(h1.db, 1, baseline);
            var full := SubmitAll(h2.db, 1, forms);
            var r := Details(full, Some(patient.regNo));
      && h1.response == RedirectBaseline(1)
      && h2.response == Success
      && AddAssessment(full, 1, extra) == Handled(full, RedirectIndex)
      && r.Found? && r.patient.regNo == patient.regNo
      && |r.assessments| == FinalAssessment
      && forall k :: 0 <= k < |r.assessments| ==> r.assessments[k].assessmentNumber == k + 1
  {
    var h1 := Register(EmptyDb, patient);
    EmptyDbValid();
    RegisterPreservesValid(EmptyDb, patient);
    assert h1.db.patients[0].id == 1;
    var h2 := AddBaseline(h1.db, 1, baseline);
    AddBaselinePreservesValid(h1.db, 1, baseline);
    assert AssessmentsOf(h2.db.assessments, 1) == [];
    AssessmentCeiling(h2.db, 1, forms);
    var full := SubmitAll(h2.db, 1, forms);
    assert NumberedFromOne(AssessmentsOf(full.assessments, 1));
  }
}
