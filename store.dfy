/**
 * The shared store the request handlers mutate: three tables that grow by one row
 * per accepted post. Each handler is a method whose new state and response are
 * those of the corresponding transition in `Workflow`, so everything proved about
 * the transitions holds of the store.
 */
module Store {
  import opened Wrappers
  import opened Records
  import opened Query
  import opened Workflow
  import Properties

  class ClinicDb {
    var patients: seq<Patient>
    var baselines: seq<BaselineTreatment>
    var assessments: seq<OutcomeAssessment>

    /** The store's tables as a value. */
    function State(): Db
      reads this
    {
      Db(patients, baselines, assessments)
    }

    ghost predicate Valid()
      reads this
    {
      Workflow.Valid(State())
    }

    /** The database on first run, when the tables are created: all three empty. */
    constructor ()
      ensures Valid()
      ensures State() == EmptyDb
    {
      patients, baselines, assessments := [], [], [];
      Properties.EmptyDbValid();
    }

    /** POST /add_patient (app.py:59-85). */
    method AddPatient(form: PatientForm) returns (r: Response)
      requires Valid()
      modifies this
      ensures Valid()
      ensures Handled(State(), r) == Register(old(State()), form)
    {
      var existing := FirstWhere(patients, RegNoIs(form.regNo));
      if existing.Some? {
        return DuplicateError;
      }
      var id := |patients| + 1;
      patients := patients + [NewPatient(id, form)];
      r := RedirectBaseline(id);
      Properties.RegisterPreservesValid(old(State()), form);
    }

    /** POST /add_baseline_treatment/<patient_id> (app.py:90-105). */
    method AddBaselineTreatment(pid: int, form: BaselineForm) returns (r: Response)
      requires Valid()
      modifies this
      ensures Valid()
      ensures Handled(State(), r) == AddBaseline(old(State()), pid, form)
    {
      var found := FirstWhere(patients, IdIs(pid));
      if found.None? {
        return RedirectIndex;
      }
      var patient := patients[found.value];
      baselines := baselines + [NewBaseline(|baselines| + 1, patient.id, form)];
      r := Success;
      Properties.AddBaselinePreservesValid(old(State()), pid, form);
    }

    /** POST /add_outcome_assessment/<patient_id> (app.py:118-139). */
    method AddOutcomeAssessment(pid: int, form: AssessmentForm) returns (r: Response)
      requires Valid()
      modifies this
      ensures Valid()
      ensures Handled(State(), r) == AddAssessment(old(State()), pid, form)
    {
      var found := FirstWhere(patients, IdIs(pid));
      if found.None? {
        return RedirectIndex;
      }
      var patient := patients[found.value];
      var count := |AssessmentsOf(assessments, patient.id)|;
      if count >= FinalAssessment {
        return RedirectIndex;
      }
      var number := count + 1;
      assessments := assessments + [NewAssessment(|assessments| + 1, patient.id, number, form)];
      r := RedirectDetails(patient.regNo);
      Properties.AddAssessmentPreservesValid(old(State()), pid, form);
    }

    /** GET /patient_details (app.py:110-115): reads the tables and changes nothing. */
    method PatientDetails(query: Option<string>) returns (r: Response)
      ensures r == Details(State(), query)
      ensures r.NotFound? <==>
                forall k :: 0 <= k < |patients| ==>
                  query != Some(patients[k].regNo) && query != Some(patients[k].screeningNo)
      ensures r.Found? ==> r.patient in patients && r.assessments == AssessmentsOf(assessments, r.patient.id)
    {
      var found := FirstWhere(patients, MatchesQuery(query));
      if found.None? {
        return NotFound;
      }
      var patient := patients[found.value];
      r := Found(patient, AssessmentsOf(assessments, patient.id));
    }
  }
}
