/**
 * The three record kinds of the clinical store and the forms that create them
 * (app.py:10-50). Every text column is a `string`; the two free-text fields that a
 * form may omit are `Option<string>`. Column widths and nullability flags are
 * checks of the storage engine and are not modelled.
 */
module Records {
  import opened Wrappers

  /** The assessment number whose record keeps the two terminal-only fields, and the ceiling on assessments. */
  const FinalAssessment: int := 6

  /** A patient row: `id` is the primary key, `regNo` the registration number that must be unique. */
  datatype Patient = Patient(
    id: int,
    regNo: string,
    name: string,
    screeningNo: string,
    screeningDate: string,
    age: string,
    sex: string,
    residence: string,
    contactNo: string,
    durationMc: string,
    coMorbidities: string,
    riskFactors: string,
    treatmentTaken: string,
    weightKg: string,
    heightCm: string,
    educationStatus: string,
    socioEconomicStatus: string)

  /** A baseline treatment row, linked to its patient by `patientId`. */
  datatype BaselineTreatment = BaselineTreatment(
    id: int,
    patientId: int,
    date: string,
    presentComplaint: string,
    prescription: string,
    miasmData: Option<string>,
    susceptibilityData: Option<string>)

  /** An outcome assessment row; `assessmentNumber` counts the patient's assessments from 1. */
  datatype OutcomeAssessment = OutcomeAssessment(
    id: int,
    patientId: int,
    assessmentNumber: int,
    date: string,
    briefNotes: string,
    prescription: string,
    oridlMainComplaint: string,
    oridlWellbeing: string,
    miasmData: Option<string>,
    susceptibilityData: Option<string>)

  /** The registration form: every field is read as a required key. */
  datatype PatientForm = PatientForm(
    regNo: string,
    name: string,
    screeningNo: string,
    screeningDate: string,
    age: string,
    sex: string,
    residence: string,
    contactNo: string,
    durationMc: string,
    coMorbidities: string,
    riskFactors: string,
    treatmentTaken: string,
    weightKg: string,
    heightCm: string,
    educationStatus: string,
    socioEconomicStatus: string)

  /** The baseline form: the last two fields are `None` when the form does not carry them. */
  datatype BaselineForm = BaselineForm(
    date: string,
    presentComplaint: string,
    prescription: string,
    miasmData: Option<string>,
    susceptibilityData: Option<string>)

  /** The outcome assessment form: the last two fields are `None` when the form does not carry them. */
  datatype AssessmentForm = AssessmentForm(
    date: string,
    briefNotes: string,
    prescription: string,
    oridlMainComplaint: string,
    oridlWellbeing: string,
    miasmData: Option<string>,
    susceptibilityData: Option<string>)

  /** The patient row built from a registration form under primary key `id`. */
  function NewPatient(id: int, f: PatientForm): Patient
  {
    Patient(id, f.regNo, f.name, f.screeningNo, f.screeningDate, f.age, f.sex, f.residence,
            f.contactNo, f.durationMc, f.coMorbidities, f.riskFactors, f.treatmentTaken,
            f.weightKg, f.heightCm, f.educationStatus, f.socioEconomicStatus)
  }

  /** The baseline row built from a baseline form for patient `patientId`. */
  function NewBaseline(id: int, patientId: int, f: BaselineForm): BaselineTreatment
  {
    BaselineTreatment(id, patientId, f.date, f.presentComplaint, f.prescription,
                      f.miasmData, f.susceptibilityData)
  }

  /**
   * The assessment row built from an assessment form; the terminal-only fields are
   * taken from the form on the final assessment and dropped on every other one.
   */
  function NewAssessment(id: int, patientId: int, number: int, f: AssessmentForm): OutcomeAssessment
  {
    OutcomeAssessment(id, patientId, number, f.date, f.briefNotes, f.prescription,
                      f.oridlMainComplaint, f.oridlWellbeing,
                      if number == FinalAssessment then f.miasmData else None,
                      if number == FinalAssessment then f.susceptibilityData else None)
  }
}
