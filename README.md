# Patient record workflow, modelled in Dafny

This project models the record workflow of a small clinical data-entry web
application (`app.py`). The application keeps three tables:

- patients, each with a unique registration number;
- baseline treatments, meant to be one per patient;
- outcome assessments, numbered 1 to 6 per patient.

Four request handlers change or read these tables: register a patient, add a
baseline treatment, add the next outcome assessment, and search for a patient.

The relational store becomes an abstract store. It is three sequences of rows
in insertion order.

- `Records`: the row and form records. Fields a form may omit are `Option<string>`.
- `Query`: the two queries the handlers use. `FirstWhere` is "first row in
  storage order that passes a filter" (`.first()` and the primary-key `get`).
  `AssessmentsOf` is the `outcome_assessments` relationship.
- `Workflow`: each handler as a pure transition from a store value and a form to
  the next store value and a `Response`. `Response` stands for the rendered page
  or redirect. `Workflow` also holds the store invariant `Valid`:
  - primary keys are 1..n in each table;
  - registration numbers are unique;
  - every baseline and assessment row points at an existing patient;
  - each patient's assessments are numbered 1..n in storage order, with n ≤ 6;
  - the two terminal-only fields are empty on every assessment except number 6.
- `Properties`: lemmas about the transitions. Every handler keeps `Valid`. The
  assessment count rises by one per post and stops at 6. The GET form and the
  POST agree on the number and on `show_pdf_forms`. Search finds a patient by
  either number. The lemmas also cover where the post-assessment redirect lands,
  and a whole session.
- `Store`: the shared mutable store, the class `ClinicDb` with three `seq`
  fields. Its handler methods append rows after the same guards as the source.
  Each method is proved to produce exactly the store and response of the
  matching `Workflow` transition, and to keep `Valid`.

Primary keys are assigned as "table length + 1". Rows are never deleted, so this
key is always unused, and `Valid` proves it.

Behaviour the model follows as written:

- Registration refuses only a registration number some patient already holds
  (app.py:60-63). Any other number is accepted, the empty string included.
- Nothing stops a second baseline row for the same patient (app.py:94-105),
  although the relationship is declared one-to-one (`uselist=False`,
  app.py:28). `BaselinePostedTwice` states this.
- `search_query` may be absent. It is then `None`, and the SQL comparison with
  `None` matches only NULL columns. No row this application writes has a NULL
  registration or screening number, so an absent query finds nothing.
- After an assessment, the redirect searches by the patient's registration
  number (app.py:139). It evidently means to show the patient just assessed.
  But the search also matches screening numbers and takes the first match in
  storage order. So if an earlier patient's screening number equals this
  patient's registration number, the details page shows that other patient.
  `DetailsRedirectCanShowAnotherPatient` gives a concrete store where this
  happens. `DetailsRedirectShowsAssessedPatient` proves the redirect is right
  when no such collision exists.

## Model

| member | source | states |
|---|---|---|
| Query.FirstWhere | app.py:61 | the index returned is of a row passing the filter with no passing row before it; `None` exactly when no row passes |
| Query.AssessmentsOf | app.py:29 | a row is among a patient's assessments exactly when it is in the table and carries that patient's id |
| Query.AssessmentsOfMultiplicity | app.py:120-123 | each of the patient's rows occurs in the list exactly as often as in the table, and no other row occurs; so the length the limit and the next number use is the number of rows carrying that patient's id |
| Query.AssessmentsOfAppend | app.py:137-138 | appending an assessment extends exactly its own patient's list, by that row at the end |
| Workflow.Register | app.py:59-85 | duplicate error exactly when the registration number is already held, and then the store is unchanged; otherwise exactly one patient carrying the form's fields is appended under id n+1, and the response redirects to the baseline step for that id |
| Workflow.AddBaseline | app.py:89-105 | redirect to the index, store unchanged, exactly when no patient has the id; otherwise one baseline row for that patient is appended and the response is the success page |
| Workflow.AddAssessment | app.py:118-139 | redirect to the index, store unchanged, exactly when the patient is unknown or already has 6 assessments; otherwise only the assessment table grows, by one row for that patient numbered count+1 that keeps the terminal-only fields as submitted when the number is 6 and empties them otherwise, and the response redirects to the details page under that patient's registration number |
| Workflow.AssessmentFormView | app.py:119-141 | the form is refused under the same condition as the post; when shown, it is for the patient with that id, the number is count+1, and `show_pdf_forms` is true exactly when the number is 6 |
| Workflow.Details | app.py:110-115 | not found exactly when no patient's registration or screening number equals the query; otherwise the first such patient in storage order, with all of that patient's assessments |
| Properties.HasPatientIffInRange | app.py:90 | with dense primary keys, the id lookup finds a patient exactly for ids 1..n |
| Properties.EmptyDbValid | app.py:145 | the freshly created empty store satisfies the invariant |
| Properties.RegisterPreservesValid | app.py:60-85 | registration keeps the invariant, so registration numbers stay unique and references keep resolving |
| Properties.AddBaselinePreservesValid | app.py:90-104 | adding a baseline keeps the invariant: the new row points at an existing patient |
| Properties.AppendAssessmentKeepsValid | app.py:123-138 | appending a patient's next assessment (numbered count+1 ≤ 6, terminal-only fields empty unless it is number 6) keeps the invariant |
| Properties.AddAssessmentPreservesValid | app.py:119-138 | adding an assessment keeps each patient's numbering 1..n with n ≤ 6, and keeps the terminal-only fields empty except on number 6 |
| Properties.RegisterAssignsFreshId | app.py:83-85 | a successful registration uses an id no patient had, and the baseline step it redirects to accepts that id |
| Properties.DuplicateRegistrationKeepsOne | app.py:60-63 | a second registration with the same number returns the duplicate error and leaves the store as the first left it; one patient holds the number |
| Properties.BaselinePostedTwice | app.py:94-105 | two baseline posts for one patient append two rows for that patient; no one-per-patient check applies |
| Properties.NumbersAreOneToN | app.py:123-128 | numbers 1..n assigned in order form exactly the set {1..n}, with no repeats |
| Properties.PatientAssessmentNumbers | app.py:120-128 | in a valid store, each patient's assessment numbers are exactly {1..n}, without repeats, with n ≤ 6 |
| Properties.AddAssessmentCount | app.py:120-138 | for an existing patient, one post raises the count by one if it was below 6 and leaves it at 6 otherwise |
| Properties.AssessmentCeiling | app.py:120-123 | after any number of posts for an existing patient, the count is min(6, old count + posts), and the invariant holds |
| Properties.SeventhAssessmentRejected | app.py:120-121 | once the count reaches 6, a further post redirects to the index and stores nothing |
| Properties.FormViewAgreesWithPost | app.py:134-141 | the form is shown exactly when the post would be accepted; the post stores the announced number and keeps the terminal-only fields exactly when `show_pdf_forms` is true |
| Properties.SearchByEitherNumber | app.py:112 | when no other patient holds a patient's registration or screening number, a search by either one returns that patient and their assessments |
| Properties.DetailsRedirectShowsAssessedPatient | app.py:139 | when no other patient's screening number equals the assessed patient's registration number, the redirect's search shows the assessed patient with the new row last |
| Properties.DetailsRedirectCanShowAnotherPatient | app.py:112 | in a valid two-patient store, the redirect after assessing patient 2 searches "R2" and finds patient 1, whose screening number is "R2" |
| Properties.ExampleSession | app.py:57-141 | from an empty store: register, add a baseline, post six assessments; a seventh is refused, and a search by registration number returns the patient with assessments numbered 1..6 |
| Store.ClinicDb.constructor | app.py:145 | on first run, when `create_all` makes the tables, the store holds three empty tables and satisfies the invariant |
| Store.ClinicDb.AddPatient | app.py:57-85 | the new tables and the response are those of `Register` on the old tables; the invariant is kept |
| Store.ClinicDb.AddBaselineTreatment | app.py:88-105 | the new tables and the response are those of `AddBaseline` on the old tables; the invariant is kept |
| Store.ClinicDb.AddOutcomeAssessment | app.py:117-139 | the new tables and the response are those of `AddAssessment` on the old tables; the invariant is kept |
| Store.ClinicDb.PatientDetails | app.py:109-115 | reads without changing the store; not found exactly when no patient matches; otherwise a stored patient with all of that patient's assessments |

## Left out

- Web routing, template rendering and redirect URL construction (app.py:1-7, app.py:53-55, app.py:143-146). A response is a `Response` value.
- Database persistence: session add/commit and table creation. These become appends to sequences. A restart on an existing database keeps its rows; the constructor models only the first run, and every lemma about the workflow holds for any store that satisfies the invariant.
- Auto-increment keys. They are modelled as table length + 1, which is unused because rows are never deleted.
- Column widths and nullability flags that the storage engine enforces (app.py:11-50).
- The error raised when a required form key is missing. Forms are assumed complete; only the two optional fields can be absent.
- Races between concurrent requests past the duplicate check or the assessment-count check. Also the integrity error the unique constraint would raise in such a race. Requests are modelled one at a time.
- The GET branches of registration and baseline entry (app.py:86, app.py:107). They only render a form. The GET branch of assessment entry is modelled because it computes `show_pdf_forms`.
- The order of the `outcome_assessments` relationship. No ordering is declared; it is modelled as storage order.
