/** The `jobSchema` of the job model: which fields a job posting must have,
    the bounds on its year of joining, and the default of its company image. */
module JobSchema {

  import opened Common

  /** The schema's `min` for `yearOfJoining`. */
  const MinYear: int := 2000

  /** A stored job posting (its id and `createdAt` live in the document).
      `salary` is free text; `companyImage` is an upload path or null. */
  datatype Job = Job(
    companyName: string,
    role: string,
    salary: string,
    description: string,
    yearOfJoining: int,
    companyImage: Option<string>,
    college: string,
    postedBy: nat)

  /** A job document as the route builds it, before `save()` validates it.
      A string field that was not sent is "" here: the required validator
      rejects a missing string and an empty one alike. */
  datatype Draft = Draft(
    companyName: string,
    role: string,
    salary: string,
    description: string,
    yearOfJoining: Option<int>,
    companyImage: Option<string>,
    college: string,
    postedBy: Option<nat>)

  /** What `required: true` demands of a string path. */
  predicate Given(s: string) {
    s != ""
  }

  /** The schema's constraints on a job. `maxYear` is the calendar year at the
      moment the model was loaded (the schema evaluates its `max` once). */
  predicate ValidJob(j: Job, maxYear: int) {
    && Given(j.companyName)
    && Given(j.role)
    && Given(j.salary)
    && Given(j.description)
    && MinYear <= j.yearOfJoining <= maxYear
    && Given(j.college)
  }

  /** The unvalidated document that a job was built from. */
  function AsDraft(j: Job): Draft {
    Draft(j.companyName, j.role, j.salary, j.description, Some(j.yearOfJoining),
          j.companyImage, j.college, Some(j.postedBy))
  }

  /** Validation of a new document on `save()`: the schema's paths in order.
      Succeeds with the job the draft describes, and only with a valid one. */
  function Validate(d: Draft, maxYear: int): (r: Result<Job>)
    ensures r.Ok? ==> ValidJob(r.value, maxYear) && AsDraft(r.value) == d
    ensures r.Err? ==> r.message == "Job validation failed"
  {
    if !Given(d.companyName) || !Given(d.role) || !Given(d.salary) || !Given(d.description) then
      Err("Job validation failed")
    else if d.yearOfJoining.None? || d.yearOfJoining.value < MinYear || d.yearOfJoining.value > maxYear then
      Err("Job validation failed")
    else if !Given(d.college) || d.postedBy.None? then
      Err("Job validation failed")
    else
      Ok(Job(d.companyName, d.role, d.salary, d.description, d.yearOfJoining.value,
             d.companyImage, d.college, d.postedBy.value))
  }

  /** Every valid job passes validation as itself: together with the
      contract of `Validate`, a draft is accepted exactly when it describes a
      valid job. */
  lemma ValidateAccepts(j: Job, maxYear: int)
    requires ValidJob(j, maxYear)
    ensures Validate(AsDraft(j), maxYear) == Ok(j)
  {
  }

  /** Each required path, and a year outside [2000, maxYear], makes
      validation fail. */
  lemma RequiredPaths(d: Draft, maxYear: int)
    ensures d.companyName == "" ==> Validate(d, maxYear).Err?
    ensures d.role == "" ==> Validate(d, maxYear).Err?
    ensures d.salary == "" ==> Validate(d, maxYear).Err?
    ensures d.description == "" ==> Validate(d, maxYear).Err?
    ensures d.college == "" ==> Validate(d, maxYear).Err?
    ensures d.postedBy.None? ==> Validate(d, maxYear).Err?
    ensures d.yearOfJoining.None? ==> Validate(d, maxYear).Err?
    ensures d.yearOfJoining.Some? && d.yearOfJoining.value < MinYear ==> Validate(d, maxYear).Err?
    ensures d.yearOfJoining.Some? && d.yearOfJoining.value > maxYear ==> Validate(d, maxYear).Err?
  {
  }

  /** `salary` is a free string: any non-empty text, numeric or not, is
      accepted in a valid job. */
  lemma SalaryIsFreeText(j: Job, maxYear: int, salary: string)
    requires ValidJob(j, maxYear) && salary != ""
    ensures Validate(AsDraft(j.(salary := salary)), maxYear).Ok?
  {
    ValidateAccepts(j.(salary := salary), maxYear);
  }
}
