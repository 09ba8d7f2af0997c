/** The server's route handlers over an in-memory document store. Each
    handler is atomic, is given the caller's decoded token claims where its
    route is behind the `auth` or `adminAuth` middleware, and returns the
    status code and payload the route sends. */
module Server {

  import opened Common
  import opened Tables
  import opened Accounts
  import JobSchema
  import QuestionSchema
  import ReviewSchema

  type JobDoc = Doc<JobSchema.Job>
  type QuestionDoc = Doc<QuestionSchema.Question>
  type ReviewDoc = Doc<ReviewSchema.Review>
  type UserDoc = Doc<Account>

  /** The body of `POST /api/jobs` as multer leaves it (`postedBy` and
      `companyImage` may be sent but are overridden). */
  datatype JobBody = JobBody(
    companyName: string,
    role: string,
    salary: string,
    description: string,
    yearOfJoining: Option<int>,
    college: string,
    companyImage: Option<string>,
    postedBy: Option<nat>)

  /** The body of `POST /api/questions`. */
  datatype QuestionBody = QuestionBody(
    jobId: Option<nat>,
    kind: string,
    question: string,
    answer: Option<string>,
    postedBy: Option<nat>)

  /** The body of `POST /api/reviews`. */
  datatype ReviewBody = ReviewBody(
    jobId: Option<nat>,
    rounds: seq<ReviewSchema.RoundDraft>,
    overallExperience: string,
    postedBy: Option<nat>)

  /** The job document the create route builds: the body's fields, with the
      caller as poster and the uploaded file's path, or null, as image. */
  function JobDraft(b: JobBody, userId: nat, upload: Option<string>): JobSchema.Draft {
    JobSchema.Draft(b.companyName, b.role, b.salary, b.description, b.yearOfJoining,
                    upload, b.college, Some(userId))
  }

  /** The question document the create route builds: the body's fields, with
      the caller as poster. */
  function QuestionDraft(b: QuestionBody, userId: nat): QuestionSchema.Draft {
    QuestionSchema.Draft(b.jobId, b.kind, b.question, b.answer, Some(userId))
  }

  /** The review document the create route builds: the body's fields, with
      the caller as poster. */
  function ReviewDraft(b: ReviewBody, userId: nat): ReviewSchema.Draft {
    ReviewSchema.Draft(b.jobId, b.rounds, b.overallExperience, Some(userId))
  }

  /** The path the delete route asks the file system to remove, if any:
      only a truthy `companyImage` is unlinked. */
  function ImageToRemove(j: JobSchema.Job): Option<string> {
    if j.companyImage.Some? && j.companyImage.value != "" then j.companyImage else None
  }

  class Store {
    /** The calendar year when the job model was loaded: `yearOfJoining`'s `max`. */
    const maxYear: int
    var users: Table<Account>
    var jobs: Table<JobSchema.Job>
    var questions: Table<QuestionSchema.Question>
    var reviews: Table<ReviewSchema.Review>
    /** The next document id (ids are unique across all collections). */
    var nextId: nat
    /** The clock that stamps `createdAt`; it only moves forward. */
    var clock: nat

    /** Every collection is keyed by id, identities are unique, and every
        stored document satisfies its schema. */
    ghost predicate Valid()
      reads this
    {
      && Keyed(users, nextId)
      && Keyed(jobs, nextId)
      && Keyed(questions, nextId)
      && Keyed(reviews, nextId)
      && StampedBefore(users, clock)
      && StampedBefore(jobs, clock)
      && StampedBefore(questions, clock)
      && StampedBefore(reviews, clock)
      && UniqueIdentities(users)
      && (forall k :: k in jobs ==> JobSchema.ValidJob(jobs[k].body, maxYear))
      && (forall k :: k in questions ==> QuestionSchema.ValidQuestion(questions[k].body))
      && (forall k :: k in reviews ==> ReviewSchema.ValidReview(reviews[k].body))
    }

    constructor (loadYear: int)
      ensures Valid() && maxYear == loadYear
      ensures users == map[] && jobs == map[] && questions == map[] && reviews == map[]
    {
      maxYear := loadYear;
      users, jobs, questions, reviews := map[], map[], map[], map[];
      nextId, clock := 0, 0;
    }

    // ---------------------------------------------------------------- jobs

    /** `GET /college/:college`: the jobs of that college, newest first. */
    function JobsByCollege(college: string): (r: Reply<seq<JobDoc>>)
      reads this
      requires Valid()
      ensures r.Success? && r.status == OK
      ensures forall d :: d in r.value <==> Stored(d, jobs) && d.body.college == college
      ensures NewestFirst(r.value) && Once(r.value)
    {
      Success(OK, Query(jobs, nextId, (j: JobSchema.Job) => j.college == college))
    }

    /** `GET /myjobs`: a jobholder's own postings, newest first; anyone else
        is refused with 403. */
    function MyJobs(caller: Claims): (r: Reply<seq<JobDoc>>)
      reads this
      requires Valid()
      ensures caller.role != "jobholder" <==> r == Failure(FORBIDDEN, "Access denied")
      ensures caller.role == "jobholder" ==> r.Success?
      ensures r.Success? ==> r.status == OK && NewestFirst(r.value) && Once(r.value)
      ensures r.Success? ==> forall d :: d in r.value <==> Stored(d, jobs) && d.body.postedBy == caller.userId
    {
      if caller.role != "jobholder" then Failure(FORBIDDEN, "Access denied")
      else Success(OK, Query(jobs, nextId, (j: JobSchema.Job) => j.postedBy == caller.userId))
    }

    /** `GET /:id`: the job with that id, or 404. */
    function GetJob(id: nat): (r: Reply<JobDoc>)
      reads this
      requires Valid()
      ensures r.Success? <==> id in jobs
      ensures r.Success? ==> r.status == OK && r.value.id == id && Stored(r.value, jobs)
      ensures r.Failure? ==> r == Failure(NOT_FOUND, "Job not found")
    {
      if id in jobs then Success(OK, jobs[id]) else Failure(NOT_FOUND, "Job not found")
    }

    /** `POST /`: stores the validated job, stamped with the caller as poster
        and the upload path (or null) as image; a validation failure is a 400
        and stores nothing. */
    method CreateJob(caller: Claims, body: JobBody, upload: Option<string>) returns (r: Reply<JobDoc>)
      requires Valid()
      modifies this
      ensures Valid()
      ensures users == old(users) && questions == old(questions) && reviews == old(reviews)
      ensures r.Success? <==> JobSchema.Validate(JobDraft(body, caller.userId, upload), maxYear).Ok?
      ensures r.Success? ==>
        && r.status == CREATED
        && r.value.id == old(nextId) && r.value.id !in old(jobs)
        && r.value.createdAt == old(clock)
        && r.value.body.postedBy == caller.userId
        && r.value.body.companyImage == upload
        && r.value.body.college == body.college
        && JobSchema.AsDraft(r.value.body) == JobDraft(body, caller.userId, upload)
        && jobs == old(jobs)[r.value.id := r.value]
      ensures r.Success? ==> JobsByCollege(body.college).value[0] == r.value
      ensures r.Failure? ==>
        r == Failure(BAD_REQUEST, "Job validation failed") && jobs == old(jobs)
    {
      match JobSchema.Validate(JobDraft(body, caller.userId, upload), maxYear)
      case Err(message) =>
        r := Failure(BAD_REQUEST, message);
      case Ok(job) =>
        var doc := Doc(nextId, clock, job);
        jobs := jobs[nextId := doc];
        nextId, clock := nextId + 1, clock + 1;
        r := Success(CREATED, doc);
        NewestComesFirst(JobsByCollege(body.college).value, doc);
    }

    /** `PUT /:id`: only the poster may edit, and only the description. The
        edited document is validated again on save, so an empty description
        is rejected by the catch-all 500. */
    method UpdateJob(caller: Claims, id: nat, description: string) returns (r: Reply<JobDoc>)
      requires Valid()
      modifies this`jobs
      ensures Valid()
      ensures id !in old(jobs) ==> r == Failure(NOT_FOUND, "Job not found")
      ensures id in old(jobs) && old(jobs)[id].body.postedBy != caller.userId ==>
        r == Failure(FORBIDDEN, "Not authorized to edit this job")
      ensures id in old(jobs) && old(jobs)[id].body.postedBy == caller.userId && description == "" ==>
        r == Failure(SERVER_ERROR, "Server error")
      ensures r.Failure? ==> jobs == old(jobs)
      ensures r.Success? <==> id in old(jobs) && old(jobs)[id].body.postedBy == caller.userId && description != ""
      ensures r.Success? ==>
        && id in old(jobs)
        && r.status == OK
        && r.value == old(jobs)[id].(body := old(jobs)[id].body.(description := description))
        && jobs == old(jobs)[id := r.value]
    {
      if id !in jobs {
        return Failure(NOT_FOUND, "Job not found");
      }
      var job := jobs[id];
      if job.body.postedBy != caller.userId {
        return Failure(FORBIDDEN, "Not authorized to edit this job");
      }
      if description == "" {
        return Failure(SERVER_ERROR, "Server error");
      }
      var edited := job.(body := job.body.(description := description));
      jobs := jobs[id := edited];
      r := Success(OK, edited);
    }

    /** `DELETE /:id`: one lookup by id and poster, so a missing job and
        someone else's job both give 404. The poster's delete removes exactly
        that job, leaves its questions and reviews in place, and names the
        image file to unlink; whether unlinking works does not change the reply. */
    method DeleteJob(caller: Claims, id: nat) returns (r: Reply<string>, unlink: Option<string>)
      requires Valid()
      modifies this`jobs
      ensures Valid()
      ensures questions == old(questions) && reviews == old(reviews)
      ensures (id in old(jobs) && old(jobs)[id].body.postedBy == caller.userId) <==> r.Success?
      ensures r.Failure? ==>
        && r == Failure(NOT_FOUND, "Job not found or you are not authorized to delete this job")
        && jobs == old(jobs) && unlink.None?
      ensures r.Success? ==>
        && r == Success(OK, "Job and associated data deleted successfully")
        && jobs == old(jobs) - {id}
        && unlink == ImageToRemove(old(jobs)[id].body)
        && GetJob(id) == Failure(NOT_FOUND, "Job not found")
    {
      if !(id in jobs && jobs[id].body.postedBy == caller.userId) {
        return Failure(NOT_FOUND, "Job not found or you are not authorized to delete this job"), None;
      }
      var job := jobs[id];
      jobs := jobs - {id};
      unlink := ImageToRemove(job.body);
      r := Success(OK, "Job and associated data deleted successfully");
    }

    // ----------------------------------------------------------- questions

    /** `GET /job/:jobId`: the questions of that job, newest first. */
    function QuestionsForJob(jobId: nat): (r: Reply<seq<QuestionDoc>>)
      reads this
      requires Valid()
      ensures r.Success? && r.status == OK
      ensures forall d :: d in r.value <==> Stored(d, questions) && d.body.jobId == jobId
      ensures NewestFirst(r.value) && Once(r.value)
    {
      Success(OK, Query(questions, nextId, (q: QuestionSchema.Question) => q.jobId == jobId))
    }

    /** `POST /`: stores the validated question, stamped with the caller as
        poster; a validation failure is a 400 and stores nothing. */
    method CreateQuestion(caller: Claims, body: QuestionBody) returns (r: Reply<QuestionDoc>)
      requires Valid()
      modifies this
      ensures Valid()
      ensures users == old(users) && jobs == old(jobs) && reviews == old(reviews)
      ensures r.Success? <==> QuestionSchema.Validate(QuestionDraft(body, caller.userId)).Ok?
      ensures r.Success? ==>
        && r.status == CREATED
        && r.value.id == old(nextId) && r.value.id !in old(questions)
        && r.value.createdAt == old(clock)
        && r.value.body.postedBy == caller.userId
        && QuestionSchema.AsDraft(r.value.body) == QuestionDraft(body, caller.userId)
        && questions == old(questions)[r.value.id := r.value]
      ensures r.Success? ==> QuestionsForJob(r.value.body.jobId).value[0] == r.value
      ensures r.Failure? ==>
        r == Failure(BAD_REQUEST, "Question validation failed") && questions == old(questions)
    {
      match QuestionSchema.Validate(QuestionDraft(body, caller.userId))
      case Err(message) =>
        r := Failure(BAD_REQUEST, message);
      case Ok(question) =>
        var doc := Doc(nextId, clock, question);
        questions := questions[nextId := doc];
        nextId, clock := nextId + 1, clock + 1;
        r := Success(CREATED, doc);
        NewestComesFirst(QuestionsForJob(doc.body.jobId).value, doc);
    }

    /** `DELETE /:id`: 404 for a missing question, 403 for someone else's;
        the poster's delete removes exactly that question. */
    method DeleteQuestion(caller: Claims, id: nat) returns (r: Reply<string>)
      requires Valid()
      modifies this`questions
      ensures Valid()
      ensures id !in old(questions) ==> r == Failure(NOT_FOUND, "Question not found")
      ensures id in old(questions) && old(questions)[id].body.postedBy != caller.userId ==>
        r == Failure(FORBIDDEN, "Not authorized to delete this question")
      ensures r.Failure? ==> questions == old(questions)
      ensures r.Success? <==> id in old(questions) && old(questions)[id].body.postedBy == caller.userId
      ensures r.Success? ==>
        && id in old(questions) && old(questions)[id].body.postedBy == caller.userId
        && r == Success(OK, "Question deleted successfully")
        && questions == old(questions) - {id}
    {
      if id !in questions {
        return Failure(NOT_FOUND, "Question not found");
      }
      if questions[id].body.postedBy != caller.userId {
        return Failure(FORBIDDEN, "Not authorized to delete this question");
      }
      questions := questions - {id};
      r := Success(OK, "Question deleted successfully");
    }

    // ------------------------------------------------------------- reviews

    /** `GET /job/:jobId`: the reviews of that job, newest first. */
    function ReviewsForJob(jobId: nat): (r: Reply<seq<ReviewDoc>>)
      reads this
      requires Valid()
      ensures r.Success? && r.status == OK
      ensures forall d :: d in r.value <==> Stored(d, reviews) && d.body.jobId == jobId
      ensures NewestFirst(r.value) && Once(r.value)
    {
      Success(OK, Query(reviews, nextId, (v: ReviewSchema.Review) => v.jobId == jobId))
    }

    /** `POST /`: stores the validated review, stamped with the caller as
        poster; a validation failure is a 400 and stores nothing. */
    method CreateReview(caller: Claims, body: ReviewBody) returns (r: Reply<ReviewDoc>)
      requires Valid()
      modifies this
      ensures Valid()
      ensures users == old(users) && jobs == old(jobs) && questions == old(questions)
      ensures r.Success? <==> ReviewSchema.Validate(ReviewDraft(body, caller.userId)).Ok?
      ensures r.Success? ==>
        && r.status == CREATED
        && r.value.id == old(nextId) && r.value.id !in old(reviews)
        && r.value.createdAt == old(clock)
        && r.value.body.postedBy == caller.userId
        && ReviewSchema.AsDraft(r.value.body) == ReviewDraft(body, caller.userId)
        && reviews == old(reviews)[r.value.id := r.value]
      ensures r.Success? ==> ReviewsForJob(r.value.body.jobId).value[0] == r.value
      ensures r.Failure? ==>
        r == Failure(BAD_REQUEST, "Review validation failed") && reviews == old(reviews)
    {
      match ReviewSchema.Validate(ReviewDraft(body, caller.userId))
      case Err(message) =>
        r := Failure(BAD_REQUEST, message);
      case Ok(review) =>
        var doc := Doc(nextId, clock, review);
        reviews := reviews[nextId := doc];
        nextId, clock := nextId + 1, clock + 1;
        r := Success(CREATED, doc);
        NewestComesFirst(ReviewsForJob(doc.body.jobId).value, doc);
    }

    /** `DELETE /:id`: 404 for a missing review, 403 for someone else's;
        the poster's delete removes exactly that review. */
    method DeleteReview(caller: Claims, id: nat) returns (r: Reply<string>)
      requires Valid()
      modifies this`reviews
      ensures Valid()
      ensures id !in old(reviews) ==> r == Failure(NOT_FOUND, "Review not found")
      ensures id in old(reviews) && old(reviews)[id].body.postedBy != caller.userId ==>
        r == Failure(FORBIDDEN, "Not authorized to delete this review")
      ensures r.Failure? ==> reviews == old(reviews)
      ensures r.Success? <==> id in old(reviews) && old(reviews)[id].body.postedBy == caller.userId
      ensures r.Success? ==>
        && id in old(reviews) && old(reviews)[id].body.postedBy == caller.userId
        && r == Success(OK, "Review deleted successfully")
        && reviews == old(reviews) - {id}
    {
      if id !in reviews {
        return Failure(NOT_FOUND, "Review not found");
      }
      if reviews[id].body.postedBy != caller.userId {
        return Failure(FORBIDDEN, "Not authorized to delete this review");
      }
      reviews := reviews - {id};
      r := Success(OK, "Review deleted successfully");
    }

    // ---------------------------------------------------------------- auth

    /** The duplicate check `findOne({ $or: [{ email }, { username }] })`: the
        first user in natural order with that email or that username. */
    function ExistingUser(email: string, username: string): (r: Option<nat>)
      reads this
      requires Valid()
      ensures r.Some? ==> r.value in users && Clashes(users[r.value].body, email, username)
      ensures r.Some? ==> forall k :: k in users && k < r.value ==> !Clashes(users[k].body, email, username)
      ensures r.None? <==> forall k :: k in users ==> !Clashes(users[k].body, email, username)
    {
      First(users, nextId, (a: Account) => Clashes(a, email, username))
    }

    /** `POST /register`: the field check, then the duplicate check, then the
        role check, then one new unverified user and a token naming it. */
    method Register(req: Registration) returns (r: Reply<Session>)
      requires Valid()
      modifies this
      ensures Valid() && UniqueIdentities(users)
      ensures jobs == old(jobs) && questions == old(questions) && reviews == old(reviews)
      ensures !Complete(req) ==> r == Failure(BAD_REQUEST, "All fields are required")
      ensures Complete(req) && old(ExistingUser(req.email, req.username)).Some? ==>
        r == Failure(BAD_REQUEST,
                     DuplicateMessage(old(users)[old(ExistingUser(req.email, req.username)).value].body, req.email))
      ensures Complete(req) && old(ExistingUser(req.email, req.username)).None? && !RegistrableRole(req.role) ==>
        r == Failure(BAD_REQUEST, "Invalid role")
      ensures Complete(req) && old(ExistingUser(req.email, req.username)).None? && RegistrableRole(req.role) ==>
        r.Success?
      ensures r.Failure? ==> users == old(users)
      ensures r.Success? ==>
        && Complete(req) && RegistrableRole(req.role)
        && (forall k :: k in old(users) ==> !Clashes(old(users)[k].body, req.email, req.username))
        && var id := old(nextId);
        && id !in old(users)
        && users == old(users)[id := Doc(id, old(clock),
                                         Account(req.username, req.email, req.password, req.college, req.role, false))]
        && r == Success(CREATED, Session(Claims(id, req.role, req.college, Some(req.username)),
                                         Profile(id, req.username, req.email, req.role, req.college)))
      ensures r.Success? ==> Login(req.email, req.password).Success?
    {
      if !Complete(req) {
        return Failure(BAD_REQUEST, "All fields are required");
      }
      var existing := ExistingUser(req.email, req.username);
      if existing.Some? {
        return Failure(BAD_REQUEST, DuplicateMessage(users[existing.value].body, req.email));
      }
      if !RegistrableRole(req.role) {
        return Failure(BAD_REQUEST, "Invalid role");
      }
      var id := nextId;
      var account := Account(req.username, req.email, req.password, req.college, req.role, false);
      users := users[id := Doc(id, clock, account)];
      nextId, clock := nextId + 1, clock + 1;
      r := Success(CREATED, Session(Claims(id, req.role, req.college, Some(req.username)),
                                    ProfileOf(users[id])));
    }

    /** `POST /login`: an unknown email and a wrong password fail alike; on
        success the token names the user, role and college, without username. */
    function Login(email: string, password: string): (r: Reply<Session>)
      reads this
      requires Valid()
      ensures r.Failure? ==> r == Failure(BAD_REQUEST, "Invalid credentials")
      ensures r.Success? <==>
        exists k :: k in users && users[k].body.email == email && users[k].body.password == password
      ensures r.Success? ==>
        && r.status == OK
        && r.value.user.id in users
        && var a := users[r.value.user.id].body;
        && a.email == email && a.password == password
        && r.value.token == Claims(r.value.user.id, a.role, a.college, None)
        && r.value.user == Profile(r.value.user.id, a.username, a.email, a.role, a.college)
    {
      match First(users, nextId, (a: Account) => a.email == email)
      case None => Failure(BAD_REQUEST, "Invalid credentials")
      case Some(k) =>
        var a := users[k].body;
        if a.password != password then Failure(BAD_REQUEST, "Invalid credentials")
        else Success(OK, Session(Claims(k, a.role, a.college, None), ProfileOf(users[k])))
    }

    // --------------------------------------------------------------- admin

    /** `GET /pending-requests`: every jobholder not yet verified. */
    function PendingRequests(): (r: Reply<seq<UserDoc>>)
      reads this
      requires Valid()
      ensures r.Success? && r.status == OK && Once(r.value)
      ensures forall d :: d in r.value <==> Stored(d, users) && d.body.role == "jobholder" && !d.body.isVerified
    {
      Success(OK, Where(users, nextId, (a: Account) => a.role == "jobholder" && !a.isVerified))
    }

    /** `GET /verified-jobholders`: every verified jobholder. */
    function VerifiedJobholders(): (r: Reply<seq<UserDoc>>)
      reads this
      requires Valid()
      ensures r.Success? && r.status == OK && Once(r.value)
      ensures forall d :: d in r.value <==> Stored(d, users) && d.body.role == "jobholder" && d.body.isVerified
    {
      Success(OK, Where(users, nextId, (a: Account) => a.role == "jobholder" && a.isVerified))
    }

    /** `POST /verify-jobholder/:userId`: sets `isVerified` of that user and
        nothing else; 404 for an unknown id. */
    method VerifyJobholder(userId: nat) returns (r: Reply<string>)
      requires Valid()
      modifies this`users
      ensures Valid()
      ensures userId !in old(users) <==> r == Failure(NOT_FOUND, "User not found")
      ensures userId in old(users) <==> r.Success?
      ensures r.Failure? ==> users == old(users)
      ensures r.Success? ==> r == Success(OK, "Jobholder verified") && users == MarkVerified(old(users), userId)
    {
      if userId !in users {
        return Failure(NOT_FOUND, "User not found");
      }
      users := MarkVerified(users, userId);
      r := Success(OK, "Jobholder verified");
    }

    /** The two admin lists split the jobholders: each jobholder is on exactly
        one of them, and no other user is on either. */
    lemma JobholderListsPartition(d: UserDoc)
      requires Valid() && Stored(d, users)
      ensures d.body.role == "jobholder" ==> (d in PendingRequests().value <==> d !in VerifiedJobholders().value)
      ensures d.body.role != "jobholder" ==> d !in PendingRequests().value && d !in VerifiedJobholders().value
    {
    }
  }
}
