# CampusHire server core, modelled in Dafny

CampusHire is a college job board. Jobholders (alumni) post job openings, and
for each job they add interview questions and interview-round reviews. Students
browse the jobs of their college. This project models the server side of that
system as an in-memory document store. The store has four collections (users,
jobs, questions, reviews) keyed by document id, an id counter shared by all
collections, and a clock that stamps `createdAt`. Every Express route handler
under `server/routes` becomes a handler of the class `Server.Store`. A handler
gets the caller's decoded token claims and the request body. It returns the
status code and payload the route sends, and changes the store as the route's
Mongoose calls would. Each Mongoose schema under `server/models` becomes a
validity predicate plus a `Validate` function. `Validate` turns an unvalidated
document into a record. `AsDraft` maps a record back to its document. Two
results are proved about this pair:
- whatever `Validate` accepts is valid and is exactly what the draft describes;
- every valid record is accepted as itself.

Files:
- `common.dfy`: `Option`, `Result` and `Reply` (a status with a payload or a message).
- `tables.dfy`: the store's query primitives. These are `find` in natural order
  (`Where`), `findOne` (`First`), `sort({ createdAt: -1 })` (`SortNewest`) and
  their composition (`Query`).
- `job_schema.dfy`, `question_schema.dfy`, `review_schema.dfy`: the three schemas.
- `accounts.dfy`: the user account, the registration form, the token claims and the reply payload.
- `store.dfy`: the `Store` class with every route handler and the store invariant `Valid()`.

The store invariant holds that:
- every document sits under its own id;
- every `createdAt` is earlier than the clock;
- no two users share an email or a username;
- every stored job, question and review satisfies its schema.

Every handler preserves it.

In a few places the code differs from the intended design. The model follows
the code in each case:
- registration accepts the roles `user` and `jobholder`;
- `POST /api/jobs` checks no role, and takes `college` from the request body, not from the token;
- the admin lists are not restricted to the admin's college;
- verifying a user does not check that the user is a jobholder;
- deleting a job leaves its questions and reviews in place;
- `PUT /api/jobs/:id` with a missing or empty description gets 500, because
  `save()` validates the document again and the catch-all turns the failure into 500;
- a review may have no rounds, and round numbers are not checked.

## Model

| member | source | states |
|---|---|---|
| `Tables.Where` | server/routes/admin.js:136 | `find`: exactly the stored documents that match the filter, each once, in ascending-id (insertion) order |
| `Tables.First` | server/routes/auth.js:22-27 | `findOne`: the id of a matching document with no matching document before it, or none when nothing matches |
| `Tables.SortNewest` | server/routes/jobs.js:26 | `sort({ createdAt: -1 })`: a permutation of its input, most recent first |
| `Tables.Query` | server/routes/jobs.js:24-26 | a filtered and sorted find: exactly the matching documents, each once, most recent first |
| `Tables.NewestComesFirst` | server/routes/questions.js:11 | in a most-recent-first listing, a document newer than every other listed one is at the head |
| `JobSchema.Validate` | server/models/Job.js:3-45 | a job draft validates only to a job meeting every schema constraint, with exactly the draft's fields |
| `JobSchema.ValidateAccepts` | server/models/Job.js:3-45 | every job meeting the schema validates as itself, so validation accepts exactly the drafts of valid jobs |
| `JobSchema.RequiredPaths` | server/models/Job.js:4-38 | a missing `companyName`, `role`, `salary`, `description`, `college`, `postedBy` or `yearOfJoining` fails validation, and so does a year outside [2000, load year] |
| `JobSchema.SalaryIsFreeText` | server/models/Job.js:12-15 | any non-empty salary text, numeric or not, passes validation |
| `QuestionSchema.ParseKind` | server/models/Question.js:9-13 | the `type` enum accepts exactly `technical` and `non-technical`, and maps each back to the same string |
| `QuestionSchema.Validate` | server/models/Question.js:3-28 | a question draft validates only to a valid question with exactly the draft's fields |
| `QuestionSchema.ValidateAccepts` | server/models/Question.js:3-28 | every valid question validates as itself |
| `QuestionSchema.RequiredPaths` | server/models/Question.js:4-25 | a missing `jobId`, `question` or `postedBy`, or a `type` outside the enum, fails validation |
| `QuestionSchema.AnswerIsOptional` | server/models/Question.js:18-20 | a question without an answer is valid |
| `ReviewSchema.RoundsAsDrafts` | server/models/Review.js:3-12 | a list of rounds maps to drafts position by position, with the same length |
| `ReviewSchema.ValidateRounds` | server/models/Review.js:3-20 | the rounds array validates exactly when every round has a number and a non-empty experience, and then gives back the rounds it describes |
| `ReviewSchema.Validate` | server/models/Review.js:14-32 | a review draft validates only to a valid review with exactly the draft's fields |
| `ReviewSchema.ValidateRoundsAccepts` | server/models/Review.js:3-20 | valid rounds validate as themselves, proved by induction on the list |
| `ReviewSchema.ValidateAccepts` | server/models/Review.js:14-32 | every valid review validates as itself |
| `ReviewSchema.RequiredPaths` | server/models/Review.js:3-29 | a missing `jobId`, `overallExperience` or `postedBy`, or a round without number or experience, fails validation |
| `ReviewSchema.NoRoundsNeeded` | server/models/Review.js:20 | a review with zero rounds is valid |
| `ReviewSchema.RoundNumbersUnchecked` | server/models/Review.js:4-7 | negative and repeated round numbers pass validation |
| `Accounts.MarkVerified` | server/routes/admin.js:149-150 | sets that user's `isVerified` to true and changes no other field and no other user |
| `Accounts.MarkVerifiedIdempotent` | server/routes/admin.js:149-152 | verifying twice gives the same table as verifying once |
| `Server.Store.JobsByCollege` | server/routes/jobs.js:22-32 | 200 with exactly the jobs whose `college` is the parameter, each once, newest first |
| `Server.Store.MyJobs` | server/routes/jobs.js:35-46 | 403 "Access denied" exactly when the caller is not a jobholder; a jobholder always gets 200 with exactly the caller's jobs, newest first |
| `Server.Store.GetJob` | server/routes/jobs.js:49-59 | 200 with the job stored under the id, or 404 "Job not found" exactly when there is none |
| `Server.Store.CreateJob` | server/routes/jobs.js:62-74 | 201 with a fresh job whose `postedBy` is the caller whatever the body says, whose image is the upload path or null, and whose other fields come from the body, and that job is then first in its college's listing; an invalid job gives 400 and stores nothing |
| `Server.Store.UpdateJob` | server/routes/jobs.js:77-99 | 404 for a missing job, 403 for a non-poster, 500 for an empty description, with the store unchanged in all three; the poster's update with a non-empty description always succeeds with 200 and changes only that job's `description` |
| `Server.Store.DeleteJob` | server/routes/jobs.js:102-149 | 404 for a missing job and for a non-poster alike, store unchanged; the poster's delete removes exactly that job and names its image for removal; questions and reviews stay; a later get gives 404 |
| `Server.Store.QuestionsForJob` | server/routes/questions.js:7-18 | 200 with exactly the questions of that job, each once, newest first |
| `Server.Store.CreateQuestion` | server/routes/questions.js:21-32 | 201 with a fresh question posted by the caller whatever the body says, then first in its job's listing; an invalid question gives 400 and stores nothing |
| `Server.Store.DeleteQuestion` | server/routes/questions.js:35-54 | 404 for a missing question and 403 for a non-poster, store unchanged in both; the poster's delete always succeeds with 200 and removes exactly that question |
| `Server.Store.ReviewsForJob` | server/routes/reviews.js:7-18 | 200 with exactly the reviews of that job, each once, newest first |
| `Server.Store.CreateReview` | server/routes/reviews.js:21-32 | 201 with a fresh review posted by the caller whatever the body says, then first in its job's listing; an invalid review gives 400 and stores nothing |
| `Server.Store.DeleteReview` | server/routes/reviews.js:35-54 | 404 for a missing review and 403 for a non-poster, store unchanged in both; the poster's delete always succeeds with 200 and removes exactly that review |
| `Server.Store.ExistingUser` | server/routes/auth.js:22-27 | the first user in natural order whose email or username matches, or none exactly when no user matches |
| `Server.Store.Register` | server/routes/auth.js:8-81 | checks run in order: missing field (400 "All fields are required"), then duplicate (400 "Email already exists" when the first clashing user has the requested email, "Username already exists" otherwise), then role (400 "Invalid role"), and every failure leaves the users unchanged; a complete registration with no clash and role `user` or `jobholder` always succeeds, and success adds exactly one unverified user, keeps email and username unique, returns 201 with claims {userId, role, college, username} and a password-free profile, and makes login with the same credentials succeed |
| `Server.Store.Login` | server/routes/auth.js:84-114 | succeeds exactly when a user has that email and password; every failure, unknown email or wrong password, is the same 400 "Invalid credentials"; the success claims carry userId, role and college, and no username |
| `Server.Store.PendingRequests` | server/routes/admin.js:134-141 | 200 with exactly the jobholders whose `isVerified` is false, each once |
| `Server.Store.VerifiedJobholders` | server/routes/admin.js:159-166 | 200 with exactly the jobholders whose `isVerified` is true, each once |
| `Server.Store.VerifyJobholder` | server/routes/admin.js:144-156 | 404 "User not found" exactly for an unknown id, store unchanged; a known id always succeeds with 200, and only that user's `isVerified` becomes true |
| `Server.Store.JobholderListsPartition` | server/routes/admin.js:134-166 | each jobholder is on exactly one of the two admin lists, and users with another role are on neither |

## Left out

- Token signing and expiry (`jwt.sign`, 24 h) are left out. A token is its claims record, and the `auth` and `adminAuth` middleware are modelled as a caller whose claims are given and already checked.
- bcrypt hashing and `comparePassword` are left out. The stored password is compared for equality, and `server/models/User.js` is not part of this model: new users are assumed unverified by default.
- Every 500 raised by a database or cast exception is left out. This covers a malformed `:id` and a store failure. Ids are natural numbers and the store never fails. The one 500 that is modelled is `PUT` with an empty description.
- Mongoose casting is left out. Numbers arrive already cast (`yearOfJoining`, `roundNumber` as integers; fractional values are not modelled). A missing string field and an empty one are both modelled as "". Body-supplied `_id` and `createdAt` are ignored.
- JobSchema.Validate: the validation error is only the message prefix "Job validation failed", without the per-path detail Mongoose appends.
- QuestionSchema.Validate: the validation error is only the message prefix "Question validation failed", without the per-path detail.
- ReviewSchema.Validate: the validation error is only the message prefix "Review validation failed", without the per-path detail.
- Server.Store.Register: the `received` echo in the 400 body for missing fields is not modelled.
- Server.Store.Login: a request with no `email` at all (an undefined filter value) is not modelled; the email is always a string.
- Server.Store.UpdateJob: the `updatedAt` timestamp that `timestamps: true` maintains is not modelled, on any collection.
- Timestamps come from a clock that gives each new document a stamp strictly later than every stored one. `Date.now` can repeat within a millisecond, and the sort leaves ties in no fixed order. The clauses of `Server.Store.CreateJob`, `Server.Store.CreateQuestion` and `Server.Store.CreateReview` that put the new document first in its listing depend on this strict clock.
- `populate('postedBy', 'email')` only adds presentation data to the college listing and is left out.
- File handling is left out: multer disk storage and file names, `fs.existsSync` and `unlinkSync`. Creation stores the given upload path or null. Deletion returns the path to unlink, and the reply does not depend on whether unlinking works.
- Natural order is modelled as ascending id. MongoDB does not promise that order; it matters only for which duplicate `findOne` reports and for the order of the admin lists.
- Concurrent requests are left out: each handler is one atomic step. This includes the read-then-save window of `PUT`.
- Logging, the email service (`server/utils/emailService.js`), the commented-out admin routes and the whole client are left out. None of them is server logic over the store. The client's unused search state has no filter or sort engine behind it, so none is modelled.
