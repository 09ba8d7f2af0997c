/** The `questionSchema` of the question model: an interview question linked
    to a job, with a type from a two-value enum and an optional answer. */
module QuestionSchema {

  import opened Common

  /** The `type` enum: 'technical' or 'non-technical'. */
  datatype Kind = Technical | NonTechnical

  /** The string a kind is stored and sent as. */
  function KindName(k: Kind): string {
    match k
    case Technical => "technical"
    case NonTechnical => "non-technical"
  }

  /** The enum validator: the kind a string names, if it names one. */
  function ParseKind(s: string): (r: Option<Kind>)
    ensures r.Some? <==> s == "technical" || s == "non-technical"
    ensures r.Some? ==> KindName(r.value) == s
  {
    if s == "technical" then Some(Technical)
    else if s == "non-technical" then Some(NonTechnical)
    else None
  }

  /** A stored question. `jobId` is a reference only: nothing checks that the
      job exists. */
  datatype Question = Question(
    jobId: nat,
    kind: Kind,
    question: string,
    answer: Option<string>,
    postedBy: nat)

  /** A question document before validation; a string that was not sent is "". */
  datatype Draft = Draft(
    jobId: Option<nat>,
    kind: string,
    question: string,
    answer: Option<string>,
    postedBy: Option<nat>)

  /** The schema's constraints on a question (`kind` is an enum value by its
      type; `answer` is optional and unconstrained). */
  predicate ValidQuestion(q: Question) {
    q.question != ""
  }

  /** The unvalidated document that a question was built from. */
  function AsDraft(q: Question): Draft {
    Draft(Some(q.jobId), KindName(q.kind), q.question, q.answer, Some(q.postedBy))
  }

  /** Validation of a new question on `save()`. Succeeds with the question the
      draft describes, and only with a valid one. */
  function Validate(d: Draft): (r: Result<Question>)
    ensures r.Ok? ==> ValidQuestion(r.value) && AsDraft(r.value) == d
    ensures r.Err? ==> r.message == "Question validation failed"
  {
    var kind := ParseKind(d.kind);
    if d.jobId.None? || kind.None? || d.question == "" || d.postedBy.None? then
      Err("Question validation failed")
    else
      Ok(Question(d.jobId.value, kind.value, d.question, d.answer, d.postedBy.value))
  }

  /** Every valid question passes validation as itself. */
  lemma ValidateAccepts(q: Question)
    requires ValidQuestion(q)
    ensures Validate(AsDraft(q)) == Ok(q)
  {
  }

  /** `jobId`, `type`, `question` and `postedBy` are required, and `type` must
      be one of the two enum strings. */
  lemma RequiredPaths(d: Draft)
    ensures d.jobId.None? ==> Validate(d).Err?
    ensures d.question == "" ==> Validate(d).Err?
    ensures d.postedBy.None? ==> Validate(d).Err?
    ensures d.kind != "technical" && d.kind != "non-technical" ==> Validate(d).Err?
  {
  }

  /** `answer` is optional: a question with no answer is valid. */
  lemma AnswerIsOptional(q: Question)
    requires ValidQuestion(q)
    ensures Validate(AsDraft(q.(answer := None))).Ok?
  {
    ValidateAccepts(q.(answer := None));
  }
}
