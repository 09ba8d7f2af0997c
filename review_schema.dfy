/** The `roundSchema` and `reviewSchema` of the review model: an interview
    review linked to a job, made of numbered rounds and an overall verdict. */
module ReviewSchema {

  import opened Common

  /** One interview round. `roundNumber` is any number: the schema does not
      ask for it to be positive, unique or contiguous. */
  datatype Round = Round(roundNumber: int, experience: string)

  /** A round subdocument before validation; a string not sent is "". */
  datatype RoundDraft = RoundDraft(roundNumber: Option<int>, experience: string)

  /** A stored review. `rounds` may be empty: the array has no minimum length. */
  datatype Review = Review(
    jobId: nat,
    rounds: seq<Round>,
    overallExperience: string,
    postedBy: nat)

  /** A review document before validation. A missing `rounds` array is the
      empty array, its default. */
  datatype Draft = Draft(
    jobId: Option<nat>,
    rounds: seq<RoundDraft>,
    overallExperience: string,
    postedBy: Option<nat>)

  /** `roundSchema`: a number and a non-empty experience. */
  predicate ValidRound(r: Round) {
    r.experience != ""
  }

  /** `reviewSchema`: every round valid and an overall experience given. */
  predicate ValidReview(v: Review) {
    && (forall i :: 0 <= i < |v.rounds| ==> ValidRound(v.rounds[i]))
    && v.overallExperience != ""
  }

  function RoundAsDraft(r: Round): RoundDraft {
    RoundDraft(Some(r.roundNumber), r.experience)
  }

  function RoundsAsDrafts(rs: seq<Round>): (ds: seq<RoundDraft>)
    ensures |ds| == |rs|
    ensures forall i :: 0 <= i < |rs| ==> ds[i] == RoundAsDraft(rs[i])
  {
    if rs == [] then [] else [RoundAsDraft(rs[0])] + RoundsAsDrafts(rs[1..])
  }

  /** The unvalidated document that a review was built from. */
  function AsDraft(v: Review): Draft {
    Draft(Some(v.jobId), RoundsAsDrafts(v.rounds), v.overallExperience, Some(v.postedBy))
  }

  /** Validation of the `rounds` array, one subdocument after another. Succeeds
      with the rounds the drafts describe, and fails exactly when some round
      lacks its number or its experience. */
  function ValidateRounds(ds: seq<RoundDraft>): (r: Option<seq<Round>>)
    ensures r.Some? <==> forall i :: 0 <= i < |ds| ==> ds[i].roundNumber.Some? && ds[i].experience != ""
    ensures r.Some? ==> RoundsAsDrafts(r.value) == ds
    ensures r.Some? ==> forall i :: 0 <= i < |r.value| ==> ValidRound(r.value[i])
  {
    if ds == [] then Some([])
    else if ds[0].roundNumber.None? || ds[0].experience == "" then None
    else
      match ValidateRounds(ds[1..])
      case None => None
      case Some(rest) =>
        var head := Round(ds[0].roundNumber.value, ds[0].experience);
        assert RoundsAsDrafts([head] + rest) == ds by {
          assert ([head] + rest)[1..] == rest;
        }
        Some([head] + rest)
  }

  /** Validation of a new review on `save()`. Succeeds with the review the
      draft describes, and only with a valid one. */
  function Validate(d: Draft): (r: Result<Review>)
    ensures r.Ok? ==> ValidReview(r.value) && AsDraft(r.value) == d
    ensures r.Err? ==> r.message == "Review validation failed"
  {
    if d.jobId.None? || d.overallExperience == "" || d.postedBy.None? then
      Err("Review validation failed")
    else
      match ValidateRounds(d.rounds)
      case None => Err("Review validation failed")
      case Some(rounds) => Ok(Review(d.jobId.value, rounds, d.overallExperience, d.postedBy.value))
  }

  /** The rounds of a valid review validate as themselves. */
  lemma {:induction false} ValidateRoundsAccepts(rs: seq<Round>)
    requires forall i :: 0 <= i < |rs| ==> ValidRound(rs[i])
    ensures ValidateRounds(RoundsAsDrafts(rs)) == Some(rs)
  {
    if rs != [] {
      ValidateRoundsAccepts(rs[1..]);
      var ds := RoundsAsDrafts(rs);
      assert ds[1..] == RoundsAsDrafts(rs[1..]);
      assert rs == [rs[0]] + rs[1..];
    }
  }

  /** Every valid review passes validation as itself. */
  lemma ValidateAccepts(v: Review)
    requires ValidReview(v)
    ensures Validate(AsDraft(v)) == Ok(v)
  {
    ValidateRoundsAccepts(v.rounds);
  }

  /** `jobId`, `overallExperience` and `postedBy` are required, and so are the
      number and the experience of every round. */
  lemma RequiredPaths(d: Draft)
    ensures d.jobId.None? ==> Validate(d).Err?
    ensures d.overallExperience == "" ==> Validate(d).Err?
    ensures d.postedBy.None? ==> Validate(d).Err?
    ensures (exists i :: 0 <= i < |d.rounds| && (d.rounds[i].roundNumber.None? || d.rounds[i].experience == ""))
            ==> Validate(d).Err?
  {
  }

  /** A review with no rounds at all is valid. */
  lemma NoRoundsNeeded(jobId: nat, overall: string, postedBy: nat)
    requires overall != ""
    ensures Validate(Draft(Some(jobId), [], overall, Some(postedBy))).Ok?
  {
  }

  /** Round numbers are not checked: negative and repeated numbers pass.
      This is one instance of the general fact: `ValidRound` says nothing
      about `roundNumber`, so by `ValidateAccepts` every review whose rounds
      all have a non-empty experience validates, whatever its numbers. */
  lemma RoundNumbersUnchecked(jobId: nat, postedBy: nat)
    ensures Validate(Draft(Some(jobId), [RoundDraft(Some(-1), "aptitude"), RoundDraft(Some(-1), "coding")],
                           "good", Some(postedBy))).Ok?
  {
  }
}
