/** A ball-handling analysis document: the two uploaded videos, the scorer's
    annotated video and matching percentage once analysed, and the schema's
    defaults and validation. */
module BallHandlingModel {
  import opened Common
  import opened Ranking
  import opened Suggestion

  /** The placeholder chart every new document gets. */
  const DefaultGraph := "https://img.freepik.com/free-vector/bar-graph_52683-9732.jpg?t=st=1740504979~exp=1740508579~hmac=888aa8c853f8f4fb1eac06c13cde08334968b56c620615b135e70daacc2f6f4a&w=740"

  datatype BallHandling = BallHandling(
    owner: UserId,
    correctLink: string,
    wrongLink: string,
    /** `""` by default; `None` once the scorer answered without a file URL */
    analyzedLink: Option<string>,
    graphLink: string,
    /** no default: missing until analysed */
    percentage: Option<real>,
    videoUploadTime: Time,
    createdAt: Time,
    updatedAt: Time)

  /** The `required` paths: Mongoose rejects a missing or empty string. */
  predicate WellFormed(r: BallHandling) {
    r.owner != "" && r.correctLink != "" && r.wrongLink != ""
  }

  /** Analysed: the analysed-video link is truthy. */
  predicate IsAnalyzed(r: BallHandling) {
    Truthy(r.analyzedLink)
  }

  /** `new BallHandling({ userId, correct, wrong })` and its validation on
      `save()`: `None` when a required path is empty. */
  function Create(user: UserId, correct: string, wrong: string, now: Time): (r: Option<BallHandling>)
    ensures r.Some? <==> user != "" && correct != "" && wrong != ""
    ensures r.Some? ==> WellFormed(r.value) && !IsAnalyzed(r.value)
    ensures r.Some? ==> r.value.owner == user && r.value.correctLink == correct && r.value.wrongLink == wrong
    ensures r.Some? ==> r.value.analyzedLink == Some("") && r.value.graphLink == DefaultGraph && r.value.percentage.None?
    ensures r.Some? ==> r.value.videoUploadTime == now && r.value.createdAt == now && r.value.updatedAt == now
  {
    if user == "" || correct == "" || wrong == "" then None
    else Some(BallHandling(user, correct, wrong, Some(""), DefaultGraph, None, now, now, now))
  }

  /** The two assignments of the analyse handler, then `save()`. */
  function RecordAnalysis(r: BallHandling, fileUrl: Option<string>, similarity: Option<real>, now: Time): (a: BallHandling)
    ensures a.analyzedLink == fileUrl && a.percentage == similarity && a.updatedAt == now
    ensures a.owner == r.owner && a.correctLink == r.correctLink && a.wrongLink == r.wrongLink
    ensures a.graphLink == r.graphLink && a.videoUploadTime == r.videoUploadTime && a.createdAt == r.createdAt
    ensures WellFormed(r) ==> WellFormed(a)
    ensures IsAnalyzed(a) <==> Truthy(fileUrl)
  {
    r.(analyzedLink := fileUrl, percentage := similarity, updatedAt := now)
  }

  function Owner(r: BallHandling): UserId {
    r.owner
  }

  function Percentage(r: BallHandling): Option<real> {
    r.percentage
  }

  function CreatedAt(r: BallHandling): Time {
    r.createdAt
  }

  /** `{ ball_handling_matching_percentage: -1 }`: a missing value sorts
      below every number. */
  function SortKey(r: BallHandling): Key {
    if r.percentage.Some? then [r.percentage.value] else []
  }

  /** The value the suggestion cascade reads. */
  function Score(r: BallHandling): ScoreValue {
    if r.percentage.Some? then Number(r.percentage.value) else Missing
  }

  /** "missing lowest, then by value". */
  predicate PercentLe(a: Option<real>, b: Option<real>) {
    a.None? || (b.Some? && a.value <= b.value)
  }

  lemma SortKeyOrder(a: BallHandling, b: BallHandling)
    ensures KeyLe(SortKey(a), SortKey(b)) <==> PercentLe(a.percentage, b.percentage)
  {
  }

  /** Ranking by the sort key never puts a record with a higher suggestion
      tier after one with a lower tier. */
  lemma SortKeyOrdersTiers(a: BallHandling, b: BallHandling)
    requires KeyLe(SortKey(a), SortKey(b))
    ensures Tier(Suggest(Score(a), BallVideos), BallVideos) <= Tier(Suggest(Score(b), BallVideos), BallVideos)
  {
    BothVideoSetsDistinct();
    if a.percentage.Some? {
      SuggestMonotone(a.percentage.value, b.percentage.value, BallVideos);
    }
  }
}
