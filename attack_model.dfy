/** An attack analysis document: the two uploaded videos, the scorer's
    annotated video and the four-part matching score. */
module AttackModel {
  import opened Common
  import opened Ranking
  import opened Suggestion

  /** `attack_analysis_matching_percentage`, fields in declared order. */
  datatype AttackScores = AttackScores(shoulder: real, leftElbow: real, rightElbow: real, overall: real)

  /** The scorer's `similarity` object: the four members it is expected to
      carry (each possibly absent) and whatever else it sends. */
  datatype AttackSimilarity = AttackSimilarity(
    shoulder: Option<real>, leftElbow: Option<real>, rightElbow: Option<real>, overall: Option<real>,
    extra: map<string, real>)

  datatype AttackAnalysis = AttackAnalysis(
    owner: UserId,
    correctLink: string,
    wrongLink: string,
    /** `""` by default; `None` once the scorer answered without a file URL */
    analyzedLink: Option<string>,
    percentage: AttackScores,
    videoUploadTime: Time,
    createdAt: Time,
    updatedAt: Time)

  /** The `required` paths: Mongoose rejects a missing or empty string. */
  predicate WellFormed(r: AttackAnalysis) {
    r.owner != "" && r.correctLink != "" && r.wrongLink != ""
  }

  predicate IsAnalyzed(r: AttackAnalysis) {
    Truthy(r.analyzedLink)
  }

  const ZeroScores := AttackScores(0.0, 0.0, 0.0, 0.0)

  /** `new AttackAnalysis({ userId, correct, wrong })` and its validation. */
  function Create(user: UserId, correct: string, wrong: string, now: Time): (r: Option<AttackAnalysis>)
    ensures r.Some? <==> user != "" && correct != "" && wrong != ""
    ensures r.Some? ==> WellFormed(r.value) && !IsAnalyzed(r.value)
    ensures r.Some? ==> r.value.owner == user && r.value.correctLink == correct && r.value.wrongLink == wrong
    ensures r.Some? ==> r.value.analyzedLink == Some("") && r.value.percentage == ZeroScores && r.value.percentage.overall == 0.0
    ensures r.Some? ==> r.value.videoUploadTime == now && r.value.createdAt == now && r.value.updatedAt == now
  {
    if user == "" || correct == "" || wrong == "" then None
    else Some(AttackAnalysis(user, correct, wrong, Some(""), ZeroScores, now, now, now))
  }

  /** The sub-document the handler builds from `similarity`: the four
      declared members, an absent one taking the schema default 0. */
  function StoredScores(s: AttackSimilarity): (a: AttackScores)
    ensures s.overall.Some? ==> a.overall == s.overall.value
    ensures s.overall.None? ==> a.overall == 0.0
    ensures a.shoulder == s.shoulder.GetOr(0.0) && a.leftElbow == s.leftElbow.GetOr(0.0) && a.rightElbow == s.rightElbow.GetOr(0.0)
  {
    AttackScores(s.shoulder.GetOr(0.0), s.leftElbow.GetOr(0.0), s.rightElbow.GetOr(0.0), s.overall.GetOr(0.0))
  }

  /** Whatever else the scorer sends does not reach the document. */
  lemma ExtraMembersDropped(s: AttackSimilarity, extra: map<string, real>)
    ensures StoredScores(s.(extra := extra)) == StoredScores(s)
  {
  }

  /** The handler's assignments, then `save()`. */
  function RecordAnalysis(r: AttackAnalysis, fileUrl: Option<string>, similarity: AttackSimilarity, now: Time): (a: AttackAnalysis)
    ensures a.analyzedLink == fileUrl && a.percentage == StoredScores(similarity) && a.updatedAt == now
    ensures a.owner == r.owner && a.correctLink == r.correctLink && a.wrongLink == r.wrongLink
    ensures a.videoUploadTime == r.videoUploadTime && a.createdAt == r.createdAt
    ensures WellFormed(r) ==> WellFormed(a)
    ensures IsAnalyzed(a) <==> Truthy(fileUrl)
  {
    r.(analyzedLink := fileUrl, percentage := StoredScores(similarity), updatedAt := now)
  }

  function Owner(r: AttackAnalysis): UserId {
    r.owner
  }

  function Percentage(r: AttackAnalysis): AttackScores {
    r.percentage
  }

  function CreatedAt(r: AttackAnalysis): Time {
    r.createdAt
  }

  /** The sub-document's values in declared field order. */
  function Fields(a: AttackScores): seq<real> {
    [a.shoulder, a.leftElbow, a.rightElbow, a.overall]
  }

  /** `{ "attack_analysis_matching_percentage.overall": -1 }` (leaderboard). */
  function OverallKey(r: AttackAnalysis): Key {
    [r.percentage.overall]
  }

  /** `{ attack_analysis_matching_percentage: -1 }` (suggestions): the
      embedded document, compared field by field. */
  function DocumentKey(r: AttackAnalysis): Key {
    Fields(r.percentage)
  }

  /** The value the suggestion cascade reads: always the embedded document. */
  function Score(r: AttackAnalysis): (v: ScoreValue)
    ensures v.Document?
  {
    Document(Fields(r.percentage))
  }

  lemma OverallKeyOrder(a: AttackAnalysis, b: AttackAnalysis)
    ensures KeyLe(OverallKey(a), OverallKey(b)) <==> a.percentage.overall <= b.percentage.overall
  {
  }
}
