/** A defence analysis document: the two uploaded videos, the scorer's
    annotated video and the five-part matching score, whose declared field
    order is the order MongoDB compares it in. */
module DefenceModel {
  import opened Common
  import opened Ranking
  import opened Suggestion

  /** `defence_analysis_matching_percentage`, fields in declared order. */
  datatype DefenceScores = DefenceScores(leftKnee: real, rightKnee: real, hipStance: real, stanceWidth: real, overall: real)

  /** The scorer's `similarity` object: the five expected members (each
      possibly absent) and whatever else it sends. */
  datatype DefenceSimilarity = DefenceSimilarity(
    leftKnee: Option<real>, rightKnee: Option<real>, hipStance: Option<real>, stanceWidth: Option<real>, overall: Option<real>,
    extra: map<string, real>)

  datatype DefenceAnalysis = DefenceAnalysis(
    owner: UserId,
    correctLink: string,
    wrongLink: string,
    /** `""` by default; `None` once the scorer answered without a file URL */
    analyzedLink: Option<string>,
    percentage: DefenceScores,
    videoUploadTime: Time,
    createdAt: Time,
    updatedAt: Time)

  /** The `required` paths: Mongoose rejects a missing or empty string. */
  predicate WellFormed(r: DefenceAnalysis) {
    r.owner != "" && r.correctLink != "" && r.wrongLink != ""
  }

  predicate IsAnalyzed(r: DefenceAnalysis) {
    Truthy(r.analyzedLink)
  }

  const ZeroScores := DefenceScores(0.0, 0.0, 0.0, 0.0, 0.0)

  /** `new DefenceAnalysis({ userId, correct, wrong })` and its validation. */
  function Create(user: UserId, correct: string, wrong: string, now: Time): (r: Option<DefenceAnalysis>)
    ensures r.Some? <==> user != "" && correct != "" && wrong != ""
    ensures r.Some? ==> WellFormed(r.value) && !IsAnalyzed(r.value)
    ensures r.Some? ==> r.value.owner == user && r.value.correctLink == correct && r.value.wrongLink == wrong
    ensures r.Some? ==> r.value.analyzedLink == Some("") && r.value.percentage == ZeroScores
    ensures r.Some? ==> r.value.videoUploadTime == now && r.value.createdAt == now && r.value.updatedAt == now
  {
    if user == "" || correct == "" || wrong == "" then None
    else Some(DefenceAnalysis(user, correct, wrong, Some(""), ZeroScores, now, now, now))
  }

  /** The sub-document the handler builds from `similarity`: exactly the
      five declared members, an absent one taking the schema default 0. */
  function StoredScores(s: DefenceSimilarity): (d: DefenceScores)
    ensures d.leftKnee == s.leftKnee.GetOr(0.0) && d.rightKnee == s.rightKnee.GetOr(0.0)
    ensures d.hipStance == s.hipStance.GetOr(0.0) && d.stanceWidth == s.stanceWidth.GetOr(0.0)
    ensures d.overall == s.overall.GetOr(0.0)
  {
    DefenceScores(s.leftKnee.GetOr(0.0), s.rightKnee.GetOr(0.0), s.hipStance.GetOr(0.0), s.stanceWidth.GetOr(0.0), s.overall.GetOr(0.0))
  }

  /** Whatever else the scorer sends does not reach the document. */
  lemma ExtraMembersDropped(s: DefenceSimilarity, extra: map<string, real>)
    ensures StoredScores(s.(extra := extra)) == StoredScores(s)
  {
  }

  /** The handler's assignments, then `save()`. */
  function RecordAnalysis(r: DefenceAnalysis, fileUrl: Option<string>, similarity: DefenceSimilarity, now: Time): (a: DefenceAnalysis)
    ensures a.analyzedLink == fileUrl && a.percentage == StoredScores(similarity) && a.updatedAt == now
    ensures a.owner == r.owner && a.correctLink == r.correctLink && a.wrongLink == r.wrongLink
    ensures a.videoUploadTime == r.videoUploadTime && a.createdAt == r.createdAt
    ensures WellFormed(r) ==> WellFormed(a)
    ensures IsAnalyzed(a) <==> Truthy(fileUrl)
  {
    r.(analyzedLink := fileUrl, percentage := StoredScores(similarity), updatedAt := now)
  }

  function Owner(r: DefenceAnalysis): UserId {
    r.owner
  }

  function Percentage(r: DefenceAnalysis): DefenceScores {
    r.percentage
  }

  function CreatedAt(r: DefenceAnalysis): Time {
    r.createdAt
  }

  /** The sub-document's values in declared field order. */
  function Fields(d: DefenceScores): seq<real> {
    [d.leftKnee, d.rightKnee, d.hipStance, d.stanceWidth, d.overall]
  }

  /** `{ defence_analysis_matching_percentage: -1 }`, used by both the
      leaderboard and the suggestions: the embedded document. */
  function DocumentKey(r: DefenceAnalysis): Key {
    Fields(r.percentage)
  }

  function Score(r: DefenceAnalysis): (v: ScoreValue)
    ensures v.Document?
  {
    Document(Fields(r.percentage))
  }

  /** Lexicographic order over the five members, led by `left_knee`. */
  predicate LexLe(a: DefenceScores, b: DefenceScores) {
    || a.leftKnee < b.leftKnee
    || (a.leftKnee == b.leftKnee && a.rightKnee < b.rightKnee)
    || (a.leftKnee == b.leftKnee && a.rightKnee == b.rightKnee && a.hipStance < b.hipStance)
    || (a.leftKnee == b.leftKnee && a.rightKnee == b.rightKnee && a.hipStance == b.hipStance && a.stanceWidth < b.stanceWidth)
    || (a.leftKnee == b.leftKnee && a.rightKnee == b.rightKnee && a.hipStance == b.hipStance && a.stanceWidth == b.stanceWidth
        && a.overall <= b.overall)
  }

  lemma {:induction false} DocumentKeyOrder(a: DefenceAnalysis, b: DefenceAnalysis)
    ensures KeyLe(DocumentKey(a), DocumentKey(b)) <==> LexLe(a.percentage, b.percentage)
  {
    var p := a.percentage;
    var q := b.percentage;
    KeyLeCons(p.overall, [], q.overall, []);
    KeyLeCons(p.stanceWidth, [p.overall], q.stanceWidth, [q.overall]);
    KeyLeCons(p.hipStance, [p.stanceWidth, p.overall], q.hipStance, [q.stanceWidth, q.overall]);
    KeyLeCons(p.rightKnee, [p.hipStance, p.stanceWidth, p.overall], q.rightKnee, [q.hipStance, q.stanceWidth, q.overall]);
    KeyLeCons(p.leftKnee, [p.rightKnee, p.hipStance, p.stanceWidth, p.overall], q.leftKnee, [q.rightKnee, q.hipStance, q.stanceWidth, q.overall]);
    assert [p.overall] == [p.overall] + [] && [q.overall] == [q.overall] + [];
    assert DocumentKey(a) == [p.leftKnee] + [p.rightKnee, p.hipStance, p.stanceWidth, p.overall];
    assert DocumentKey(b) == [q.leftKnee] + [q.rightKnee, q.hipStance, q.stanceWidth, q.overall];
  }

  /** `overall` does not decide the defence ranking: a document with a
      higher `overall` but a lower `left_knee` ranks below. */
  lemma OverallDoesNotDecide()
    ensures
      var high := DefenceScores(10.0, 90.0, 90.0, 90.0, 90.0);
      var low := DefenceScores(20.0, 0.0, 0.0, 0.0, 5.0);
      high.overall > low.overall && LexLe(high, low) && !LexLe(low, high)
  {
  }
}
