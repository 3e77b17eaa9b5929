/** The score-to-video mapper every suggestions handler applies to each of
    the caller's records. */
module Suggestion {

  /** The value the handler reads from a record's score field: a missing
      (`undefined`/`null`) value, a number, or an embedded document (the
      attack and defence sub-metric objects, by their values in declared
      field order). */
  datatype ScoreValue = Missing | Number(n: real) | Document(fields: seq<real>)

  /** JavaScript `v > bound`: an object converts to NaN and compares false. */
  predicate JsGreater(v: ScoreValue, bound: real) {
    v.Number? && v.n > bound
  }

  /** JavaScript `v >= bound`, likewise. */
  predicate JsAtLeast(v: ScoreValue, bound: real) {
    v.Number? && v.n >= bound
  }

  /** The three canned training videos of a domain. */
  datatype VideoSet = VideoSet(high: string, intermediate: string, beginner: string)

  const BallVideos := VideoSet(
    "https://s3.com/high_skill_ball_video.mp4",
    "https://s3.com/intermediate_ball_video.mp4",
    "https://s3.com/beginner_ball_video.mp4")

  /** Used by the attack handler and, unchanged, by the defence handler. */
  const AttackVideos := VideoSet(
    "https://s3.com/high_skill_attack_video.mp4",
    "https://s3.com/intermediate_attack_video.mp4",
    "https://s3.com/beginner_attack_video.mp4")

  const NoValueFound := "No value found"
  const NoSuggestedVideo := "No suggested video"

  /** The score echoed in an entry: the stored value, or "No value found". */
  datatype Shown = Shown(value: ScoreValue) | NoValue

  datatype Suggestion = Suggestion(shown: Shown, suggestedVideo: string)

  predicate DistinctVideos(v: VideoSet) {
    && v.high != v.intermediate && v.high != v.beginner && v.intermediate != v.beginner
    && NoSuggestedVideo !in {v.high, v.intermediate, v.beginner}
  }

  /** The cascade `missing -> > 80 -> >= 60 -> otherwise`. */
  function Suggest(v: ScoreValue, videos: VideoSet): (r: Suggestion)
    requires DistinctVideos(videos)
    ensures r.shown == NoValue <==> v.Missing?
    ensures r.shown.Shown? ==> r.shown.value == v
    ensures r.suggestedVideo == NoSuggestedVideo <==> v.Missing?
    ensures r.suggestedVideo == videos.high <==> v.Number? && v.n > 80.0
    ensures r.suggestedVideo == videos.intermediate <==> v.Number? && 60.0 <= v.n <= 80.0
    ensures r.suggestedVideo == videos.beginner <==> v.Document? || (v.Number? && v.n < 60.0)
  {
    if v.Missing? then Suggestion(NoValue, NoSuggestedVideo)
    else if JsGreater(v, 80.0) then Suggestion(Shown(v), videos.high)
    else if JsAtLeast(v, 60.0) then Suggestion(Shown(v), videos.intermediate)
    else Suggestion(Shown(v), videos.beginner)
  }

  /** 0 for the sentinel, then beginner < intermediate < high. */
  function Tier(r: Suggestion, videos: VideoSet): (t: nat)
    ensures t <= 3
  {
    if r.suggestedVideo == videos.high then 3
    else if r.suggestedVideo == videos.intermediate then 2
    else if r.suggestedVideo == videos.beginner then 1
    else 0
  }

  /** A higher percentage never earns a lower tier. */
  lemma SuggestMonotone(a: real, b: real, videos: VideoSet)
    requires DistinctVideos(videos) && a <= b
    ensures Tier(Suggest(Number(a), videos), videos) <= Tier(Suggest(Number(b), videos), videos)
    ensures Tier(Suggest(Number(a), videos), videos) >= 1
  {
  }

  lemma BothVideoSetsDistinct()
    ensures DistinctVideos(BallVideos) && DistinctVideos(AttackVideos)
  {
  }

  /** An embedded score document never passes either threshold. */
  lemma DocumentGetsBeginner(fields: seq<real>, videos: VideoSet)
    requires DistinctVideos(videos)
    ensures Suggest(Document(fields), videos) == Suggestion(Shown(Document(fields)), videos.beginner)
  {
  }

  /** 85 -> high, 80 -> intermediate, 60 -> intermediate, 59.9 -> beginner,
      missing -> the sentinel pair. */
  lemma SuggestExamples()
    ensures Suggest(Number(85.0), BallVideos).suggestedVideo == BallVideos.high
    ensures Suggest(Number(80.0), BallVideos).suggestedVideo == BallVideos.intermediate
    ensures Suggest(Number(60.0), BallVideos).suggestedVideo == BallVideos.intermediate
    ensures Suggest(Number(59.9), BallVideos).suggestedVideo == BallVideos.beginner
    ensures Suggest(Missing, BallVideos) == Suggestion(NoValue, NoSuggestedVideo)
  {
  }
}
