/** The defence-analysis handlers: the same flow as attack, with a
    five-part score that the leaderboard ranks as a whole document. */
module DefenceController {
  import opened Common
  import opened Collection
  import opened Media
  import opened Ranking
  import opened Suggestion
  import opened Queries
  import opened DefenceModel

  const CorrectField := "defence_analysis_correct"
  const WrongField := "defence_analysis_wrong"
  const VideoFolder := "videos"

  /** The collection invariant: ids below the counter, every document valid. */
  ghost predicate Consistent(db: Store<DefenceAnalysis>)
    reads db
  {
    db.Valid() && forall id :: id in db.records ==> WellFormed(db.records[id])
  }

  /** The document an upload stores, if it gets that far: both parts pass
      multer and the guard, both reach the object store, and the new
      document passes validation. */
  function UploadedDoc(user: UserId, form: Form, now: Time, storage: StorageOracle): (r: Option<DefenceAnalysis>)
    ensures r.Some? ==> PairIntake(form, CorrectField, WrongField, VideoSizeLimit).Accepted?
    ensures r.Some? ==>
      var intake := PairIntake(form, CorrectField, WrongField, VideoSizeLimit);
      && storage(UploadKey(VideoFolder, user, now, intake.first)) == Some(r.value.correctLink)
      && storage(UploadKey(VideoFolder, user, now, intake.second)) == Some(r.value.wrongLink)
    ensures r.Some? ==> r.value.owner == user && WellFormed(r.value) && !IsAnalyzed(r.value) && r.value.percentage == ZeroScores
    ensures (var intake := PairIntake(form, CorrectField, WrongField, VideoSizeLimit);
      && intake.Accepted? && user != ""
      && StoredAt(storage, UploadKey(VideoFolder, user, now, intake.first))
      && StoredAt(storage, UploadKey(VideoFolder, user, now, intake.second))) ==> r.Some?
  {
    var intake := PairIntake(form, CorrectField, WrongField, VideoSizeLimit);
    if !intake.Accepted? then None
    else
      var correctUrl := storage(UploadKey(VideoFolder, user, now, intake.first));
      var wrongUrl := storage(UploadKey(VideoFolder, user, now, intake.second));
      if correctUrl.None? || wrongUrl.None? then None
      else Create(user, correctUrl.value, wrongUrl.value, now)
  }

  /** `uploadDefenceAnalysisVideos`. */
  method Upload(db: Store<DefenceAnalysis>, user: UserId, form: Form, now: Time, storage: StorageOracle) returns (reply: UploadReply)
    requires Consistent(db)
    modifies db
    ensures Consistent(db)
    ensures reply == FileUploadFailed <==> !FieldsAccepted(form, {CorrectField, WrongField}, VideoSizeLimit)
    ensures reply == BothVideosRequired <==> PairIntake(form, CorrectField, WrongField, VideoSizeLimit).BothRequired?
    ensures reply.Uploaded? <==> UploadedDoc(user, form, now, storage).Some?
    ensures reply.Uploaded? ==> reply.id !in old(db.records) && db.records == old(db.records)[reply.id := UploadedDoc(user, form, now, storage).value]
    ensures !reply.Uploaded? ==> db.records == old(db.records)
  {
    var intake := PairIntake(form, CorrectField, WrongField, VideoSizeLimit);
    if intake.UploadFailed? {
      return FileUploadFailed;
    }
    if intake.BothRequired? {
      return BothVideosRequired;
    }
    var correctUrl := storage(UploadKey(VideoFolder, user, now, intake.first));
    if correctUrl.None? {
      return UploadError;
    }
    var wrongUrl := storage(UploadKey(VideoFolder, user, now, intake.second));
    if wrongUrl.None? {
      return UploadError;
    }
    var doc := Create(user, correctUrl.value, wrongUrl.value, now);
    if doc.None? {
      return UploadError;
    }
    var id := db.Insert(doc.value);
    reply := Uploaded(id);
  }

  /** The reply of `analyzeDefenceAnalysis`: a refusal echoes only the
      stored link; a success echoes the scorer's `similarity` as received. */
  datatype AnalyzeReply =
    | RecordNotFound
    | AlreadyAnalyzed(existingLink: string)
    | AnalysisError
    | Analyzed(link: Option<string>, similarity: DefenceSimilarity)
  {
    function Status(): int {
      match this
      case RecordNotFound => 404
      case AlreadyAnalyzed(_) => 400
      case AnalysisError => 500
      case Analyzed(_, _) => 200
    }
  }

  /** The scorer's `/defence_analysis` endpoint as a function of the payload;
      a `None` similarity makes the handler throw when it reads a member. */
  type Scorer = ScorerRequest -> ScorerResponse<Option<DefenceSimilarity>>

  /** `analyzeDefenceAnalysis`: any caller may analyse any pending document;
      the scorer is asked only for a pending one, and the document is saved
      only after the whole response was read. */
  method Analyze(db: Store<DefenceAnalysis>, id: RecordId, scorer: Scorer, now: Time) returns (reply: AnalyzeReply, request: Option<ScorerRequest>)
    requires Consistent(db)
    modifies db
    ensures Consistent(db)
    ensures id !in old(db.records) ==> reply == RecordNotFound && request.None? && db.records == old(db.records)
    ensures id in old(db.records) && IsAnalyzed(old(db.records)[id]) ==>
      && reply == AlreadyAnalyzed(old(db.records)[id].analyzedLink.value)
      && request.None? && db.records == old(db.records)
    ensures id in old(db.records) && !IsAnalyzed(old(db.records)[id]) ==>
      var r := old(db.records)[id];
      && request == Some(ScorerRequest(r.correctLink, r.wrongLink))
      && match scorer(request.value)
         case ScorerOk(url, Some(similarity)) =>
           reply == Analyzed(url, similarity) && db.records == old(db.records)[id := RecordAnalysis(r, url, similarity, now)]
         case _ => reply == AnalysisError && db.records == old(db.records)
  {
    if id !in db.records {
      return RecordNotFound, None;
    }
    var r := db.records[id];
    if IsAnalyzed(r) {
      return AlreadyAnalyzed(r.analyzedLink.value), None;
    }
    request := Some(ScorerRequest(r.correctLink, r.wrongLink));
    var response := scorer(request.value);
    if response.ScorerError? || response.similarity.None? {
      return AnalysisError, request;
    }
    db.Replace(id, RecordAnalysis(r, response.fileUrl, response.similarity.value, now));
    reply := Analyzed(response.fileUrl, response.similarity.value);
  }

  /** `deleteDefenceAnalysis`: only the owner's document is removed. */
  method Delete(db: Store<DefenceAnalysis>, user: UserId, id: RecordId) returns (status: int)
    requires Consistent(db)
    modifies db
    ensures Consistent(db)
    ensures status == 200 <==> id in old(db.records) && old(db.records)[id].owner == user
    ensures status != 200 ==> status == NotFound
    ensures db.records == if status == 200 then old(db.records) - {id} else old(db.records)
    ensures forall k :: k in old(db.records) && old(db.records)[k].owner != user ==> k in db.records && db.records[k] == old(db.records)[k]
  {
    var removed := db.RemoveOwned(Owner, user, id);
    status := if removed then 200 else NotFound;
  }

  /** `getDefenceAnalysisMatchingPercentages`: 404 when the user has no documents, otherwise
      one entry per document, its score object and creation time, newest first. */
  function History(records: map<RecordId, DefenceAnalysis>, user: UserId): (r: Reply<seq<Dated<DefenceScores>>>)
    ensures r.Err? <==> OwnedIds(records, Owner, user) == {}
    ensures r.Err? ==> r.status == NotFound
    ensures r.Ok? ==> |r.body| == |OwnedIds(records, Owner, user)|
    ensures r.Ok? ==>
      var order := RankedIds(records, Owner, ByTime(CreatedAt), user);
      forall i :: 0 <= i < |r.body| ==> r.body[i] == Dated(Percentage(records[order[i]]), CreatedAt(records[order[i]]))
    ensures r.Ok? ==> forall i, j :: 0 <= i < j < |r.body| ==> r.body[j].createdAt <= r.body[i].createdAt
  {
    Queries.History(records, Owner, Percentage, CreatedAt, user)
  }

  /** `defenceAnalysisSuggestions`: as for attack, every entry echoes its
      document's scores with the beginner video, and the videos are the
      attack ones. */
  function Suggestions(records: map<RecordId, DefenceAnalysis>, user: UserId): (r: Reply<seq<Suggestion>>)
    ensures r.Err? <==> OwnedIds(records, Owner, user) == {}
    ensures r.Err? ==> r.status == NotFound
    ensures r.Ok? ==> |r.body| == |OwnedIds(records, Owner, user)|
    ensures r.Ok? ==>
      var order := RankedIds(records, Owner, DocumentKey, user);
      forall i :: 0 <= i < |r.body| ==>
        r.body[i] == Suggestion(Shown(Document(Fields(records[order[i]].percentage))), AttackVideos.beginner)
  {
    BothVideoSetsDistinct();
    var r := Queries.Suggestions(records, Owner, DocumentKey, Score, AttackVideos, user);
    if r.Ok? then
      var order := RankedIds(records, Owner, DocumentKey, user);
      forall i | 0 <= i < |r.body|
        ensures r.body[i] == Suggestion(Shown(Document(Fields(records[order[i]].percentage))), AttackVideos.beginner)
      {
        DocumentGetsBeginner(Fields(records[order[i]].percentage), AttackVideos);
      }
      r
    else r
  }

  /** One leaderboard row's data: the score object and the upload time. */
  datatype DefenceRow = DefenceRow(percentage: DefenceScores, videoUploadTime: Time)

  function Row(r: DefenceAnalysis): DefenceRow {
    DefenceRow(r.percentage, r.videoUploadTime)
  }

  /** `getTopUsersByDefenceAnalysis`: for a coach and a positive count, each
      row is a player's name, e-mail, score object and upload time. */
  function TopUsers(records: map<RecordId, DefenceAnalysis>, users: Users, caller: UserId, count: Option<int>): (r: Reply<seq<Leader<DefenceRow>>>)
    ensures r.Err? && r.status == Forbidden <==> !IsCoach(users, caller)
    ensures r.Err? && r.status == BadRequest <==> IsCoach(users, caller) && !ValidCount(count)
    ensures r.Ok? <==> IsCoach(users, caller) && ValidCount(count)
    ensures r.Ok? ==> |r.body| <= count.value
  {
    Queries.TopUsers(records, Owner, DocumentKey, Row, users, caller, count)
  }

  /** The leaderboard by the whole score document: distinct players of the
      coach, as many as asked for, each with one of their documents, in
      non-increasing lexicographic order led by `left_knee`. */
  lemma TopUsersRows(records: map<RecordId, DefenceAnalysis>, users: Users, caller: UserId, count: nat)
    requires IsCoach(users, caller) && count > 0
    ensures
      var s := PlayerDocs(records, Owner, DocumentKey, users, caller);
      var top := Top(s, count);
      var rows := TopUsers(records, users, caller, Some(count)).body;
      && |rows| == |top| == Min(count, |Owners(s)|)
      && DistinctOwners(top)
      && (forall i :: 0 <= i < |top| ==>
            && top[i].owner in PlayersOf(users, caller) && top[i].item in records
            && records[top[i].item].owner == top[i].owner
            && rows[i] == Leader(users[top[i].owner].fullName, users[top[i].owner].email, Row(records[top[i].item])))
      && (forall i, j :: 0 <= i < j < |rows| ==> LexLe(rows[j].data.percentage, rows[i].data.percentage))
  {
    var top := Top(PlayerDocs(records, Owner, DocumentKey, users, caller), count);
    var rows := TopUsers(records, users, caller, Some(count)).body;
    TopUsersKeys(records, Owner, DocumentKey, users, caller, count);
    forall i, j | 0 <= i < j < |rows|
      ensures LexLe(rows[j].data.percentage, rows[i].data.percentage)
    {
      DocumentKeyOrder(records[top[j].item], records[top[i].item]);
    }
  }

  /** Each row carries a lexicographically greatest document of its player,
      and no player of the coach left off the board has a greater one. */
  lemma TopUsersBest(records: map<RecordId, DefenceAnalysis>, users: Users, caller: UserId, count: nat)
    requires IsCoach(users, caller) && count > 0
    ensures
      var top := Top(PlayerDocs(records, Owner, DocumentKey, users, caller), count);
      var rows := TopUsers(records, users, caller, Some(count)).body;
      forall i, id :: (0 <= i < |top| && id in records && records[id].owner in PlayersOf(users, caller) &&
        (records[id].owner == top[i].owner || records[id].owner !in Owners(top))) ==>
        LexLe(records[id].percentage, rows[i].data.percentage)
  {
    var top := Top(PlayerDocs(records, Owner, DocumentKey, users, caller), count);
    TopUsersKeys(records, Owner, DocumentKey, users, caller, count);
    forall i, id | 0 <= i < |top| && id in records && records[id].owner in PlayersOf(users, caller) &&
        (records[id].owner == top[i].owner || records[id].owner !in Owners(top))
      ensures LexLe(records[id].percentage, records[top[i].item].percentage)
    {
      assert Owner(records[id]) == records[id].owner;
      DocumentKeyOrder(records[id], records[top[i].item]);
    }
  }
}
