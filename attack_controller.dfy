/** The attack-analysis handlers: the same flow as ball handling, with a
    four-part score ranked by its `overall` member on the leaderboard. */
module AttackController {
  import opened Common
  import opened Collection
  import opened Media
  import opened Ranking
  import opened Suggestion
  import opened Queries
  import opened AttackModel

  const CorrectField := "attack_analysis_correct"
  const WrongField := "attack_analysis_wrong"
  const VideoFolder := "videos"

  /** The collection invariant: ids below the counter, every document valid. */
  ghost predicate Consistent(db: Store<AttackAnalysis>)
    reads db
  {
    db.Valid() && forall id :: id in db.records ==> WellFormed(db.records[id])
  }

  /** The document an upload stores, if it gets that far: both parts pass
      multer and the guard, both reach the object store, and the new
      document passes validation. */
  function UploadedDoc(user: UserId, form: Form, now: Time, storage: StorageOracle): (r: Option<AttackAnalysis>)
    ensures r.Some? ==> PairIntake(form, CorrectField, WrongField, VideoSizeLimit).Accepted?
    ensures r.Some? ==>
      var intake := PairIntake(form, CorrectField, WrongField, VideoSizeLimit);
      && storage(UploadKey(VideoFolder, user, now, intake.first)) == Some(r.value.correctLink)
      && storage(UploadKey(VideoFolder, user, now, intake.second)) == Some(r.value.wrongLink)
    ensures r.Some? ==> r.value.owner == user && WellFormed(r.value) && !IsAnalyzed(r.value) && r.value.percentage == ZeroScores
    ensures (var intake := PairIntake(form, CorrectField, WrongField, VideoSizeLimit);
      && intake.Accepted? && user != ""
      && StoredAt(storage, UploadKey(VideoFolder, user, now, intake.first))
      && StoredAt(storage, UploadKey(VideoFolder, user, now, intake.second))) ==> r.Some?
  {
    var intake := PairIntake(form, CorrectField, WrongField, VideoSizeLimit);
    if !intake.Accepted? then None
    else
      var correctUrl := storage(UploadKey(VideoFolder, user, now, intake.first));
      var wrongUrl := storage(UploadKey(VideoFolder, user, now, intake.second));
      if correctUrl.None? || wrongUrl.None? then None
      else Create(user, correctUrl.value, wrongUrl.value, now)
  }

  /** `uploadAttackAnalysisVideos`. */
  method Upload(db: Store<AttackAnalysis>, user: UserId, form: Form, now: Time, storage: StorageOracle) returns (reply: UploadReply)
    requires Consistent(db)
    modifies db
    ensures Consistent(db)
    ensures reply == FileUploadFailed <==> !FieldsAccepted(form, {CorrectField, WrongField}, VideoSizeLimit)
    ensures reply == BothVideosRequired <==> PairIntake(form, CorrectField, WrongField, VideoSizeLimit).BothRequired?
    ensures reply.Uploaded? <==> UploadedDoc(user, form, now, storage).Some?
    ensures reply.Uploaded? ==> reply.id !in old(db.records) && db.records == old(db.records)[reply.id := UploadedDoc(user, form, now, storage).value]
    ensures !reply.Uploaded? ==> db.records == old(db.records)
  {
    var intake := PairIntake(form, CorrectField, WrongField, VideoSizeLimit);
    if intake.UploadFailed? {
      return FileUploadFailed;
    }
    if intake.BothRequired? {
      return BothVideosRequired;
    }
    var correctUrl := storage(UploadKey(VideoFolder, user, now, intake.first));
    if correctUrl.None? {
      return UploadError;
    }
    var wrongUrl := storage(UploadKey(VideoFolder, user, now, intake.second));
    if wrongUrl.None? {
      return UploadError;
    }
    var doc := Create(user, correctUrl.value, wrongUrl.value, now);
    if doc.None? {
      return UploadError;
    }
    var id := db.Insert(doc.value);
    reply := Uploaded(id);
  }

  /** The reply of `analyzeAttackAnalysis`: a refusal echoes only the
      stored link; a success echoes the scorer's `similarity` as received. */
  datatype AnalyzeReply =
    | RecordNotFound
    | AlreadyAnalyzed(existingLink: string)
    | AnalysisError
    | Analyzed(link: Option<string>, similarity: AttackSimilarity)
  {
    function Status(): int {
      match this
      case RecordNotFound => 404
      case AlreadyAnalyzed(_) => 400
      case AnalysisError => 500
      case Analyzed(_, _) => 200
    }
  }

  /** The scorer's `/attack_analysis` endpoint as a function of the payload;
      a `None` similarity makes the handler throw when it reads a member. */
  type Scorer = ScorerRequest -> ScorerResponse<Option<AttackSimilarity>>

  /** `analyzeAttackAnalysis`: any caller may analyse any pending document;
      the scorer is asked only for a pending one, and the document is saved
      only after the whole response was read. */
  method Analyze(db: Store<AttackAnalysis>, id: RecordId, scorer: Scorer, now: Time) returns (reply: AnalyzeReply, request: Option<ScorerRequest>)
    requires Consistent(db)
    modifies db
    ensures Consistent(db)
    ensures id !in old(db.records) ==> reply == RecordNotFound && request.None? && db.records == old(db.records)
    ensures id in old(db.records) && IsAnalyzed(old(db.records)[id]) ==>
      && reply == AlreadyAnalyzed(old(db.records)[id].analyzedLink.value)
      && request.None? && db.records == old(db.records)
    ensures id in old(db.records) && !IsAnalyzed(old(db.records)[id]) ==>
      var r := old(db.records)[id];
      && request == Some(ScorerRequest(r.correctLink, r.wrongLink))
      && match scorer(request.value)
         case ScorerOk(url, Some(similarity)) =>
           reply == Analyzed(url, similarity) && db.records == old(db.records)[id := RecordAnalysis(r, url, similarity, now)]
         case _ => reply == AnalysisError && db.records == old(db.records)
  {
    if id !in db.records {
      return RecordNotFound, None;
    }
    var r := db.records[id];
    if IsAnalyzed(r) {
      return AlreadyAnalyzed(r.analyzedLink.value), None;
    }
    request := Some(ScorerRequest(r.correctLink, r.wrongLink));
    var response := scorer(request.value);
    if response.ScorerError? || response.similarity.None? {
      return AnalysisError, request;
    }
    db.Replace(id, RecordAnalysis(r, response.fileUrl, response.similarity.value, now));
    reply := Analyzed(response.fileUrl, response.similarity.value);
  }

  /** `deleteAttackAnalysis`: only the owner's document is removed. */
  method Delete(db: Store<AttackAnalysis>, user: UserId, id: RecordId) returns (status: int)
    requires Consistent(db)
    modifies db
    ensures Consistent(db)
    ensures status == 200 <==> id in old(db.records) && old(db.records)[id].owner == user
    ensures status != 200 ==> status == NotFound
    ensures db.records == if status == 200 then old(db.records) - {id} else old(db.records)
    ensures forall k :: k in old(db.records) && old(db.records)[k].owner != user ==> k in db.records && db.records[k] == old(db.records)[k]
  {
    var removed := db.RemoveOwned(Owner, user, id);
    status := if removed then 200 else NotFound;
  }

  /** `getAttackAnalysisMatchingPercentages`: 404 when the user has no documents, otherwise
      one entry per document, its score object and creation time, newest first. */
  function History(records: map<RecordId, AttackAnalysis>, user: UserId): (r: Reply<seq<Dated<AttackScores>>>)
    ensures r.Err? <==> OwnedIds(records, Owner, user) == {}
    ensures r.Err? ==> r.status == NotFound
    ensures r.Ok? ==> |r.body| == |OwnedIds(records, Owner, user)|
    ensures r.Ok? ==>
      var order := RankedIds(records, Owner, ByTime(CreatedAt), user);
      forall i :: 0 <= i < |r.body| ==> r.body[i] == Dated(Percentage(records[order[i]]), CreatedAt(records[order[i]]))
    ensures r.Ok? ==> forall i, j :: 0 <= i < j < |r.body| ==> r.body[j].createdAt <= r.body[i].createdAt
  {
    Queries.History(records, Owner, Percentage, CreatedAt, user)
  }

  /** `attackAnalysisSuggestions`: the cascade compares the whole score
      object, which passes neither threshold, so every entry echoes its
      document's scores with the beginner video. */
  function Suggestions(records: map<RecordId, AttackAnalysis>, user: UserId): (r: Reply<seq<Suggestion>>)
    ensures r.Err? <==> OwnedIds(records, Owner, user) == {}
    ensures r.Err? ==> r.status == NotFound
    ensures r.Ok? ==> |r.body| == |OwnedIds(records, Owner, user)|
    ensures r.Ok? ==>
      var order := RankedIds(records, Owner, DocumentKey, user);
      forall i :: 0 <= i < |r.body| ==>
        r.body[i] == Suggestion(Shown(Document(Fields(records[order[i]].percentage))), AttackVideos.beginner)
  {
    BothVideoSetsDistinct();
    var r := Queries.Suggestions(records, Owner, DocumentKey, Score, AttackVideos, user);
    if r.Ok? then
      var order := RankedIds(records, Owner, DocumentKey, user);
      forall i | 0 <= i < |r.body|
        ensures r.body[i] == Suggestion(Shown(Document(Fields(records[order[i]].percentage))), AttackVideos.beginner)
      {
        DocumentGetsBeginner(Fields(records[order[i]].percentage), AttackVideos);
      }
      r
    else r
  }

  /** `getTopUsersByAttackAnalysis`: for a coach and a positive count, each
      row is a player's name, e-mail and score object, and nothing else. */
  function TopUsers(records: map<RecordId, AttackAnalysis>, users: Users, caller: UserId, count: Option<int>): (r: Reply<seq<Leader<AttackScores>>>)
    ensures r.Err? && r.status == Forbidden <==> !IsCoach(users, caller)
    ensures r.Err? && r.status == BadRequest <==> IsCoach(users, caller) && !ValidCount(count)
    ensures r.Ok? <==> IsCoach(users, caller) && ValidCount(count)
    ensures r.Ok? ==> |r.body| <= count.value
  {
    Queries.TopUsers(records, Owner, OverallKey, Percentage, users, caller, count)
  }

  /** The leaderboard by `overall`: distinct players of the coach, as many
      as asked for, each with the scores of one of their documents, in
      non-increasing `overall`. */
  lemma TopUsersRows(records: map<RecordId, AttackAnalysis>, users: Users, caller: UserId, count: nat)
    requires IsCoach(users, caller) && count > 0
    ensures
      var s := PlayerDocs(records, Owner, OverallKey, users, caller);
      var top := Top(s, count);
      var rows := TopUsers(records, users, caller, Some(count)).body;
      && |rows| == |top| == Min(count, |Owners(s)|)
      && DistinctOwners(top)
      && (forall i :: 0 <= i < |top| ==>
            && top[i].owner in PlayersOf(users, caller) && top[i].item in records
            && records[top[i].item].owner == top[i].owner
            && rows[i] == Leader(users[top[i].owner].fullName, users[top[i].owner].email, records[top[i].item].percentage))
      && (forall i, j :: 0 <= i < j < |rows| ==> rows[j].data.overall <= rows[i].data.overall)
  {
    var top := Top(PlayerDocs(records, Owner, OverallKey, users, caller), count);
    var rows := TopUsers(records, users, caller, Some(count)).body;
    TopUsersKeys(records, Owner, OverallKey, users, caller, count);
    forall i, j | 0 <= i < j < |rows|
      ensures rows[j].data.overall <= rows[i].data.overall
    {
      OverallKeyOrder(records[top[j].item], records[top[i].item]);
    }
  }

  /** Each row carries a document with its player's maximal `overall`, and
      no player of the coach left off the board has a higher `overall`. */
  lemma TopUsersBest(records: map<RecordId, AttackAnalysis>, users: Users, caller: UserId, count: nat)
    requires IsCoach(users, caller) && count > 0
    ensures
      var top := Top(PlayerDocs(records, Owner, OverallKey, users, caller), count);
      var rows := TopUsers(records, users, caller, Some(count)).body;
      forall i, id :: (0 <= i < |top| && id in records && records[id].owner in PlayersOf(users, caller) &&
        (records[id].owner == top[i].owner || records[id].owner !in Owners(top))) ==>
        records[id].percentage.overall <= rows[i].data.overall
  {
    var top := Top(PlayerDocs(records, Owner, OverallKey, users, caller), count);
    TopUsersKeys(records, Owner, OverallKey, users, caller, count);
    forall i, id | 0 <= i < |top| && id in records && records[id].owner in PlayersOf(users, caller) &&
        (records[id].owner == top[i].owner || records[id].owner !in Owners(top))
      ensures records[id].percentage.overall <= records[top[i].item].percentage.overall
    {
      assert Owner(records[id]) == records[id].owner;
      OverallKeyOrder(records[id], records[top[i].item]);
    }
  }
}
