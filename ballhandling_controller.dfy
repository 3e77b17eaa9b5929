/** The ball-handling handlers: upload a correct/wrong video pair, have the
    scorer analyse it, delete it, and the ranked read-only views. */
module BallHandlingController {
  import opened Common
  import opened Collection
  import opened Media
  import opened Ranking
  import opened Suggestion
  import opened Queries
  import opened BallHandlingModel

  const CorrectField := "ball_handling_correct"
  const WrongField := "ball_handling_wrong"
  const VideoFolder := "videos"

  /** The collection invariant: ids below the counter, every document valid. */
  ghost predicate Consistent(db: Store<BallHandling>)
    reads db
  {
    db.Valid() && forall id :: id in db.records ==> WellFormed(db.records[id])
  }

  /** The document an upload stores, if it gets that far: both parts pass
      multer and the guard, both reach the object store, and the new
      document passes validation. */
  function UploadedDoc(user: UserId, form: Form, now: Time, storage: StorageOracle): (r: Option<BallHandling>)
    ensures r.Some? ==> PairIntake(form, CorrectField, WrongField, VideoSizeLimit).Accepted?
    ensures r.Some? ==>
      var intake := PairIntake(form, CorrectField, WrongField, VideoSizeLimit);
      && storage(UploadKey(VideoFolder, user, now, intake.first)) == Some(r.value.correctLink)
      && storage(UploadKey(VideoFolder, user, now, intake.second)) == Some(r.value.wrongLink)
    ensures r.Some? ==> r.value.owner == user && WellFormed(r.value) && !IsAnalyzed(r.value) && r.value.percentage.None?
    ensures (var intake := PairIntake(form, CorrectField, WrongField, VideoSizeLimit);
      && intake.Accepted? && user != ""
      && StoredAt(storage, UploadKey(VideoFolder, user, now, intake.first))
      && StoredAt(storage, UploadKey(VideoFolder, user, now, intake.second))) ==> r.Some?
  {
    var intake := PairIntake(form, CorrectField, WrongField, VideoSizeLimit);
    if !intake.Accepted? then None
    else
      var correctUrl := storage(UploadKey(VideoFolder, user, now, intake.first));
      var wrongUrl := storage(UploadKey(VideoFolder, user, now, intake.second));
      if correctUrl.None? || wrongUrl.None? then None
      else Create(user, correctUrl.value, wrongUrl.value, now)
  }

  /** `uploadBallHandlingVideos`. */
  method Upload(db: Store<BallHandling>, user: UserId, form: Form, now: Time, storage: StorageOracle) returns (reply: UploadReply)
    requires Consistent(db)
    modifies db
    ensures Consistent(db)
    ensures reply == FileUploadFailed <==> !FieldsAccepted(form, {CorrectField, WrongField}, VideoSizeLimit)
    ensures reply == BothVideosRequired <==> PairIntake(form, CorrectField, WrongField, VideoSizeLimit).BothRequired?
    ensures reply.Uploaded? <==> UploadedDoc(user, form, now, storage).Some?
    ensures reply.Uploaded? ==> reply.id !in old(db.records) && db.records == old(db.records)[reply.id := UploadedDoc(user, form, now, storage).value]
    ensures !reply.Uploaded? ==> db.records == old(db.records)
  {
    var intake := PairIntake(form, CorrectField, WrongField, VideoSizeLimit);
    if intake.UploadFailed? {
      return FileUploadFailed;
    }
    if intake.BothRequired? {
      return BothVideosRequired;
    }
    var correctUrl := storage(UploadKey(VideoFolder, user, now, intake.first));
    if correctUrl.None? {
      return UploadError;
    }
    var wrongUrl := storage(UploadKey(VideoFolder, user, now, intake.second));
    if wrongUrl.None? {
      return UploadError;
    }
    var doc := Create(user, correctUrl.value, wrongUrl.value, now);
    if doc.None? {
      return UploadError;
    }
    var id := db.Insert(doc.value);
    reply := Uploaded(id);
  }

  /** The reply of `analyzeBallHandling`. */
  datatype AnalyzeReply =
    | RecordNotFound
    | AlreadyAnalyzed(existingLink: string, existingPercentage: Option<real>)
    | AnalysisError
    | Analyzed(link: Option<string>, percentage: Option<real>)
  {
    function Status(): int {
      match this
      case RecordNotFound => 404
      case AlreadyAnalyzed(_, _) => 400
      case AnalysisError => 500
      case Analyzed(_, _) => 200
    }
  }

  /** The scorer's `/ball_handling` endpoint as a function of the payload. */
  type Scorer = ScorerRequest -> ScorerResponse<Option<real>>

  /** `analyzeBallHandling`: any caller may analyse any pending document;
      the scorer is asked only for a pending one. */
  method Analyze(db: Store<BallHandling>, id: RecordId, scorer: Scorer, now: Time) returns (reply: AnalyzeReply, request: Option<ScorerRequest>)
    requires Consistent(db)
    modifies db
    ensures Consistent(db)
    ensures id !in old(db.records) ==> reply == RecordNotFound && request.None? && db.records == old(db.records)
    ensures id in old(db.records) && IsAnalyzed(old(db.records)[id]) ==>
      && reply == AlreadyAnalyzed(old(db.records)[id].analyzedLink.value, old(db.records)[id].percentage)
      && request.None? && db.records == old(db.records)
    ensures id in old(db.records) && !IsAnalyzed(old(db.records)[id]) ==>
      var r := old(db.records)[id];
      && request == Some(ScorerRequest(r.correctLink, r.wrongLink))
      && match scorer(request.value)
         case ScorerError => reply == AnalysisError && db.records == old(db.records)
         case ScorerOk(url, similarity) =>
           reply == Analyzed(url, similarity) && db.records == old(db.records)[id := RecordAnalysis(r, url, similarity, now)]
  {
    if id !in db.records {
      return RecordNotFound, None;
    }
    var r := db.records[id];
    if IsAnalyzed(r) {
      return AlreadyAnalyzed(r.analyzedLink.value, r.percentage), None;
    }
    request := Some(ScorerRequest(r.correctLink, r.wrongLink));
    var response := scorer(request.value);
    if response.ScorerError? {
      return AnalysisError, request;
    }
    db.Replace(id, RecordAnalysis(r, response.fileUrl, response.similarity, now));
    reply := Analyzed(response.fileUrl, response.similarity);
  }

  /** `deleteBallHandling`: only the owner's document is removed. */
  method Delete(db: Store<BallHandling>, user: UserId, id: RecordId) returns (status: int)
    requires Consistent(db)
    modifies db
    ensures Consistent(db)
    ensures status == 200 <==> id in old(db.records) && old(db.records)[id].owner == user
    ensures status != 200 ==> status == NotFound
    ensures db.records == if status == 200 then old(db.records) - {id} else old(db.records)
    ensures forall k :: k in old(db.records) && old(db.records)[k].owner != user ==> k in db.records && db.records[k] == old(db.records)[k]
  {
    var removed := db.RemoveOwned(Owner, user, id);
    status := if removed then 200 else NotFound;
  }

  /** A client analysing the same document twice: once the scorer gave a
      file URL, the second call is refused and never reaches the scorer. */
  method AnalyzeTwice(db: Store<BallHandling>, id: RecordId, scorer: Scorer, first: Time, second: Time)
    returns (again: AnalyzeReply, secondRequest: Option<ScorerRequest>)
    requires Consistent(db) && id in db.records && !IsAnalyzed(db.records[id])
    requires var r := db.records[id];
      var response := scorer(ScorerRequest(r.correctLink, r.wrongLink));
      response.ScorerOk? && Truthy(response.fileUrl)
    modifies db
    ensures again.Status() == 400 && secondRequest.None?
    ensures again.existingLink == scorer(ScorerRequest(old(db.records)[id].correctLink, old(db.records)[id].wrongLink)).fileUrl.value
    ensures again.existingPercentage == scorer(ScorerRequest(old(db.records)[id].correctLink, old(db.records)[id].wrongLink)).similarity
    ensures var r := old(db.records)[id];
      var response := scorer(ScorerRequest(r.correctLink, r.wrongLink));
      db.records == old(db.records)[id := RecordAnalysis(r, response.fileUrl, response.similarity, first)]
  {
    var once, request := Analyze(db, id, scorer, first);
    again, secondRequest := Analyze(db, id, scorer, second);
  }

  /** `getBallHandlingMatchingPercentages`: 404 when the user has no documents, otherwise
      one entry per document, its percentage and creation time, newest first. */
  function History(records: map<RecordId, BallHandling>, user: UserId): (r: Reply<seq<Dated<Option<real>>>>)
    ensures r.Err? <==> OwnedIds(records, Owner, user) == {}
    ensures r.Err? ==> r.status == NotFound
    ensures r.Ok? ==> |r.body| == |OwnedIds(records, Owner, user)|
    ensures r.Ok? ==>
      var order := RankedIds(records, Owner, ByTime(CreatedAt), user);
      forall i :: 0 <= i < |r.body| ==> r.body[i] == Dated(Percentage(records[order[i]]), CreatedAt(records[order[i]]))
    ensures r.Ok? ==> forall i, j :: 0 <= i < j < |r.body| ==> r.body[j].createdAt <= r.body[i].createdAt
  {
    Queries.History(records, Owner, Percentage, CreatedAt, user)
  }

  /** `ballHandlingSuggestions`: one entry per document of the caller, the
      highest percentage first, so the tiers never rise along the list and
      the documents without a percentage come last. */
  function Suggestions(records: map<RecordId, BallHandling>, user: UserId): (r: Reply<seq<Suggestion>>)
    ensures r.Err? <==> OwnedIds(records, Owner, user) == {}
    ensures r.Err? ==> r.status == NotFound
    ensures r.Ok? ==> |r.body| == |OwnedIds(records, Owner, user)|
    ensures r.Ok? ==>
      var order := RankedIds(records, Owner, SortKey, user);
      forall i :: 0 <= i < |r.body| ==> r.body[i] == Suggest(Score(records[order[i]]), BallVideos)
    ensures r.Ok? ==> forall i, j :: 0 <= i < j < |r.body| ==> Tier(r.body[j], BallVideos) <= Tier(r.body[i], BallVideos)
  {
    BothVideoSetsDistinct();
    var r := Queries.Suggestions(records, Owner, SortKey, Score, BallVideos, user);
    if r.Ok? then
      var order := RankedIds(records, Owner, SortKey, user);
      forall i, j | 0 <= i < j < |r.body|
        ensures Tier(r.body[j], BallVideos) <= Tier(r.body[i], BallVideos)
      {
        SortKeyOrdersTiers(records[order[j]], records[order[i]]);
      }
      r
    else r
  }

  /** `getTopUsersByBallHandling`: for a coach and a positive count, each
      row is a player's name, e-mail and best percentage. */
  function TopUsers(records: map<RecordId, BallHandling>, users: Users, caller: UserId, count: Option<int>): (r: Reply<seq<Leader<Option<real>>>>)
    ensures r.Err? && r.status == Forbidden <==> !IsCoach(users, caller)
    ensures r.Err? && r.status == BadRequest <==> IsCoach(users, caller) && !ValidCount(count)
    ensures r.Ok? <==> IsCoach(users, caller) && ValidCount(count)
    ensures r.Ok? ==> |r.body| <= count.value
  {
    Queries.TopUsers(records, Owner, SortKey, Percentage, users, caller, count)
  }

  /** The leaderboard in the collection's own terms: distinct players of the
      coach, as many as asked for, each with the percentage of one of their
      documents, best first. */
  lemma TopUsersRows(records: map<RecordId, BallHandling>, users: Users, caller: UserId, count: nat)
    requires IsCoach(users, caller) && count > 0
    ensures
      var s := PlayerDocs(records, Owner, SortKey, users, caller);
      var top := Top(s, count);
      var rows := TopUsers(records, users, caller, Some(count)).body;
      && |rows| == |top| == Min(count, |Owners(s)|)
      && DistinctOwners(top)
      && (forall i :: 0 <= i < |top| ==>
            && top[i].owner in PlayersOf(users, caller) && top[i].item in records
            && records[top[i].item].owner == top[i].owner
            && rows[i] == Leader(users[top[i].owner].fullName, users[top[i].owner].email, records[top[i].item].percentage))
      && (forall i, j :: 0 <= i < j < |rows| ==> PercentLe(rows[j].data, rows[i].data))
  {
    var top := Top(PlayerDocs(records, Owner, SortKey, users, caller), count);
    var rows := TopUsers(records, users, caller, Some(count)).body;
    TopUsersKeys(records, Owner, SortKey, users, caller, count);
    forall i, j | 0 <= i < j < |rows|
      ensures PercentLe(rows[j].data, rows[i].data)
    {
      SortKeyOrder(records[top[j].item], records[top[i].item]);
    }
  }

  /** Each row carries its player's best percentage, and no player of the
      coach left off the board has a better document than any row. */
  lemma TopUsersBest(records: map<RecordId, BallHandling>, users: Users, caller: UserId, count: nat)
    requires IsCoach(users, caller) && count > 0
    ensures
      var top := Top(PlayerDocs(records, Owner, SortKey, users, caller), count);
      var rows := TopUsers(records, users, caller, Some(count)).body;
      forall i, id :: (0 <= i < |top| && id in records && records[id].owner in PlayersOf(users, caller) &&
        (records[id].owner == top[i].owner || records[id].owner !in Owners(top))) ==>
        PercentLe(records[id].percentage, rows[i].data)
  {
    var top := Top(PlayerDocs(records, Owner, SortKey, users, caller), count);
    TopUsersKeys(records, Owner, SortKey, users, caller, count);
    forall i, id | 0 <= i < |top| && id in records && records[id].owner in PlayersOf(users, caller) &&
        (records[id].owner == top[i].owner || records[id].owner !in Owners(top))
      ensures PercentLe(records[id].percentage, records[top[i].item].percentage)
    {
      assert Owner(records[id]) == records[id].owner;
      SortKeyOrder(records[id], records[top[i].item]);
    }
  }
}
