/** The read-only handlers the three skill domains share: listing a user's
    uploads, the score history, the suggestions and the coach leaderboard.
    Each is generic in the document type; a domain supplies how to read the
    owner, the sort key and the projected fields of its documents. */
module Queries {
  import opened Common
  import opened Collection
  import opened Ranking
  import opened Suggestion

  /** A stored document together with its `_id`. */
  datatype Doc<R> = Doc(id: RecordId, fields: R)

  function DocIds<R>(docs: seq<Doc<R>>): (r: seq<RecordId>)
    ensures |r| == |docs|
    ensures forall i :: 0 <= i < |docs| ==> r[i] == docs[i].id
  {
    seq(|docs|, i requires 0 <= i < |docs| => docs[i].id)
  }

  /** `get…Videos`: 400 without a user id, 404 when the user has no
      documents, otherwise every document of the user in natural order. */
  function Videos<R(==)>(records: map<RecordId, R>, owner: R -> UserId, user: UserId): (r: Reply<seq<Doc<R>>>)
    ensures r.Err? <==> user == "" || OwnedIds(records, owner, user) == {}
    ensures r.Err? ==> r.status == (if user == "" then BadRequest else NotFound)
    ensures r.Ok? ==> Increasing(DocIds(r.body))
    ensures r.Ok? ==> forall id :: id in DocIds(r.body) <==> id in OwnedIds(records, owner, user)
    ensures r.Ok? ==> forall i :: 0 <= i < |r.body| ==> r.body[i].id in records && r.body[i].fields == records[r.body[i].id]
  {
    if user == "" then Err(BadRequest)
    else
      var ids := SortedIds(OwnedIds(records, owner, user));
      if ids == [] then Err(NotFound)
      else
        var body := seq(|ids|, i requires 0 <= i < |ids| => Doc(ids[i], records[ids[i]]));
        assert DocIds(body) == ids;
        Ok(body)
  }

  /** The given documents tagged with their owner and sort key. */
  function Candidates<R>(records: map<RecordId, R>, owner: R -> UserId, key: R -> Key, ids: seq<RecordId>): (r: seq<Ranked<RecordId>>)
    requires forall id :: id in ids ==> id in records
    ensures Items(r) == ids
    ensures forall x :: x in r ==> x.item in records && x == Ranked(owner(records[x.item]), key(records[x.item]), x.item)
  {
    var r := seq(|ids|, i requires 0 <= i < |ids| => Ranked(owner(records[ids[i]]), key(records[ids[i]]), ids[i]));
    assert forall i :: 0 <= i < |r| ==> r[i].item == ids[i];
    r
  }

  /** `find({ userId }).sort({ <key>: -1 })`: the ids of the user's
      documents, each once, highest key first. */
  function RankedIds<R>(records: map<RecordId, R>, owner: R -> UserId, key: R -> Key, user: UserId): (order: seq<RecordId>)
    ensures multiset(order) == multiset(SortedIds(OwnedIds(records, owner, user)))
    ensures |order| == |OwnedIds(records, owner, user)|
    ensures forall i :: 0 <= i < |order| ==> order[i] in records && owner(records[order[i]]) == user
    ensures forall i, j :: 0 <= i < j < |order| ==> KeyLe(key(records[order[j]]), key(records[order[i]]))
  {
    var ids := SortedIds(OwnedIds(records, owner, user));
    var c := Candidates(records, owner, key, ids);
    var s := SortDesc(c);
    SortDescSorted(c);
    SortDescSameElements(c);
    ItemsPermutation(s, c);
    KeysFollowItems(records, key, c, s);
    PermutedOwned(records, owner, user, Items(s), ids);
    Items(s)
  }

  /** A permutation of the user's ids holds only the user's documents. */
  lemma PermutedOwned<R>(records: map<RecordId, R>, owner: R -> UserId, user: UserId, order: seq<RecordId>, ids: seq<RecordId>)
    requires multiset(order) == multiset(ids)
    requires forall id :: id in ids ==> id in records && owner(records[id]) == user
    ensures |order| == |ids|
    ensures forall i :: 0 <= i < |order| ==> order[i] in records && owner(records[order[i]]) == user
  {
    assert |order| == |multiset(order)| == |multiset(ids)| == |ids|;
    forall i | 0 <= i < |order|
      ensures order[i] in records && owner(records[order[i]]) == user
    {
      assert order[i] in multiset(order);
      assert order[i] in multiset(ids);
    }
  }

  lemma KeysFollowItems<R>(records: map<RecordId, R>, key: R -> Key, c: seq<Ranked<RecordId>>, s: seq<Ranked<RecordId>>)
    requires forall x :: x in c ==> x.item in records && x.key == key(records[x.item])
    requires forall x :: x in s ==> x in c
    requires SortedDesc(s)
    ensures forall i, j :: 0 <= i < j < |s| ==> KeyLe(key(records[Items(s)[j]]), key(records[Items(s)[i]]))
  {
    forall i, j | 0 <= i < j < |s|
      ensures KeyLe(key(records[Items(s)[j]]), key(records[Items(s)[i]]))
    {
      assert s[i] in c && s[j] in c;
    }
  }

  /** Sorting key of a document by its creation time. */
  function ByTime<R>(createdAt: R -> Time): R -> Key {
    d => [createdAt(d) as real]
  }

  lemma ByTimeOrder<R>(createdAt: R -> Time, a: R, b: R)
    requires KeyLe(ByTime(createdAt)(a), ByTime(createdAt)(b))
    ensures createdAt(a) <= createdAt(b)
  {
    assert ByTime(createdAt)(a) == [createdAt(a) as real];
    assert ByTime(createdAt)(b) == [createdAt(b) as real];
  }

  /** One element of a score history: the score and when it was created. */
  datatype Dated<P> = Dated(score: P, createdAt: Time)

  function DatedAt<R, P>(records: map<RecordId, R>, score: R -> P, createdAt: R -> Time, order: seq<RecordId>): (r: seq<Dated<P>>)
    requires forall i :: 0 <= i < |order| ==> order[i] in records
    ensures |r| == |order|
    ensures forall i :: 0 <= i < |order| ==> r[i] == Dated(score(records[order[i]]), createdAt(records[order[i]]))
  {
    seq(|order|, i requires 0 <= i < |order| => Dated(score(records[order[i]]), createdAt(records[order[i]])))
  }

  lemma NewestFirst<R, P>(records: map<RecordId, R>, score: R -> P, createdAt: R -> Time, order: seq<RecordId>)
    requires forall i :: 0 <= i < |order| ==> order[i] in records
    requires forall i, j :: 0 <= i < j < |order| ==> KeyLe(ByTime(createdAt)(records[order[j]]), ByTime(createdAt)(records[order[i]]))
    ensures var body := DatedAt(records, score, createdAt, order);
      forall i, j :: 0 <= i < j < |body| ==> body[j].createdAt <= body[i].createdAt
  {
    forall i, j | 0 <= i < j < |order|
      ensures createdAt(records[order[j]]) <= createdAt(records[order[i]])
    {
      ByTimeOrder(createdAt, records[order[j]], records[order[i]]);
    }
  }

  /** `get…MatchingPercentages`: 404 when the user has no documents,
      otherwise the score and creation time of each, newest first. */
  function History<R, P>(records: map<RecordId, R>, owner: R -> UserId, score: R -> P, createdAt: R -> Time, user: UserId): (r: Reply<seq<Dated<P>>>)
    ensures r.Err? <==> OwnedIds(records, owner, user) == {}
    ensures r.Err? ==> r.status == NotFound
    ensures r.Ok? ==>
      var order := RankedIds(records, owner, ByTime(createdAt), user);
      && |r.body| == |order|
      && forall i :: 0 <= i < |order| ==> r.body[i] == Dated(score(records[order[i]]), createdAt(records[order[i]]))
    ensures r.Ok? ==> forall i, j :: 0 <= i < j < |r.body| ==> r.body[j].createdAt <= r.body[i].createdAt
  {
    var order := RankedIds(records, owner, ByTime(createdAt), user);
    if order == [] then Err(NotFound)
    else
      NewestFirst(records, score, createdAt, order);
      Ok(DatedAt(records, score, createdAt, order))
  }

  /** `…Suggestions`: 404 when the user has no documents, otherwise one
      suggestion per document, in the order of the key. */
  function Suggestions<R>(records: map<RecordId, R>, owner: R -> UserId, key: R -> Key, score: R -> ScoreValue, videos: VideoSet, user: UserId): (r: Reply<seq<Suggestion>>)
    requires DistinctVideos(videos)
    ensures r.Err? <==> OwnedIds(records, owner, user) == {}
    ensures r.Err? ==> r.status == NotFound
    ensures r.Ok? ==>
      var order := RankedIds(records, owner, key, user);
      && |r.body| == |order|
      && forall i :: 0 <= i < |order| ==> r.body[i] == Suggest(score(records[order[i]]), videos)
  {
    var order := RankedIds(records, owner, key, user);
    if OwnedIds(records, owner, user) == {} then Err(NotFound)
    else Ok(SuggestedAt(records, score, videos, order))
  }

  /** The suggestion for each of the given documents, in that order. */
  function SuggestedAt<R>(records: map<RecordId, R>, score: R -> ScoreValue, videos: VideoSet, order: seq<RecordId>): (r: seq<Suggestion>)
    requires DistinctVideos(videos)
    requires forall i :: 0 <= i < |order| ==> order[i] in records
    ensures |r| == |order|
    ensures forall i :: 0 <= i < |order| ==> r[i] == Suggest(score(records[order[i]]), videos)
  {
    seq(|order|, i requires 0 <= i < |order| => Suggest(score(records[order[i]]), videos))
  }

  /** The documents of every player who selected `coach`, in natural order:
      the input of the leaderboard pipeline after `$match`. */
  function PlayerDocs<R>(records: map<RecordId, R>, owner: R -> UserId, key: R -> Key, users: Users, coach: UserId): (s: seq<Ranked<RecordId>>)
    ensures forall x :: x in s ==> x.item in records && x == Ranked(owner(records[x.item]), key(records[x.item]), x.item)
    ensures forall x :: x in s ==> x.owner in PlayersOf(users, coach)
    ensures forall id :: id in records && owner(records[id]) in PlayersOf(users, coach) ==> id in Items(s)
  {
    var ids := SortedIds(IdsOwnedByAny(records, owner, PlayersOf(users, coach)));
    Candidates(records, owner, key, ids)
  }

  /** One leaderboard row after `$lookup`/`$unwind`/`$project`. */
  datatype Leader<E> = Leader(fullName: string, email: string, data: E)

  /** `getTopUsersBy…`: 403 unless the caller is a coach, 400 for a missing
      or non-positive count, otherwise the best document of each of the
      coach's players, best first, at most `count` of them. */
  function TopUsers<R, E>(records: map<RecordId, R>, owner: R -> UserId, key: R -> Key, project: R -> E,
                          users: Users, caller: UserId, count: Option<int>): (r: Reply<seq<Leader<E>>>)
    ensures r.Err? && r.status == Forbidden <==> !IsCoach(users, caller)
    ensures r.Err? && r.status == BadRequest <==> IsCoach(users, caller) && !ValidCount(count)
    ensures r.Ok? <==> IsCoach(users, caller) && ValidCount(count)
    ensures r.Ok? ==>
      var top := Top(PlayerDocs(records, owner, key, users, caller), count.value);
      && |r.body| == |top|
      && forall i :: 0 <= i < |top| ==>
           && top[i].owner in users && top[i].item in records
           && r.body[i] == Leader(users[top[i].owner].fullName, users[top[i].owner].email, project(records[top[i].item]))
  {
    if !IsCoach(users, caller) then Err(Forbidden)
    else if !ValidCount(count) then Err(BadRequest)
    else
      var top := Top(PlayerDocs(records, owner, key, users, caller), count.value);
      TopRowsResolve(records, owner, key, users, caller, count.value);
      Ok(Rows(records, project, users, top))
  }

  /** Every leaderboard entry names a stored document and a known user. */
  lemma TopRowsResolve<R>(records: map<RecordId, R>, owner: R -> UserId, key: R -> Key, users: Users, caller: UserId, count: nat)
    ensures var top := Top(PlayerDocs(records, owner, key, users, caller), count);
      forall i :: 0 <= i < |top| ==> top[i].owner in users && top[i].item in records
  {
    var s := PlayerDocs(records, owner, key, users, caller);
    var top := Top(s, count);
    TopMembers(s, count);
    forall i | 0 <= i < |top|
      ensures top[i].owner in users && top[i].item in records
    {
      assert top[i] in top;
      assert top[i] in s;
    }
  }

  /** `$lookup` of each row's user, then `$project` of name, e-mail and data. */
  function Rows<R, E>(records: map<RecordId, R>, project: R -> E, users: Users, top: seq<Ranked<RecordId>>): (rows: seq<Leader<E>>)
    requires forall i :: 0 <= i < |top| ==> top[i].owner in users && top[i].item in records
    ensures |rows| == |top|
    ensures forall i :: 0 <= i < |top| ==>
      rows[i] == Leader(users[top[i].owner].fullName, users[top[i].owner].email, project(records[top[i].item]))
  {
    seq(|top|, i requires 0 <= i < |top| =>
      Leader(users[top[i].owner].fullName, users[top[i].owner].email, project(records[top[i].item])))
  }

  /** The leaderboard rows are a valid answer to the ranking query over the
      coach's players' documents: see `Ranking.ValidTop`. */
  lemma TopUsersIsValidTop<R>(records: map<RecordId, R>, owner: R -> UserId, key: R -> Key, users: Users, caller: UserId, count: nat)
    ensures ValidTop(Top(PlayerDocs(records, owner, key, users, caller), count), PlayerDocs(records, owner, key, users, caller), count)
  {
    TopIsValid(PlayerDocs(records, owner, key, users, caller), count);
  }

  /** A valid leaderboard over tagged documents, read back onto the
      documents themselves. */
  lemma {:induction false} ValidTopOnRecords<R>(records: map<RecordId, R>, owner: R -> UserId, key: R -> Key, players: set<UserId>,
                                                s: seq<Ranked<RecordId>>, top: seq<Ranked<RecordId>>, count: nat)
    requires ValidTop(top, s, count)
    requires forall x :: x in s ==> x.item in records && x == Ranked(owner(records[x.item]), key(records[x.item]), x.item) && x.owner in players
    requires forall id :: id in records && owner(records[id]) in players ==> id in Items(s)
    ensures forall i :: 0 <= i < |top| ==>
      && top[i].item in records && top[i].owner == owner(records[top[i].item])
      && top[i].key == key(records[top[i].item]) && top[i].owner in players
    ensures forall i, j :: 0 <= i < j < |top| ==> KeyLe(key(records[top[j].item]), key(records[top[i].item]))
    ensures forall i, id :: (0 <= i < |top| && id in records && owner(records[id]) in players &&
      (owner(records[id]) == top[i].owner || owner(records[id]) !in Owners(top))) ==>
      KeyLe(key(records[id]), key(records[top[i].item]))
  {
    assert forall i :: 0 <= i < |top| ==> top[i] in s;
    forall i, id | 0 <= i < |top| && id in records && owner(records[id]) in players &&
        (owner(records[id]) == top[i].owner || owner(records[id]) !in Owners(top))
      ensures KeyLe(key(records[id]), key(records[top[i].item]))
    {
      assert id in Items(s);
      var k :| 0 <= k < |s| && s[k].item == id;
      assert s[k] in s;
    }
  }

  /** `TopUsersIsValidTop` read back onto the stored documents: each row
      is a player's document, the players are distinct and as many as asked
      for, the rows are ordered by key, each is its player's best, and no
      player left out has a better document. */
  lemma TopUsersKeys<R>(records: map<RecordId, R>, owner: R -> UserId, key: R -> Key, users: Users, caller: UserId, count: nat)
    ensures
      var s := PlayerDocs(records, owner, key, users, caller);
      var top := Top(s, count);
      && |top| == Min(count, |Owners(s)|)
      && DistinctOwners(top)
      && (forall i :: 0 <= i < |top| ==>
            && top[i].item in records && top[i].owner == owner(records[top[i].item])
            && top[i].key == key(records[top[i].item]) && top[i].owner in PlayersOf(users, caller))
      && (forall i, j :: 0 <= i < j < |top| ==> KeyLe(key(records[top[j].item]), key(records[top[i].item])))
      && (forall i, id :: (0 <= i < |top| && id in records && owner(records[id]) in PlayersOf(users, caller) &&
            (owner(records[id]) == top[i].owner || owner(records[id]) !in Owners(top))) ==>
            KeyLe(key(records[id]), key(records[top[i].item])))
  {
    var s := PlayerDocs(records, owner, key, users, caller);
    TopUsersIsValidTop(records, owner, key, users, caller, count);
    ValidTopOnRecords(records, owner, key, PlayersOf(users, caller), s, Top(s, count), count);
  }
}
