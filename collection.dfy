/** A MongoDB collection seen as a map from `_id` to document. Queries that
    return documents "in natural order" list them by ascending id. */
module Collection {
  import opened Common

  predicate Increasing(s: seq<RecordId>) {
    forall i, j :: 0 <= i < j < |s| ==> s[i] < s[j]
  }

  lemma {:induction false} LeastOf(s: set<RecordId>) returns (m: RecordId)
    requires s != {}
    ensures m in s && forall x :: x in s ==> m <= x
  {
    var y :| y in s;
    if s == {y} {
      m := y;
    } else {
      var rest := LeastOf(s - {y});
      assert forall x :: x in s ==> x == y || x in s - {y};
      m := if y < rest then y else rest;
    }
  }

  /** The smallest id of a non-empty set of ids. */
  function MinId(s: set<RecordId>): (m: RecordId)
    requires s != {}
    ensures m in s && forall x :: x in s ==> m <= x
  {
    assert exists m :: m in s && forall x :: x in s ==> m <= x by {
      var least := LeastOf(s);
    }
    var m :| m in s && forall x :: x in s ==> m <= x;
    m
  }

  /** The ids of `s` in natural order, each exactly once. */
  function SortedIds(s: set<RecordId>): (r: seq<RecordId>)
    ensures Increasing(r)
    ensures forall x :: x in r <==> x in s
    ensures |r| == |s|
    decreases |s|
  {
    if s == {} then []
    else
      var m := MinId(s);
      [m] + SortedIds(s - {m})
  }

  /** The ids of the documents whose `userId` is `user`: `find({ userId })`. */
  function OwnedIds<R>(records: map<RecordId, R>, owner: R -> UserId, user: UserId): (r: set<RecordId>)
    ensures forall id :: id in r <==> id in records && owner(records[id]) == user
  {
    set id | id in records && owner(records[id]) == user
  }

  /** `find({ userId: { $in: owners } })`. */
  function IdsOwnedByAny<R>(records: map<RecordId, R>, owner: R -> UserId, owners: set<UserId>): (r: set<RecordId>)
    ensures forall id :: id in r <==> id in records && owner(records[id]) in owners
  {
    set id | id in records && owner(records[id]) in owners
  }

  /** A Mongoose model: the documents of one collection by `_id`, and the
      counter new ids are drawn from. */
  class Store<R> {
    var records: map<RecordId, R>
    var nextId: RecordId

    ghost predicate Valid()
      reads this
    {
      forall id :: id in records ==> id < nextId
    }

    constructor ()
      ensures Valid() && records == map[]
    {
      records := map[];
      nextId := 0;
    }

    /** `new Model(doc).save()`: the document gets an id no stored document has. */
    method Insert(doc: R) returns (id: RecordId)
      requires Valid()
      modifies this
      ensures Valid()
      ensures id !in old(records)
      ensures records == old(records)[id := doc]
    {
      id := nextId;
      records := records[id := doc];
      nextId := nextId + 1;
    }

    /** `doc.save()` on a document that was loaded and changed. */
    method Replace(id: RecordId, doc: R)
      requires Valid() && id in records
      modifies this
      ensures Valid()
      ensures records == old(records)[id := doc]
    {
      records := records[id := doc];
    }

    /** `findOne({ _id: id, userId: user })`, then `findByIdAndDelete(id)`
        when it found the document. */
    method RemoveOwned(owner: R -> UserId, user: UserId, id: RecordId) returns (removed: bool)
      requires Valid()
      modifies this
      ensures Valid()
      ensures removed <==> id in old(records) && owner(old(records)[id]) == user
      ensures records == if removed then old(records) - {id} else old(records)
    {
      removed := id in records && owner(records[id]) == user;
      if removed {
        Remove(id);
      }
    }

    /** `findByIdAndDelete(id)`. */
    method Remove(id: RecordId)
      requires Valid()
      modifies this
      ensures Valid()
      ensures records == old(records) - {id}
    {
      records := records - {id};
    }
  }
}
