/** The ordering MongoDB applies for `$sort: { field: -1 }` and the
    leaderboard pipeline every skill controller runs:
      `$match` players -> `$sort` by key, descending -> `$group` by `userId`
      keeping `$first` -> `$sort` again -> `$limit` count.
    Keys are sequences of numbers compared lexicographically, the empty
    sequence lowest: a missing number is `[]`, a number is `[n]`, an embedded
    document with numeric fields is the sequence of its fields in declared
    order (MongoDB compares embedded documents field by field). */
module Ranking {
  import opened Common

  type Key = seq<real>

  /** `a` sorts at or below `b` in ascending order. */
  predicate KeyLe(a: Key, b: Key)
    decreases |a|
  {
    if a == [] then true
    else if b == [] then false
    else if a[0] != b[0] then a[0] < b[0]
    else KeyLe(a[1..], b[1..])
  }

  /** Comparing keys compares their first members, then the rest. */
  lemma KeyLeCons(x: real, a: Key, y: real, b: Key)
    ensures KeyLe([x] + a, [y] + b) <==> x < y || (x == y && KeyLe(a, b))
  {
    assert ([x] + a)[1..] == a && ([y] + b)[1..] == b;
  }

  lemma {:induction false} KeyLeReflexive(a: Key)
    ensures KeyLe(a, a)
    decreases |a|
  {
    if a != [] {
      KeyLeReflexive(a[1..]);
    }
  }

  lemma {:induction false} KeyLeTotal(a: Key, b: Key)
    ensures KeyLe(a, b) || KeyLe(b, a)
    decreases |a|
  {
    if a != [] && b != [] && a[0] == b[0] {
      KeyLeTotal(a[1..], b[1..]);
    }
  }

  lemma {:induction false} KeyLeTransitive(a: Key, b: Key, c: Key)
    requires KeyLe(a, b) && KeyLe(b, c)
    ensures KeyLe(a, c)
    decreases |a|
  {
    if a != [] && b != [] && c != [] && a[0] == b[0] && b[0] == c[0] {
      KeyLeTransitive(a[1..], b[1..], c[1..]);
    }
  }

  /** A document tagged with its owner (`userId`) and its sort key. */
  datatype Ranked<T> = Ranked(owner: UserId, key: Key, item: T)

  /** Non-increasing by key: what `$sort: { key: -1 }` produces. */
  predicate SortedDesc<T(==)>(s: seq<Ranked<T>>) {
    forall i, j :: 0 <= i < j < |s| ==> KeyLe(s[j].key, s[i].key)
  }

  function Insert<T(==)>(x: Ranked<T>, s: seq<Ranked<T>>): (r: seq<Ranked<T>>)
    ensures multiset(r) == multiset(s) + multiset{x}
  {
    if s == [] then [x]
    else if KeyLe(s[0].key, x.key) then [x] + s
    else
      assert s == [s[0]] + s[1..];
      [s[0]] + Insert(x, s[1..])
  }

  lemma {:induction false} InsertSorted<T>(x: Ranked<T>, s: seq<Ranked<T>>)
    requires SortedDesc(s)
    ensures SortedDesc(Insert(x, s))
  {
    if s == [] {
    } else if KeyLe(s[0].key, x.key) {
      var r := [x] + s;
      forall i, j | 0 <= i < j < |r|
        ensures KeyLe(r[j].key, r[i].key)
      {
        if i == 0 && j > 1 {
          KeyLeTransitive(s[j - 1].key, s[0].key, x.key);
        }
      }
    } else {
      KeyLeTotal(s[0].key, x.key);
      var t := Insert(x, s[1..]);
      InsertSorted(x, s[1..]);
      assert forall i :: 0 <= i < |s[1..]| ==> s[1..][i] == s[i + 1];
      InsertBelow(x, s[1..], s[0].key);
      var r := [s[0]] + t;
      assert Insert(x, s) == r;
      forall i, j | 0 <= i < j < |r|
        ensures KeyLe(r[j].key, r[i].key)
      {
        if i == 0 {
          assert r[j] == t[j - 1];
        } else {
          assert r[i] == t[i - 1] && r[j] == t[j - 1];
        }
      }
    }
  }

  /** Inserting below a bound keeps every element below it. */
  lemma {:induction false} InsertBelow<T>(x: Ranked<T>, s: seq<Ranked<T>>, bound: Key)
    requires KeyLe(x.key, bound)
    requires forall i :: 0 <= i < |s| ==> KeyLe(s[i].key, bound)
    ensures forall k :: 0 <= k < |Insert(x, s)| ==> KeyLe(Insert(x, s)[k].key, bound)
  {
    if s == [] {
      assert Insert(x, s) == [x];
    } else if KeyLe(s[0].key, x.key) {
      var r := [x] + s;
      assert Insert(x, s) == r;
      assert forall k :: 0 < k < |r| ==> r[k] == s[k - 1];
    } else {
      var tail := s[1..];
      assert forall i :: 0 <= i < |tail| ==> tail[i] == s[i + 1];
      InsertBelow(x, tail, bound);
      var t := Insert(x, tail);
      var r := [s[0]] + t;
      assert Insert(x, s) == r;
      assert forall k :: 0 < k < |r| ==> r[k] == t[k - 1];
    }
  }

  /** Insertion sort, descending by key. */
  function SortDesc<T(==)>(s: seq<Ranked<T>>): (r: seq<Ranked<T>>)
    ensures multiset(r) == multiset(s)
  {
    if s == [] then []
    else
      assert s == [s[0]] + s[1..];
      Insert(s[0], SortDesc(s[1..]))
  }

  lemma {:induction false} SortDescSorted<T>(s: seq<Ranked<T>>)
    ensures SortedDesc(SortDesc(s))
  {
    if s != [] {
      SortDescSorted(s[1..]);
      InsertSorted(s[0], SortDesc(s[1..]));
    }
  }

  function Owners<T(==)>(s: seq<Ranked<T>>): set<UserId> {
    set x | x in s :: x.owner
  }

  predicate DistinctOwners<T(==)>(s: seq<Ranked<T>>) {
    forall i, j :: 0 <= i < j < |s| ==> s[i].owner != s[j].owner
  }

  lemma OwnersOfSameElements<T>(a: seq<Ranked<T>>, b: seq<Ranked<T>>)
    requires forall x :: x in a <==> x in b
    ensures Owners(a) == Owners(b)
  {
  }

  lemma {:induction false} DistinctOwnersCount<T>(s: seq<Ranked<T>>)
    requires DistinctOwners(s)
    ensures |Owners(s)| == |s|
  {
    if s != [] {
      DistinctOwnersCount(s[1..]);
      assert s == [s[0]] + s[1..];
      assert Owners(s) == Owners(s[1..]) + {s[0].owner};
      HeadOwnerNotInTail(s);
    }
  }

  lemma HeadOwnerNotInTail<T>(s: seq<Ranked<T>>)
    requires s != [] && DistinctOwners(s)
    ensures s[0].owner !in Owners(s[1..])
  {
    forall x | x in s[1..]
      ensures x.owner != s[0].owner
    {
      var k :| 0 <= k < |s[1..]| && s[1..][k] == x;
      assert s[k + 1] == x;
    }
  }

  lemma ConsDistinct<T>(a: Ranked<T>, t: seq<Ranked<T>>)
    requires DistinctOwners(t) && a.owner !in Owners(t)
    ensures DistinctOwners([a] + t)
  {
    var r := [a] + t;
    forall i, j | 0 <= i < j < |r|
      ensures r[i].owner != r[j].owner
    {
      assert r[j] == t[j - 1] && r[j] in t;
    }
  }

  /** `$group` step for one more document `y`: keep the first document seen
      with the greatest key for each owner. */
  function Upsert<T(==)>(acc: seq<Ranked<T>>, y: Ranked<T>): (r: seq<Ranked<T>>)
    requires DistinctOwners(acc)
    ensures DistinctOwners(r)
    ensures Owners(r) == Owners(acc) + {y.owner}
    ensures forall x :: x in r ==> x in acc || x == y
  {
    if acc == [] then [y]
    else if acc[0].owner == y.owner then
      if KeyLe(y.key, acc[0].key) then acc
      else
        assert acc == [acc[0]] + acc[1..];
        HeadOwnerNotInTail(acc);
        OwnersCons(acc[0], acc[1..]);
        OwnersCons(y, acc[1..]);
        ConsDistinct(y, acc[1..]);
        [y] + acc[1..]
    else
      var t := Upsert(acc[1..], y);
      assert acc == [acc[0]] + acc[1..];
      HeadOwnerNotInTail(acc);
      OwnersCons(acc[0], acc[1..]);
      OwnersCons(acc[0], t);
      ConsDistinct(acc[0], t);
      [acc[0]] + t
  }

  lemma OwnersCons<T>(a: Ranked<T>, t: seq<Ranked<T>>)
    ensures Owners([a] + t) == {a.owner} + Owners(t)
    ensures forall x :: x in [a] + t <==> x == a || x in t
  {
    assert forall x :: x in [a] + t <==> x == a || x in t;
  }

  lemma {:induction false} UpsertKeepsBest<T>(acc: seq<Ranked<T>>, y: Ranked<T>)
    requires DistinctOwners(acc)
    ensures forall x :: x in Upsert(acc, y) && x.owner == y.owner ==> KeyLe(y.key, x.key)
    ensures forall x, z :: x in Upsert(acc, y) && z in acc && x.owner == z.owner ==> KeyLe(z.key, x.key)
  {
    var r := Upsert(acc, y);
    if acc == [] {
      KeyLeReflexive(y.key);
    } else if acc[0].owner == y.owner {
      KeyLeTotal(y.key, acc[0].key);
      KeyLeReflexive(y.key);
      forall x, z | x in r && z in acc && x.owner == z.owner
        ensures KeyLe(z.key, x.key)
      {
        var j :| 0 <= j < |acc| && acc[j] == z;
        if x == y {
          assert j == 0;
        } else {
          var i :| 0 <= i < |acc| && acc[i] == x;
          assert i == j;
          KeyLeReflexive(x.key);
        }
      }
      forall x | x in r && x.owner == y.owner
        ensures KeyLe(y.key, x.key)
      {
        if x != y {
          var i :| 0 <= i < |acc| && acc[i] == x;
          assert i == 0;
        }
      }
    } else {
      UpsertKeepsBest(acc[1..], y);
      assert r == [acc[0]] + Upsert(acc[1..], y);
      HeadOwnerNotInTail(acc);
      forall x, z | x in r && z in acc && x.owner == z.owner
        ensures KeyLe(z.key, x.key)
      {
        var j :| 0 <= j < |acc| && acc[j] == z;
        if x == acc[0] {
          assert j == 0;
          KeyLeReflexive(x.key);
        } else {
          assert x in Upsert(acc[1..], y);
          assert x.owner != acc[0].owner;
          assert z == acc[1..][j - 1];
        }
      }
    }
  }

  lemma OwnersAppend<T>(p: seq<Ranked<T>>, y: Ranked<T>)
    ensures Owners(p + [y]) == Owners(p) + {y.owner}
  {
    assert forall x :: x in p + [y] <==> x in p || x == y;
  }

  /** The `$group: { _id: "$userId", topRecord: { $first: "$$ROOT" } }`
      stage after a descending sort: one document per owner. */
  function BestPerOwner<T(==)>(s: seq<Ranked<T>>): (r: seq<Ranked<T>>)
    ensures DistinctOwners(r)
    ensures Owners(r) == Owners(s)
    ensures forall x :: x in r ==> x in s
    decreases |s|
  {
    if s == [] then []
    else
      var p := s[..|s| - 1];
      assert s == p + [s[|s| - 1]];
      OwnersAppend(p, s[|s| - 1]);
      Upsert(BestPerOwner(p), s[|s| - 1])
  }

  /** Each owner's representative carries a maximal key among that owner's
      documents. */
  lemma {:induction false} BestPerOwnerIsMaximal<T>(s: seq<Ranked<T>>)
    ensures forall x, z :: x in BestPerOwner(s) && z in s && x.owner == z.owner ==> KeyLe(z.key, x.key)
    decreases |s|
  {
    if s != [] {
      var p := s[..|s| - 1];
      var y := s[|s| - 1];
      assert s == p + [y];
      var acc := BestPerOwner(p);
      BestPerOwnerIsMaximal(p);
      UpsertKeepsBest(acc, y);
      forall x, z | x in BestPerOwner(s) && z in s && x.owner == z.owner
        ensures KeyLe(z.key, x.key)
      {
        if z != y {
          assert z in p;
          assert z.owner in Owners(acc);
          var w :| w in acc && w.owner == z.owner;
          KeyLeTransitive(z.key, w.key, x.key);
        }
      }
    }
  }

  /** The leaderboard pipeline: best document per owner, sorted descending,
      limited to `count`. */
  function Top<T(==)>(s: seq<Ranked<T>>, count: nat): (r: seq<Ranked<T>>)
    ensures |r| <= count
  {
    var sorted := SortDesc(BestPerOwner(s));
    sorted[..Min(count, |sorted|)]
  }

  lemma TopMembers<T>(s: seq<Ranked<T>>, count: nat)
    ensures forall x :: x in Top(s, count) ==> x in s
  {
    TopIsValid(s, count);
  }

  /** What a correct answer to the leaderboard query is, whatever order the
      database breaks ties in. */
  ghost predicate ValidTop<T>(r: seq<Ranked<T>>, s: seq<Ranked<T>>, count: nat) {
    // every entry is one of the candidate documents
    && (forall i :: 0 <= i < |r| ==> r[i] in s)
    // ... and the best one its owner has
    && (forall i, z :: 0 <= i < |r| && z in s && z.owner == r[i].owner ==> KeyLe(z.key, r[i].key))
    // each owner at most once
    && DistinctOwners(r)
    // best first
    && SortedDesc(r)
    // `$limit`: as many owners as asked for, when there are that many
    && |r| == Min(count, |Owners(s)|)
    // no owner left out outranks anyone kept
    && (forall i, z :: 0 <= i < |r| && z in s && z.owner !in Owners(r) ==> KeyLe(z.key, r[i].key))
  }

  lemma SortDescSameElements<T>(s: seq<Ranked<T>>)
    ensures forall x :: x in SortDesc(s) <==> x in s
  {
    var t := SortDesc(s);
    forall x
      ensures x in t <==> x in s
    {
      assert x in t <==> x in multiset(t);
      assert x in s <==> x in multiset(s);
    }
  }

  /** Sorting keeps the documents, their owners and their distinctness. */
  lemma SortKeepsOwners<T>(b: seq<Ranked<T>>)
    requires DistinctOwners(b)
    ensures SortedDesc(SortDesc(b))
    ensures forall x :: x in SortDesc(b) <==> x in b
    ensures |SortDesc(b)| == |b|
    ensures Owners(SortDesc(b)) == Owners(b)
    ensures DistinctOwners(SortDesc(b))
  {
    var sorted := SortDesc(b);
    SortDescSorted(b);
    SortDescSameElements(b);
    DistinctOwnersCount(b);
    assert |sorted| == |b| by {
      assert |multiset(sorted)| == |multiset(b)|;
    }
    OwnersOfSameElements(sorted, b);
    forall i, j | 0 <= i < j < |sorted|
      ensures sorted[i].owner != sorted[j].owner
    {
      if sorted[i].owner == sorted[j].owner {
        OwnersWithRepeat(sorted, i, j);
      }
    }
  }

  /** The facts about the sorted representatives `t` of the candidates `s`
      that the leaderboard's correctness rests on. */
  ghost predicate RankedRepresentatives<T>(s: seq<Ranked<T>>, t: seq<Ranked<T>>) {
    && SortedDesc(t)
    && DistinctOwners(t)
    && Owners(t) == Owners(s)
    && |t| == |Owners(s)|
    && (forall x :: x in t ==> x in s)
    && (forall x, z :: x in t && z in s && x.owner == z.owner ==> KeyLe(z.key, x.key))
  }

  /** Sorting one best document per owner gives ranked representatives. */
  lemma SortedBestAreRepresentatives<T>(s: seq<Ranked<T>>, b: seq<Ranked<T>>)
    requires DistinctOwners(b) && Owners(b) == Owners(s)
    requires forall x :: x in b ==> x in s
    requires forall x, z :: x in b && z in s && x.owner == z.owner ==> KeyLe(z.key, x.key)
    ensures RankedRepresentatives(s, SortDesc(b))
  {
    var t := SortDesc(b);
    SortKeepsOwners(b);
    DistinctOwnersCount(b);
    forall x | x in t
      ensures x in b
    {
      assert x in multiset(t);
    }
  }

  /** Any prefix of sorted representatives is a valid leaderboard. */
  lemma {:induction false} PrefixIsValidTop<T>(s: seq<Ranked<T>>, t: seq<Ranked<T>>, count: nat)
    requires RankedRepresentatives(s, t)
    ensures ValidTop(t[..Min(count, |t|)], s, count)
  {
    var n := Min(count, |t|);
    var r := t[..n];
    forall i | 0 <= i < n
      ensures r[i] in t
    {
      assert r[i] == t[i];
    }
    forall k | 0 <= k < n
      ensures t[k].owner in Owners(r)
    {
      assert r[k] == t[k];
    }
    forall i, z | 0 <= i < n && z in s && z.owner !in Owners(r)
      ensures KeyLe(z.key, r[i].key)
    {
      assert z.owner in Owners(t);
      var w :| w in t && w.owner == z.owner;
      var k :| 0 <= k < |t| && t[k] == w;
      assert k >= n;
      KeyLeTransitive(z.key, w.key, t[i].key);
    }
  }

  lemma TopIsValid<T>(s: seq<Ranked<T>>, count: nat)
    ensures ValidTop(Top(s, count), s, count)
  {
    BestPerOwnerIsMaximal(s);
    SortedBestAreRepresentatives(s, BestPerOwner(s));
    PrefixIsValidTop(s, SortDesc(BestPerOwner(s)), count);
  }

  /** A repeated owner makes the owner set smaller than the sequence. */
  lemma {:induction false} OwnersWithRepeat<T>(s: seq<Ranked<T>>, i: nat, j: nat)
    requires i < j < |s| && s[i].owner == s[j].owner
    ensures |Owners(s)| < |s|
  {
    var t := s[..j] + s[j + 1..];
    assert s == s[..j] + [s[j]] + s[j + 1..];
    assert forall x :: x in s <==> x in t || x == s[j];
    assert s[i] in t by { assert t[i] == s[i]; }
    assert Owners(s) == Owners(t);
    OwnersAtMostLength(t);
  }

  lemma {:induction false} OwnersAtMostLength<T>(s: seq<Ranked<T>>)
    ensures |Owners(s)| <= |s|
  {
    if s != [] {
      OwnersAtMostLength(s[1..]);
      assert s == [s[0]] + s[1..];
      assert Owners(s) == Owners(s[1..]) + {s[0].owner};
    }
  }

  /** The documents a ranked list carries, in list order. */
  function Items<T>(s: seq<Ranked<T>>): (r: seq<T>)
    ensures |r| == |s|
    ensures forall i :: 0 <= i < |s| ==> r[i] == s[i].item
  {
    seq(|s|, i requires 0 <= i < |s| => s[i].item)
  }

  lemma ItemsAppend<T>(a: seq<Ranked<T>>, b: seq<Ranked<T>>)
    ensures Items(a + b) == Items(a) + Items(b)
  {
  }

  /** Reordering a ranked list reorders its documents the same way. */
  lemma {:induction false} ItemsPermutation<T>(a: seq<Ranked<T>>, b: seq<Ranked<T>>)
    requires multiset(a) == multiset(b)
    ensures multiset(Items(a)) == multiset(Items(b))
    decreases |a|
  {
    if a != [] {
      var x := a[0];
      assert x in multiset(b);
      var k :| 0 <= k < |b| && b[k] == x;
      var rest := b[..k] + b[k + 1..];
      assert b == b[..k] + [x] + b[k + 1..];
      assert a == [x] + a[1..];
      calc {
        multiset(rest);
        multiset(b[..k]) + multiset(b[k + 1..]);
        multiset(b) - multiset{x};
        multiset(a) - multiset{x};
        multiset(a[1..]);
      }
      ItemsPermutation(a[1..], rest);
      ItemsAppend(b[..k], b[k + 1..]);
      ItemsAppend(b[..k] + [x], b[k + 1..]);
      ItemsAppend(b[..k], [x]);
      ItemsAppend([x], a[1..]);
    } else {
      assert b == [];
    }
  }
}
