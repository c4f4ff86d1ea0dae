/**
 * The growing list of user ids behind the parallel queries
 * (src/components/parallel.tsx): it starts at `[1, 2]`, every click on
 * "Load next user" appends one more than the largest id, and each id gets its
 * own query keyed `['user', id]`.
 */
module Parallel {

  /** The list the component starts with: users 1 and 2. */
  const InitialUserIds: seq<int> := [1, 2]

  /** The largest id of a non-empty list: an element that no element exceeds. */
  function MaxOf(ids: seq<int>): (m: int)
    requires |ids| > 0
    ensures m in ids
    ensures forall i :: 0 <= i < |ids| ==> ids[i] <= m
  {
    if |ids| == 1 then ids[0]
    else
      var rest := MaxOf(ids[1..]);
      if ids[0] >= rest then ids[0] else rest
  }

  /**
   * `addNextUserId`: the list with one more than its largest id appended. The list
   * grows by one, keeps its prefix, and the new id exceeds every old one.
   */
  function AddNextUserId(ids: seq<int>): (r: seq<int>)
    requires |ids| > 0
    ensures |r| == |ids| + 1 && r[..|ids|] == ids
    ensures forall i :: 0 <= i < |ids| ==> ids[i] < r[|ids|]
    ensures r[|ids|] == MaxOf(ids) + 1
  {
    ids + [MaxOf(ids) + 1]
  }

  /** Each id is larger than the one before it. */
  predicate StrictlyIncreasing(ids: seq<int>) {
    forall i :: 0 < i < |ids| ==> ids[i - 1] < ids[i]
  }

  /** No id occurs twice. */
  predicate NoDuplicates(ids: seq<int>) {
    forall i, j :: 0 <= i < |ids| && 0 <= j < |ids| && i != j ==> ids[i] != ids[j]
  }

  /** In a strictly increasing list every earlier id is smaller than every later one. */
  lemma {:induction false} IncreasingIsOrdered(ids: seq<int>, i: int, j: int)
    requires StrictlyIncreasing(ids)
    requires 0 <= i < j < |ids|
    ensures ids[i] < ids[j]
    decreases j - i
  {
    if i + 1 < j {
      IncreasingIsOrdered(ids, i + 1, j);
    }
  }

  /** A strictly increasing list has no duplicates. */
  lemma IncreasingHasNoDuplicates(ids: seq<int>)
    requires StrictlyIncreasing(ids)
    ensures NoDuplicates(ids)
  {
    forall i, j | 0 <= i < |ids| && 0 <= j < |ids| && i != j
      ensures ids[i] != ids[j]
    {
      if i < j { IncreasingIsOrdered(ids, i, j); } else { IncreasingIsOrdered(ids, j, i); }
    }
  }

  /** Appending the next id keeps the list strictly increasing. */
  lemma AddKeepsIncreasing(ids: seq<int>)
    requires |ids| > 0 && StrictlyIncreasing(ids)
    ensures StrictlyIncreasing(AddNextUserId(ids))
  {
    var r := AddNextUserId(ids);
    forall i | 0 < i < |r| ensures r[i - 1] < r[i] {
      if i < |ids| {
        assert r[i - 1] == ids[i - 1] && r[i] == ids[i];
      } else {
        assert r[i - 1] == ids[|ids| - 1];
      }
    }
  }

  /** The list after `clicks` clicks on "Load next user". */
  function UserIdsAfter(clicks: nat): (ids: seq<int>)
    ensures |ids| == clicks + 2
  {
    if clicks == 0 then InitialUserIds else AddNextUserId(UserIdsAfter(clicks - 1))
  }

  /** The ids are `1, 2, ..., |ids|`. */
  predicate IsOneToN(ids: seq<int>) {
    forall i :: 0 <= i < |ids| ==> ids[i] == i + 1
  }

  lemma MaxOfOneToN(ids: seq<int>)
    requires |ids| > 0 && IsOneToN(ids)
    ensures MaxOf(ids) == |ids|
  {
    var m := MaxOf(ids);
    var k :| 0 <= k < |ids| && ids[k] == m;
    assert ids[|ids| - 1] <= m;
  }

  /** Appending the next id to `1, ..., n` gives `1, ..., n + 1`. */
  lemma AddKeepsOneToN(ids: seq<int>)
    requires |ids| > 0 && IsOneToN(ids)
    ensures IsOneToN(AddNextUserId(ids))
  {
    MaxOfOneToN(ids);
    var r := AddNextUserId(ids);
    assert r == ids + [|ids| + 1];
    forall i | 0 <= i < |r| ensures r[i] == i + 1 {
      if i < |ids| { assert r[i] == ids[i]; }
    }
  }

  /**
   * After any number of clicks the list is exactly the ids `1, 2, ...,
   * clicks + 2`: never empty, and strictly increasing.
   */
  lemma {:induction false} UserIdsAreConsecutive(clicks: nat)
    ensures IsOneToN(UserIdsAfter(clicks))
    ensures StrictlyIncreasing(UserIdsAfter(clicks))
  {
    if clicks > 0 {
      UserIdsAreConsecutive(clicks - 1);
      AddKeepsOneToN(UserIdsAfter(clicks - 1));
    }
    OneToNIsIncreasing(UserIdsAfter(clicks));
  }

  lemma OneToNIsIncreasing(ids: seq<int>)
    requires IsOneToN(ids)
    ensures StrictlyIncreasing(ids)
  {
    forall i | 0 < i < |ids| ensures ids[i - 1] < ids[i] {
      assert ids[i - 1] == i && ids[i] == i + 1;
    }
  }

  /** The query key `['user', id]`. */
  datatype UserQueryKey = UserQueryKey(name: string, id: int)

  /** The queries handed to `useQueries`: one per id, in order, each keyed by `user` and the id. */
  function UserQueryKeys(ids: seq<int>): (keys: seq<UserQueryKey>)
    ensures |keys| == |ids|
    ensures forall i :: 0 <= i < |ids| ==> keys[i].name == "user" && keys[i].id == ids[i]
  {
    seq(|ids|, i requires 0 <= i < |ids| => UserQueryKey("user", ids[i]))
  }

  /** Distinct ids give pairwise distinct query keys, so no two queries share a cache entry. */
  lemma QueryKeysDistinct(ids: seq<int>)
    requires NoDuplicates(ids)
    ensures forall i, j :: 0 <= i < |ids| && 0 <= j < |ids| && i != j ==>
      UserQueryKeys(ids)[i] != UserQueryKeys(ids)[j]
  {
  }

  /** After any number of clicks, every query has a key of its own. */
  lemma ReachableKeysDistinct(clicks: nat)
    ensures var ids := UserIdsAfter(clicks);
      forall i, j :: 0 <= i < |ids| && 0 <= j < |ids| && i != j ==>
        UserQueryKeys(ids)[i] != UserQueryKeys(ids)[j]
  {
    UserIdsAreConsecutive(clicks);
    IncreasingHasNoDuplicates(UserIdsAfter(clicks));
    QueryKeysDistinct(UserIdsAfter(clicks));
  }

  /**
   * The render pass over the query results: `useQueries` answers one result
   * per query in the order of the queries, and the i-th result is shown under
   * the i-th id.
   */
  function LabelResults<R>(ids: seq<int>, results: seq<R>): (rows: seq<(int, R)>)
    requires |results| == |ids|
    ensures |rows| == |ids|
    ensures forall i :: 0 <= i < |ids| ==> rows[i] == (ids[i], results[i])
  {
    if ids == [] then [] else [(ids[0], results[0])] + LabelResults(ids[1..], results[1..])
  }

  /** The rows' React keys (the ids) are pairwise distinct whenever the ids are. */
  lemma RowKeysDistinct<R>(ids: seq<int>, results: seq<R>)
    requires |results| == |ids| && NoDuplicates(ids)
    ensures forall i, j :: 0 <= i < |ids| && 0 <= j < |ids| && i != j ==>
      LabelResults(ids, results)[i].0 != LabelResults(ids, results)[j].0
  {
  }
}
