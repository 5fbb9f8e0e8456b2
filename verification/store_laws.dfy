/** Properties that relate several store operations: the invariants the
    mutations keep (unique ids, ordered timestamps), the inverse of adding,
    and what toggling twice or patching twice does. */
module StoreLaws {
  import opened Types
  import opened Seqs
  import opened Store

  /** Adding a record under an id no record has keeps ids unique. */
  lemma AddKeepsIdsUnique(st: State, d: Draft, id: string, now: Instant)
    requires IdsUnique(st.subscriptions) && IdFresh(st.subscriptions, id)
    ensures IdsUnique(AddSubscription(st, d, id, now).subscriptions)
  {
    var s := st.subscriptions;
    var r := AddSubscription(st, d, id, now).subscriptions;
    forall i, j | 0 <= i < j < |r|
      ensures r[i].id != r[j].id
    {
      assert r[i] == s[i];
      if j < |s| {
        assert r[j] == s[j];
      }
    }
  }

  /** Deleting the id of a record just added gives back the state before. */
  lemma DeleteUndoesAdd(st: State, d: Draft, id: string, now: Instant)
    requires IdFresh(st.subscriptions, id)
    ensures DeleteSubscription(AddSubscription(st, d, id, now), id) == st
  {
    var s := st.subscriptions;
    var added := AddSubscription(st, d, id, now);
    assert added.subscriptions == s + [NewRecord(d, id, now)];
    FilterSnoc(s, NewRecord(d, id, now), HasOtherId, id);
    FilterAll(s, HasOtherId, id);
  }

  /** Delete works piecewise on any collection, duplicate ids included: the
      records left from a concatenation are those left from each part, in
      order. With `DeleteOne` this fixes the result of every delete. */
  lemma DeleteDistributes(st: State, u: seq<Subscription>, v: seq<Subscription>, id: string)
    ensures DeleteSubscription(st.(subscriptions := u + v), id).subscriptions
      == DeleteSubscription(st.(subscriptions := u), id).subscriptions
         + DeleteSubscription(st.(subscriptions := v), id).subscriptions
  {
    FilterAppend(u, v, HasOtherId, id);
  }

  /** A single record is kept exactly when its id differs. */
  lemma DeleteOne(st: State, x: Subscription, id: string)
    ensures DeleteSubscription(st.(subscriptions := [x]), id).subscriptions
      == if x.id != id then [x] else []
  {
    FilterCons(x, [], HasOtherId, id);
    assert [x] + [] == [x];
  }

  /** With unique ids, deleting the id of the record at position `k` removes
      exactly that record and keeps all others in order. */
  lemma DeleteRemovesOne(st: State, id: string, k: nat)
    requires IdsUnique(st.subscriptions)
    requires k < |st.subscriptions| && st.subscriptions[k].id == id
    ensures DeleteSubscription(st, id).subscriptions
      == st.subscriptions[..k] + st.subscriptions[k + 1..]
  {
    var s := st.subscriptions;
    var a, b := s[..k], s[k + 1..];
    assert s == a + ([s[k]] + b);
    forall i | 0 <= i < |a|
      ensures HasOtherId(a[i], id)
    {
      assert a[i] == s[i];
    }
    forall i | 0 <= i < |b|
      ensures HasOtherId(b[i], id)
    {
      assert b[i] == s[k + 1 + i];
    }
    FilterAppend(a, [s[k]] + b, HasOtherId, id);
    FilterCons(s[k], b, HasOtherId, id);
    FilterAll(a, HasOtherId, id);
    FilterAll(b, HasOtherId, id);
    assert Filter([s[k]] + b, HasOtherId, id) == b;
    assert Filter(s, HasOtherId, id) == a + b;
    assert DeleteSubscription(st, id).subscriptions == Filter(s, HasOtherId, id);
  }

  /** Selecting records never creates a duplicate id. */
  lemma {:induction false} FilterKeepsIdsUnique<A>(s: seq<Subscription>, p: (Subscription, A) -> bool, a: A)
    requires IdsUnique(s)
    ensures IdsUnique(Filter(s, p, a))
  {
    if s != [] {
      var t := Filter(s[1..], p, a);
      assert IdsUnique(s[1..]) by {
        forall i, j | 0 <= i < j < |s[1..]|
          ensures s[1..][i].id != s[1..][j].id
        {
          assert s[1..][i] == s[i + 1] && s[1..][j] == s[j + 1];
        }
      }
      FilterKeepsIdsUnique(s[1..], p, a);
      if p(s[0], a) {
        var r := [s[0]] + t;
        forall i, j | 0 <= i < j < |r|
          ensures r[i].id != r[j].id
        {
          if i == 0 {
            assert r[j] in s[1..];
            var m :| 0 <= m < |s[1..]| && s[1..][m] == r[j];
            assert s[m + 1] == r[j];
          } else {
            assert r[i] == t[i - 1] && r[j] == t[j - 1];
          }
        }
      }
    }
  }

  lemma DeleteKeepsIdsUnique(st: State, id: string)
    requires IdsUnique(st.subscriptions)
    ensures IdsUnique(DeleteSubscription(st, id).subscriptions)
  {
    FilterKeepsIdsUnique(st.subscriptions, HasOtherId, id);
  }

  /** Toggling never touches an id, so ids stay unique. */
  lemma ToggleKeepsIdsUnique(st: State, id: string, now: Instant)
    requires IdsUnique(st.subscriptions)
    ensures IdsUnique(ToggleSubscriptionStatus(st, id, now).subscriptions)
  {
    var r := ToggleSubscriptionStatus(st, id, now).subscriptions;
    assert forall i :: 0 <= i < |r| ==> r[i].id == st.subscriptions[i].id;
  }

  /** A patch without an `id` property keeps ids unique. */
  lemma UpdateWithoutIdKeepsIdsUnique(st: State, id: string, p: Patch, now: Instant)
    requires IdsUnique(st.subscriptions) && p.id.None?
    ensures IdsUnique(UpdateSubscription(st, id, p, now).subscriptions)
  {
    var r := UpdateSubscription(st, id, p, now).subscriptions;
    assert forall i :: 0 <= i < |r| ==> r[i].id == st.subscriptions[i].id;
  }

  /** The patch is spread over the whole record, so a patch carrying the id
      of another record gives two records the same id. */
  lemma UpdateCanDuplicateIds(st: State, a: nat, b: nat, now: Instant)
    requires a < |st.subscriptions| && b < |st.subscriptions| && a != b
    requires IdsUnique(st.subscriptions)
    ensures var s := st.subscriptions;
      !IdsUnique(UpdateSubscription(st, s[a].id, EmptyPatch.(id := Some(s[b].id)), now).subscriptions)
  {
    var s := st.subscriptions;
    var r := UpdateSubscription(st, s[a].id, EmptyPatch.(id := Some(s[b].id)), now).subscriptions;
    assert r[a].id == s[b].id && r[b].id == s[b].id;
  }

  /** Adding stamps the new record with `now` for both timestamps. */
  lemma AddKeepsTimestampsOrdered(st: State, d: Draft, id: string, now: Instant)
    requires TimestampsOrdered(st.subscriptions)
    ensures TimestampsOrdered(AddSubscription(st, d, id, now).subscriptions)
  {
    var r := AddSubscription(st, d, id, now).subscriptions;
    assert forall i :: 0 <= i < |st.subscriptions| ==> r[i] == st.subscriptions[i];
  }

  /** With a clock that has not gone back, toggling keeps `createdAt` and
      moves `updatedAt` forward only. */
  lemma ToggleTimestamps(st: State, id: string, now: Instant)
    requires TimestampsOrdered(st.subscriptions) && NotAfter(st.subscriptions, now)
    ensures var r := ToggleSubscriptionStatus(st, id, now).subscriptions;
      TimestampsOrdered(r)
      && forall i :: 0 <= i < |r| ==>
        r[i].createdAt == st.subscriptions[i].createdAt
        && r[i].updatedAt >= st.subscriptions[i].updatedAt
  {
  }

  /** The same for an update whose patch leaves `createdAt` alone. */
  lemma UpdateTimestamps(st: State, id: string, p: Patch, now: Instant)
    requires TimestampsOrdered(st.subscriptions) && NotAfter(st.subscriptions, now)
    requires p.createdAt.None?
    ensures var r := UpdateSubscription(st, id, p, now).subscriptions;
      TimestampsOrdered(r)
      && forall i :: 0 <= i < |r| ==>
        r[i].createdAt == st.subscriptions[i].createdAt
        && r[i].updatedAt >= st.subscriptions[i].updatedAt
  {
  }

  /** Toggling twice restores every `isActive`; only `updatedAt` of the
      matching records has moved, to the second instant. */
  lemma ToggleTwice(st: State, id: string, t1: Instant, t2: Instant)
    ensures var r := ToggleSubscriptionStatus(ToggleSubscriptionStatus(st, id, t1), id, t2);
      |r.subscriptions| == |st.subscriptions| && SameFilters(r, st)
      && forall i :: 0 <= i < |st.subscriptions| ==>
        r.subscriptions[i] == (if st.subscriptions[i].id == id
                               then st.subscriptions[i].(updatedAt := t2)
                               else st.subscriptions[i])
  {
    var mid := ToggleSubscriptionStatus(st, id, t1);
    assert forall i :: 0 <= i < |st.subscriptions| ==> mid.subscriptions[i].id == st.subscriptions[i].id;
  }

  /** Sending the same update twice at the same instant is the same as once. */
  lemma UpdateIdempotent(st: State, id: string, p: Patch, now: Instant)
    ensures var once := UpdateSubscription(st, id, p, now);
      UpdateSubscription(once, id, p, now) == once
  {
    var once := UpdateSubscription(st, id, p, now);
    var twice := UpdateSubscription(once, id, p, now);
    forall i | 0 <= i < |st.subscriptions|
      ensures twice.subscriptions[i] == once.subscriptions[i]
    {
      if st.subscriptions[i].id == id {
        MergeIdempotent(st.subscriptions[i], p, now);
      }
    }
    assert twice.subscriptions == once.subscriptions;
  }
}
