/** Properties that cut across the store's queries: what deactivating a
    record does to every view, and worked examples of the store's
    behaviour. */
module Scenarios {
  import opened Types
  import opened Seqs
  import opened Ordering
  import opened Store
  import Text
  import Expenses

  /** Deactivating a record removes it from every upcoming list, at any
      instant and window, but not from the filtered list: it is shown there
      exactly when it was shown before. */
  lemma DeactivatedStaysListed(st: State, id: string, k: nat, now: Instant, t: Instant, days: Option<int>)
    requires k < |st.subscriptions| && st.subscriptions[k].id == id && st.subscriptions[k].isActive
    ensures var after := ToggleSubscriptionStatus(st, id, now);
      after.subscriptions[k] !in GetUpcomingRenewals(after, t, days)
      && (after.subscriptions[k] in GetFilteredSubscriptions(after)
          <==> st.subscriptions[k] in GetFilteredSubscriptions(st))
  {
    var after := ToggleSubscriptionStatus(st, id, now);
    var x, x' := st.subscriptions[k], after.subscriptions[k];
    assert x'.name == x.name && x'.category == x.category;
    assert MatchesSearch(x', st.searchTerm) == MatchesSearch(x, st.searchTerm);
    assert x' in after.subscriptions && x in st.subscriptions;
  }

  /** The state the worked examples start from: the default filters and no
      records. */
  const Empty: State := InitialState.(subscriptions := [])

  lemma SingletonDue(x: Subscription, from: Instant, to: Instant)
    ensures DueWithin([x], from, to) == if RenewsWithin(x, (from, to)) then [x] else []
  {
    FilterCons(x, [], RenewsWithin, (from, to));
    assert [x] == [x] + [];
  }

  lemma SortSingleton(x: Subscription)
    ensures SortByRenewal([x]) == [x]
  {
    assert SortBy([x], ByRenewalDate, Asc) == Insert(x, SortBy([], ByRenewalDate, Asc), ByRenewalDate, Asc);
  }

  /** The upcoming list of a store holding one record. */
  lemma UpcomingOfOne(st: State, x: Subscription, now: Instant, n: int)
    requires st.subscriptions == [x]
    ensures GetUpcomingRenewals(st, now, Some(n))
      == if RenewsWithin(x, (now, now + n * DAY)) then [x] else []
  {
    SingletonDue(x, now, now + n * DAY);
    SortSingleton(x);
    assert SortBy([], ByRenewalDate, Asc) == [];
  }

  lemma NetflixTotal(d: Draft, id: string, now: Instant)
    requires d.price == 49.99 && d.billingCycle == Monthly && d.isActive
    ensures Expenses.GetTotalMonthlyExpense(AddSubscription(Empty, d, id, now)) == 49.99
  {
    Expenses.AddChangesTotal(Empty, d, id, now);
    assert Expenses.Active([]) == [];
  }

  /** Adding an active monthly record of 49.99 renewing three days from now
      to an empty store: the seven-day list holds exactly that record, the
      two-day list is empty, and the monthly total is 49.99. */
  lemma NetflixScenario(d: Draft, id: string, now: Instant)
    requires d.price == 49.99 && d.billingCycle == Monthly && d.isActive
    requires d.renewalDate == now + 3 * DAY
    ensures var after := AddSubscription(Empty, d, id, now);
      GetUpcomingRenewals(after, now, Some(7)) == [NewRecord(d, id, now)]
      && GetUpcomingRenewals(after, now, Some(2)) == []
      && Expenses.GetTotalMonthlyExpense(after) == 49.99
  {
    var x := NewRecord(d, id, now);
    var after := AddSubscription(Empty, d, id, now);
    assert after.subscriptions == [x];
    UpcomingOfOne(after, x, now, 7);
    UpcomingOfOne(after, x, now, 2);
    NetflixTotal(d, id, now);
  }

  /** An active yearly record priced 1200 adds 100 to the monthly total. */
  lemma YearlyScenario(st: State, d: Draft, id: string, now: Instant)
    requires d.price == 1200.0 && d.billingCycle == Yearly && d.isActive
    ensures Expenses.GetTotalMonthlyExpense(AddSubscription(st, d, id, now))
      == Expenses.GetTotalMonthlyExpense(st) + 100.0
  {
    Expenses.AddChangesTotal(st, d, id, now);
  }

  /** Two records of equal price keep their store order under a price sort,
      whichever direction is chosen. */
  lemma StableTieScenario(a: Subscription, b: Subscription, order: SortOrder)
    requires a.name == "Zed" && b.name == "Ann" && a.price == 10.0 && b.price == 10.0
    ensures GetFilteredSubscriptions(State([a, b], "", "", ByPrice, order)) == [a, b]
  {
    var st := State([a, b], "", "", ByPrice, order);
    assert Text.Lower("") == [];
    assert MatchesSearch(a, "") && MatchesSearch(b, "");
    FilterAll([a, b], Matches, ("", ""));
    assert [a, b][1..] == [b];
    assert SortBy([b], ByPrice, order) == [b];
    assert !Before(b, a, ByPrice, order);
    assert SortBy([a, b], ByPrice, order) == Insert(a, [b], ByPrice, order);
  }

  /** Changing only the price of an existing record alters nothing but its
      price and update time. */
  lemma PriceUpdateScenario(st: State, k: nat, price: real, now: Instant)
    requires IdsUnique(st.subscriptions) && k < |st.subscriptions|
    ensures var s := st.subscriptions;
      var r := UpdateSubscription(st, s[k].id, EmptyPatch.(price := Some(price)), now).subscriptions;
      |r| == |s| && r[k] == s[k].(price := price, updatedAt := now)
      && forall i :: 0 <= i < |s| && i != k ==> r[i] == s[i]
  {
    MergePriceOnly(st.subscriptions[k], price, now);
  }
}
