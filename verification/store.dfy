/** The subscription store: its initial state, the four record mutations,
    the four filter setters, and the filtered/sorted list and upcoming
    renewals it derives. Every operation is a pure function from the old
    state (plus the clock reading `now` and, for adding, the generated id)
    to the new state or to the derived list. */
module Store {
  import opened Types
  import opened Seqs
  import opened Ordering
  import Text

  // ---------------------------------------------------------------------
  // Initial state
  // ---------------------------------------------------------------------

  /** The three sample records the store starts with (Netflix, Spotify,
      Adobe Creative Cloud), dates as UTC instants. */
  const DefaultSubscriptions: seq<Subscription> := [
    Subscription("1", "Netflix", 49.99, 1707955200000, "فيزا", "ترفيه",
      Some("خطة العائلة"), true, "#E50914", "Play", "ريال", Monthly,
      1705312800000, 1705312800000),
    Subscription("2", "Spotify", 19.99, 1708387200000, "ماستركارد", "موسيقى",
      Some("خطة بريميوم"), true, "#1DB954", "Music", "ريال", Monthly,
      1705744800000, 1705744800000),
    Subscription("3", "Adobe Creative Cloud", 199.99, 1707523200000, "فيزا", "إنتاجية",
      Some("خطة كاملة للمصممين"), true, "#FF0000", "Palette", "ريال", Monthly,
      1704880800000, 1704880800000)
  ]

  /** No search term, no category filter, sorted by renewal date ascending. */
  const InitialState: State := State(DefaultSubscriptions, "", "", ByRenewalDate, Asc)

  lemma InitialStateWellFormed()
    ensures IdsUnique(InitialState.subscriptions)
    ensures TimestampsOrdered(InitialState.subscriptions)
    ensures forall i :: 0 <= i < |InitialState.subscriptions| ==> InitialState.subscriptions[i].price >= 0.0
  {
  }

  /** The filter and sort fields of the two states agree. */
  predicate SameFilters(a: State, b: State) {
    a.searchTerm == b.searchTerm && a.filterCategory == b.filterCategory
    && a.sortBy == b.sortBy && a.sortOrder == b.sortOrder
  }

  // ---------------------------------------------------------------------
  // Mutations
  // ---------------------------------------------------------------------

  /** The record carries every field of the draft. */
  predicate Carries(sub: Subscription, d: Draft) {
    sub.name == d.name && sub.price == d.price && sub.renewalDate == d.renewalDate
    && sub.paymentMethod == d.paymentMethod && sub.category == d.category
    && sub.notes == d.notes && sub.isActive == d.isActive && sub.color == d.color
    && sub.icon == d.icon && sub.currency == d.currency && sub.billingCycle == d.billingCycle
  }

  /** The record `addSubscription` builds: the draft, the generated id and
      the current instant as both timestamps. */
  function NewRecord(d: Draft, id: string, now: Instant): (r: Subscription)
    ensures Carries(r, d)
    ensures r.id == id && r.createdAt == now && r.updatedAt == now
  {
    Subscription(id, d.name, d.price, d.renewalDate, d.paymentMethod, d.category, d.notes,
      d.isActive, d.color, d.icon, d.currency, d.billingCycle, now, now)
  }

  /** `addSubscription`: appends one new record at the end. `id` is the value
      `generateId` produced and `now` the clock reading. */
  function AddSubscription(st: State, d: Draft, id: string, now: Instant): (r: State)
    ensures |r.subscriptions| == |st.subscriptions| + 1
    ensures r.subscriptions[..|st.subscriptions|] == st.subscriptions
    ensures var last := r.subscriptions[|st.subscriptions|];
      Carries(last, d) && last.id == id && last.createdAt == now && last.updatedAt == now
    ensures SameFilters(r, st)
  {
    st.(subscriptions := st.subscriptions + [NewRecord(d, id, now)])
  }

  /** `{...sub, ...patch, updatedAt: now}`: every property present in the
      patch overrides the record's, including `id` and `createdAt`; the
      patch's own `updatedAt` is always overridden by `now`. */
  function Merge(sub: Subscription, p: Patch, now: Instant): (r: Subscription)
    ensures r.updatedAt == now
    ensures p.id.None? ==> r.id == sub.id
    ensures p.id.Some? ==> r.id == p.id.value
    ensures p.createdAt.None? ==> r.createdAt == sub.createdAt
    ensures p.createdAt.Some? ==> r.createdAt == p.createdAt.value
    ensures p.price.Some? ==> r.price == p.price.value
    ensures p.price.None? ==> r.price == sub.price
    ensures r.name == (if p.name.Some? then p.name.value else sub.name)
    ensures r.renewalDate == (if p.renewalDate.Some? then p.renewalDate.value else sub.renewalDate)
    ensures r.paymentMethod == (if p.paymentMethod.Some? then p.paymentMethod.value else sub.paymentMethod)
    ensures r.category == (if p.category.Some? then p.category.value else sub.category)
    ensures r.notes == (if p.notes.Some? then p.notes.value else sub.notes)
    ensures r.isActive == (if p.isActive.Some? then p.isActive.value else sub.isActive)
    ensures r.color == (if p.color.Some? then p.color.value else sub.color)
    ensures r.icon == (if p.icon.Some? then p.icon.value else sub.icon)
    ensures r.currency == (if p.currency.Some? then p.currency.value else sub.currency)
    ensures r.billingCycle == (if p.billingCycle.Some? then p.billingCycle.value else sub.billingCycle)
  {
    Subscription(
      p.id.GetOr(sub.id),
      p.name.GetOr(sub.name),
      p.price.GetOr(sub.price),
      p.renewalDate.GetOr(sub.renewalDate),
      p.paymentMethod.GetOr(sub.paymentMethod),
      p.category.GetOr(sub.category),
      p.notes.GetOr(sub.notes),
      p.isActive.GetOr(sub.isActive),
      p.color.GetOr(sub.color),
      p.icon.GetOr(sub.icon),
      p.currency.GetOr(sub.currency),
      p.billingCycle.GetOr(sub.billingCycle),
      p.createdAt.GetOr(sub.createdAt),
      now)
  }

  /** An empty patch changes nothing but the update time. */
  lemma MergeEmptyPatch(sub: Subscription, now: Instant)
    ensures Merge(sub, EmptyPatch, now) == sub.(updatedAt := now)
  {
  }

  /** Applying the same patch again at the same instant changes nothing. */
  lemma MergeIdempotent(sub: Subscription, p: Patch, now: Instant)
    ensures Merge(Merge(sub, p, now), p, now) == Merge(sub, p, now)
  {
  }

  /** A patch that sets only the price changes only price and updatedAt. */
  lemma MergePriceOnly(sub: Subscription, price: real, now: Instant)
    ensures Merge(sub, EmptyPatch.(price := Some(price)), now)
      == sub.(price := price, updatedAt := now)
  {
  }

  /** `updateSubscription`: merges the patch into every record with the id;
      when no record has the id the state is returned unchanged. */
  function UpdateSubscription(st: State, id: string, p: Patch, now: Instant): (r: State)
    ensures |r.subscriptions| == |st.subscriptions|
    ensures forall i :: 0 <= i < |st.subscriptions| && st.subscriptions[i].id != id ==>
      r.subscriptions[i] == st.subscriptions[i]
    ensures forall i :: 0 <= i < |st.subscriptions| && st.subscriptions[i].id == id ==>
      r.subscriptions[i] == Merge(st.subscriptions[i], p, now)
    ensures IdFresh(st.subscriptions, id) ==> r == st
    ensures SameFilters(r, st)
  {
    var s := st.subscriptions;
    var s' := seq(|s|, i requires 0 <= i < |s| => if s[i].id == id then Merge(s[i], p, now) else s[i]);
    assert IdFresh(s, id) ==> s' == s;
    st.(subscriptions := s')
  }

  predicate HasOtherId(sub: Subscription, id: string) {
    sub.id != id
  }

  /** `deleteSubscription`: keeps, in order, the records whose id differs. */
  function DeleteSubscription(st: State, id: string): (r: State)
    ensures forall x :: x in r.subscriptions <==> x in st.subscriptions && x.id != id
    ensures forall x :: (multiset(r.subscriptions)[x]
                         == if x.id != id then multiset(st.subscriptions)[x] else 0)
    ensures IdFresh(r.subscriptions, id)
    ensures |r.subscriptions| <= |st.subscriptions|
    ensures IdFresh(st.subscriptions, id) ==> r == st
    ensures SameFilters(r, st)
  {
    var s := st.subscriptions;
    assert IdFresh(s, id) ==> Filter(s, HasOtherId, id) == s by {
      if IdFresh(s, id) {
        FilterAll(s, HasOtherId, id);
      }
    }
    assert forall x :: (multiset(Filter(s, HasOtherId, id))[x]
                        == if x.id != id then multiset(s)[x] else 0) by {
      forall x {
        FilterCount(s, HasOtherId, id, x);
      }
    }
    st.(subscriptions := Filter(s, HasOtherId, id))
  }

  /** `toggleSubscriptionStatus`: flips `isActive` and refreshes `updatedAt`
      on the records with the id, and on no others. */
  function ToggleSubscriptionStatus(st: State, id: string, now: Instant): (r: State)
    ensures |r.subscriptions| == |st.subscriptions|
    ensures forall i :: 0 <= i < |st.subscriptions| && st.subscriptions[i].id != id ==>
      r.subscriptions[i] == st.subscriptions[i]
    ensures forall i :: 0 <= i < |st.subscriptions| && st.subscriptions[i].id == id ==>
      var before := st.subscriptions[i];
      r.subscriptions[i].isActive == !before.isActive
      && r.subscriptions[i] == before.(isActive := r.subscriptions[i].isActive, updatedAt := now)
    ensures IdFresh(st.subscriptions, id) ==> r == st
    ensures SameFilters(r, st)
  {
    var s := st.subscriptions;
    var s' := seq(|s|, i requires 0 <= i < |s| =>
      if s[i].id == id then s[i].(isActive := !s[i].isActive, updatedAt := now) else s[i]);
    assert IdFresh(s, id) ==> s' == s;
    st.(subscriptions := s')
  }

  // ---------------------------------------------------------------------
  // Filter setters
  // ---------------------------------------------------------------------

  function SetSearchTerm(st: State, term: string): (r: State)
    ensures r.searchTerm == term
    ensures r.subscriptions == st.subscriptions && r.filterCategory == st.filterCategory
    ensures r.sortBy == st.sortBy && r.sortOrder == st.sortOrder
  {
    st.(searchTerm := term)
  }

  function SetFilterCategory(st: State, category: string): (r: State)
    ensures r.filterCategory == category
    ensures r.subscriptions == st.subscriptions && r.searchTerm == st.searchTerm
    ensures r.sortBy == st.sortBy && r.sortOrder == st.sortOrder
  {
    st.(filterCategory := category)
  }

  function SetSortBy(st: State, key: SortKey): (r: State)
    ensures r.sortBy == key
    ensures r.subscriptions == st.subscriptions && r.searchTerm == st.searchTerm
    ensures r.filterCategory == st.filterCategory && r.sortOrder == st.sortOrder
  {
    st.(sortBy := key)
  }

  function SetSortOrder(st: State, order: SortOrder): (r: State)
    ensures r.sortOrder == order
    ensures r.subscriptions == st.subscriptions && r.searchTerm == st.searchTerm
    ensures r.filterCategory == st.filterCategory && r.sortBy == st.sortBy
  {
    st.(sortOrder := order)
  }

  // ---------------------------------------------------------------------
  // Filtered and sorted list
  // ---------------------------------------------------------------------

  /** The lower-cased name or category contains the lower-cased term. */
  predicate MatchesSearch(sub: Subscription, term: string) {
    Text.Contains(Text.Lower(sub.name), Text.Lower(term))
    || Text.Contains(Text.Lower(sub.category), Text.Lower(term))
  }

  /** An empty filter or `all` admits every category; otherwise exact equality. */
  predicate MatchesCategory(sub: Subscription, filterCategory: string) {
    filterCategory == "" || filterCategory == "all" || sub.category == filterCategory
  }

  /** Both conditions, with the (search term, category filter) pair as parameter. */
  predicate Matches(sub: Subscription, f: (string, string)) {
    MatchesSearch(sub, f.0) && MatchesCategory(sub, f.1)
  }

  /** The records that pass the search and category filter, in store order. */
  function Matching(st: State): seq<Subscription> {
    Filter(st.subscriptions, Matches, (st.searchTerm, st.filterCategory))
  }

  /** `getFilteredSubscriptions`: exactly the matching records (active or
      not), rearranged by the chosen key and direction, ties in store order. */
  function GetFilteredSubscriptions(st: State): (r: seq<Subscription>)
    ensures forall x :: x in r <==>
      x in st.subscriptions && MatchesSearch(x, st.searchTerm) && MatchesCategory(x, st.filterCategory)
    ensures multiset(r) == multiset(Matching(st))
    ensures Sorted(r, st.sortBy, st.sortOrder)
    ensures forall k :: KeyClass(r, k, st.sortBy) == KeyClass(Matching(st), k, st.sortBy)
  {
    var m := Matching(st);
    SortBySpec(m, st.sortBy, st.sortOrder);
    assert forall x :: x in SortBy(m, st.sortBy, st.sortOrder) <==> x in multiset(m);
    SortBy(m, st.sortBy, st.sortOrder)
  }

  /** With an empty search term and no category filter, the list holds
      every record of the store. */
  lemma NoFilterKeepsAll(st: State)
    requires st.searchTerm == "" && (st.filterCategory == "" || st.filterCategory == "all")
    ensures multiset(GetFilteredSubscriptions(st)) == multiset(st.subscriptions)
  {
    forall i | 0 <= i < |st.subscriptions|
      ensures Matches(st.subscriptions[i], (st.searchTerm, st.filterCategory))
    {
      assert Text.Lower(st.searchTerm) == [];
    }
    FilterAll(st.subscriptions, Matches, (st.searchTerm, st.filterCategory));
  }

  /** The search is a substring test at some position of the lower-cased name
      or category. */
  lemma SearchIsSubstring(sub: Subscription, term: string)
    ensures MatchesSearch(sub, term) <==>
      (exists i :: Text.OccursAt(Text.Lower(sub.name), Text.Lower(term), i))
      || (exists i :: Text.OccursAt(Text.Lower(sub.category), Text.Lower(term), i))
  {
    Text.ContainsIffOccurs(Text.Lower(sub.name), Text.Lower(term));
    Text.ContainsIffOccurs(Text.Lower(sub.category), Text.Lower(term));
  }

  // ---------------------------------------------------------------------
  // Upcoming renewals
  // ---------------------------------------------------------------------

  /** The window length used when the caller gives none. */
  const DefaultUpcomingDays: int := 7

  /** Active and renewing inside the closed window [w.0, w.1]. */
  predicate RenewsWithin(sub: Subscription, w: (Instant, Instant)) {
    sub.isActive && w.0 <= sub.renewalDate <= w.1
  }

  /** The active records renewing inside the window, store order. */
  function DueWithin(s: seq<Subscription>, from: Instant, to: Instant): seq<Subscription> {
    Filter(s, RenewsWithin, (from, to))
  }

  /** `getUpcomingRenewals(days = 7)`: the active records whose renewal instant
      lies between the current instant and `days` days later, both ends
      included, earliest first, ties in store order. The sort state of the
      store plays no part. */
  function GetUpcomingRenewals(st: State, now: Instant, days: Option<int>): (r: seq<Subscription>)
    ensures forall x :: x in r <==>
      x in st.subscriptions && x.isActive
      && now <= x.renewalDate <= now + days.GetOr(DefaultUpcomingDays) * DAY
    ensures forall i, j :: 0 <= i < j < |r| ==> r[i].renewalDate <= r[j].renewalDate
    ensures multiset(r) == multiset(DueWithin(st.subscriptions, now, now + days.GetOr(DefaultUpcomingDays) * DAY))
    ensures forall k :: (KeyClass(r, k, ByRenewalDate)
      == KeyClass(DueWithin(st.subscriptions, now, now + days.GetOr(DefaultUpcomingDays) * DAY), k, ByRenewalDate))
  {
    SortByRenewal(DueWithin(st.subscriptions, now, now + days.GetOr(DefaultUpcomingDays) * DAY))
  }

  /** The calendar day (UTC) an instant falls on. */
  function DayOf(t: Instant): int {
    t / DAY
  }

  /** The instants of day `q` are those from `q * DAY` up to the next day. */
  lemma DayOfIs(t: Instant, q: int)
    requires q * DAY <= t < q * DAY + DAY
    ensures DayOf(t) == q
  {
  }

  /** Active and renewing on a calendar day in [w.0, w.1]. */
  predicate RenewsOnDays(sub: Subscription, w: (int, int)) {
    sub.isActive && w.0 <= DayOf(sub.renewalDate) <= w.1
  }

  /** Upcoming renewals counted in calendar days from today, today included:
      the window the "today" list of the notifications page needs. */
  function UpcomingRenewalsByDay(st: State, now: Instant, days: Option<int>): (r: seq<Subscription>)
    ensures forall x :: x in r <==>
      x in st.subscriptions && x.isActive
      && DayOf(now) <= DayOf(x.renewalDate) <= DayOf(now) + days.GetOr(DefaultUpcomingDays)
    ensures forall i, j :: 0 <= i < j < |r| ==> r[i].renewalDate <= r[j].renewalDate
  {
    SortByRenewal(Filter(st.subscriptions, RenewsOnDays, (DayOf(now), DayOf(now) + days.GetOr(DefaultUpcomingDays))))
  }

  /** A record renewing on the current calendar day is listed by the day-based
      window for every non-negative window length. */
  lemma ByDayListsTodaysRenewals(st: State, now: Instant, days: Option<int>, x: Subscription)
    requires x in st.subscriptions && x.isActive
    requires DayOf(x.renewalDate) == DayOf(now)
    requires days.GetOr(DefaultUpcomingDays) >= 0
    ensures x in UpcomingRenewalsByDay(st, now, days)
  {
  }

  /** With a zero-day window the instant-based query lists only records
      renewing at exactly the current millisecond. */
  lemma ZeroDayWindowIsOneInstant(st: State, now: Instant)
    ensures forall x :: x in GetUpcomingRenewals(st, now, Some(0)) ==> x.renewalDate == now
  {
  }

  /** With a zero-day window, no record renewing at exactly `now` means an
      empty list. */
  lemma NothingDueAtInstant(st: State, now: Instant)
    requires forall i :: 0 <= i < |st.subscriptions| ==> st.subscriptions[i].renewalDate != now
    ensures GetUpcomingRenewals(st, now, Some(0)) == []
  {
    NoneDueAt(st.subscriptions, now);
    assert SortBy([], ByRenewalDate, Asc) == [];
  }

  lemma NoneDueAt(s: seq<Subscription>, now: Instant)
    requires forall i :: 0 <= i < |s| ==> s[i].renewalDate != now
    ensures DueWithin(s, now, now + Some(0).GetOr(DefaultUpcomingDays) * DAY) == []
  {
    FilterNone(s, RenewsWithin, (now, now));
  }

  /** No sample record renews at exactly 10:00 UTC on 2024-02-15. */
  lemma NoSampleDueAtTen()
    ensures GetUpcomingRenewals(InitialState, 1707955200000 + 10 * 3_600_000, Some(0)) == []
  {
    var s := InitialState.subscriptions;
    assert |s| == 3;
    assert s[0].renewalDate == 1707955200000;
    assert s[1].renewalDate == 1708387200000;
    assert s[2].renewalDate == 1707523200000;
    NothingDueAtInstant(InitialState, 1707955200000 + 10 * 3_600_000);
  }

  /** A record dated today (midnight UTC), seen at 10:00 the same day: the
      instant-based query with `days = 0` misses it, the day-based one lists it. */
  lemma TodayRenewalMissed()
    ensures var now := 1707955200000 + 10 * 3_600_000;  // 2024-02-15T10:00Z; Netflix renews 2024-02-15
      GetUpcomingRenewals(InitialState, now, Some(0)) == []
      && InitialState.subscriptions[0] in UpcomingRenewalsByDay(InitialState, now, Some(0))
  {
    var st := InitialState;
    var now := 1707955200000 + 10 * 3_600_000;
    NoSampleDueAtTen();
    DayOfIs(st.subscriptions[0].renewalDate, 19768);
    DayOfIs(now, 19768);
    ByDayListsTodaysRenewals(st, now, Some(0), st.subscriptions[0]);
  }
}
