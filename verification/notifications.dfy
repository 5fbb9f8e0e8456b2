/** The notifications page: how a renewal's day count becomes an icon, a
    badge variant and a message, and the "all" tab's list. */
module Notifications {
  import opened Types
  import opened Ordering
  import opened Renewal
  import Store
  import Expenses

  datatype Icon = AlertTriangle | Bell | Clock | Calendar

  datatype BadgeVariant = Destructive | Default | Secondary

  /** The message shown next to a renewal: overdue by some days, ends today,
      ends tomorrow, or a number of days left. */
  datatype Notice = LateBy(late: nat) | EndsToday | EndsTomorrow | DaysLeft(left: int)

  /** `getNotificationIcon`. */
  function NotificationIcon(days: int): (r: Icon)
    ensures r == AlertTriangle <==> days < 0
    ensures r == Bell <==> days == 0
    ensures r == Clock <==> 1 <= days <= 3
    ensures r == Calendar <==> days > 3
  {
    if days < 0 then AlertTriangle
    else if days == 0 then Bell
    else if days <= 3 then Clock
    else Calendar
  }

  /** `getNotificationColor`: overdue and due today share the destructive
      variant. */
  function NotificationVariant(days: int): (r: BadgeVariant)
    ensures r == Destructive <==> days <= 0
    ensures r == Default <==> 1 <= days <= 3
    ensures r == Secondary <==> days > 3
  {
    if days < 0 then Destructive
    else if days == 0 then Destructive
    else if days <= 3 then Default
    else Secondary
  }

  /** `getNotificationText`. */
  function NotificationText(days: int): (r: Notice)
    ensures r.LateBy? <==> days < 0
    ensures r.LateBy? ==> r.late == -days
    ensures r == EndsToday <==> days == 0
    ensures r == EndsTomorrow <==> days == 1
    ensures r.DaysLeft? <==> days >= 2
    ensures r.DaysLeft? ==> r.left == days
  {
    if days < 0 then LateBy(-days)
    else if days == 0 then EndsToday
    else if days == 1 then EndsTomorrow
    else DaysLeft(days)
  }

  /** The signed day count a notice reports: negative when overdue. */
  function NoticeDays(n: Notice): int {
    match n
    case LateBy(k) => -(k as int)
    case EndsToday => 0
    case EndsTomorrow => 1
    case DaysLeft(k) => k
  }

  /** The message loses nothing: the day count can be read back from it. */
  lemma NoticeRoundTrip(days: int)
    ensures NoticeDays(NotificationText(days)) == days
  {
  }

  /** Icon and badge tell the same story: a destructive badge goes with the
      warning triangle or the bell, a default badge with the clock. */
  lemma IconMatchesVariant(days: int)
    ensures NotificationVariant(days) == Destructive
      <==> NotificationIcon(days) in {AlertTriangle, Bell}
    ensures NotificationVariant(days) == Default <==> NotificationIcon(days) == Clock
    ensures NotificationVariant(days) == Secondary <==> NotificationIcon(days) == Calendar
  {
  }

  /** Everything one row of the page shows about a record at `now`. */
  datatype Row = Row(sub: Subscription, days: int, icon: Icon, variant: BadgeVariant, notice: Notice)

  function RowOf(sub: Subscription, now: Instant): (r: Row)
    ensures r.sub == sub
    ensures (r.days - 1) * DAY < sub.renewalDate - now <= r.days * DAY
    ensures r.icon == NotificationIcon(r.days) && r.variant == NotificationVariant(r.days)
    ensures NoticeDays(r.notice) == r.days
  {
    var d := DaysUntil(sub.renewalDate, now);
    NoticeRoundTrip(d);
    Row(sub, d, NotificationIcon(d), NotificationVariant(d), NotificationText(d))
  }

  /** The "all" tab: every active record, earliest renewal first, ties in
      store order. */
  function AllTab(st: State): (r: seq<Subscription>)
    ensures forall x :: x in r <==> x in st.subscriptions && x.isActive
    ensures multiset(r) == multiset(Expenses.Active(st.subscriptions))
    ensures forall i, j :: 0 <= i < j < |r| ==> r[i].renewalDate <= r[j].renewalDate
    ensures forall k :: KeyClass(r, k, ByRenewalDate) == KeyClass(Expenses.Active(st.subscriptions), k, ByRenewalDate)
  {
    SortByRenewal(Expenses.Active(st.subscriptions))
  }

  /** Down the "all" tab the day counts never decrease, so overdue rows come
      first and the calendar rows last. */
  lemma AllTabDaysAscending(st: State, now: Instant, i: int, j: int)
    requires 0 <= i < j < |AllTab(st)|
    ensures DaysUntil(AllTab(st)[i].renewalDate, now) <= DaysUntil(AllTab(st)[j].renewalDate, now)
  {
    DaysUntilMonotone(AllTab(st)[i].renewalDate, AllTab(st)[j].renewalDate, now);
  }

  /** Rows of an upcoming list with window `n` (30 days or 7 days on the
      page) are never overdue: their day count lies in 0..n, so no row shows
      the warning triangle or a late message. */
  lemma UpcomingRowsNotOverdue(st: State, now: Instant, n: int, x: Subscription)
    requires x in Store.GetUpcomingRenewals(st, now, Some(n))
    ensures 0 <= RowOf(x, now).days <= n
    ensures RowOf(x, now).icon != AlertTriangle && !RowOf(x, now).notice.LateBy?
  {
    DaysInWindow(x.renewalDate, now, n);
  }

  /** A record of the zero-day list (the page counts it as "today") renders
      with the bell and "ends today" wherever it is shown. */
  lemma TodayRowsRingTheBell(st: State, now: Instant, x: Subscription)
    requires x in Store.GetUpcomingRenewals(st, now, Some(0))
    ensures RowOf(x, now).icon == Bell && RowOf(x, now).notice == EndsToday
  {
    DaysInWindow(x.renewalDate, now, 0);
  }

  /** The "renewals today" list counted by calendar day, as the page's
      label means it. */
  function TodayList(st: State, now: Instant): (r: seq<Subscription>)
    ensures forall x :: x in r <==>
      x in st.subscriptions && x.isActive && Store.DayOf(x.renewalDate) == Store.DayOf(now)
    ensures forall i, j :: 0 <= i < j < |r| ==> r[i].renewalDate <= r[j].renewalDate
  {
    Store.UpcomingRenewalsByDay(st, now, Some(0))
  }

  /** A row of the day-based list is never overdue: it reads "ends today"
      under the bell once its instant has passed, and at most one day ahead
      before that. */
  lemma TodayListRows(st: State, now: Instant, x: Subscription)
    requires x in TodayList(st, now)
    ensures 0 <= RowOf(x, now).days <= 1
    ensures x.renewalDate <= now ==> RowOf(x, now).icon == Bell && RowOf(x, now).notice == EndsToday
  {
    var q := Store.DayOf(now);
    assert q * DAY <= now < q * DAY + DAY;
    assert q * DAY <= x.renewalDate < q * DAY + DAY;
  }
}
