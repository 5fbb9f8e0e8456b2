/** The dashboard's subscription card: the renewal indicator at its foot,
    a label and a coloured bar derived from the day count. */
module Card {
  import opened Types
  import opened Renewal
  import Store
  import Notifications

  /** Due within the coming week, today included. */
  predicate IsExpiringSoon(days: int) {
    0 <= days <= 7
  }

  predicate IsOverdue(days: int) {
    days < 0
  }

  /** The indicator's text: overdue by some days, ends today, or days remaining. */
  datatype Label = OverdueBy(late: nat) | EndsToday | DaysRemaining(left: int)

  datatype BarColour = Red | Orange | Green

  function RenewalLabel(days: int): (r: Label)
    ensures r.OverdueBy? <==> IsOverdue(days)
    ensures r.OverdueBy? ==> r.late == -days
    ensures r == EndsToday <==> days == 0
    ensures r.DaysRemaining? <==> days > 0
    ensures r.DaysRemaining? ==> r.left == days
  {
    if IsOverdue(days) then OverdueBy(-days)
    else if days == 0 then EndsToday
    else DaysRemaining(days)
  }

  /** Red when overdue, orange within the week, green otherwise. */
  function BarColourOf(days: int): (r: BarColour)
    ensures r == Red <==> days < 0
    ensures r == Orange <==> 0 <= days <= 7
    ensures r == Green <==> days > 7
  {
    if IsOverdue(days) then Red
    else if IsExpiringSoon(days) then Orange
    else Green
  }

  /** The signed day count a label reports. */
  function LabelDays(l: Label): int {
    match l
    case OverdueBy(k) => -(k as int)
    case EndsToday => 0
    case DaysRemaining(k) => k
  }

  /** The label can be read back into the day count. */
  lemma LabelRoundTrip(days: int)
    ensures LabelDays(RenewalLabel(days)) == days
  {
  }

  /** The card and the notifications page report the same day count for the
      same record at the same instant, and agree on "overdue" and "today". */
  lemma CardAgreesWithNotifications(sub: Subscription, now: Instant)
    ensures var d := DaysUntil(sub.renewalDate, now);
      LabelDays(RenewalLabel(d)) == Notifications.NoticeDays(Notifications.NotificationText(d))
      && (RenewalLabel(d).OverdueBy? <==> Notifications.NotificationText(d).LateBy?)
      && (RenewalLabel(d) == EndsToday <==> Notifications.NotificationText(d) == Notifications.EndsToday)
  {
    var d := DaysUntil(sub.renewalDate, now);
    LabelRoundTrip(d);
    Notifications.NoticeRoundTrip(d);
  }

  /** The indicator is drawn only for an active record. */
  function Indicator(sub: Subscription, now: Instant): (r: Option<(Label, BarColour)>)
    ensures r.Some? <==> sub.isActive
    ensures r.Some? ==> LabelDays(r.value.0) == DaysUntil(sub.renewalDate, now)
    ensures r.Some? ==> (r.value.1 == Red <==> r.value.0.OverdueBy?)
  {
    if sub.isActive then
      var d := DaysUntil(sub.renewalDate, now);
      LabelRoundTrip(d);
      Some((RenewalLabel(d), BarColourOf(d)))
    else None
  }

  /** Every record on the store's default seven-day upcoming list carries an
      orange bar. */
  lemma UpcomingWeekIsOrange(st: State, now: Instant, x: Subscription)
    requires x in Store.GetUpcomingRenewals(st, now, None)
    ensures Indicator(x, now).Some? && Indicator(x, now).value.1 == Orange
  {
    DaysInWindow(x.renewalDate, now, Store.DefaultUpcomingDays);
  }

  /** Conversely an active record with an orange bar renews no earlier than
      a day before `now` and at most seven days after it. */
  lemma OrangeMeansThisWeek(sub: Subscription, now: Instant)
    requires Indicator(sub, now).Some? && Indicator(sub, now).value.1 == Orange
    ensures now - DAY < sub.renewalDate <= now + 7 * DAY
  {
  }
}
