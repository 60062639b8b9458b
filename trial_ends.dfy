/** The "Upcoming Trial Expirations" card: the rows it asks for (an end date
    from now to fourteen days ahead, earliest first), the `User` it makes of
    each, the whole days left, the badge colour and the unit word. */
module TrialExpirations {
  import opened Common
  import opened Calendar
  import opened Records
  import opened Sorting

  /** Fourteen days in milliseconds: how far ahead the card looks. */
  const WindowMs: int := 14 * DayMs

  /** `getDaysRemaining`: no date gives 0, otherwise the time left rounded
      up to whole days. */
  function DaysRemaining(end: Option<int>, now: int): (d: int)
    ensures end.None? ==> d == 0
    ensures end.Some? ==> (d - 1) * DayMs < end.value - now <= d * DayMs
  {
    if end.None? then 0
    else
      var back := now - end.value;
      assert back == (back / DayMs) * DayMs + back % DayMs;
      -(back / DayMs)
  }

  /** Any time left in (0, 1 day] counts as one day; none left counts as 0
      or less. */
  lemma DaysRemainingBounds(end: int, now: int)
    ensures 0 < end - now <= DayMs ==> DaysRemaining(Some(end), now) == 1
    ensures end - now <= 0 ==> DaysRemaining(Some(end), now) <= 0
    ensures end - now > 0 ==> DaysRemaining(Some(end), now) >= 1
  {
  }

  datatype BadgeColor = Red | Amber | Green

  /** Red up to three days, amber up to seven, green beyond. */
  function Badge(days: int): BadgeColor
  {
    if days <= 3 then Red else if days <= 7 then Amber else Green
  }

  /** The badge colour read off the time left. */
  lemma BadgeByTimeLeft(end: int, now: int)
    ensures var c := Badge(DaysRemaining(Some(end), now));
            && (c == Red <==> end - now <= 3 * DayMs)
            && (c == Amber <==> 3 * DayMs < end - now <= 7 * DayMs)
            && (c == Green <==> end - now > 7 * DayMs)
  {
  }

  /** `daysRemaining === 1 ? "day" : "days"` */
  function UnitWord(days: int): string
  {
    if days == 1 then "day" else "days"
  }

  /** The singular is used exactly when at most one day, but some time, is left. */
  lemma SingularIffLastDay(end: int, now: int)
    ensures UnitWord(DaysRemaining(Some(end), now)) == "day" <==> 0 < end - now <= DayMs
  {
  }

  /** The `User` the card makes of a row. */
  function TrialRowToUser(row: SubscriptionRow): User
  {
    User(NatToString(row.id), Or(row.stripeCustomerId, "Unknown"), Or(row.userId, "unknown@example.com"),
         Trial, if row.end.Some? then Some(EpochMillis(row.end.value)) else None,
         0, None, EpochMillis(row.createdAt), EpochMillis(row.createdAt))
  }

  /** Every user on the card is a trial user with no subscription, a
      non-empty name and email (the customer id, else `"Unknown"`; the user
      id, else `"unknown@example.com"`), the row id as its id, the row's end
      date as its trial end, and the creation date as both timestamps. */
  lemma TrialRowToUserFacts(row: SubscriptionRow)
    ensures var u := TrialRowToUser(row);
            && u.status == Trial && u.subscriptionAmount == 0 && u.subscriptionInterval.None?
            && u.name != "" && u.email != ""
            && (row.stripeCustomerId != "" ==> u.name == row.stripeCustomerId)
            && (row.stripeCustomerId == "" ==> u.name == "Unknown")
            && (row.userId != "" ==> u.email == row.userId)
            && (row.userId == "" ==> u.email == "unknown@example.com")
            && DigitsValue(u.id) == row.id
            && (u.trialEndsAt.Some? <==> row.end.Some?)
            && (row.end.Some? ==> u.trialEndsAt == Some(EpochMillis(row.end.value)))
            && u.createdAt == u.lastActive == EpochMillis(row.createdAt)
  {
  }

  /** A row whose end date lies between `now` and fourteen days later. */
  predicate InWindow(row: SubscriptionRow, now: Timestamp)
  {
    row.end.Some? && EpochMillis(now) <= EpochMillis(row.end.value) <= EpochMillis(now) + WindowMs
  }

  function InWindowAt(now: Timestamp): SubscriptionRow -> bool
  {
    (row: SubscriptionRow) => InWindow(row, now)
  }

  /** Sort key of a row in the window: its end date. */
  function EndKey(row: SubscriptionRow): int
  {
    if row.end.Some? then EpochMillis(row.end.value) else 0
  }

  /** The query the card makes, earliest end first. */
  function WindowRows(rows: seq<SubscriptionRow>, now: Timestamp): seq<SubscriptionRow>
  {
    SortBy(Filter(rows, InWindowAt(now)), EndKey)
  }

  function TrialUsers(rows: seq<SubscriptionRow>, now: Timestamp): (us: seq<User>)
  {
    var w := WindowRows(rows, now);
    seq(|w|, i requires 0 <= i < |w| => TrialRowToUser(w[i]))
  }

  /** Every user on the card, counted at the time of the query, has between
      0 and 14 days left, and the list runs from the fewest days to the most. */
  lemma TrialUsersDaysLeft(rows: seq<SubscriptionRow>, now: Timestamp)
    ensures var us := TrialUsers(rows, now);
            && (forall i :: 0 <= i < |us| ==> 0 <= DaysRemaining(us[i].trialEndsAt, EpochMillis(now)) <= 14)
            && (forall i, j :: 0 <= i < j < |us| ==>
                  DaysRemaining(us[i].trialEndsAt, EpochMillis(now)) <= DaysRemaining(us[j].trialEndsAt, EpochMillis(now)))
  {
    var f := Filter(rows, InWindowAt(now));
    SortByMembers(f, EndKey);
    var w := SortBy(f, EndKey);
    var us := TrialUsers(rows, now);
    forall i | 0 <= i < |w| ensures InWindow(w[i], now) {
      var k :| 0 <= k < |f| && f[k] == w[i];
      assert InWindowAt(now)(f[k]);
    }
    forall i | 0 <= i < |us| ensures 0 <= DaysRemaining(us[i].trialEndsAt, EpochMillis(now)) <= 14 {
      assert us[i].trialEndsAt == Some(EndKey(w[i]));
      DaysMonotone(EpochMillis(now), EpochMillis(now), EndKey(w[i]));
      DaysMonotone(EndKey(w[i]), EpochMillis(now), EpochMillis(now) + WindowMs);
    }
    forall i, j | 0 <= i < j < |us|
      ensures DaysRemaining(us[i].trialEndsAt, EpochMillis(now)) <= DaysRemaining(us[j].trialEndsAt, EpochMillis(now))
    {
      assert us[i].trialEndsAt == Some(EndKey(w[i])) && us[j].trialEndsAt == Some(EndKey(w[j]));
      DaysMonotone(EndKey(w[i]), EpochMillis(now), EndKey(w[j]));
    }
  }

  /** A later end date never has fewer days left. */
  lemma DaysMonotone(e1: int, now: int, e2: int)
    requires e1 <= e2
    ensures DaysRemaining(Some(e1), now) <= DaysRemaining(Some(e2), now)
    ensures DaysRemaining(Some(now), now) == 0
    ensures DaysRemaining(Some(now + WindowMs), now) == 14
  {
  }
}
