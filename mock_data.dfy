/** The helpers of the dashboard's data library: the users whose trial ends
    within a number of days, the colour class of a status, `createUser`, and
    the mock users with the metric counts taken from them.  Dates are
    milliseconds; `now` stands for the clock. */
module MockData {
  import opened Common
  import opened Calendar
  import opened Records
  import opened Sorting
  import RevenueAggregation
  import TrialExpirations

  /** The window `getUpcomingTrialEnds` uses when given no argument. */
  const DefaultDays: int := 14

  /** A trial user whose trial ends no later than `cutoff`. */
  predicate EndsBy(u: User, cutoff: int)
  {
    u.status == Trial && u.trialEndsAt.Some? && u.trialEndsAt.value <= cutoff
  }

  function EndsByCutoff(cutoff: int): User -> bool
  {
    (u: User) => EndsBy(u, cutoff)
  }

  /** `a.trialEndsAt?.getTime() || 0` */
  function TrialEndKey(u: User): int
  {
    if u.trialEndsAt.Some? then u.trialEndsAt.value else 0
  }

  /** `getUpcomingTrialEnds(days)` over `users`, the cutoff being `days` days
      after `now`. */
  function UpcomingTrialEnds(users: seq<User>, now: int, days: int): seq<User>
  {
    SortBy(Filter(users, EndsByCutoff(now + days * DayMs)), TrialEndKey)
  }

  /** The result is the filtered list reordered: a permutation of it. */
  lemma UpcomingIsPermutation(users: seq<User>, now: int, days: int)
    ensures multiset(UpcomingTrialEnds(users, now, days)) == multiset(Filter(users, EndsByCutoff(now + days * DayMs)))
  {
  }

  /** Every user returned is a trial user of the list ending by the cutoff. */
  lemma UpcomingOnlyEndingTrials(users: seq<User>, now: int, days: int)
    ensures var r := UpcomingTrialEnds(users, now, days);
            forall i :: 0 <= i < |r| ==> EndsBy(r[i], now + days * DayMs) && r[i] in users
  {
    var f := Filter(users, EndsByCutoff(now + days * DayMs));
    SortByMembers(f, TrialEndKey);
    var r := SortBy(f, TrialEndKey);
    forall i | 0 <= i < |r| ensures EndsBy(r[i], now + days * DayMs) && r[i] in users {
      var k :| 0 <= k < |f| && f[k] == r[i];
      assert EndsByCutoff(now + days * DayMs)(f[k]);
    }
  }

  /** Every trial user of the list ending by the cutoff is returned. */
  lemma UpcomingAllEndingTrials(users: seq<User>, now: int, days: int)
    ensures var r := UpcomingTrialEnds(users, now, days);
            forall i :: 0 <= i < |users| && EndsBy(users[i], now + days * DayMs) ==> users[i] in r
  {
    var f := Filter(users, EndsByCutoff(now + days * DayMs));
    SortByMembers(f, TrialEndKey);
    forall i | 0 <= i < |users| && EndsBy(users[i], now + days * DayMs) ensures users[i] in f {
      assert EndsByCutoff(now + days * DayMs)(users[i]);
    }
  }

  /** The result is ordered by trial end, earliest first. */
  lemma UpcomingOrderedByTrialEnd(users: seq<User>, now: int, days: int)
    ensures var r := UpcomingTrialEnds(users, now, days);
            forall i, j :: 0 <= i < j < |r| ==>
              r[i].trialEndsAt.Some? && r[j].trialEndsAt.Some? && r[i].trialEndsAt.value <= r[j].trialEndsAt.value
  {
    UpcomingOnlyEndingTrials(users, now, days);
    var r := UpcomingTrialEnds(users, now, days);
    forall i, j | 0 <= i < j < |r|
      ensures r[i].trialEndsAt.Some? && r[j].trialEndsAt.Some? && r[i].trialEndsAt.value <= r[j].trialEndsAt.value
    {
      assert TrialEndKey(r[i]) <= TrialEndKey(r[j]);
    }
  }

  /** Called with no argument, the cutoff is fourteen days ahead: every user
      returned is a trial user whose trial ends within the window the trial
      card queries. */
  lemma DefaultCutoffIsCardWindow(users: seq<User>, now: int)
    ensures var r := UpcomingTrialEnds(users, now, DefaultDays);
            forall i :: 0 <= i < |r| ==>
              r[i].status == Trial && r[i].trialEndsAt.Some? && r[i].trialEndsAt.value <= now + TrialExpirations.WindowMs
  {
    UpcomingOnlyEndingTrials(users, now, DefaultDays);
  }

  /** `getUserStatusColor` */
  function StatusColor(status: string): string
  {
    if status == "active" then "bg-green-100 text-green-800 dark:bg-green-900 dark:text-green-200"
    else if status == "trial" then "bg-blue-100 text-blue-800 dark:bg-blue-900 dark:text-blue-200"
    else if status == "expired" then "bg-amber-100 text-amber-800 dark:bg-amber-900 dark:text-amber-200"
    else if status == "cancelled" then "bg-red-100 text-red-800 dark:bg-red-900 dark:text-red-200"
    else "bg-gray-100 text-gray-800 dark:bg-gray-700 dark:text-gray-200"
  }

  /** The last letter of the colour name that ends each class string:
      different for each of the five class strings. */
  function Mark(c: string): char
    requires |c| > 5
  {
    c[|c| - 5]
  }

  lemma ColorMark(status: string)
    ensures |StatusColor(status)| > 5
    ensures status == "active" ==> Mark(StatusColor(status)) == 'n'
    ensures status == "trial" ==> Mark(StatusColor(status)) == 'e'
    ensures status == "expired" ==> Mark(StatusColor(status)) == 'r'
    ensures status == "cancelled" ==> Mark(StatusColor(status)) == 'd'
    ensures status != "active" && status != "trial" && status != "expired" && status != "cancelled" ==>
              Mark(StatusColor(status)) == 'y'
  {
    var c := StatusColor(status);
    if status == "active" {
      assert c == "bg-green-100 text-green-800 dark:bg-green-900 dark:text-green-200";
    } else if status == "trial" {
      assert c == "bg-blue-100 text-blue-800 dark:bg-blue-900 dark:text-blue-200";
    } else if status == "expired" {
      assert c == "bg-amber-100 text-amber-800 dark:bg-amber-900 dark:text-amber-200";
    } else if status == "cancelled" {
      assert c == "bg-red-100 text-red-800 dark:bg-red-900 dark:text-red-200";
    } else {
      assert c == "bg-gray-100 text-gray-800 dark:bg-gray-700 dark:text-gray-200";
    }
  }

  /** Each status has its own colour, and none of them is the grey given to
      any other string. */
  lemma StatusColorsDistinct(s: UserStatus, t: UserStatus, other: string)
    requires other != "active" && other != "trial" && other != "expired" && other != "cancelled"
    ensures StatusColor(StatusName(s)) == StatusColor(StatusName(t)) <==> s == t
    ensures StatusColor(other) == "bg-gray-100 text-gray-800 dark:bg-gray-700 dark:text-gray-200"
    ensures StatusColor(StatusName(s)) != StatusColor(other)
  {
    ColorMark(StatusName(s));
    ColorMark(StatusName(t));
    ColorMark(other);
    StatusNameInjective(s, t);
  }

  /** `createUser`: the input with an id added; the id, drawn at random in
      the source, is a parameter. */
  function CreateUser(userData: NewUser, randomId: string): (u: User)
    ensures u.id == randomId && WithoutId(u) == userData
  {
    WithId(userData, randomId)
  }

  function DaysAgo(now: int, days: int): int { now - days * DayMs }

  function DaysFromNow(now: int, days: int): int { now + days * DayMs }

  /** `USERS` */
  function MockUsers(now: int): seq<User>
  {
    [ User("1", "Emma Thompson", "emma@example.com", Active, None, 49, Some(Monthly), DaysAgo(now, 120), DaysAgo(now, 0)),
      User("2", "James Wilson", "james@example.com", Trial, Some(DaysFromNow(now, 7)), 0, None, DaysAgo(now, 10), DaysAgo(now, 1)),
      User("3", "Sophia Chen", "sophia@example.com", Active, None, 499, Some(Yearly), DaysAgo(now, 90), DaysAgo(now, 2)),
      User("4", "Michael Rodriguez", "michael@example.com", Trial, Some(DaysFromNow(now, 2)), 0, None, DaysAgo(now, 12), DaysAgo(now, 0)),
      User("5", "Olivia Johnson", "olivia@example.com", Expired, Some(DaysAgo(now, 5)), 0, None, DaysAgo(now, 35), DaysAgo(now, 6)),
      User("6", "William Brown", "william@example.com", Active, None, 49, Some(Monthly), DaysAgo(now, 60), DaysAgo(now, 0)),
      User("7", "Alexander Davis", "alex@example.com", Cancelled, None, 0, None, DaysAgo(now, 150), DaysAgo(now, 30)),
      User("8", "Isabella Martinez", "isabella@example.com", Active, None, 49, Some(Monthly), DaysAgo(now, 45), DaysAgo(now, 1)),
      User("9", "Ethan Taylor", "ethan@example.com", Trial, Some(DaysFromNow(now, 10)), 0, None, DaysAgo(now, 5), DaysAgo(now, 0)),
      User("10", "Charlotte Anderson", "charlotte@example.com", Active, None, 499, Some(Yearly), DaysAgo(now, 75), DaysAgo(now, 3)),
      User("11", "Daniel Williams", "daniel@example.com", Trial, Some(DaysFromNow(now, 14)), 0, None, DaysAgo(now, 1), DaysAgo(now, 0)),
      User("12", "Ava Wilson", "ava@example.com", Expired, Some(DaysAgo(now, 2)), 0, None, DaysAgo(now, 16), DaysAgo(now, 3)) ]
  }

  /** `REVENUE_METRICS`: fixed amounts and rates, with the user counts taken
      from `USERS`. */
  function MockMetrics(now: int): RevenueAggregation.RevenueMetrics
  {
    RevenueAggregation.RevenueMetrics(38200, 458400, 320500,
      CountWithStatus(MockUsers(now), Active), CountWithStatus(MockUsers(now), Trial), 0.68, 0.043)
  }

  /** The statuses of `USERS`, in order. */
  const MockStatuses: seq<UserStatus> :=
    [Active, Trial, Active, Trial, Expired, Active, Cancelled, Active, Trial, Active, Trial, Expired]

  lemma MockStatusesOf(now: int)
    ensures StatusesOf(MockUsers(now)) == MockStatuses
  {
  }

  lemma MockStatusCounts()
    ensures multiset(MockStatuses)[Active] == 5 && multiset(MockStatuses)[Trial] == 4
  {
  }

  /** The mock users hold five active and four trial users. */
  lemma MockMetricsCounts(now: int)
    ensures MockMetrics(now).activeUsers == 5 && MockMetrics(now).trialUsers == 4
    ensures MockMetrics(now).arr == 12 * MockMetrics(now).mrr
  {
    MockStatusesOf(now);
    MockStatusCounts();
    CountIsMultiplicity(MockUsers(now), Active);
    CountIsMultiplicity(MockUsers(now), Trial);
  }
}
