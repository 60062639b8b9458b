/** The dashboard's subscription statistics (`fetchUserStats` in
    src/pages/Index.tsx): one pass over a snapshot of the `subscriptions`
    table that counts trial and active rows, credits a flat $5 to every month
    an active row was billed in, attributes new subscribers to the month a
    row started, and derives MRR, ARR, total revenue and two ratios.

    The clock read `new Date()` is the parameter `today`.  The method
    `FetchUserStats` runs the loops of the source over a map that is updated
    in place; its contract ties the result to the closed-form specification
    functions below (`CreditCount`, `NewCount`, `WalkCount`, ...). */
module RevenueAggregation {
  import opened Common
  import opened Calendar
  import opened Records
  import Sorting

  /** `monthlySubscriptionPrice` */
  const MonthlyPrice: int := 5

  /** A month as the source keys it (`${year}-${month}`): (year, month 1..12). */
  type Key = (int, int)

  /** An entry of the `monthlyRevenue` map.  The locale month names
      (`month`, `formattedMonth`) are not modelled. */
  datatype MonthBucket = MonthBucket(
    year: int,
    monthOrder: int,
    revenue: int,
    newSubscribers: int,
    churnedSubscribers: int)

  datatype RevenueMetrics = RevenueMetrics(
    mrr: int,
    arr: int,
    totalRevenue: int,
    activeUsers: nat,
    trialUsers: nat,
    conversionRate: real,
    churnRate: real)

  // ---------------------------------------------------------------------------
  // Classification of a row

  /** The row's trial ends after `today`: it counts as a trial. */
  predicate InTrial(r: SubscriptionRow, today: Instant)
  {
    r.trialEnd.Some? && Before(today, r.trialEnd.value)
  }

  /** Not in trial and stored with status `'active'`: it counts as active. */
  predicate CountsActive(r: SubscriptionRow, today: Instant)
  {
    !InTrial(r, today) && r.status == Some("active")
  }

  /** The rows whose months are walked: active ones with a start date. */
  predicate Walks(r: SubscriptionRow, today: Instant)
  {
    CountsActive(r, today) && r.start.Some?
  }

  /** The last instant of the walk: the end date, or `today` when there is none. */
  function WindowEnd(r: SubscriptionRow, today: Timestamp): Timestamp
  {
    if r.end.Some? then r.end.value else today
  }

  /** The trial check applied to each visited date: there is no trial end, or
      the date is strictly after it. */
  predicate PastTrial(r: SubscriptionRow, t: Instant)
  {
    r.trialEnd.None? || Before(r.trialEnd.value, t)
  }

  /** Whether a row's stored `subscription_end_date` is set and its status is
      not `'active'` (the `endedSubscriptions` filter). */
  predicate Ended(r: SubscriptionRow)
  {
    r.end.Some? && r.status != Some("active")
  }

  // ---------------------------------------------------------------------------
  // Counting functions

  function TrialCount(rows: seq<SubscriptionRow>, today: Instant): (n: nat)
    ensures n <= |rows|
  {
    if rows == [] then 0
    else TrialCount(rows[..|rows| - 1], today) + (if InTrial(rows[|rows| - 1], today) then 1 else 0)
  }

  function ActiveCount(rows: seq<SubscriptionRow>, today: Instant): (n: nat)
    ensures n <= |rows|
  {
    if rows == [] then 0
    else ActiveCount(rows[..|rows| - 1], today) + (if CountsActive(rows[|rows| - 1], today) then 1 else 0)
  }

  function EndedCount(rows: seq<SubscriptionRow>): (n: nat)
    ensures n <= |rows|
  {
    if rows == [] then 0
    else EndedCount(rows[..|rows| - 1]) + (if Ended(rows[|rows| - 1]) then 1 else 0)
  }

  /** `total > 0 ? part / total : 0` */
  function Ratio(part: nat, total: nat): (q: real)
    requires part <= total
    ensures 0.0 <= q <= 1.0
    ensures total == 0 ==> q == 0.0
    ensures total > 0 ==> q * total as real == part as real
  {
    if total > 0 then part as real / total as real else 0.0
  }

  // ---------------------------------------------------------------------------
  // Which months a row credits

  function KeyOf(t: Instant): Key
  {
    (t.year, t.month)
  }

  predicate ValidKey(k: Key)
  {
    1 <= k.1 <= 12
  }

  /** The date the walk that begins at `start` visits in month `k`. */
  function DateIn(start: Instant, k: Key): Instant
  {
    Instant(k.0, k.1, start.day, start.millis)
  }

  /** Row `r` adds $5 to month `k`: it is walked, month `k` is one of the
      months from its start whose date is not after the end of its window, and
      that date is past its trial. */
  predicate Credits(r: SubscriptionRow, today: Timestamp, k: Key)
  {
    && Walks(r, today)
    && ValidKey(k)
    && MonthIndexOf(r.start.value) <= MonthIndex(k.0, k.1)
    && AtOrBefore(DateIn(r.start.value, k), WindowEnd(r, today))
    && PastTrial(r, DateIn(r.start.value, k))
  }

  /** How many rows credit month `k`. */
  function CreditCount(rows: seq<SubscriptionRow>, today: Timestamp, k: Key): (n: nat)
    ensures n <= |rows|
  {
    if rows == [] then 0
    else CreditCount(rows[..|rows| - 1], today, k) + (if Credits(rows[|rows| - 1], today, k) then 1 else 0)
  }

  /** New subscribers of month `k`: the rows walked and started in month `k`
      at a point where month `k` already has a bucket, that is, once this row
      or an earlier one has credited it. */
  function NewCount(rows: seq<SubscriptionRow>, today: Timestamp, k: Key): (n: nat)
    ensures n <= |rows|
  {
    if rows == [] then 0
    else
      var r := rows[|rows| - 1];
      NewCount(rows[..|rows| - 1], today, k)
        + (if Walks(r, today) && KeyOf(r.start.value) == k && CreditCount(rows, today, k) > 0 then 1 else 0)
  }

  /** The bucket month `k` ends up with. */
  function ExpectedBucket(rows: seq<SubscriptionRow>, today: Timestamp, k: Key): MonthBucket
  {
    MonthBucket(k.0, k.1, MonthlyPrice * CreditCount(rows, today, k), NewCount(rows, today, k), 0)
  }

  /** Number of dates from `cur` on, one month apart, up to the end of the
      window, that pass the trial check: the credited (row, month) pairs. */
  function WalkCount(r: SubscriptionRow, today: Timestamp, cur: Instant): nat
    requires 1 <= cur.month <= 12
    decreases MonthIndexOf(WindowEnd(r, today)) - MonthIndexOf(cur) + 1
  {
    if !AtOrBefore(cur, WindowEnd(r, today)) then 0
    else (if PastTrial(r, cur) then 1 else 0) + WalkCount(r, today, NextMonth(cur))
  }

  function RowCredits(r: SubscriptionRow, today: Timestamp): nat
  {
    if Walks(r, today) then WalkCount(r, today, r.start.value) else 0
  }

  /** Credited (row, month) pairs over all rows. */
  function TotalCredits(rows: seq<SubscriptionRow>, today: Timestamp): nat
  {
    if rows == [] then 0
    else TotalCredits(rows[..|rows| - 1], today) + RowCredits(rows[|rows| - 1], today)
  }

  /** The MRR policy: December of the current year if it has a bucket, else
      the current month if it has one, else $5 per active row. */
  function MrrPolicy(rows: seq<SubscriptionRow>, today: Timestamp): int
  {
    var december := (today.year, 12);
    var current := (today.year, today.month);
    if CreditCount(rows, today, december) > 0 then MonthlyPrice * CreditCount(rows, today, december)
    else if CreditCount(rows, today, current) > 0 then MonthlyPrice * CreditCount(rows, today, current)
    else MonthlyPrice * ActiveCount(rows, today)
  }

  // ---------------------------------------------------------------------------
  // The map and its insertion order

  /** Sum of the revenues of the buckets listed in `order`. */
  function SumRevenue(order: seq<Key>, buckets: map<Key, MonthBucket>): int
    requires forall k :: k in order ==> k in buckets
  {
    if order == [] then 0
    else SumRevenue(order[..|order| - 1], buckets) + buckets[order[|order| - 1]].revenue
  }

  /** Sum of the revenues of a sequence of buckets. */
  function TotalOf(bs: seq<MonthBucket>): int
  {
    if bs == [] then 0 else TotalOf(bs[..|bs| - 1]) + bs[|bs| - 1].revenue
  }

  /** `Array.from(monthlyRevenue.values())` */
  function ValuesInOrder(order: seq<Key>, buckets: map<Key, MonthBucket>): (vs: seq<MonthBucket>)
    requires forall k :: k in order ==> k in buckets
    ensures |vs| == |order|
    ensures forall j :: 0 <= j < |order| ==> vs[j] == buckets[order[j]]
    ensures TotalOf(vs) == SumRevenue(order, buckets)
  {
    if order == [] then []
    else
      var init := ValuesInOrder(order[..|order| - 1], buckets);
      assert (init + [buckets[order[|order| - 1]]])[..|order| - 1] == init;
      init + [buckets[order[|order| - 1]]]
  }

  /** What the map holds after the rows `done` have been processed, plus one
      more $5 for each month in `seen`. */
  ghost predicate AgreesWith(buckets: map<Key, MonthBucket>, order: seq<Key>,
                             done: seq<SubscriptionRow>, today: Timestamp, seen: set<Key>)
  {
    && (forall k :: k in buckets <==> k in order)
    && Sorting.Distinct(order)
    && (forall k :: k in buckets <==> CreditCount(done, today, k) > 0 || k in seen)
    && (forall k :: k in buckets ==>
          buckets[k] == MonthBucket(k.0, k.1, MonthlyPrice * (CreditCount(done, today, k) + (if k in seen then 1 else 0)),
                                    NewCount(done, today, k), 0))
  }

  /** What the map holds after the rows `done` have been processed. */
  ghost predicate Agrees(buckets: map<Key, MonthBucket>, order: seq<Key>,
                         done: seq<SubscriptionRow>, today: Timestamp)
  {
    AgreesWith(buckets, order, done, today, {})
  }

  /** `seen` holds the months row `r` credits below month index `c`. */
  ghost predicate SeenBelow(seen: set<Key>, r: SubscriptionRow, today: Timestamp, c: int)
  {
    forall k :: k in seen <==> Credits(r, today, k) && MonthIndex(k.0, k.1) < c
  }

  // ---------------------------------------------------------------------------
  // The computation

  /** The month walk of one active row with a start date (lines 72-110):
      every visited date past the trial adds $5 to its month, creating the
      bucket at the end of the insertion order if it is new. */
  method WalkMonths(buckets: map<Key, MonthBucket>, order: seq<Key>, r: SubscriptionRow,
                    today: Timestamp, ghost done: seq<SubscriptionRow>)
    returns (buckets': map<Key, MonthBucket>, order': seq<Key>)
    requires Walks(r, today) && r.start.value.day <= 28
    requires Agrees(buckets, order, done, today)
    ensures forall k :: k in buckets' <==> k in order'
    ensures Sorting.Distinct(order')
    ensures forall k :: k in buckets' <==> CreditCount(done + [r], today, k) > 0
    ensures forall k :: k in buckets' ==>
              buckets'[k] == MonthBucket(k.0, k.1, MonthlyPrice * CreditCount(done + [r], today, k), NewCount(done, today, k), 0)
    ensures SumRevenue(order', buckets') == SumRevenue(order, buckets) + MonthlyPrice * RowCredits(r, today)
  {
    var start := r.start.value;
    var end := WindowEnd(r, today);
    var cur := start;
    buckets', order' := buckets, order;
    ghost var seen: set<Key> := {};
    while AtOrBefore(cur, end)
      invariant 1 <= cur.month <= 12 && cur.day == start.day && cur.millis == start.millis
      invariant MonthIndexOf(start) <= MonthIndexOf(cur)
      invariant SeenBelow(seen, r, today, MonthIndexOf(cur))
      invariant AgreesWith(buckets', order', done, today, seen)
      invariant SumRevenue(order', buckets') + MonthlyPrice * WalkCount(r, today, cur)
                == SumRevenue(order, buckets) + MonthlyPrice * WalkCount(r, today, start)
      decreases MonthIndexOf(end) - MonthIndexOf(cur) + 1
    {
      ghost var (b0, o0) := (buckets', order');
      if r.trialEnd.None? || Before(r.trialEnd.value, cur) {
        var key := KeyOf(cur);
        if key !in buckets' {
          buckets' := buckets'[key := MonthBucket(cur.year, cur.month, MonthlyPrice, 0, 0)];
          order' := order' + [key];
        } else {
          buckets' := buckets'[key := buckets'[key].(revenue := buckets'[key].revenue + MonthlyPrice)];
        }
        SeenCredited(seen, r, today, cur);
        MapCredited(b0, o0, buckets', order', done, today, seen, key);
        seen := seen + {key};
      } else {
        SeenSkipped(seen, r, today, cur);
      }
      cur := NextMonth(cur);
    }
    WalkDone(buckets', order', done, today, r, cur, seen);
  }

  /** Visiting a date past the trial adds its month to the months seen. */
  lemma SeenCredited(seen: set<Key>, r: SubscriptionRow, today: Timestamp, cur: Instant)
    requires Walks(r, today)
    requires 1 <= cur.month <= 12 && cur.day == r.start.value.day && cur.millis == r.start.value.millis
    requires MonthIndexOf(r.start.value) <= MonthIndexOf(cur)
    requires AtOrBefore(cur, WindowEnd(r, today)) && PastTrial(r, cur)
    requires SeenBelow(seen, r, today, MonthIndexOf(cur))
    ensures KeyOf(cur) !in seen
    ensures SeenBelow(seen + {KeyOf(cur)}, r, today, MonthIndexOf(cur) + 1)
  {
    var key := KeyOf(cur);
    assert cur == DateIn(r.start.value, key);
    forall k | ValidKey(k) && MonthIndex(k.0, k.1) == MonthIndexOf(cur) ensures k == key {
    }
  }

  /** Visiting a date on or before the trial end adds nothing. */
  lemma SeenSkipped(seen: set<Key>, r: SubscriptionRow, today: Timestamp, cur: Instant)
    requires Walks(r, today)
    requires 1 <= cur.month <= 12 && cur.day == r.start.value.day && cur.millis == r.start.value.millis
    requires !PastTrial(r, cur)
    requires SeenBelow(seen, r, today, MonthIndexOf(cur))
    ensures SeenBelow(seen, r, today, MonthIndexOf(cur) + 1)
  {
    forall k | ValidKey(k) && MonthIndex(k.0, k.1) == MonthIndexOf(cur) ensures !Credits(r, today, k) {
      assert k == KeyOf(cur);
      assert DateIn(r.start.value, k) == cur;
    }
  }

  /** Crediting month `key` once more keeps the map in line with the months
      seen, and adds $5 to the sum. */
  lemma MapCredited(b0: map<Key, MonthBucket>, o0: seq<Key>, b1: map<Key, MonthBucket>, o1: seq<Key>,
                    done: seq<SubscriptionRow>, today: Timestamp, seen: set<Key>, key: Key)
    requires AgreesWith(b0, o0, done, today, seen) && key !in seen
    requires key !in b0 ==> b1 == b0[key := MonthBucket(key.0, key.1, MonthlyPrice, 0, 0)] && o1 == o0 + [key]
    requires key in b0 ==> b1 == b0[key := b0[key].(revenue := b0[key].revenue + MonthlyPrice)] && o1 == o0
    ensures AgreesWith(b1, o1, done, today, seen + {key})
    ensures SumRevenue(o1, b1) == SumRevenue(o0, b0) + MonthlyPrice
  {
    if key !in b0 {
      MapCreditedNew(b0, o0, b1, o1, done, today, seen, key);
    } else {
      MapCreditedAgain(b0, o0, b1, o1, done, today, seen, key);
    }
  }

  /** The first credit of a month creates its bucket with $5 and no new
      subscribers, at the end of the insertion order. */
  lemma MapCreditedNew(b0: map<Key, MonthBucket>, o0: seq<Key>, b1: map<Key, MonthBucket>, o1: seq<Key>,
                       done: seq<SubscriptionRow>, today: Timestamp, seen: set<Key>, key: Key)
    requires AgreesWith(b0, o0, done, today, seen) && key !in seen && key !in b0
    requires b1 == b0[key := MonthBucket(key.0, key.1, MonthlyPrice, 0, 0)] && o1 == o0 + [key]
    ensures AgreesWith(b1, o1, done, today, seen + {key})
    ensures SumRevenue(o1, b1) == SumRevenue(o0, b0) + MonthlyPrice
  {
    SumAppend(o0, b0, key, b1[key]);
    NewNeedsCredit(done, today, key);
    Sorting.AppendFreshDistinct(o0, key);
    forall k | k in b1
      ensures b1[k] == MonthBucket(k.0, k.1, MonthlyPrice * (CreditCount(done, today, k) + (if k in seen + {key} then 1 else 0)),
                                   NewCount(done, today, k), 0)
    {
      if k != key {
        assert b1[k] == b0[k];
      }
    }
  }

  /** A later credit of a month adds $5 to its bucket in place. */
  lemma MapCreditedAgain(b0: map<Key, MonthBucket>, o0: seq<Key>, b1: map<Key, MonthBucket>, o1: seq<Key>,
                         done: seq<SubscriptionRow>, today: Timestamp, seen: set<Key>, key: Key)
    requires AgreesWith(b0, o0, done, today, seen) && key !in seen && key in b0
    requires b1 == b0[key := b0[key].(revenue := b0[key].revenue + MonthlyPrice)] && o1 == o0
    ensures AgreesWith(b1, o1, done, today, seen + {key})
    ensures SumRevenue(o1, b1) == SumRevenue(o0, b0) + MonthlyPrice
  {
    SumUpdate(o0, b0, key, b1[key]);
    forall k | k in b1
      ensures b1[k] == MonthBucket(k.0, k.1, MonthlyPrice * (CreditCount(done, today, k) + (if k in seen + {key} then 1 else 0)),
                                   NewCount(done, today, k), 0)
    {
      if k != key {
        assert b1[k] == b0[k];
      }
    }
  }

  /** At the end of the walk the months seen are all the months the row credits. */
  lemma WalkDone(b: map<Key, MonthBucket>, o: seq<Key>, done: seq<SubscriptionRow>, today: Timestamp,
                 r: SubscriptionRow, cur: Instant, seen: set<Key>)
    requires Walks(r, today)
    requires 1 <= cur.month <= 12 && cur.day == r.start.value.day && cur.millis == r.start.value.millis
    requires !AtOrBefore(cur, WindowEnd(r, today))
    requires SeenBelow(seen, r, today, MonthIndexOf(cur))
    requires AgreesWith(b, o, done, today, seen)
    ensures forall k :: k in b <==> CreditCount(done + [r], today, k) > 0
    ensures forall k :: k in b ==>
              b[k] == MonthBucket(k.0, k.1, MonthlyPrice * CreditCount(done + [r], today, k), NewCount(done, today, k), 0)
  {
    PastWindowNotCredited(r, today, cur);
    assert (done + [r])[..|done|] == done;
    forall k ensures CreditCount(done + [r], today, k) == CreditCount(done, today, k) + (if k in seen then 1 else 0) {
    }
  }

  /** Lines 72-127 for an active row with a start date: the month walk, the
      new subscriber of the start month, and the churn update. */
  method CreditRow(buckets: map<Key, MonthBucket>, order: seq<Key>, r: SubscriptionRow,
                   today: Timestamp, ghost done: seq<SubscriptionRow>)
    returns (buckets': map<Key, MonthBucket>, order': seq<Key>)
    requires Walks(r, today) && r.start.value.day <= 28
    requires Agrees(buckets, order, done, today)
    ensures Agrees(buckets', order', done + [r], today)
    ensures SumRevenue(order', buckets') == SumRevenue(order, buckets) + MonthlyPrice * RowCredits(r, today)
  {
    var start := r.start.value;
    var end := WindowEnd(r, today);
    buckets', order' := WalkMonths(buckets, order, r, today, done);
    ghost var walked := buckets';
    var startKey := KeyOf(start);
    if startKey in buckets' {
      buckets' := buckets'[startKey := buckets'[startKey].(newSubscribers := buckets'[startKey].newSubscribers + 1)];
    }
    NewSubscriberStep(walked, buckets', order', done, today, r);
    buckets' := ChurnUpdate(buckets', r, end);
  }

  /** The `forEach` callback of lines 62-128 for one row. */
  method ProcessRow(r: SubscriptionRow, today: Timestamp, activeCount: nat, trialCount: nat,
                    buckets: map<Key, MonthBucket>, order: seq<Key>, ghost done: seq<SubscriptionRow>)
    returns (activeCount': nat, trialCount': nat, buckets': map<Key, MonthBucket>, order': seq<Key>)
    requires r.start.Some? ==> r.start.value.day <= 28
    requires Agrees(buckets, order, done, today)
    ensures activeCount' == activeCount + (if CountsActive(r, today) then 1 else 0)
    ensures trialCount' == trialCount + (if InTrial(r, today) then 1 else 0)
    ensures Agrees(buckets', order', done + [r], today)
    ensures SumRevenue(order', buckets') == SumRevenue(order, buckets) + MonthlyPrice * RowCredits(r, today)
  {
    activeCount', trialCount', buckets', order' := activeCount, trialCount, buckets, order;
    if r.trialEnd.Some? && Before(today, r.trialEnd.value) {
      trialCount' := trialCount' + 1;
      NotWalkedChangesNothing(done, today, r);
    } else if r.status == Some("active") {
      activeCount' := activeCount' + 1;
      if r.start.Some? {
        buckets', order' := CreditRow(buckets', order', r, today, done);
      } else {
        NotWalkedChangesNothing(done, today, r);
      }
    } else {
      NotWalkedChangesNothing(done, today, r);
    }
  }

  /** `subscriptionsData.forEach(...)`: the counters and the map after every row. */
  method ProcessRows(rows: seq<SubscriptionRow>, today: Timestamp)
    returns (activeCount: nat, trialCount: nat, buckets: map<Key, MonthBucket>, order: seq<Key>)
    requires forall i :: 0 <= i < |rows| && rows[i].start.Some? ==> rows[i].start.value.day <= 28
    ensures activeCount == ActiveCount(rows, today)
    ensures trialCount == TrialCount(rows, today)
    ensures Agrees(buckets, order, rows, today)
    ensures SumRevenue(order, buckets) == MonthlyPrice * TotalCredits(rows, today)
  {
    activeCount, trialCount := 0, 0;
    buckets, order := map[], [];
    var i := 0;
    while i < |rows|
      invariant 0 <= i <= |rows|
      invariant activeCount == ActiveCount(rows[..i], today)
      invariant trialCount == TrialCount(rows[..i], today)
      invariant Agrees(buckets, order, rows[..i], today)
      invariant SumRevenue(order, buckets) == MonthlyPrice * TotalCredits(rows[..i], today)
    {
      assert rows[..i + 1] == rows[..i] + [rows[i]];
      assert (rows[..i] + [rows[i]])[..i] == rows[..i];
      activeCount, trialCount, buckets, order :=
        ProcessRow(rows[i], today, activeCount, trialCount, buckets, order, rows[..i]);
      i := i + 1;
    }
    assert rows[..i] == rows;
  }

  /** `fetchUserStats` from the rows read to the state it sets (lines 52-184). */
  method FetchUserStats(rows: seq<SubscriptionRow>, today: Timestamp)
    returns (series: seq<MonthBucket>, metrics: RevenueMetrics)
    requires forall i :: 0 <= i < |rows| && rows[i].start.Some? ==> rows[i].start.value.day <= 28
    ensures metrics.activeUsers == ActiveCount(rows, today)
    ensures metrics.trialUsers == TrialCount(rows, today)
    ensures metrics.mrr == MrrPolicy(rows, today)
    ensures metrics.arr == 12 * metrics.mrr
    ensures metrics.totalRevenue == MonthlyPrice * TotalCredits(rows, today)
    ensures metrics.totalRevenue == TotalOf(series)
    ensures metrics.conversionRate == Ratio(ActiveCount(rows, today), |rows|)
    ensures metrics.churnRate == Ratio(EndedCount(rows), |rows|)
    ensures forall b :: b in series ==> b == ExpectedBucket(rows, today, (b.year, b.monthOrder)) && b.revenue > 0
    ensures forall k :: CreditCount(rows, today, k) > 0 <==> exists b :: b in series && (b.year, b.monthOrder) == k
    ensures forall i, j :: 0 <= i < j < |series| ==> EarlierMonth(series[i], series[j])
  {
    var activeCount, trialCount, buckets, order := ProcessRows(rows, today);

    var currentMrr := CurrentMrr(buckets, activeCount, today, order, rows);
    var totalRevenue := SumBuckets(order, buckets);

    var total := |rows|;
    var conversionRate := if total > 0 then activeCount as real / total as real else 0.0;
    var ended := EndedCount(rows);
    var churnRate := if total > 0 then ended as real / total as real else 0.0;
    metrics := RevenueMetrics(currentMrr, currentMrr * 12, totalRevenue, activeCount, trialCount,
                              conversionRate, churnRate);

    var values := ValuesInOrder(order, buckets);
    series := Sorting.SortBy(values, MonthKey);
    SeriesFacts(values, series, order, buckets, rows, today);
  }

  /** MRR (lines 131-149): December of this year, else this month, else $5
      per active row. */
  method CurrentMrr(buckets: map<Key, MonthBucket>, activeCount: nat, today: Timestamp,
                    ghost order: seq<Key>, ghost rows: seq<SubscriptionRow>)
    returns (currentMrr: int)
    requires Agrees(buckets, order, rows, today) && activeCount == ActiveCount(rows, today)
    ensures currentMrr == MrrPolicy(rows, today)
  {
    var decemberKey := (today.year, 12);
    var currentMonthKey := (today.year, today.month);
    currentMrr := 0;
    if decemberKey in buckets {
      currentMrr := buckets[decemberKey].revenue;
    } else if currentMonthKey in buckets {
      currentMrr := buckets[currentMonthKey].revenue;
    } else {
      currentMrr := activeCount * MonthlyPrice;
    }
  }

  /** `monthlyRevenue.forEach(month => totalRevenue += month.revenue)`
      (lines 151-155): the sum of the revenues of the buckets. */
  method SumBuckets(order: seq<Key>, buckets: map<Key, MonthBucket>) returns (totalRevenue: int)
    requires forall k :: k in order ==> k in buckets
    ensures totalRevenue == SumRevenue(order, buckets)
  {
    totalRevenue := 0;
    var j := 0;
    while j < |order|
      invariant 0 <= j <= |order|
      invariant totalRevenue == SumRevenue(order[..j], buckets)
    {
      assert order[..j + 1][..j] == order[..j];
      totalRevenue := totalRevenue + buckets[order[j]].revenue;
      j := j + 1;
    }
    assert order[..j] == order;
  }

  /** The sort key of the comparator `a.year === b.year ? a.monthOrder -
      b.monthOrder : a.year - b.year`. */
  function MonthKey(b: MonthBucket): int
  {
    MonthIndex(b.year, b.monthOrder)
  }

  /** `a` sorts strictly before `b` under that comparator. */
  predicate EarlierMonth(a: MonthBucket, b: MonthBucket)
  {
    a.year < b.year || (a.year == b.year && a.monthOrder < b.monthOrder)
  }

  /** The churn update of lines 119-126: the month containing the end of
      the window gains a churned subscriber when the row has an end date and
      its status is not `'active'`.  It is only reached for rows whose status
      is `'active'`, so there it changes nothing. */
  function ChurnUpdate(buckets: map<Key, MonthBucket>, r: SubscriptionRow, end: Instant): (b: map<Key, MonthBucket>)
    ensures r.status == Some("active") ==> b == buckets
    ensures b.Keys == buckets.Keys
    ensures forall k :: k in b && k != KeyOf(end) ==> b[k] == buckets[k]
    ensures KeyOf(end) in b ==>
              b[KeyOf(end)] == buckets[KeyOf(end)].(churnedSubscribers :=
                buckets[KeyOf(end)].churnedSubscribers + (if Ended(r) then 1 else 0))
  {
    var endKey := KeyOf(end);
    if r.end.Some? && r.status != Some("active") && endKey in buckets then
      buckets[endKey := buckets[endKey].(churnedSubscribers := buckets[endKey].churnedSubscribers + 1)]
    else buckets
  }

  // ---------------------------------------------------------------------------
  // Lemmas used by the methods

  /** A row that is not walked leaves every count where it was. */
  lemma NotWalkedChangesNothing(done: seq<SubscriptionRow>, today: Timestamp, r: SubscriptionRow)
    requires !Walks(r, today)
    ensures forall k :: CreditCount(done + [r], today, k) == CreditCount(done, today, k)
    ensures forall k :: NewCount(done + [r], today, k) == NewCount(done, today, k)
    ensures TotalCredits(done + [r], today) == TotalCredits(done, today)
  {
    assert (done + [r])[..|done|] == done;
  }

  lemma SumAppend(order: seq<Key>, buckets: map<Key, MonthBucket>, k: Key, v: MonthBucket)
    requires forall x :: x in order ==> x in buckets
    requires k !in order
    ensures SumRevenue(order + [k], buckets[k := v]) == SumRevenue(order, buckets) + v.revenue
  {
    assert (order + [k])[..|order|] == order;
    SumIgnoresOthers(order, buckets, k, v);
  }

  lemma {:induction false} SumIgnoresOthers(order: seq<Key>, buckets: map<Key, MonthBucket>, k: Key, v: MonthBucket)
    requires forall x :: x in order ==> x in buckets
    requires k !in order
    ensures SumRevenue(order, buckets[k := v]) == SumRevenue(order, buckets)
  {
    if order != [] {
      SumIgnoresOthers(order[..|order| - 1], buckets, k, v);
    }
  }

  lemma {:induction false} SumUpdate(order: seq<Key>, buckets: map<Key, MonthBucket>, k: Key, v: MonthBucket)
    requires forall x :: x in order ==> x in buckets
    requires k in order && Sorting.Distinct(order)
    ensures SumRevenue(order, buckets[k := v]) == SumRevenue(order, buckets) - buckets[k].revenue + v.revenue
  {
    var init := order[..|order| - 1];
    assert Sorting.Distinct(init);
    if order[|order| - 1] == k {
      assert k !in init;
      SumIgnoresOthers(init, buckets, k, v);
    } else {
      assert k in init by {
        assert order == init + [order[|order| - 1]];
      }
      SumUpdate(init, buckets, k, v);
    }
  }

  /** Once the walk has passed the end of the window, no later month is credited. */
  lemma PastWindowNotCredited(r: SubscriptionRow, today: Timestamp, cur: Instant)
    requires Walks(r, today)
    requires 1 <= cur.month <= 12 && cur.day == r.start.value.day && cur.millis == r.start.value.millis
    requires !AtOrBefore(cur, WindowEnd(r, today))
    ensures forall k :: Credits(r, today, k) ==> MonthIndex(k.0, k.1) < MonthIndexOf(cur)
  {
  }

  /** A month can have new subscribers only once it has been credited. */
  lemma {:induction false} NewNeedsCredit(rows: seq<SubscriptionRow>, today: Timestamp, k: Key)
    ensures NewCount(rows, today, k) > 0 ==> CreditCount(rows, today, k) > 0
  {
    if rows != [] {
      NewNeedsCredit(rows[..|rows| - 1], today, k);
      CreditCountGrows(rows[..|rows| - 1], rows[|rows| - 1], today, k);
      assert rows == rows[..|rows| - 1] + [rows[|rows| - 1]];
    }
  }

  lemma CreditCountGrows(rows: seq<SubscriptionRow>, r: SubscriptionRow, today: Timestamp, k: Key)
    ensures CreditCount(rows, today, k) <= CreditCount(rows + [r], today, k)
  {
    assert (rows + [r])[..|rows|] == rows;
  }

  /** Counting the row as a new subscriber of its start month, when that
      month has a bucket, brings the map in line with one more row and keeps
      every revenue. */
  lemma NewSubscriberStep(b1: map<Key, MonthBucket>, b2: map<Key, MonthBucket>, order: seq<Key>,
                          done: seq<SubscriptionRow>, today: Timestamp, r: SubscriptionRow)
    requires Walks(r, today)
    requires (forall k :: k in b1 <==> k in order) && Sorting.Distinct(order)
    requires forall k :: k in b1 <==> CreditCount(done + [r], today, k) > 0
    requires forall k :: k in b1 ==>
               b1[k] == MonthBucket(k.0, k.1, MonthlyPrice * CreditCount(done + [r], today, k), NewCount(done, today, k), 0)
    requires KeyOf(r.start.value) in b1 ==>
               b2 == b1[KeyOf(r.start.value) := b1[KeyOf(r.start.value)].(newSubscribers := b1[KeyOf(r.start.value)].newSubscribers + 1)]
    requires KeyOf(r.start.value) !in b1 ==> b2 == b1
    ensures Agrees(b2, order, done + [r], today)
    ensures SumRevenue(order, b2) == SumRevenue(order, b1)
  {
    var rows := done + [r];
    assert rows[..|done|] == done;
    var sk := KeyOf(r.start.value);
    if sk in b1 {
      SumUpdate(order, b1, sk, b2[sk]);
    }
    forall k | k in b2
      ensures b2[k] == MonthBucket(k.0, k.1, MonthlyPrice * CreditCount(rows, today, k), NewCount(rows, today, k), 0)
    {
      assert NewCount(rows, today, k) == NewCount(done, today, k) + (if k == sk && CreditCount(rows, today, k) > 0 then 1 else 0);
      if k != sk {
        assert b2[k] == b1[k];
      }
    }
  }

  lemma SeriesFacts(values: seq<MonthBucket>, series: seq<MonthBucket>, order: seq<Key>,
                    buckets: map<Key, MonthBucket>, rows: seq<SubscriptionRow>, today: Timestamp)
    requires Agrees(buckets, order, rows, today)
    requires values == ValuesInOrder(order, buckets)
    requires multiset(series) == multiset(values) && Sorting.SortedBy(series, MonthKey)
    ensures TotalOf(series) == SumRevenue(order, buckets)
    ensures forall b :: b in series ==> b == ExpectedBucket(rows, today, (b.year, b.monthOrder)) && b.revenue > 0
    ensures forall k :: CreditCount(rows, today, k) > 0 <==> exists b :: b in series && (b.year, b.monthOrder) == k
    ensures forall i, j :: 0 <= i < j < |series| ==> EarlierMonth(series[i], series[j])
  {
    TotalOfPermutation(values, series);
    SeriesElements(values, series, order, buckets, rows, today);
    SeriesCovers(values, series, order, buckets, rows, today);
    ValuesDistinct(values, order, buckets, rows, today);
    Sorting.PermutationKeepsDistinct(values, series);
    SeriesStrict(series, rows, today);
  }

  lemma SeriesElements(values: seq<MonthBucket>, series: seq<MonthBucket>, order: seq<Key>,
                       buckets: map<Key, MonthBucket>, rows: seq<SubscriptionRow>, today: Timestamp)
    requires Agrees(buckets, order, rows, today)
    requires values == ValuesInOrder(order, buckets)
    requires multiset(series) == multiset(values)
    ensures forall b :: b in series ==> b == ExpectedBucket(rows, today, (b.year, b.monthOrder)) && b.revenue > 0
  {
    forall b | b in series ensures b == ExpectedBucket(rows, today, (b.year, b.monthOrder)) && b.revenue > 0 {
      assert b in multiset(series);
      var p :| 0 <= p < |values| && values[p] == b;
      assert b == buckets[order[p]];
    }
  }

  lemma SeriesCovers(values: seq<MonthBucket>, series: seq<MonthBucket>, order: seq<Key>,
                     buckets: map<Key, MonthBucket>, rows: seq<SubscriptionRow>, today: Timestamp)
    requires Agrees(buckets, order, rows, today)
    requires values == ValuesInOrder(order, buckets)
    requires multiset(series) == multiset(values)
    requires forall b :: b in series ==> b == ExpectedBucket(rows, today, (b.year, b.monthOrder)) && b.revenue > 0
    ensures forall k :: CreditCount(rows, today, k) > 0 <==> exists b :: b in series && (b.year, b.monthOrder) == k
  {
    forall k | CreditCount(rows, today, k) > 0 ensures exists b :: b in series && (b.year, b.monthOrder) == k {
      var p :| 0 <= p < |order| && order[p] == k;
      assert values[p] in multiset(values);
      assert values[p] in series;
    }
  }

  lemma ValuesDistinct(values: seq<MonthBucket>, order: seq<Key>,
                       buckets: map<Key, MonthBucket>, rows: seq<SubscriptionRow>, today: Timestamp)
    requires Agrees(buckets, order, rows, today)
    requires values == ValuesInOrder(order, buckets)
    ensures Sorting.Distinct(values)
  {
    forall i, j | 0 <= i < j < |values| ensures values[i] != values[j] {
      assert order[i] != order[j];
      assert (values[i].year, values[i].monthOrder) == order[i];
    }
  }

  /** Sorted by month with no bucket twice, and every bucket determined by its
      month: the months strictly increase. */
  lemma SeriesStrict(series: seq<MonthBucket>, rows: seq<SubscriptionRow>, today: Timestamp)
    requires Sorting.SortedBy(series, MonthKey) && Sorting.Distinct(series)
    requires forall b :: b in series ==> b == ExpectedBucket(rows, today, (b.year, b.monthOrder)) && b.revenue > 0
    ensures forall i, j :: 0 <= i < j < |series| ==> EarlierMonth(series[i], series[j])
  {
    forall i, j | 0 <= i < j < |series| ensures EarlierMonth(series[i], series[j]) {
      assert MonthKey(series[i]) <= MonthKey(series[j]);
      assert series[i] in series && series[j] in series;
      assert 1 <= series[i].monthOrder <= 12 && 1 <= series[j].monthOrder <= 12 by {
        CreditedMonthValid(rows, today, (series[i].year, series[i].monthOrder));
        CreditedMonthValid(rows, today, (series[j].year, series[j].monthOrder));
      }
    }
  }

  lemma {:induction false} CreditedMonthValid(rows: seq<SubscriptionRow>, today: Timestamp, k: Key)
    requires CreditCount(rows, today, k) > 0
    ensures ValidKey(k)
  {
    if !Credits(rows[|rows| - 1], today, k) {
      CreditedMonthValid(rows[..|rows| - 1], today, k);
    }
  }

  lemma {:induction false} TotalOfPermutation(a: seq<MonthBucket>, b: seq<MonthBucket>)
    requires multiset(a) == multiset(b)
    ensures TotalOf(a) == TotalOf(b)
    decreases |a|
  {
    if a != [] {
      var x := a[|a| - 1];
      assert x in multiset(b);
      var p :| 0 <= p < |b| && b[p] == x;
      var b' := b[..p] + b[p + 1..];
      assert b == b[..p] + [x] + b[p + 1..];
      assert multiset(b) == multiset(b[..p]) + multiset{x} + multiset(b[p + 1..]);
      assert multiset(b') == multiset(b[..p]) + multiset(b[p + 1..]);
      assert a == a[..|a| - 1] + [x];
      assert multiset(a) == multiset(a[..|a| - 1]) + multiset{x};
      assert multiset(a[..|a| - 1]) == multiset(a) - multiset{x};
      assert multiset(b') == multiset(b) - multiset{x};
      TotalOfPermutation(a[..|a| - 1], b');
      TotalOfRemove(b, p);
    }
  }

  lemma {:induction false} TotalOfRemove(b: seq<MonthBucket>, p: nat)
    requires p < |b|
    ensures TotalOf(b) == TotalOf(b[..p] + b[p + 1..]) + b[p].revenue
    decreases |b|
  {
    if p < |b| - 1 {
      var init := b[..|b| - 1];
      TotalOfRemove(init, p);
      assert init[..p] + init[p + 1..] == (b[..p] + b[p + 1..])[..|b| - 2];
    } else {
      assert b[..p] + b[p + 1..] == b[..|b| - 1];
    }
  }

  // ---------------------------------------------------------------------------
  // Properties of the closed-form functions

  /** A row is counted as a trial, as active, or neither, never both. */
  lemma {:induction false} ActivePlusTrialAtMostRows(rows: seq<SubscriptionRow>, today: Instant)
    ensures ActiveCount(rows, today) + TrialCount(rows, today) <= |rows|
  {
    if rows != [] {
      ActivePlusTrialAtMostRows(rows[..|rows| - 1], today);
    }
  }

  /** Both ratios lie in [0, 1] and are 0 for an empty snapshot. */
  lemma RatesInUnitInterval(rows: seq<SubscriptionRow>, today: Instant)
    ensures 0.0 <= Ratio(ActiveCount(rows, today), |rows|) <= 1.0
    ensures 0.0 <= Ratio(EndedCount(rows), |rows|) <= 1.0
    ensures rows == [] ==> Ratio(ActiveCount(rows, today), |rows|) == 0.0 && Ratio(EndedCount(rows), |rows|) == 0.0
  {
  }

  /** The date the walk visits `j` months after `start`. */
  function AddMonths(start: Instant, j: nat): (t: Instant)
    requires 1 <= start.month <= 12
    ensures 1 <= t.month <= 12 && t.day == start.day && t.millis == start.millis
    ensures MonthIndexOf(t) == MonthIndexOf(start) + j
  {
    if j == 0 then start else NextMonth(AddMonths(start, j - 1))
  }

  /** The month of the `j`-th visited date is credited exactly when that date
      is within the window and past the trial. */
  lemma CreditsIffVisitedPastTrial(r: SubscriptionRow, today: Timestamp, j: nat)
    requires Walks(r, today)
    ensures var t := AddMonths(r.start.value, j);
            Credits(r, today, KeyOf(t)) <==> AtOrBefore(t, WindowEnd(r, today)) && PastTrial(r, t)
  {
    var t := AddMonths(r.start.value, j);
    assert DateIn(r.start.value, KeyOf(t)) == t;
  }

  /** Every credited month is the month of a visited date. */
  lemma CreditedMonthIsVisited(r: SubscriptionRow, today: Timestamp, k: Key)
    requires Credits(r, today, k)
    ensures var j := MonthIndex(k.0, k.1) - MonthIndexOf(r.start.value);
            j >= 0 && KeyOf(AddMonths(r.start.value, j)) == k
  {
    var j := MonthIndex(k.0, k.1) - MonthIndexOf(r.start.value);
    var t := AddMonths(r.start.value, j);
    assert MonthIndexOf(t) == MonthIndex(k.0, k.1);
  }

  /** A row that is not walked (in trial, not `'active'`, or without a start
      date) leaves every bucket and the total where they were. */
  lemma {:induction false} NotWalkedAddsNothing(done: seq<SubscriptionRow>, today: Timestamp, r: SubscriptionRow)
    requires InTrial(r, today) || r.status != Some("active") || r.start.None?
    ensures forall k :: ExpectedBucket(done + [r], today, k) == ExpectedBucket(done, today, k)
    ensures forall k :: CreditCount(done + [r], today, k) == CreditCount(done, today, k)
    ensures TotalCredits(done + [r], today) == TotalCredits(done, today)
  {
    NotWalkedChangesNothing(done, today, r);
  }

  /** Rows walked that started in month `k`. */
  function StartedIn(rows: seq<SubscriptionRow>, today: Timestamp, k: Key): nat
  {
    if rows == [] then 0
    else
      var r := rows[|rows| - 1];
      StartedIn(rows[..|rows| - 1], today, k) + (if Walks(r, today) && KeyOf(r.start.value) == k then 1 else 0)
  }

  /** Each row adds at most one new subscriber, and only to its start month. */
  lemma {:induction false} NewCountAtMostStarts(rows: seq<SubscriptionRow>, today: Timestamp, k: Key)
    ensures NewCount(rows, today, k) <= StartedIn(rows, today, k)
  {
    if rows != [] {
      NewCountAtMostStarts(rows[..|rows| - 1], today, k);
    }
  }

  /** A row that starts in another month leaves the new-subscriber count of
      month `k` unchanged. */
  lemma NewCountOnlyStartMonth(done: seq<SubscriptionRow>, today: Timestamp, r: SubscriptionRow, k: Key)
    requires r.start.None? || KeyOf(r.start.value) != k
    ensures NewCount(done + [r], today, k) == NewCount(done, today, k)
  {
    assert (done + [r])[..|done|] == done;
  }

  /** The walk of one row credits at most one date per month of its window. */
  lemma {:induction false} WalkCountAtMostMonths(r: SubscriptionRow, today: Timestamp, cur: Instant)
    requires 1 <= cur.month <= 12
    ensures WalkCount(r, today, cur) <= if MonthIndexOf(cur) <= MonthIndexOf(WindowEnd(r, today))
                                        then MonthIndexOf(WindowEnd(r, today)) - MonthIndexOf(cur) + 1 else 0
    decreases MonthIndexOf(WindowEnd(r, today)) - MonthIndexOf(cur) + 1
  {
    if AtOrBefore(cur, WindowEnd(r, today)) {
      WalkCountAtMostMonths(r, today, NextMonth(cur));
    }
  }

  // Worked scenarios, evaluated on the closed-form functions.

  /** Active row from 1 January, no end, no trial, evaluated on 15 March:
      January, February and March each hold $5, January one new subscriber. */
  lemma ScenarioPlainActive()
    ensures var row := SubscriptionRow(1, "u1", "", Some("active"), Some("Monthly Plan"), None,
                                       Some(Instant(2025, 1, 1, 0)), None, Instant(2025, 1, 1, 0));
            var today := Instant(2025, 3, 15, 0);
            && ExpectedBucket([row], today, (2025, 1)) == MonthBucket(2025, 1, 5, 1, 0)
            && ExpectedBucket([row], today, (2025, 2)) == MonthBucket(2025, 2, 5, 0, 0)
            && ExpectedBucket([row], today, (2025, 3)) == MonthBucket(2025, 3, 5, 0, 0)
            && CreditCount([row], today, (2025, 4)) == 0
            && ActiveCount([row], today) == 1 && TrialCount([row], today) == 0
  {
  }

  /** The same row with a trial ending 20 January: January is not credited,
      so it has no bucket and the new subscriber is not counted anywhere. */
  lemma ScenarioTrialCoversStartMonth()
    ensures var row := SubscriptionRow(1, "u1", "", Some("active"), Some("Monthly Plan"), Some(Instant(2025, 1, 20, 0)),
                                       Some(Instant(2025, 1, 1, 0)), None, Instant(2025, 1, 1, 0));
            var today := Instant(2025, 3, 15, 0);
            && CreditCount([row], today, (2025, 1)) == 0
            && NewCount([row], today, (2025, 1)) == 0
            && CreditCount([row], today, (2025, 2)) == 1
            && CreditCount([row], today, (2025, 3)) == 1
  {
  }

  /** Two rows starting on 1 January, one plain and one whose trial covers
      January.  When the plain row comes first it creates January's bucket,
      and the trial row's new subscriber is counted there; in the other order
      January's bucket does not exist yet when the trial row is processed. */
  lemma ScenarioEarlierRowCreditsStartMonth()
    ensures var plain := SubscriptionRow(1, "u1", "", Some("active"), Some("Monthly Plan"), None,
                                         Some(Instant(2025, 1, 1, 0)), None, Instant(2025, 1, 1, 0));
            var trial := SubscriptionRow(2, "u2", "", Some("active"), Some("Monthly Plan"), Some(Instant(2025, 1, 20, 0)),
                                         Some(Instant(2025, 1, 1, 0)), None, Instant(2025, 1, 1, 0));
            var today := Instant(2025, 3, 15, 0);
            && ExpectedBucket([plain, trial], today, (2025, 1)) == MonthBucket(2025, 1, 5, 2, 0)
            && ExpectedBucket([trial, plain], today, (2025, 1)) == MonthBucket(2025, 1, 5, 1, 0)
  {
  }

  /** A canceled row with an end date adds no revenue and no churn; it only
      counts toward the churn ratio. */
  lemma ScenarioCanceled()
    ensures var row := SubscriptionRow(1, "u1", "", Some("canceled"), Some("Monthly Plan"), None,
                                       Some(Instant(2025, 1, 1, 0)), Some(Instant(2025, 3, 1, 0)), Instant(2025, 1, 1, 0));
            var today := Instant(2025, 3, 15, 0);
            && (forall k :: CreditCount([row], today, k) == 0)
            && ActiveCount([row], today) == 0
            && Ratio(EndedCount([row]), 1) == 1.0
  {
    var row := SubscriptionRow(1, "u1", "", Some("canceled"), Some("Monthly Plan"), None,
                               Some(Instant(2025, 1, 1, 0)), Some(Instant(2025, 3, 1, 0)), Instant(2025, 1, 1, 0));
    assert [row][..0] == [];
  }
}
