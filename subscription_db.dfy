/** The embedded store of the bot: the `subscriptions` table (one paid-access
    window per user) and the `food_analyses` ledger (one row per meal or
    water entry). Both tables are held in memory by class SubscriptionDb;
    each public operation is one atomic step on them. */
module SubscriptionStore {
  import opened Clock

  datatype Option<T> = None | Some(value: T)

  /** Dish name of water-only ledger rows ("Water" in Ukrainian). */
  const WATER: string := "Вода"

  // ---------------------------------------------------------------------
  // Subscriptions
  // ---------------------------------------------------------------------

  /** One row of the `subscriptions` table. */
  datatype Subscription = Subscription(start: int, end: int, created: int, updated: int)

  /** What get_subscription_status reports about one user. */
  datatype SubscriptionStatus = SubscriptionStatus(
    hasSubscription: bool,
    start: Option<int>,
    end: Option<int>,
    created: Option<int>,
    updated: Option<int>,
    daysLeft: nat,
    isActive: bool)

  /** One entry of the admin listing of all subscriptions. */
  datatype SubscriptionView = SubscriptionView(userId: int, sub: Subscription, daysLeft: nat, isActive: bool)

  function Lookup(subs: map<int, Subscription>, userId: int): Option<Subscription>
  {
    if userId in subs then Some(subs[userId]) else None
  }

  /** The row add_subscription leaves for a user whose current row is
      `existing`: a still-running window is extended from its end, an
      expired or missing one restarts from `now`. */
  function Renewed(existing: Option<Subscription>, months: int, now: int): (s: Subscription)
    ensures s.updated == now
    ensures existing.None? ==> s.start == now && s.created == now && s.end == now + MonthsToSeconds(months)
    ensures existing.Some? ==> s.start == existing.value.start && s.created == existing.value.created
    ensures existing.Some? && existing.value.end > now ==> s.end == existing.value.end + MonthsToSeconds(months)
    ensures existing.Some? && existing.value.end <= now ==> s.end == now + MonthsToSeconds(months)
  {
    match existing
    case None => Subscription(now, now + MonthsToSeconds(months), now, now)
    case Some(prev) =>
      var base := if prev.end > now then prev.end else now;
      prev.(end := base + MonthsToSeconds(months), updated := now)
  }

  /** The new window always begins at the later of `now` and the old end:
      renewals stack and never cut a running window short. */
  lemma RenewedStartsAtLaterOf(existing: Option<Subscription>, months: int, now: int)
    requires months >= 0
    ensures Renewed(existing, months, now).end >= now + MonthsToSeconds(months)
    ensures existing.Some? ==> Renewed(existing, months, now).end >= existing.value.end + MonthsToSeconds(months)
    ensures existing.Some? ==> Renewed(existing, months, now).end >= existing.value.end
  {
  }

  /** Status of one user's row: active iff the window ends after `now`,
      with the whole days left floored and never negative. */
  function StatusOf(subs: map<int, Subscription>, userId: int, now: int): (st: SubscriptionStatus)
    ensures st.hasSubscription <==> userId in subs
    ensures st.isActive <==> userId in subs && subs[userId].end > now
    ensures st.hasSubscription ==> st.start == Some(subs[userId].start) && st.end == Some(subs[userId].end)
    ensures st.hasSubscription ==> st.created == Some(subs[userId].created) && st.updated == Some(subs[userId].updated)
    ensures !st.hasSubscription ==> st.start == None && st.end == None && st.created == None && st.updated == None
    ensures st.isActive ==> st.daysLeft * DAY <= subs[userId].end - now < (st.daysLeft + 1) * DAY
    ensures !st.isActive ==> st.daysLeft == 0
  {
    if userId !in subs then
      SubscriptionStatus(false, None, None, None, None, 0, false)
    else
      var s := subs[userId];
      SubscriptionStatus(true, Some(s.start), Some(s.end), Some(s.created), Some(s.updated),
        DaysLeft(s.end, now), s.end > now)
  }

  /** A renewal keeps every window well formed: a window that began no
      later than `now` and ends no earlier than it began still does so
      after the renewal, and a new window ends no earlier than it starts. */
  lemma RenewedKeepsOrder(existing: Option<Subscription>, months: int, now: int)
    requires months >= 0
    requires existing.Some? ==> existing.value.start <= existing.value.end && existing.value.start <= now
    ensures Renewed(existing, months, now).start <= Renewed(existing, months, now).end
  {
  }

  /** After a renewal of at least one month the user is active, with at
      least 30 days per month bought left. */
  lemma {:induction false} ActiveAfterRenewal(subs: map<int, Subscription>, userId: int, months: int, now: int)
    requires months >= 1
    ensures StatusOf(subs[userId := Renewed(Lookup(subs, userId), months, now)], userId, now).isActive
    ensures StatusOf(subs[userId := Renewed(Lookup(subs, userId), months, now)], userId, now).daysLeft >= MONTH_DAYS * months
  {
    var subs' := subs[userId := Renewed(Lookup(subs, userId), months, now)];
    RenewedStartsAtLaterOf(Lookup(subs, userId), months, now);
    var st := StatusOf(subs', userId, now);
    var span := subs'[userId].end - now;
    assert span >= MONTH_DAYS * months * DAY;
    assert span < (st.daysLeft + 1) * DAY;
  }

  /** The rows that the expiry sweep keeps: a window ending exactly at
      `now` is kept. */
  function Unexpired(subs: map<int, Subscription>, now: int): (r: map<int, Subscription>)
    ensures forall u :: u in r <==> u in subs && subs[u].end >= now
    ensures forall u :: u in r ==> r[u] == subs[u]
  {
    map u | u in subs && subs[u].end >= now :: subs[u]
  }

  /** The users whose rows the expiry sweep deletes. */
  function ExpiredUsers(subs: map<int, Subscription>, now: int): (r: set<int>)
    ensures forall u :: u in r <==> u in subs && subs[u].end < now
  {
    set u | u in subs && subs[u].end < now
  }

  /** The sweep removes exactly the expired users: kept and deleted rows
      partition the table. */
  lemma {:induction false} ExpiryPartition(subs: map<int, Subscription>, now: int)
    ensures Unexpired(subs, now).Keys == subs.Keys - ExpiredUsers(subs, now)
    ensures |Unexpired(subs, now)| + |ExpiredUsers(subs, now)| == |subs|
  {
    var kept := Unexpired(subs, now).Keys;
    var gone := ExpiredUsers(subs, now);
    assert kept == subs.Keys - gone;
    assert kept !! gone;
    assert kept + gone == subs.Keys;
    assert |kept + gone| == |kept| + |gone|;
  }

  function View(userId: int, s: Subscription, now: int): SubscriptionView
  {
    SubscriptionView(userId, s, DaysLeft(s.end, now), s.end > now)
  }

  /** Ordered by end date, latest first. */
  predicate SortedByEndDesc(list: seq<SubscriptionView>)
  {
    forall i, j :: 0 <= i < j < |list| ==> list[i].sub.end >= list[j].sub.end
  }

  /** Insert one entry into a list kept in ORDER BY end_date DESC. */
  function InsertByEnd(list: seq<SubscriptionView>, v: SubscriptionView): (r: seq<SubscriptionView>)
    ensures |r| == |list| + 1
    ensures multiset(r) == multiset(list) + multiset{v}
    ensures forall x :: x in r <==> x in list || x == v
    ensures SortedByEndDesc(list) ==> SortedByEndDesc(r)
  {
    if list == [] then [v]
    else if v.sub.end >= list[0].sub.end then [v] + list
    else
      var rest := InsertByEnd(list[1..], v);
      HeadBoundsRest(list, v, rest);
      InsertedAtHead(list, rest, v);
      [list[0]] + rest
  }

  /** Putting the head back in front of the tail with `v` inserted is the
      whole list with `v` added. */
  lemma InsertedAtHead(list: seq<SubscriptionView>, rest: seq<SubscriptionView>, v: SubscriptionView)
    requires |list| > 0
    requires multiset(rest) == multiset(list[1..]) + multiset{v}
    ensures multiset([list[0]] + rest) == multiset(list) + multiset{v}
  {
    assert list == [list[0]] + list[1..];
  }

  /** In a list sorted latest first, the head ends no earlier than anything
      drawn from the tail or than an entry ending before it. */
  lemma HeadBoundsRest(list: seq<SubscriptionView>, v: SubscriptionView, rest: seq<SubscriptionView>)
    requires |list| > 0 && v.sub.end < list[0].sub.end
    requires forall x :: x in rest ==> x in list[1..] || x == v
    ensures SortedByEndDesc(list) ==> forall j :: 0 <= j < |rest| ==> list[0].sub.end >= rest[j].sub.end
  {
    if SortedByEndDesc(list) {
      forall j | 0 <= j < |rest|
        ensures list[0].sub.end >= rest[j].sub.end
      {
        var x := rest[j];
        assert x in rest;
        if x != v {
          var k :| 0 <= k < |list| - 1 && list[1..][k] == x;
          assert list[k + 1] == x;
        }
      }
    }
  }

  // ---------------------------------------------------------------------
  // Nutrition ledger
  // ---------------------------------------------------------------------

  /** One row of the `food_analyses` table. Nutrient and water amounts are
      whole numbers here. */
  datatype FoodRow = FoodRow(
    id: int,
    userId: int,
    analysisText: string,
    dishName: string,
    dishWeight: int,
    calories: int,
    protein: int,
    fat: int,
    carbs: int,
    waterMl: int,
    createdAt: int)

  /** The totals get_user_daily_stats reports. */
  datatype DailyStats = DailyStats(
    dishesCount: nat,
    totalCalories: int,
    totalProtein: int,
    totalFat: int,
    totalCarbs: int,
    waterMl: int)

  /** What the retention sweep over all users reports. */
  datatype SweepReport = SweepReport(totalUsers: nat, totalDeleted: nat, errors: nat)

  const NoStats: DailyStats := DailyStats(0, 0, 0, 0, 0, 0)

  /** A water-only row, as inserted by add_water and update_user_water. */
  function WaterRow(id: int, userId: int, text: string, waterMl: int, now: int): FoodRow
  {
    FoodRow(id, userId, text, WATER, 0, 0, 0, 0, 0, waterMl, now)
  }

  /** A row counts as a dish when it is not water and has calories. */
  predicate IsDish(r: FoodRow)
  {
    r.dishName != WATER && r.calories > 0
  }

  /** The row belongs to `userId` and was written on the day starting at
      `today` (a value of DayStart). */
  predicate InWindow(r: FoodRow, userId: int, today: int)
  {
    r.userId == userId && InDay(r.createdAt, today)
  }

  /** What one row adds to the daily totals: its nutrients only if it is a
      dish, its water always. */
  function Contribution(r: FoodRow): (c: DailyStats)
    ensures c.waterMl == r.waterMl
    ensures c.dishesCount <= 1
    ensures c.dishesCount == 0 ==> c.totalCalories == 0 && c.totalProtein == 0 && c.totalFat == 0 && c.totalCarbs == 0
    ensures c.dishesCount == 1 <==> IsDish(r)
    ensures c.dishesCount == 1 ==> c.totalCalories == r.calories && c.totalCalories > 0 && r.dishName != WATER
    ensures c.dishesCount == 1 ==> c.totalProtein == r.protein && c.totalFat == r.fat && c.totalCarbs == r.carbs
  {
    if IsDish(r) then DailyStats(1, r.calories, r.protein, r.fat, r.carbs, r.waterMl)
    else DailyStats(0, 0, 0, 0, 0, r.waterMl)
  }

  function Plus(a: DailyStats, b: DailyStats): DailyStats
  {
    DailyStats(a.dishesCount + b.dishesCount, a.totalCalories + b.totalCalories,
      a.totalProtein + b.totalProtein, a.totalFat + b.totalFat,
      a.totalCarbs + b.totalCarbs, a.waterMl + b.waterMl)
  }

  /** The daily totals of `userId` over the rows of `rows` in today's window. */
  function Tally(rows: seq<FoodRow>, userId: int, today: int): (t: DailyStats)
    ensures t.dishesCount <= |rows|
  {
    if rows == [] then NoStats
    else
      var t := Tally(rows[..|rows| - 1], userId, today);
      var r := rows[|rows| - 1];
      if InWindow(r, userId, today) then Plus(t, Contribution(r)) else t
  }

  /** A user with no row in the window has all-zero totals. */
  lemma {:induction false} TallyEmptyWindow(rows: seq<FoodRow>, userId: int, today: int)
    requires forall i :: 0 <= i < |rows| ==> !InWindow(rows[i], userId, today)
    ensures Tally(rows, userId, today) == NoStats
  {
    if rows != [] {
      TallyEmptyWindow(rows[..|rows| - 1], userId, today);
    }
  }

  /** Appending a row adds its contribution if it falls in the window. */
  lemma TallyAppend(rows: seq<FoodRow>, r: FoodRow, userId: int, today: int)
    ensures Tally(rows + [r], userId, today)
         == if InWindow(r, userId, today) then Plus(Tally(rows, userId, today), Contribution(r))
            else Tally(rows, userId, today)
  {
    assert (rows + [r])[..|rows|] == rows;
  }

  /** Raising the water of one of today's rows of `userId` raises the day's
      water by the same amount and leaves every dish total as it was. */
  lemma {:induction false} TallyAddWaterAt(rows: seq<FoodRow>, i: nat, userId: int, w: int, today: int)
    requires i < |rows| && InWindow(rows[i], userId, today)
    ensures Tally(rows[i := rows[i].(waterMl := rows[i].waterMl + w)], userId, today)
         == Tally(rows, userId, today).(waterMl := Tally(rows, userId, today).waterMl + w)
  {
    var rows' := rows[i := rows[i].(waterMl := rows[i].waterMl + w)];
    var n := |rows| - 1;
    var before := Tally(rows[..n], userId, today);
    if i == n {
      assert rows'[..n] == rows[..n];
      assert Contribution(rows'[n]) == Contribution(rows[n]).(waterMl := Contribution(rows[n]).waterMl + w);
    } else {
      assert rows'[..n] == rows[..n][i := rows[i].(waterMl := rows[i].waterMl + w)];
      TallyAddWaterAt(rows[..n], i, userId, w, today);
      assert Tally(rows'[..n], userId, today) == before.(waterMl := before.waterMl + w);
      assert rows'[n] == rows[n];
    }
  }

  /** Raising the water of a row of `userId` changes no other user's day. */
  lemma {:induction false} TallyOtherUserAddWater(rows: seq<FoodRow>, i: nat, other: int, w: int, today: int)
    requires i < |rows| && rows[i].userId != other
    ensures Tally(rows[i := rows[i].(waterMl := rows[i].waterMl + w)], other, today) == Tally(rows, other, today)
  {
    var rows' := rows[i := rows[i].(waterMl := rows[i].waterMl + w)];
    var n := |rows| - 1;
    assert rows'[..n] == if i == n then rows[..n] else rows[..n][i := rows[i].(waterMl := rows[i].waterMl + w)];
    if i < n {
      TallyOtherUserAddWater(rows[..n], i, other, w, today);
    }
  }

  /** The row update_user_water picks: the first of today's rows of the user
      in table order, if any. */
  function FirstInWindow(rows: seq<FoodRow>, userId: int, today: int): (k: Option<nat>)
    ensures k.Some? ==> k.value < |rows| && InWindow(rows[k.value], userId, today)
    ensures k.Some? ==> forall j :: 0 <= j < k.value ==> !InWindow(rows[j], userId, today)
    ensures k.None? <==> forall j :: 0 <= j < |rows| ==> !InWindow(rows[j], userId, today)
  {
    if rows == [] then None
    else if InWindow(rows[0], userId, today) then Some(0)
    else match FirstInWindow(rows[1..], userId, today)
      case None => None
      case Some(k) => Some(k + 1)
  }

  /** The ledger after update_user_water: water added in place to the first
      row of today, or else one new water-only row. */
  function WithWaterAdded(rows: seq<FoodRow>, nextId: int, userId: int, w: int, now: int): (r: seq<FoodRow>)
    ensures |r| == |rows| || |r| == |rows| + 1
  {
    match FirstInWindow(rows, userId, DayStart(now))
    case Some(k) => rows[k := rows[k].(waterMl := rows[k].waterMl + w)]
    case None => rows + [WaterRow(nextId, userId, "", w, now)]
  }

  /** update_user_water touches no row but the user's rows of today, and
      only their water; it appends a water-only row exactly when the user
      had no row today. */
  lemma WaterAddedRows(rows: seq<FoodRow>, nextId: int, userId: int, w: int, now: int)
    ensures var r := WithWaterAdded(rows, nextId, userId, w, now);
      forall i :: 0 <= i < |rows| ==>
        r[i] == rows[i] || (InWindow(rows[i], userId, DayStart(now)) && r[i] == rows[i].(waterMl := rows[i].waterMl + w))
    ensures var r := WithWaterAdded(rows, nextId, userId, w, now);
      |r| == |rows| + 1 <==>
        forall i :: 0 <= i < |rows| ==> !InWindow(rows[i], userId, DayStart(now))
    ensures var r := WithWaterAdded(rows, nextId, userId, w, now);
      |r| == |rows| + 1 ==> r[|rows|] == WaterRow(nextId, userId, "", w, now)
  {
  }

  /** update_user_water changes the row count by at most one, raises the
      user's water for today by exactly `w`, leaves the dish totals alone
      and leaves the user with a row today. */
  lemma {:induction false} WaterAddedTally(rows: seq<FoodRow>, nextId: int, userId: int, w: int, now: int)
    ensures |WithWaterAdded(rows, nextId, userId, w, now)|
         == |rows| + (if FirstInWindow(rows, userId, DayStart(now)).None? then 1 else 0)
    ensures Tally(WithWaterAdded(rows, nextId, userId, w, now), userId, DayStart(now))
         == Tally(rows, userId, DayStart(now)).(waterMl := Tally(rows, userId, DayStart(now)).waterMl + w)
    ensures FirstInWindow(WithWaterAdded(rows, nextId, userId, w, now), userId, DayStart(now)).Some?
  {
    var today := DayStart(now);
    match FirstInWindow(rows, userId, today)
    case Some(k) =>
      assert WithWaterAdded(rows, nextId, userId, w, now) == rows[k := rows[k].(waterMl := rows[k].waterMl + w)];
      WaterIntoRow(rows, k, userId, w, today);
    case None =>
      var x := WaterRow(nextId, userId, "", w, now);
      assert WithWaterAdded(rows, nextId, userId, w, now) == rows + [x];
      WaterIntoNewRow(rows, x, userId, today);
  }

  /** Water added to one of today's rows of the user: the day's water rises
      by `w`, and the user still has a row today. */
  lemma WaterIntoRow(rows: seq<FoodRow>, k: nat, userId: int, w: int, today: int)
    requires k < |rows| && InWindow(rows[k], userId, today)
    ensures Tally(rows[k := rows[k].(waterMl := rows[k].waterMl + w)], userId, today)
         == Tally(rows, userId, today).(waterMl := Tally(rows, userId, today).waterMl + w)
    ensures FirstInWindow(rows[k := rows[k].(waterMl := rows[k].waterMl + w)], userId, today).Some?
  {
    TallyAddWaterAt(rows, k, userId, w, today);
    assert InWindow(rows[k := rows[k].(waterMl := rows[k].waterMl + w)][k], userId, today);
  }

  /** A water-only row appended on a day the user had no row: the day's
      totals are that row's water alone, and the user now has a row today. */
  lemma WaterIntoNewRow(rows: seq<FoodRow>, x: FoodRow, userId: int, today: int)
    requires InWindow(x, userId, today) && x.dishName == WATER
    requires forall i :: 0 <= i < |rows| ==> !InWindow(rows[i], userId, today)
    ensures Tally(rows + [x], userId, today) == Tally(rows, userId, today).(waterMl := Tally(rows, userId, today).waterMl + x.waterMl)
    ensures FirstInWindow(rows + [x], userId, today).Some?
  {
    TallyAppend(rows, x, userId, today);
    TallyEmptyWindow(rows, userId, today);
    assert InWindow((rows + [x])[|rows|], userId, today);
  }

  /** update_user_water for one user leaves every other user's day alone. */
  lemma {:induction false} WaterAddedOthers(rows: seq<FoodRow>, nextId: int, userId: int, w: int, now: int, other: int, today: int)
    requires other != userId
    ensures Tally(WithWaterAdded(rows, nextId, userId, w, now), other, today) == Tally(rows, other, today)
  {
    match FirstInWindow(rows, userId, DayStart(now))
    case Some(k) =>
      TallyOtherUserAddWater(rows, k, other, w, today);
    case None =>
      TallyAppend(rows, WaterRow(nextId, userId, "", w, now), other, today);
  }

  /** Ids strictly increase along the table (AUTOINCREMENT). */
  predicate IdsIncreasing(rows: seq<FoodRow>)
  {
    forall i, j :: 0 <= i < j < |rows| ==> rows[i].id < rows[j].id
  }

  predicate IdsBelow(rows: seq<FoodRow>, bound: int)
  {
    forall i :: 0 <= i < |rows| ==> rows[i].id < bound
  }

  /** The rows a DELETE leaves behind, in table order. */
  function Filter(rows: seq<FoodRow>, keep: FoodRow -> bool): (r: seq<FoodRow>)
    ensures |r| <= |rows|
    ensures forall x :: x in r <==> x in rows && keep(x)
  {
    if rows == [] then []
    else
      var init := Filter(rows[..|rows| - 1], keep);
      var last := rows[|rows| - 1];
      if keep(last) then init + [last] else init
  }

  /** A DELETE keeps the remaining ids in increasing order. */
  lemma {:induction false} FilterIncreasing(rows: seq<FoodRow>, keep: FoodRow -> bool)
    ensures IdsIncreasing(rows) ==> IdsIncreasing(Filter(rows, keep))
  {
    if rows != [] {
      var n := |rows| - 1;
      FilterIncreasing(rows[..n], keep);
      BelowLast(rows, Filter(rows[..n], keep));
    }
  }

  /** Rows drawn from all but the last row have smaller ids than the last. */
  lemma BelowLast(rows: seq<FoodRow>, init: seq<FoodRow>)
    requires |rows| > 0
    requires forall x :: x in init ==> x in rows[..|rows| - 1]
    ensures IdsIncreasing(rows) ==> forall i :: 0 <= i < |init| ==> init[i].id < rows[|rows| - 1].id
  {
    if IdsIncreasing(rows) {
      forall i | 0 <= i < |init|
        ensures init[i].id < rows[|rows| - 1].id
      {
        assert init[i] in init;
        var k :| 0 <= k < |rows| - 1 && rows[..|rows| - 1][k] == init[i];
        assert rows[k] == init[i];
      }
    }
  }

  /** A filter no row passes leaves nothing. */
  lemma {:induction false} FilterKeepsNone(rows: seq<FoodRow>, keep: FoodRow -> bool)
    requires forall x :: x in rows ==> !keep(x)
    ensures Filter(rows, keep) == []
  {
    if rows != [] {
      var n := |rows| - 1;
      forall x | x in rows[..n]
        ensures !keep(x)
      {
        assert x in rows;
      }
      FilterKeepsNone(rows[..n], keep);
      assert rows[n] in rows;
    }
  }

  /** Two deletions in a row are one deletion with both conditions. */
  lemma {:induction false} FilterTwice(rows: seq<FoodRow>, p: FoodRow -> bool, q: FoodRow -> bool, pq: FoodRow -> bool)
    requires forall x :: pq(x) == (p(x) && q(x))
    ensures Filter(Filter(rows, p), q) == Filter(rows, pq)
  {
    if rows != [] {
      var n := |rows| - 1;
      FilterTwice(rows[..n], p, q, pq);
      var inner := Filter(rows[..n], p);
      if p(rows[n]) {
        assert Filter(rows, p) == inner + [rows[n]];
        assert (inner + [rows[n]])[..|inner|] == inner;
      }
    }
  }

  /** Filtering twice with a condition implied by the first is filtering
      once with the second. */
  lemma {:induction false} FilterImplied(rows: seq<FoodRow>, p: FoodRow -> bool, q: FoodRow -> bool)
    requires forall x :: q(x) ==> p(x)
    ensures Filter(Filter(rows, p), q) == Filter(rows, q)
  {
    FilterTwice(rows, p, q, q);
  }

  /** Conditions that agree on the rows present give the same result. */
  lemma {:induction false} FilterAgree(rows: seq<FoodRow>, p: FoodRow -> bool, q: FoodRow -> bool)
    requires forall x :: x in rows ==> p(x) == q(x)
    ensures Filter(rows, p) == Filter(rows, q)
  {
    if rows != [] {
      var n := |rows| - 1;
      forall x | x in rows[..n]
        ensures p(x) == q(x)
      {
        assert x in rows;
      }
      FilterAgree(rows[..n], p, q);
      assert rows[n] in rows;
    }
  }

  /** The rows of one user, in table order. */
  function RowsOf(rows: seq<FoodRow>, userId: int): (r: seq<FoodRow>)
    ensures forall x :: x in r <==> x in rows && x.userId == userId
  {
    Filter(rows, (x: FoodRow) => x.userId == userId)
  }

  /** The ledger after clear_user_history(userId). */
  function WithoutUser(rows: seq<FoodRow>, userId: int): (r: seq<FoodRow>)
    ensures forall x :: x in r <==> x in rows && x.userId != userId
    ensures IdsIncreasing(rows) ==> IdsIncreasing(r)
  {
    var keep := (x: FoodRow) => x.userId != userId;
    FilterIncreasing(rows, keep);
    Filter(rows, keep)
  }

  /** Clearing a user leaves each other user's rows exactly as they were,
      and clearing twice is clearing once. */
  lemma ClearKeepsOthers(rows: seq<FoodRow>, userId: int)
    ensures forall v :: v != userId ==> RowsOf(WithoutUser(rows, userId), v) == RowsOf(rows, v)
    ensures RowsOf(WithoutUser(rows, userId), userId) == []
    ensures WithoutUser(WithoutUser(rows, userId), userId) == WithoutUser(rows, userId)
  {
    forall v | v != userId
      ensures RowsOf(WithoutUser(rows, userId), v) == RowsOf(rows, v)
    {
      FilterImplied(rows, (x: FoodRow) => x.userId != userId, (x: FoodRow) => x.userId == v);
    }
    FilterImplied(rows, (x: FoodRow) => x.userId != userId, (x: FoodRow) => x.userId != userId);
    FilterKeepsNone(WithoutUser(rows, userId), (x: FoodRow) => x.userId == userId);
  }

  /** The distinct user ids of the ledger, in order of first appearance. */
  function DistinctUsers(rows: seq<FoodRow>): (us: seq<int>)
    ensures forall u :: u in us <==> exists i :: 0 <= i < |rows| && rows[i].userId == u
    ensures forall i, j :: 0 <= i < j < |us| ==> us[i] != us[j]
  {
    if rows == [] then []
    else
      var n := |rows| - 1;
      var init := DistinctUsers(rows[..n]);
      assert forall i :: 0 <= i < n ==> rows[..n][i] == rows[i];
      if rows[n].userId in init then init else init + [rows[n].userId]
  }

  /** The set of user ids present in the ledger. */
  function UserIds(rows: seq<FoodRow>): set<int>
  {
    set x | x in rows :: x.userId
  }

  /** The users listed in `us`, as a set. */
  function Members(us: seq<int>): set<int>
  {
    set u | u in us
  }

  /** A repetition-free sequence has as many elements as its set. */
  lemma {:induction false} DistinctCard(us: seq<int>)
    requires forall i, j :: 0 <= i < j < |us| ==> us[i] != us[j]
    ensures |Members(us)| == |us|
  {
    if us != [] {
      var n := |us| - 1;
      DistinctCard(us[..n]);
      assert Members(us) == Members(us[..n]) + {us[n]};
      assert us[n] !in Members(us[..n]);
    }
  }

  /** The retention sweep's condition: a row is kept when it is recent
      enough, or when deleting its user's rows failed. */
  predicate Retained(x: FoodRow, cutoff: int, failing: set<int>)
  {
    x.createdAt >= cutoff || x.userId in failing
  }

  /** The ledger after the retention sweep: the rows it keeps, in order. */
  function RetainedRows(rows: seq<FoodRow>, cutoff: int, failing: set<int>): (r: seq<FoodRow>)
    ensures forall x :: x in r <==> x in rows && Retained(x, cutoff, failing)
    ensures IdsIncreasing(rows) ==> IdsIncreasing(r)
  {
    var keep := (x: FoodRow) => Retained(x, cutoff, failing);
    FilterIncreasing(rows, keep);
    Filter(rows, keep)
  }

  /** The sweep decides each row on its own, in table order. */
  lemma RetainedAppend(rows: seq<FoodRow>, x: FoodRow, cutoff: int, failing: set<int>)
    ensures RetainedRows(rows + [x], cutoff, failing)
         == RetainedRows(rows, cutoff, failing) + if Retained(x, cutoff, failing) then [x] else []
  {
    assert (rows + [x])[..|rows|] == rows;
  }

  /** Some element of a non-empty set of user ids. */
  method Pick(s: set<int>) returns (u: int)
    requires |s| != 0
    ensures u in s
  {
    HasMember(s);
    u :| u in s;
  }

  /** A set of non-zero size has a member. */
  lemma HasMember(s: set<int>)
    requires |s| != 0
    ensures exists x :: x in s
  {
    if forall x :: x !in s {
      assert false;
    }
  }

  // ---------------------------------------------------------------------
  // The store
  // ---------------------------------------------------------------------

  /** The two tables, held in memory. A `fault` argument stands for a
      storage error: the operation's transaction is not committed and it
      reports failure. */
  class SubscriptionDb {
    var subscriptions: map<int, Subscription>
    var rows: seq<FoodRow>
    /** The id the next inserted ledger row receives. */
    var nextId: int

    ghost predicate Valid()
      reads this
    {
      IdsIncreasing(rows) && IdsBelow(rows, nextId)
    }

    /** Opens the store on the tables already in the database file (both
        empty on the first start), with the id its next ledger row gets. */
    constructor (subscriptions: map<int, Subscription>, rows: seq<FoodRow>, nextId: int)
      requires IdsIncreasing(rows) && IdsBelow(rows, nextId)
      ensures Valid()
      ensures this.subscriptions == subscriptions && this.rows == rows && this.nextId == nextId
    {
      this.subscriptions := subscriptions;
      this.rows := rows;
      this.nextId := nextId;
    }

    /** add_subscription: insert, extend or restart the user's window. */
    method AddSubscription(userId: int, months: int, now: int, fault: bool) returns (ok: bool)
      modifies this`subscriptions
      ensures ok == !fault
      ensures subscriptions == if fault then old(subscriptions)
        else old(subscriptions)[userId := Renewed(Lookup(old(subscriptions), userId), months, now)]
    {
      if fault {
        return false;
      }
      var existing := Lookup(subscriptions, userId);
      subscriptions := subscriptions[userId := Renewed(existing, months, now)];
      ok := true;
    }

    /** get_subscription_status. */
    function Status(userId: int, now: int): (st: SubscriptionStatus)
      reads this
      ensures st == StatusOf(subscriptions, userId, now)
      ensures st.isActive ==> st.hasSubscription
    {
      StatusOf(subscriptions, userId, now)
    }

    /** revoke_subscription: deletes the row if there is one and reports
        success either way. */
    method RevokeSubscription(userId: int, fault: bool) returns (ok: bool)
      modifies this`subscriptions
      ensures ok == !fault
      ensures subscriptions == if fault then old(subscriptions) else old(subscriptions) - {userId}
    {
      if fault {
        return false;
      }
      subscriptions := subscriptions - {userId};
      ok := true;
    }

    /** cleanup_expired_subscriptions: delete every row with end < now and
        report how many were deleted (0 on a storage error). */
    method CleanupExpiredSubscriptions(now: int, fault: bool) returns (count: nat)
      modifies this`subscriptions
      ensures fault ==> count == 0 && subscriptions == old(subscriptions)
      ensures !fault ==> subscriptions == Unexpired(old(subscriptions), now)
      ensures !fault ==> count == |ExpiredUsers(old(subscriptions), now)| == |old(subscriptions)| - |subscriptions|
    {
      if fault {
        return 0;
      }
      var expired := ExpiredUsers(subscriptions, now);
      count := |expired|;
      ExpiryPartition(subscriptions, now);
      if count > 0 {
        subscriptions := Unexpired(subscriptions, now);
      } else {
        assert Unexpired(subscriptions, now) == subscriptions;
      }
    }

    /** get_all_subscriptions: every row with its days left and activity,
        ordered by end date, latest first. */
    method GetAllSubscriptions(now: int) returns (list: seq<SubscriptionView>)
      ensures |list| == |subscriptions|
      ensures forall i :: 0 <= i < |list| ==>
        list[i].userId in subscriptions && list[i] == View(list[i].userId, subscriptions[list[i].userId], now)
      ensures forall u :: u in subscriptions ==> exists i :: 0 <= i < |list| && list[i].userId == u
      ensures SortedByEndDesc(list)
    {
      list := [];
      var pending := subscriptions.Keys;
      while |pending| > 0
        invariant pending <= subscriptions.Keys
        invariant |list| + |pending| == |subscriptions|
        invariant forall x :: x in list ==>
          x.userId in subscriptions.Keys - pending && x == View(x.userId, subscriptions[x.userId], now)
        invariant forall u :: u in subscriptions.Keys - pending ==> View(u, subscriptions[u], now) in list
        invariant SortedByEndDesc(list)
        decreases pending
      {
        var u := Pick(pending);
        var v := View(u, subscriptions[u], now);
        list := InsertByEnd(list, v);
        pending := pending - {u};
      }
      forall u | u in subscriptions
        ensures exists i :: 0 <= i < |list| && list[i].userId == u
      {
        assert View(u, subscriptions[u], now) in list;
      }
    }

    /** save_food_analysis: append one row stamped `now`. */
    method SaveFoodAnalysis(userId: int, analysisText: string, dishName: string, dishWeight: int,
                            calories: int, protein: int, fat: int, carbs: int, waterMl: int,
                            now: int, fault: bool) returns (ok: bool)
      requires Valid()
      modifies this`rows, this`nextId
      ensures Valid()
      ensures ok == !fault
      ensures fault ==> rows == old(rows) && nextId == old(nextId)
      ensures !fault ==> nextId == old(nextId) + 1
      ensures !fault ==> rows == old(rows) + [FoodRow(old(nextId), userId, analysisText, dishName,
                                  dishWeight, calories, protein, fat, carbs, waterMl, now)]
    {
      if fault {
        return false;
      }
      rows := rows + [FoodRow(nextId, userId, analysisText, dishName, dishWeight, calories, protein, fat, carbs, waterMl, now)];
      nextId := nextId + 1;
      ok := true;
    }

    /** add_water: always append one water-only row. */
    method AddWater(userId: int, waterMl: int, now: int, fault: bool) returns (ok: bool)
      requires Valid()
      modifies this`rows, this`nextId
      ensures Valid()
      ensures ok == !fault
      ensures fault ==> rows == old(rows) && nextId == old(nextId)
      ensures !fault ==> nextId == old(nextId) + 1 && rows == old(rows) + [WaterRow(old(nextId), userId, WATER, waterMl, now)]
    {
      if fault {
        return false;
      }
      rows := rows + [WaterRow(nextId, userId, WATER, waterMl, now)];
      nextId := nextId + 1;
      ok := true;
    }

    /** update_user_water: add water to a row of today in place, or else
        append one water-only row. */
    method UpdateUserWater(userId: int, waterMl: int, now: int, fault: bool) returns (ok: bool)
      requires Valid()
      modifies this`rows, this`nextId
      ensures Valid()
      ensures ok == !fault
      ensures fault ==> rows == old(rows) && nextId == old(nextId)
      ensures !fault ==> rows == WithWaterAdded(old(rows), old(nextId), userId, waterMl, now)
      ensures !fault ==> nextId == old(nextId) + (if FirstInWindow(old(rows), userId, DayStart(now)).None? then 1 else 0)
    {
      if fault {
        return false;
      }
      var existing := FirstInWindow(rows, userId, DayStart(now));
      if existing.Some? {
        var k := existing.value;
        rows := rows[k := rows[k].(waterMl := rows[k].waterMl + waterMl)];
      } else {
        rows := rows + [WaterRow(nextId, userId, "", waterMl, now)];
        nextId := nextId + 1;
      }
      ok := true;
    }

    /** get_user_daily_stats: None when the user has no row today, else the
        totals of today's rows. */
    method GetUserDailyStats(userId: int, now: int) returns (stats: Option<DailyStats>)
      ensures stats.None? <==> forall i :: 0 <= i < |rows| ==> !InWindow(rows[i], userId, DayStart(now))
      ensures stats.Some? ==> stats.value == Tally(rows, userId, DayStart(now))
    {
      var today := DayStart(now);
      var found := false;
      var acc := NoStats;
      var i := 0;
      while i < |rows|
        invariant 0 <= i <= |rows|
        invariant found <==> exists j :: 0 <= j < i && InWindow(rows[j], userId, today)
        invariant acc == Tally(rows[..i], userId, today)
      {
        var r := rows[i];
        assert rows[..i + 1][..i] == rows[..i];
        if InWindow(r, userId, today) {
          found := true;
          if IsDish(r) {
            acc := acc.(dishesCount := acc.dishesCount + 1,
                        totalCalories := acc.totalCalories + r.calories,
                        totalProtein := acc.totalProtein + r.protein,
                        totalFat := acc.totalFat + r.fat,
                        totalCarbs := acc.totalCarbs + r.carbs);
          }
          acc := acc.(waterMl := acc.waterMl + r.waterMl);
        }
        i := i + 1;
      }
      assert rows[..i] == rows;
      stats := if found then Some(acc) else None;
    }

    /** clear_user_history: delete every row of the user; succeeds even when
        there was nothing to delete. */
    method ClearUserHistory(userId: int, fault: bool) returns (ok: bool)
      requires Valid()
      modifies this`rows
      ensures Valid()
      ensures ok == !fault
      ensures rows == if fault then old(rows) else WithoutUser(old(rows), userId)
    {
      if fault {
        return false;
      }
      var toDelete := |RowsOf(rows, userId)|;
      if toDelete == 0 {
        assert WithoutUser(rows, userId) == rows by {
          forall x | x in rows ensures x.userId != userId {
            assert x !in RowsOf(rows, userId);
          }
          FilterAgree(rows, (x: FoodRow) => x.userId != userId, (x: FoodRow) => true);
          FilterKeepsAllTrue(rows);
        }
        return true;
      }
      rows := WithoutUser(rows, userId);
      ok := true;
    }

    /** clear_all_users_old_history: for each user present, delete the rows
        older than `hours` hours. Deleting the rows of a user in `failing`
        raises; that user is counted as an error and the sweep goes on. A
        storage error outside the per-user steps (`fault`) commits nothing
        and reports one error. */
    method ClearAllUsersOldHistory(hours: int, now: int, failing: set<int>, fault: bool) returns (report: SweepReport)
      requires Valid()
      modifies this`rows
      ensures Valid()
      ensures fault ==> rows == old(rows) && report == SweepReport(0, 0, 1)
      ensures !fault ==> rows == RetainedRows(old(rows), HoursBefore(now, hours), failing)
      ensures !fault ==> report.totalUsers == |UserIds(old(rows))|
      ensures !fault ==> report.totalDeleted == |old(rows)| - |rows|
      ensures !fault ==> report.errors == |UserIds(old(rows)) * failing|
    {
      if fault {
        return SweepReport(0, 0, 1);
      }
      var kept;
      kept, report := Sweep(rows, HoursBefore(now, hours), failing);
      KeptBelow(rows, kept, nextId);
      rows := kept;
    }
  }

  /** The retention sweep over a ledger: the rows it leaves and its report. */
  method Sweep(rows: seq<FoodRow>, cutoff: int, failing: set<int>) returns (kept: seq<FoodRow>, report: SweepReport)
    ensures kept == RetainedRows(rows, cutoff, failing)
    ensures report.totalUsers == |UserIds(rows)|
    ensures report.totalDeleted == |rows| - |kept|
    ensures report.errors == |UserIds(rows) * failing|
  {
    var users := DistinctUsers(rows);
    SweepComplete(rows, cutoff, failing);
    if |users| == 0 {
      return rows, SweepReport(0, 0, 0);
    }
    var totalDeleted, errors;
    kept, totalDeleted, errors := SweepUsers(rows, users, failing, cutoff);
    report := SweepReport(|users|, totalDeleted, errors);
  }

  /** The sweep's loop: give each user of `users` its turn, in order,
      counting the rows deleted and the users whose deletion failed. */
  method SweepUsers(rows: seq<FoodRow>, users: seq<int>, failing: set<int>, cutoff: int)
    returns (cur: seq<FoodRow>, totalDeleted: int, errors: nat)
    ensures cur == SweepOver(rows, users, failing, cutoff)
    ensures totalDeleted == |rows| - |cur|
    ensures errors == FailingUsers(users, failing)
  {
    cur := rows;
    totalDeleted := 0;
    errors := 0;
    var k := 0;
    while k < |users|
      invariant 0 <= k <= |users|
      invariant cur == SweepOver(rows, users[..k], failing, cutoff)
      invariant totalDeleted == |rows| - |cur|
      invariant errors == FailingUsers(users[..k], failing)
    {
      var u := users[k];
      assert users[..k + 1] == users[..k] + [u];
      if u in failing {
        errors := errors + 1;
      } else {
        var n := OldCount(cur, u, cutoff);
        if n > 0 {
          var kept := ClearOld(cur, u, cutoff);
          totalDeleted := totalDeleted + (|cur| - |kept|);
          cur := kept;
        } else {
          ClearOldNothing(cur, u, cutoff);
        }
      }
      k := k + 1;
    }
    assert users[..k] == users;
  }

  /** The ledger as one user's step of the sweep leaves it: that user's rows
      older than the cutoff are gone. */
  function ClearOld(rows: seq<FoodRow>, userId: int, cutoff: int): (r: seq<FoodRow>)
    ensures forall x :: x in r <==> x in rows && !(x.userId == userId && x.createdAt < cutoff)
    ensures IdsIncreasing(rows) ==> IdsIncreasing(r)
  {
    var keep := (x: FoodRow) => !(x.userId == userId && x.createdAt < cutoff);
    FilterIncreasing(rows, keep);
    Filter(rows, keep)
  }

  /** How many rows of the user are older than the cutoff: what the sweep
      counts before it deletes. */
  function OldCount(rows: seq<FoodRow>, userId: int, cutoff: int): (n: nat)
    ensures n <= |rows|
    ensures n == 0 <==> forall x :: x in rows ==> !(x.userId == userId && x.createdAt < cutoff)
  {
    if rows == [] then 0
    else
      var here := if rows[0].userId == userId && rows[0].createdAt < cutoff then 1 else 0;
      here + OldCount(rows[1..], userId, cutoff)
  }

  /** A per-user step that finds nothing to delete leaves the ledger as it
      was. */
  lemma ClearOldNothing(rows: seq<FoodRow>, userId: int, cutoff: int)
    requires OldCount(rows, userId, cutoff) == 0
    ensures ClearOld(rows, userId, cutoff) == rows
  {
    FilterAgree(rows, (x: FoodRow) => !(x.userId == userId && x.createdAt < cutoff), (x: FoodRow) => true);
    FilterKeepsAllTrue(rows);
  }

  /** Whether a row survives once the users in `cleared` have been swept. */
  predicate SurvivesSweep(x: FoodRow, cleared: set<int>, cutoff: int)
  {
    !(x.userId in cleared && x.createdAt < cutoff)
  }

  /** The ledger once the users in `cleared` have been swept. */
  function SweptRows(rows: seq<FoodRow>, cleared: set<int>, cutoff: int): (r: seq<FoodRow>)
    ensures forall x :: x in r <==> x in rows && SurvivesSweep(x, cleared, cutoff)
    ensures IdsIncreasing(rows) ==> IdsIncreasing(r)
  {
    var keep := (x: FoodRow) => SurvivesSweep(x, cleared, cutoff);
    FilterIncreasing(rows, keep);
    Filter(rows, keep)
  }

  /** Before any user is swept the ledger is unchanged. */
  lemma SweepStart(rows: seq<FoodRow>, cutoff: int)
    ensures SweptRows(rows, {}, cutoff) == rows
  {
    FilterAgree(rows, (x: FoodRow) => SurvivesSweep(x, {}, cutoff), (x: FoodRow) => true);
    FilterKeepsAllTrue(rows);
  }

  /** Sweeping one more user is one more per-user deletion. */
  lemma SweepStep(rows: seq<FoodRow>, cleared: set<int>, u: int, cutoff: int)
    ensures ClearOld(SweptRows(rows, cleared, cutoff), u, cutoff) == SweptRows(rows, cleared + {u}, cutoff)
  {
    FilterTwice(rows, (x: FoodRow) => SurvivesSweep(x, cleared, cutoff),
                      (x: FoodRow) => !(x.userId == u && x.createdAt < cutoff),
                      (x: FoodRow) => SurvivesSweep(x, cleared + {u}, cutoff));
  }

  /** Once every user that does not fail has been swept, exactly the
      retained rows remain. */
  lemma SweepEnd(rows: seq<FoodRow>, cleared: set<int>, cutoff: int, failing: set<int>)
    requires cleared == UserIds(rows) - failing
    ensures SweptRows(rows, cleared, cutoff) == RetainedRows(rows, cutoff, failing)
  {
    forall x | x in rows
      ensures SurvivesSweep(x, cleared, cutoff) == Retained(x, cutoff, failing)
    {
      assert x.userId in UserIds(rows);
    }
    FilterAgree(rows, (x: FoodRow) => SurvivesSweep(x, cleared, cutoff),
                      (x: FoodRow) => Retained(x, cutoff, failing));
  }

  /** The next user of a repetition-free list is new, and joins the users
      seen so far. */
  lemma NextUser(users: seq<int>, k: nat)
    requires k < |users|
    requires forall i, j :: 0 <= i < j < |users| ==> users[i] != users[j]
    ensures users[k] !in Members(users[..k])
    ensures Members(users[..k + 1]) == Members(users[..k]) + {users[k]}
  {
    assert users[..k + 1] == users[..k] + [users[k]];
  }

  /** Adding a new user to the swept set adds one error exactly when that
      user fails. */
  lemma FailingCount(seen: set<int>, u: int, failing: set<int>)
    requires u !in seen
    ensures |(seen + {u}) * failing| == |seen * failing| + (if u in failing then 1 else 0)
  {
    if u in failing {
      assert (seen + {u}) * failing == (seen * failing) + {u};
    } else {
      assert (seen + {u}) * failing == seen * failing;
    }
  }

  /** Rows drawn from a table whose ids are below a bound are below it too. */
  lemma KeptBelow(rows: seq<FoodRow>, kept: seq<FoodRow>, bound: int)
    requires IdsBelow(rows, bound)
    requires forall x :: x in kept ==> x in rows
    ensures IdsBelow(kept, bound)
  {
    forall i | 0 <= i < |kept|
      ensures kept[i].id < bound
    {
      assert kept[i] in rows;
    }
  }

  /** The ledger after the users `us` have had their turn, in order: a
      failing user's rows stay, the others lose their rows older than the
      cutoff. */
  function SweepOver(rows: seq<FoodRow>, us: seq<int>, failing: set<int>, cutoff: int): seq<FoodRow>
  {
    if us == [] then rows
    else
      var prev := SweepOver(rows, us[..|us| - 1], failing, cutoff);
      var u := us[|us| - 1];
      if u in failing then prev else ClearOld(prev, u, cutoff)
  }

  /** How many of the users `us` fail. */
  function FailingUsers(us: seq<int>, failing: set<int>): nat
  {
    if us == [] then 0
    else FailingUsers(us[..|us| - 1], failing) + (if us[|us| - 1] in failing then 1 else 0)
  }

  /** Taking turns in order has swept exactly the users that do not fail. */
  lemma {:induction false} SweepOverSwept(rows: seq<FoodRow>, us: seq<int>, failing: set<int>, cutoff: int)
    ensures SweepOver(rows, us, failing, cutoff) == SweptRows(rows, Members(us) - failing, cutoff)
  {
    if us == [] {
      assert Members(us) - failing == {};
      SweepStart(rows, cutoff);
    } else {
      var n := |us| - 1;
      SweepOverSwept(rows, us[..n], failing, cutoff);
      MembersLast(us);
      var cleared := Members(us[..n]) - failing;
      if us[n] in failing {
        assert Members(us) - failing == cleared;
      } else {
        assert Members(us) - failing == cleared + {us[n]};
        SweepStep(rows, cleared, us[n], cutoff);
      }
    }
  }

  lemma MembersLast(us: seq<int>)
    requires us != []
    ensures Members(us) == Members(us[..|us| - 1]) + {us[|us| - 1]}
  {
    assert us == us[..|us| - 1] + [us[|us| - 1]];
  }

  /** In a repetition-free list, the failing users counted one by one are
      the failing members of its set. */
  lemma {:induction false} FailingUsersCount(us: seq<int>, failing: set<int>)
    requires forall i, j :: 0 <= i < j < |us| ==> us[i] != us[j]
    ensures FailingUsers(us, failing) == |Members(us) * failing|
  {
    if us != [] {
      var n := |us| - 1;
      FailingUsersCount(us[..n], failing);
      NextUser(us, n);
      assert us[..n + 1] == us;
      FailingCount(Members(us[..n]), us[n], failing);
    }
  }

  /** Once every user of the ledger has had its turn, the sweep has left
      exactly the retained rows and counted each failing user once. */
  lemma SweepComplete(rows: seq<FoodRow>, cutoff: int, failing: set<int>)
    ensures SweepOver(rows, DistinctUsers(rows), failing, cutoff) == RetainedRows(rows, cutoff, failing)
    ensures FailingUsers(DistinctUsers(rows), failing) == |UserIds(rows) * failing|
    ensures |DistinctUsers(rows)| == |UserIds(rows)|
  {
    var users := DistinctUsers(rows);
    LedgerUsers(rows);
    SweepOverSwept(rows, users, failing, cutoff);
    SweepEnd(rows, Members(users) - failing, cutoff, failing);
    FailingUsersCount(users, failing);
  }

  /** The distinct users of the ledger are exactly its user ids, each once. */
  lemma LedgerUsers(rows: seq<FoodRow>)
    ensures Members(DistinctUsers(rows)) == UserIds(rows)
    ensures |DistinctUsers(rows)| == |UserIds(rows)|
  {
    var users := DistinctUsers(rows);
    forall u
      ensures u in users <==> u in UserIds(rows)
    {
      if u in users {
        var i :| 0 <= i < |rows| && rows[i].userId == u;
        assert rows[i] in rows;
      }
      if u in UserIds(rows) {
        var x :| x in rows && x.userId == u;
        var i :| 0 <= i < |rows| && rows[i] == x;
      }
    }
    DistinctCard(users);
  }

  /** Keeping every row changes nothing. */
  lemma {:induction false} FilterKeepsAllTrue(rows: seq<FoodRow>)
    ensures Filter(rows, (x: FoodRow) => true) == rows
  {
    if rows != [] {
      var n := |rows| - 1;
      FilterKeepsAllTrue(rows[..n]);
      assert rows == rows[..n] + [rows[n]];
    }
  }
}
