/** Worked scenarios over the store and the entitlement policy: renewals
    that stack, water pressed twice on one day, a day with one dish and a
    glass of water, and a retention sweep of 24 hours. */
module Scenarios {
  import opened Clock
  import opened SubscriptionStore
  import opened Profiles

  /** Renewing a running window by one month twice adds sixty days to its
      end; renewing an expired one restarts from `now`. */
  lemma {:induction false} RenewalsStack(s: Subscription, now: int, later: int)
    requires s.end > now && later >= now
    ensures Renewed(Some(s), 1, now).end == s.end + 30 * DAY
    ensures later < s.end + 30 * DAY ==>
      Renewed(Some(Renewed(Some(s), 1, now)), 1, later).end == s.end + 60 * DAY
    ensures s.end <= later ==> Renewed(Some(s), 1, later).end == later + 30 * DAY
  {
    assert MonthsToSeconds(1) == 30 * DAY;
  }

  /** Pressing for 100 ml and then 150 ml on a day with no row of the user
      leaves one new row holding 250 ml, and the day's water is up by 250. */
  lemma {:induction false} WaterTwiceOneDay(rows: seq<FoodRow>, nextId: int, userId: int, now: int, later: int)
    requires FirstInWindow(rows, userId, DayStart(now)).None?
    requires DayStart(later) == DayStart(now)
    ensures |WithWaterAdded(WithWaterAdded(rows, nextId, userId, 100, now), nextId + 1, userId, 150, later)| == |rows| + 1
    ensures Tally(WithWaterAdded(WithWaterAdded(rows, nextId, userId, 100, now), nextId + 1, userId, 150, later),
                  userId, DayStart(now)).waterMl
         == Tally(rows, userId, DayStart(now)).waterMl + 250
    ensures WithWaterAdded(WithWaterAdded(rows, nextId, userId, 100, now), nextId + 1, userId, 150, later)[|rows|].waterMl == 250
  {
    var once := WithWaterAdded(rows, nextId, userId, 100, now);
    WaterAddedTally(rows, nextId, userId, 100, now);
    WaterAddedTally(once, nextId + 1, userId, 150, later);
    assert once == rows + [WaterRow(nextId, userId, "", 100, now)];
    assert forall j :: 0 <= j < |rows| ==> once[j] == rows[j];
    var k := FirstInWindow(once, userId, DayStart(later)).value;
    assert WithWaterAdded(once, nextId + 1, userId, 150, later) == once[k := once[k].(waterMl := once[k].waterMl + 150)];
  }

  /** A dish and a water-only row of the user on one day: one dish, the
      dish's nutrients, and the water of both rows. */
  lemma DishAndWater(d: FoodRow, w: FoodRow, userId: int, today: int)
    requires InWindow(d, userId, today) && InWindow(w, userId, today)
    requires IsDish(d) && w.dishName == WATER
    ensures Tally([d, w], userId, today) == DailyStats(1, d.calories, d.protein, d.fat, d.carbs, d.waterMl + w.waterMl)
  {
    TallyAppend([], d, userId, today);
    assert [] + [d] == [d];
    assert Tally([d], userId, today) == DailyStats(1, d.calories, d.protein, d.fat, d.carbs, d.waterMl);
    TallyAppend([d], w, userId, today);
    assert [d] + [w] == [d, w];
  }

  /** A soup of 300 kcal and a glass of 250 ml, both written at `t`. */
  lemma SoupAndWater(userId: int, today: int, t: int)
    requires today <= t < today + DAY
    ensures Tally([FoodRow(1, userId, "", "Soup", 350, 300, 10, 12, 30, 0, t),
                   WaterRow(2, userId, "", 250, t)], userId, today)
         == DailyStats(1, 300, 10, 12, 30, 250)
  {
    SoupIsNotWater();
    DishAndWater(FoodRow(1, userId, "", "Soup", 350, 300, 10, 12, 30, 0, t), WaterRow(2, userId, "", 250, t), userId, today);
  }

  lemma SoupIsNotWater()
    ensures "Soup" != WATER
  {
    assert "Soup"[0] != WATER[0];
  }

  /** A sweep of 24 hours over a row written 25 hours ago and one written
      an hour ago deletes the first and keeps the second. */
  lemma SweepKeepsRecent(userId: int, now: int)
    ensures RetainedRows([FoodRow(1, userId, "", "Soup", 0, 0, 0, 0, 0, 0, now - 25 * HOUR),
                          FoodRow(2, userId, "", "Tea", 0, 0, 0, 0, 0, 0, now - HOUR)],
                         HoursBefore(now, 24), {})
         == [FoodRow(2, userId, "", "Tea", 0, 0, 0, 0, 0, 0, now - HOUR)]
  {
    var old1 := FoodRow(1, userId, "", "Soup", 0, 0, 0, 0, 0, 0, now - 25 * HOUR);
    var new1 := FoodRow(2, userId, "", "Tea", 0, 0, 0, 0, 0, 0, now - HOUR);
    var rows := [old1, new1];
    var r := RetainedRows(rows, HoursBefore(now, 24), {});
    assert !Retained(old1, HoursBefore(now, 24), {}) && Retained(new1, HoursBefore(now, 24), {});
    assert IdsIncreasing(rows);
    RetainedAppend([], old1, HoursBefore(now, 24), {});
    assert [] + [old1] == [old1];
    RetainedAppend([old1], new1, HoursBefore(now, 24), {});
    assert [old1] + [new1] == rows;
  }

  /** Without a subscription, a user who has used both free trials has no
      access, and one who has used fewer has a free trial. */
  lemma TwoTrialsThenNone(p: Profile, st: SubscriptionStatus)
    requires p.maxFreeTrials == DEFAULT_MAX_TRIALS
    requires !(st.hasSubscription && st.isActive)
    ensures p.freeTrialsUsed < 2 ==> Decide(p, st).reason == FreeTrial && Decide(p, st).canUse
    ensures p.freeTrialsUsed == 2 ==> !Decide(p, st).canUse
  {
  }
}
