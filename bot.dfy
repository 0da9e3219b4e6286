/** The handlers of the chat bot that change state: the admin list with its
    guards, the admin commands on subscriptions and trials, the photo flow
    that spends a trial, and the water button. Parsing of the command text
    and every reply message are left out: each handler takes its arguments
    already parsed and returns what it did. */
module Bot {
  import opened Clock
  import opened SubscriptionStore
  import opened Profiles

  /** The single administrator the bot starts with. */
  const INITIAL_ADMIN: int := 123456789
  /** Millilitres one press of the water button adds. */
  const WATER_PORTION: int := 250
  /** Bounds of the admin commands' arguments. */
  const MAX_MONTHS: int := 12
  const MAX_TRIAL_GRANT: int := 10

  /** How an admin command ended: refused to a non-admin, argument rejected,
      store error, or carried out. */
  datatype Outcome = Denied | Rejected | Failed | Done

  /** The figures the analyser reads off its answer for one photo. */
  datatype Nutrition = Nutrition(dishName: string, dishWeight: int, calories: int, protein: int, fat: int, carbs: int)

  predicate NoDuplicates(s: seq<int>)
  {
    forall i, j :: 0 <= i < j < |s| ==> s[i] != s[j]
  }

  /** `s` without the first occurrence of `x`, as list.remove does. */
  function RemoveFirst(s: seq<int>, x: int): (r: seq<int>)
    requires x in s
    ensures |r| == |s| - 1
    ensures multiset(r) == multiset(s) - multiset{x}
  {
    assert s == [s[0]] + s[1..];
    if s[0] == x then s[1..]
    else [s[0]] + RemoveFirst(s[1..], x)
  }

  /** In a list without repetitions, removing an id drops exactly that id:
      it is gone, every other id stays, and no repetition appears. */
  lemma {:induction false} RemoveFirstDistinct(s: seq<int>, x: int)
    requires x in s && NoDuplicates(s)
    ensures x !in RemoveFirst(s, x)
    ensures forall y :: y != x ==> (y in RemoveFirst(s, x) <==> y in s)
    ensures NoDuplicates(RemoveFirst(s, x))
  {
    assert s == [s[0]] + s[1..];
    if s[0] == x {
      forall i | 0 <= i < |s| - 1
        ensures s[1..][i] != x
      {
        assert s[1..][i] == s[i + 1];
      }
    } else {
      var rest := RemoveFirst(s[1..], x);
      RemoveFirstDistinct(s[1..], x);
      assert s[0] !in s[1..] by {
        forall i | 0 <= i < |s| - 1
          ensures s[1..][i] != s[0]
        {
          assert s[1..][i] == s[i + 1];
        }
      }
      assert RemoveFirst(s, x) == [s[0]] + rest;
    }
  }

  /** The month count the subscribe and extend commands accept. */
  predicate ValidMonths(months: int): (b: bool)
    ensures b ==> MONTH_DAYS * DAY <= MonthsToSeconds(months) <= MAX_MONTHS * MONTH_DAYS * DAY
  {
    1 <= months <= MAX_MONTHS
  }

  /** The trial count the add-trials command accepts. */
  predicate ValidTrialGrant(count: int): (b: bool)
    ensures b ==> forall used :: used >= 1 ==> used - MAX_TRIAL_GRANT <= GrantedTrialsUsed(used, count) < used
  {
    1 <= count <= MAX_TRIAL_GRANT
  }

  /** free_trials_used after granting `count` trials: lowered by `count`
      but never below zero. */
  function GrantedTrialsUsed(used: int, count: int): (r: int)
    ensures r >= 0
    ensures used >= 0 && count >= 0 ==> r <= used
  {
    if used - count > 0 then used - count else 0
  }

  /** A grant never makes the counter negative, never raises it, lowers it
      by at most `count`, and reaches zero exactly when `count` covers what
      was used. */
  lemma GrantBounds(used: int, count: int)
    requires count >= 1
    ensures 0 <= GrantedTrialsUsed(used, count)
    ensures used >= 0 ==> GrantedTrialsUsed(used, count) <= used
    ensures used - GrantedTrialsUsed(used, count) <= count
    ensures GrantedTrialsUsed(used, count) == 0 <==> used <= count
  {
  }

  /** After a grant, a user without a subscription has at least as many
      trials left as before and at most `max` when the counter was in range;
      the grant can restore used trials but never add trials beyond `max`. */
  lemma GrantRestoresAccess(p: Profile, count: int, st: SubscriptionStatus)
    requires ValidTrialGrant(count)
    requires 0 <= p.freeTrialsUsed
    requires !(st.hasSubscription && st.isActive)
    ensures StatsOf(p.(freeTrialsUsed := GrantedTrialsUsed(p.freeTrialsUsed, count))).remainingTrials
         >= StatsOf(p).remainingTrials
    ensures StatsOf(p.(freeTrialsUsed := GrantedTrialsUsed(p.freeTrialsUsed, count))).remainingTrials
         <= p.maxFreeTrials
    ensures Decide(p.(freeTrialsUsed := GrantedTrialsUsed(p.freeTrialsUsed, count)), st).canUse
        <==> p.maxFreeTrials > GrantedTrialsUsed(p.freeTrialsUsed, count)
  {
  }

  /** The running bot: its admin list, the profiles and the store. */
  class Bot {
    var admins: seq<int>
    const manager: UserManager
    const db: SubscriptionDb

    /** The admin list is never empty and never lists an id twice; the
        ledger keeps its ids in order. */
    ghost predicate Valid()
      reads this, db
    {
      |admins| > 0 && NoDuplicates(admins) && db.Valid()
    }

    constructor (manager: UserManager, db: SubscriptionDb)
      requires db.Valid()
      ensures Valid()
      ensures admins == [INITIAL_ADMIN]
      ensures this.manager == manager && this.db == db
    {
      admins := [INITIAL_ADMIN];
      this.manager := manager;
      this.db := db;
    }

    /** is_admin. */
    function IsAdmin(userId: int): (b: bool)
      reads this
      ensures b <==> exists i :: 0 <= i < |admins| && admins[i] == userId
    {
      userId in admins
    }

    /** /admin_add_admin: refused to non-admins and for an id already
        listed; otherwise the id is appended. */
    method AddAdmin(sender: int, newAdmin: int) returns (out: Outcome)
      requires Valid()
      modifies this`admins
      ensures Valid()
      ensures sender !in old(admins) ==> out == Denied && admins == old(admins)
      ensures sender in old(admins) && newAdmin in old(admins) ==> out == Rejected && admins == old(admins)
      ensures sender in old(admins) && newAdmin !in old(admins) ==> out == Done && admins == old(admins) + [newAdmin]
      ensures out == Done <==> sender in old(admins) && newAdmin !in old(admins)
    {
      if !IsAdmin(sender) {
        return Denied;
      }
      if newAdmin in admins {
        return Rejected;
      }
      admins := admins + [newAdmin];
      out := Done;
    }

    /** /admin_remove_admin: refused to non-admins, for an id not listed,
        and when only one admin is left; otherwise the id is removed. An
        admin may remove itself. */
    method RemoveAdmin(sender: int, target: int) returns (out: Outcome)
      requires Valid()
      modifies this`admins
      ensures Valid()
      ensures out == Done <==> sender in old(admins) && target in old(admins) && |old(admins)| > 1
      ensures out != Done ==> admins == old(admins)
      ensures sender !in old(admins) ==> out == Denied
      ensures sender in old(admins) && out != Done ==> out == Rejected
      ensures out == Done ==> admins == RemoveFirst(old(admins), target)
      ensures out == Done ==> target !in admins && |admins| == |old(admins)| - 1
      ensures out == Done ==> forall a :: a != target ==> (a in admins <==> a in old(admins))
    {
      if !IsAdmin(sender) {
        return Denied;
      }
      if target !in admins {
        return Rejected;
      }
      if |admins| == 1 {
        return Rejected;
      }
      RemoveFirstDistinct(admins, target);
      admins := RemoveFirst(admins, target);
      out := Done;
    }

    /** /admin_subscribe and /admin_extend, which share their logic:
        refused to non-admins, months outside 1..12 rejected without
        touching the store, otherwise the subscription is activated. */
    method GrantSubscription(sender: int, userId: int, months: int, now: int, fault: bool) returns (out: Outcome)
      modifies manager`users, db`subscriptions
      ensures out == Denied <==> sender !in admins
      ensures out == Rejected <==> sender in admins && !ValidMonths(months)
      ensures out == Denied || out == Rejected ==>
        manager.users == old(manager.users) && db.subscriptions == old(db.subscriptions)
      ensures out == Failed <==> sender in admins && ValidMonths(months) && fault
      ensures out == Failed ==> manager.users == old(manager.users) && db.subscriptions == old(db.subscriptions)
      ensures out == Done ==> db.subscriptions == old(db.subscriptions)[userId :=
        Renewed(Lookup(old(db.subscriptions), userId), months, now)]
      ensures out == Done ==> manager.users == WithUser(old(manager.users), userId, now)[userId :=
        WithUser(old(manager.users), userId, now)[userId].(subscriptionActive := true,
          subscriptionExpires := Some(db.subscriptions[userId].end))]
      ensures out == Done ==> userId in manager.users && Decide(manager.users[userId], db.Status(userId, now)).reason == Subscribed
      ensures out == Done ==> db.Status(userId, now).daysLeft >= MONTH_DAYS * months
    {
      if !IsAdmin(sender) {
        return Denied;
      }
      if months <= 0 || months > MAX_MONTHS {
        return Rejected;
      }
      var ok := manager.ActivateSubscription(userId, months, now, db, fault);
      if ok {
        ActiveAfterRenewal(old(db.subscriptions), userId, months, now);
        out := Done;
      } else {
        out := Failed;
      }
    }

    /** /admin_revoke: the user's profile is looked up (and created if
        missing), the store row deleted, and on success the cached flag and
        end date cleared. */
    method RevokeSubscription(sender: int, userId: int, now: int, fault: bool) returns (out: Outcome)
      modifies manager`users, db`subscriptions
      ensures out == Denied <==> sender !in admins
      ensures out == Denied ==> manager.users == old(manager.users) && db.subscriptions == old(db.subscriptions)
      ensures out == Failed <==> sender in admins && fault
      ensures out == Failed ==> manager.users == WithUser(old(manager.users), userId, now)
      ensures out == Failed ==> db.subscriptions == old(db.subscriptions)
      ensures out == Done ==> db.subscriptions == old(db.subscriptions) - {userId}
      ensures out == Done ==> manager.users == WithUser(old(manager.users), userId, now)[userId :=
        WithUser(old(manager.users), userId, now)[userId].(subscriptionActive := false, subscriptionExpires := None)]
      ensures out == Done ==> !db.Status(userId, now).hasSubscription
    {
      if !IsAdmin(sender) {
        return Denied;
      }
      var user := manager.GetUser(userId, now);
      var ok := db.RevokeSubscription(userId, fault);
      if !ok {
        return Failed;
      }
      manager.users := manager.users[userId := user.(subscriptionActive := false, subscriptionExpires := None)];
      out := Done;
    }

    /** /admin_reset_trials: the user's trial counter goes back to zero. */
    method ResetTrials(sender: int, userId: int, now: int) returns (out: Outcome)
      modifies manager`users
      ensures out == Denied <==> sender !in admins
      ensures out == Denied ==> manager.users == old(manager.users)
      ensures out != Denied ==> out == Done && manager.users == WithUser(old(manager.users), userId, now)[userId :=
        WithUser(old(manager.users), userId, now)[userId].(freeTrialsUsed := 0)]
    {
      if !IsAdmin(sender) {
        return Denied;
      }
      var user := manager.GetUser(userId, now);
      manager.users := manager.users[userId := user.(freeTrialsUsed := 0)];
      out := Done;
    }

    /** /admin_add_trials: a count outside 1..10 is rejected before the
        profile is touched; otherwise the trial counter is lowered by the
        count, not below zero. */
    method AddTrials(sender: int, userId: int, count: int, now: int) returns (out: Outcome)
      modifies manager`users
      ensures out == Denied <==> sender !in admins
      ensures out == Rejected <==> sender in admins && !ValidTrialGrant(count)
      ensures out == Denied || out == Rejected ==> manager.users == old(manager.users)
      ensures out == Done || out == Denied || out == Rejected
      ensures out == Done ==> manager.users == WithUser(old(manager.users), userId, now)[userId :=
        WithUser(old(manager.users), userId, now)[userId].(freeTrialsUsed :=
          GrantedTrialsUsed(WithUser(old(manager.users), userId, now)[userId].freeTrialsUsed, count))]
      ensures out == Done ==> 0 <= manager.users[userId].freeTrialsUsed
    {
      if !IsAdmin(sender) {
        return Denied;
      }
      if count <= 0 || count > MAX_TRIAL_GRANT {
        return Rejected;
      }
      var user := manager.GetUser(userId, now);
      var current := user.freeTrialsUsed;
      var granted := if 0 > current - count then 0 else current - count;
      manager.users := manager.users[userId := user.(freeTrialsUsed := granted)];
      out := Done;
    }

    /** handle_photo, from the access check on: without access nothing is
        analysed or stored. Otherwise the photo is analysed and the reply
        sent; when building or sending the reply raises (`replyFails`), the
        handler's outer error path skips both the save and the trial.
        Else the analysis is stored with no water (a storage error is
        swallowed), and one trial is spent only when the access came from
        a free trial. The analyser's answer and the figures parsed from it
        are parameters. */
    method HandlePhoto(userId: int, now: int, analysis: string, food: Nutrition, replyFails: bool, fault: bool)
      returns (analysed: bool)
      requires Valid()
      modifies manager`users, db`rows, db`nextId
      ensures Valid()
      ensures db.nextId == old(db.nextId) + (|db.rows| - |old(db.rows)|)
      ensures analysed == Decide(WithUser(old(manager.users), userId, now)[userId], db.Status(userId, now)).canUse
      ensures !analysed || replyFails ==> db.rows == old(db.rows) && manager.users == WithUser(old(manager.users), userId, now)
      ensures analysed && !replyFails && !fault ==> db.rows == old(db.rows) + [FoodRow(old(db.nextId), userId, analysis,
        food.dishName, food.dishWeight, food.calories, food.protein, food.fat, food.carbs, 0, now)]
      ensures analysed && fault ==> db.rows == old(db.rows)
      ensures !replyFails && Decide(WithUser(old(manager.users), userId, now)[userId], db.Status(userId, now)).reason == FreeTrial ==>
        manager.users == WithUser(old(manager.users), userId, now)[userId :=
          TrialUsed(WithUser(old(manager.users), userId, now)[userId])]
      ensures Decide(WithUser(old(manager.users), userId, now)[userId], db.Status(userId, now)).reason != FreeTrial ==>
        manager.users == WithUser(old(manager.users), userId, now)
      ensures manager.users[userId].freeTrialsUsed <= WithUser(old(manager.users), userId, now)[userId].freeTrialsUsed + 1
      ensures WithUser(old(manager.users), userId, now)[userId].freeTrialsUsed
           <= WithUser(old(manager.users), userId, now)[userId].maxFreeTrials
          ==> manager.users[userId].freeTrialsUsed <= manager.users[userId].maxFreeTrials
    {
      var access := manager.CanUseClaude(userId, now, db);
      if !access.canUse {
        return false;
      }
      analysed := true;
      if replyFails {
        return;
      }
      var saved := db.SaveFoodAnalysis(userId, analysis, food.dishName, food.dishWeight,
                                       food.calories, food.protein, food.fat, food.carbs, 0, now, fault);
      if access.reason == FreeTrial {
        manager.UseClaudeTrial(userId, now);
      }
    }

    /** process_add_water: the button carries the id of the user it was
        shown to (`target`, None when it does not parse). Only that user may
        press it; then 250 ml go to one of today's rows if the user has one,
        or into a new water-only row. */
    method ProcessAddWater(sender: int, target: Option<int>, now: int, fault: bool) returns (added: bool)
      requires Valid()
      modifies db`rows, db`nextId
      ensures Valid()
      ensures added <==> target == Some(sender) && !fault
      ensures db.nextId == old(db.nextId) + (|db.rows| - |old(db.rows)|)
      ensures !added ==> db.rows == old(db.rows)
      ensures added ==> db.rows == WithWaterAdded(old(db.rows), old(db.nextId), sender, WATER_PORTION, now)
      ensures added ==> (Tally(db.rows, sender, DayStart(now))
        == Tally(old(db.rows), sender, DayStart(now)).(waterMl := Tally(old(db.rows), sender, DayStart(now)).waterMl + WATER_PORTION))
      ensures added ==> forall other, today :: other != sender ==> Tally(db.rows, other, today) == Tally(old(db.rows), other, today)
    {
      if target.None? || target.value != sender {
        return false;
      }
      var userId := target.value;
      var rows0 := db.rows;
      var id0 := db.nextId;
      var today := db.GetUserDailyStats(userId, now);
      if today.Some? {
        added := db.UpdateUserWater(userId, WATER_PORTION, now, fault);
      } else {
        added := db.SaveFoodAnalysis(userId, "", WATER, 0, 0, 0, 0, 0, WATER_PORTION, now, fault);
        if added {
          assert FirstInWindow(rows0, userId, DayStart(now)).None?;
          assert db.rows == WithWaterAdded(rows0, id0, userId, WATER_PORTION, now);
        }
      }
      if added {
        WaterAddedTally(rows0, id0, userId, WATER_PORTION, now);
        forall other, day | other != userId
          ensures Tally(db.rows, other, day) == Tally(rows0, other, day)
        {
          WaterAddedOthers(rows0, id0, userId, WATER_PORTION, now, other, day);
        }
      }
    }
  }
}
