/** The per-user profiles of the bot (free-trial counters, cached
    subscription flag, preferred analysis mode) and the policy that decides
    whether a user may run an AI analysis. The profiles live in the map
    `users` of class UserManager; the paid subscriptions live in the store. */
module Profiles {
  import opened SubscriptionStore

  /** Free analyses every new user gets. */
  const DEFAULT_MAX_TRIALS: int := 2
  const DEFAULT_MODE: string := "claude"

  /** One entry of the users file. `subscriptionExpires` caches the store's
      end date at the last activation. */
  datatype Profile = Profile(
    userId: int,
    createdAt: int,
    freeTrialsUsed: int,
    maxFreeTrials: int,
    subscriptionActive: bool,
    subscriptionExpires: Option<int>,
    totalClaudeUses: int,
    preferredMode: string)

  /** The profile get_user creates for a user seen for the first time. */
  function DefaultProfile(userId: int, now: int): (p: Profile)
    ensures StatsOf(p).remainingTrials == DEFAULT_MAX_TRIALS && StatsOf(p).totalClaudeUses == 0
    ensures !StatsOf(p).subscriptionActive && StatsOf(p).subscriptionExpires == None
    ensures StatsOf(p).preferredMode == DEFAULT_MODE && p.userId == userId && p.createdAt == now
    ensures p.freeTrialsUsed == 0 && p.maxFreeTrials == DEFAULT_MAX_TRIALS
  {
    Profile(userId, now, 0, DEFAULT_MAX_TRIALS, false, None, 0, DEFAULT_MODE)
  }

  /** Why a user may (or may not) run an analysis. */
  datatype Reason = Subscribed | FreeTrial | NoAccess

  /** What can_use_claude reports. */
  datatype Access = Access(canUse: bool, reason: Reason, remainingTrials: Option<int>, subscriptionExpires: Option<int>)

  /** The entitlement decision, in its three ordered cases: an active
      subscription first, then a free trial left, else no access. */
  function Decide(p: Profile, st: SubscriptionStatus): (a: Access)
    ensures a.reason == Subscribed <==> st.hasSubscription && st.isActive
    ensures a.reason == FreeTrial <==> !(st.hasSubscription && st.isActive) && p.maxFreeTrials - p.freeTrialsUsed > 0
    ensures a.canUse <==> a.reason != NoAccess
    ensures a.reason == Subscribed ==> a.remainingTrials == None && a.subscriptionExpires == st.end
    ensures a.reason == FreeTrial ==> a.remainingTrials == Some(p.maxFreeTrials - p.freeTrialsUsed) && a.subscriptionExpires == None
    ensures a.reason == NoAccess ==> a.remainingTrials == Some(0) && a.subscriptionExpires == None
    ensures a.remainingTrials.Some? ==> a.remainingTrials.value >= 0
  {
    if st.hasSubscription && st.isActive then
      Access(true, Subscribed, None, st.end)
    else
      var remaining := p.maxFreeTrials - p.freeTrialsUsed;
      if remaining > 0 then Access(true, FreeTrial, Some(remaining), None)
      else Access(false, NoAccess, Some(0), None)
  }

  /** What get_user_stats reports. */
  datatype Stats = Stats(
    freeTrialsUsed: int,
    maxFreeTrials: int,
    remainingTrials: int,
    subscriptionActive: bool,
    subscriptionExpires: Option<int>,
    totalClaudeUses: int,
    preferredMode: string)

  function StatsOf(p: Profile): (s: Stats)
    ensures s.remainingTrials + s.freeTrialsUsed == s.maxFreeTrials == p.maxFreeTrials
    ensures s.freeTrialsUsed == p.freeTrialsUsed && s.totalClaudeUses == p.totalClaudeUses
    ensures s.subscriptionActive == p.subscriptionActive && s.subscriptionExpires == p.subscriptionExpires
    ensures s.preferredMode == p.preferredMode
  {
    Stats(p.freeTrialsUsed, p.maxFreeTrials, p.maxFreeTrials - p.freeTrialsUsed,
      p.subscriptionActive, p.subscriptionExpires, p.totalClaudeUses, p.preferredMode)
  }

  /** Without an active subscription, the statistics and the decision agree:
      access is granted exactly when the reported remaining trials are
      positive, and then by a free trial with that many left. */
  lemma StatsAgreeWithDecision(p: Profile, st: SubscriptionStatus)
    requires !(st.hasSubscription && st.isActive)
    ensures Decide(p, st).canUse <==> StatsOf(p).remainingTrials > 0
    ensures Decide(p, st).canUse ==> Decide(p, st).remainingTrials == Some(StatsOf(p).remainingTrials)
  {
  }

  /** The map after get_user: a missing user gets the default profile, an
      existing profile stays as it is. */
  function WithUser(users: map<int, Profile>, userId: int, now: int): (r: map<int, Profile>)
    ensures userId in r
    ensures userId in users ==> r == users
    ensures userId !in users ==> r[userId] == DefaultProfile(userId, now)
    ensures forall u :: u != userId ==> (u in r <==> u in users)
    ensures forall u :: u in users ==> u in r && r[u] == users[u]
  {
    if userId in users then users else users[userId := DefaultProfile(userId, now)]
  }

  /** The profile after use_claude_trial: one more trial and one more use. */
  function TrialUsed(p: Profile): (q: Profile)
    ensures q.freeTrialsUsed == p.freeTrialsUsed + 1
    ensures q.totalClaudeUses == p.totalClaudeUses + 1
    ensures q.(freeTrialsUsed := p.freeTrialsUsed, totalClaudeUses := p.totalClaudeUses) == p
  {
    p.(freeTrialsUsed := p.freeTrialsUsed + 1, totalClaudeUses := p.totalClaudeUses + 1)
  }

  /** The profile after `n` trials. */
  function TrialsUsed(p: Profile, n: nat): Profile
  {
    if n == 0 then p else TrialUsed(TrialsUsed(p, n - 1))
  }

  /** Each trial used lowers the trials left by exactly one and changes no
      setting of the profile. */
  lemma {:induction false} TrialsUsedCount(p: Profile, n: nat)
    ensures TrialsUsed(p, n).freeTrialsUsed == p.freeTrialsUsed + n
    ensures TrialsUsed(p, n).totalClaudeUses == p.totalClaudeUses + n
    ensures TrialsUsed(p, n).maxFreeTrials == p.maxFreeTrials
    ensures TrialsUsed(p, n).preferredMode == p.preferredMode
    ensures TrialsUsed(p, n).subscriptionActive == p.subscriptionActive
  {
    if n > 0 {
      TrialsUsedCount(p, n - 1);
    }
  }

  /** Without a subscription, a user has exactly `max - used` analyses:
      after that many trials the decision is no access, and before it a
      free trial is still granted. */
  lemma {:induction false} TrialsRunOut(p: Profile, st: SubscriptionStatus, n: nat)
    requires !(st.hasSubscription && st.isActive)
    ensures n < p.maxFreeTrials - p.freeTrialsUsed ==> Decide(TrialsUsed(p, n), st).reason == FreeTrial
    ensures n >= p.maxFreeTrials - p.freeTrialsUsed ==> Decide(TrialsUsed(p, n), st).reason == NoAccess
  {
    TrialsUsedCount(p, n);
  }

  /** A new user gets two free analyses and then none. */
  lemma NewUserHasTwoTrials(userId: int, now: int, st: SubscriptionStatus)
    requires !(st.hasSubscription && st.isActive)
    ensures Decide(DefaultProfile(userId, now), st) == Access(true, FreeTrial, Some(2), None)
    ensures Decide(TrialsUsed(DefaultProfile(userId, now), 1), st) == Access(true, FreeTrial, Some(1), None)
    ensures Decide(TrialsUsed(DefaultProfile(userId, now), 2), st) == Access(false, NoAccess, Some(0), None)
  {
    TrialsUsedCount(DefaultProfile(userId, now), 1);
    TrialsUsedCount(DefaultProfile(userId, now), 2);
  }

  /** The profile after a successful activation: flagged active, with the
      store's end date cached when the store has a row. */
  function Activated(p: Profile, st: SubscriptionStatus): (q: Profile)
    ensures q.subscriptionActive
    ensures st.hasSubscription ==> q.subscriptionExpires == st.end
    ensures !st.hasSubscription ==> q.subscriptionExpires == p.subscriptionExpires
    ensures q.(subscriptionActive := p.subscriptionActive, subscriptionExpires := p.subscriptionExpires) == p
  {
    if st.hasSubscription then p.(subscriptionActive := true, subscriptionExpires := st.end)
    else p.(subscriptionActive := true)
  }

  /** The users file, held in memory. */
  class UserManager {
    var users: map<int, Profile>

    /** Starts from the profiles loaded from the users file. */
    constructor (loaded: map<int, Profile>)
      ensures users == loaded
    {
      users := loaded;
    }

    /** get_user: the user's profile, created with the defaults on first
        sight. */
    method GetUser(userId: int, now: int) returns (p: Profile)
      modifies this`users
      ensures users == WithUser(old(users), userId, now)
      ensures p == users[userId]
      ensures userId in old(users) ==> p == old(users)[userId]
    {
      if userId !in users {
        users := users[userId := DefaultProfile(userId, now)];
      }
      p := users[userId];
    }

    /** can_use_claude: the decision for the user's profile and the store's
        current status of the user. */
    method CanUseClaude(userId: int, now: int, db: SubscriptionDb) returns (a: Access)
      modifies this`users
      ensures users == WithUser(old(users), userId, now)
      ensures a == Decide(users[userId], db.Status(userId, now))
    {
      var user := GetUser(userId, now);
      var status := db.Status(userId, now);
      if status.hasSubscription && status.isActive {
        return Access(true, Subscribed, None, status.end);
      }
      var remaining := user.maxFreeTrials - user.freeTrialsUsed;
      if remaining > 0 {
        return Access(true, FreeTrial, Some(remaining), None);
      }
      a := Access(false, NoAccess, Some(0), None);
    }

    /** use_claude_trial: one trial used and one use counted, nothing else
        changes. */
    method UseClaudeTrial(userId: int, now: int)
      modifies this`users
      ensures users == WithUser(old(users), userId, now)[userId := TrialUsed(WithUser(old(users), userId, now)[userId])]
    {
      var user := GetUser(userId, now);
      users := users[userId := user.(freeTrialsUsed := user.freeTrialsUsed + 1,
                                     totalClaudeUses := user.totalClaudeUses + 1)];
    }

    /** activate_subscription: renew in the store; only when that succeeds
        is the profile flagged and given the store's end date. */
    method ActivateSubscription(userId: int, months: int, now: int, db: SubscriptionDb, fault: bool) returns (ok: bool)
      modifies this`users, db`subscriptions
      ensures ok == !fault
      ensures db.subscriptions == if fault then old(db.subscriptions)
        else old(db.subscriptions)[userId := Renewed(Lookup(old(db.subscriptions), userId), months, now)]
      ensures fault ==> users == old(users)
      ensures !fault ==> users == WithUser(old(users), userId, now)[userId :=
        WithUser(old(users), userId, now)[userId].(subscriptionActive := true,
          subscriptionExpires := Some(db.subscriptions[userId].end))]
      ensures !fault && months >= 1 ==> Decide(users[userId], db.Status(userId, now)).reason == Subscribed
    {
      ok := db.AddSubscription(userId, months, now, fault);
      if ok {
        var user := GetUser(userId, now);
        var status := db.Status(userId, now);
        users := users[userId := Activated(user, status)];
        if months >= 1 {
          ActiveAfterRenewal(old(db.subscriptions), userId, months, now);
        }
      }
    }

    /** get_user_stats. */
    method GetUserStats(userId: int, now: int) returns (s: Stats)
      modifies this`users
      ensures users == WithUser(old(users), userId, now)
      ensures s == StatsOf(users[userId])
      ensures s.remainingTrials == s.maxFreeTrials - s.freeTrialsUsed
    {
      var user := GetUser(userId, now);
      s := StatsOf(user);
    }

    /** set_preferred_mode: only the mode of that user changes. */
    method SetPreferredMode(userId: int, mode: string, now: int)
      modifies this`users
      ensures users == WithUser(old(users), userId, now)[userId := WithUser(old(users), userId, now)[userId].(preferredMode := mode)]
    {
      var user := GetUser(userId, now);
      users := users[userId := user.(preferredMode := mode)];
    }
  }
}
