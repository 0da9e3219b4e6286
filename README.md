# MyFoodBot core, modelled in Dafny

MyFoodBot is a Telegram bot that estimates calories from a photo of a meal.
Every user gets two free analyses. After that, an administrator grants a paid
subscription in whole months of 30 days. The bot also keeps a daily ledger of
dishes and water per user.

The model covers three parts of the bot's state and the rules that change it:

- **The subscription store** (`subscription_db.dfy`, module `SubscriptionStore`).
  Class `SubscriptionDb` holds both tables in memory:
  - the `subscriptions` table, a map from user id to a window `(start, end, created, updated)`;
  - the `food_analyses` ledger, a sequence of rows in table order, with the id of the next row.

  Each public operation is one atomic step on these fields. Renewals stack, and a
  status reports whole days left. The expiry sweep deletes windows that ended
  before `now`. The listing is ordered by end date, latest first. On the ledger
  side there are appends, the water upsert, the daily totals and the clearing of
  one user. There is also the retention sweep over all users, with its
  per-user error accounting.
- **The user profiles** (`user_manager.dfy`, module `Profiles`). Class
  `UserManager` holds the profile map. `Decide` is the three-way entitlement
  decision: an active subscription first, then a free trial left, else no
  access. The module also defines how the trial counters move.
- **The bot's handlers that change state** (`bot.dfy`, module `Bot`). Class
  `Bot` holds:
  - the admin list, with its duplicate and last-admin guards;
  - the subscribe, extend, revoke, reset-trials and add-trials commands, with their range checks;
  - the photo flow, which spends at most one trial;
  - the water button, which only the user it was shown to may press.

Time is whole seconds, and the current time is always a parameter `now`
(`clock.dfy`, module `Clock`). A day is `[DayStart(now), DayStart(now) + 86400]`,
inclusive at both ends, because the ledger queries compare with BETWEEN. A
storage error is a parameter `fault`: the operation commits nothing and reports
failure. `scenarios.dfy` (module `Scenarios`) works through concrete cases.

Notes on the source's behaviour:

- `revoke_subscription` reports success whether or not the user had a row (subscription_db.py:421-430).
- "Today" includes the following midnight (the BETWEEN at subscription_db.py:723 and :790).
- In the photo flow, a trial is spent when access came from a free trial and the reply was sent. The analyser reports its own failures as text, so a trial is spent even then (bot.py:487-566). If sending the reply raises, the handler's outer `except` skips both the save and the trial (bot.py:545, :578).

## Model

| member | source | states |
|---|---|---|
| Clock.DayStart | subscription_db.py:715-717 | the start of the day holding `t` is a midnight (a multiple of 86400), at most `t`, and `t` is less than a day after it |
| Clock.DaysLeft | subscription_db.py:382-392 | days left are the whole days from `now` to `end`, floored; zero once the window has ended, never negative |
| SubscriptionStore.Renewed | subscription_db.py:293-331 | a user without a row gets `start = created = now` and `end = now + 30·months` days. A running window (`end > now`) is extended from its old end; an ended one restarts from `now`. Start and created are kept, and updated becomes `now` |
| SubscriptionStore.RenewedKeepsOrder | subscription_db.py:303-331 | a renewal of a well-formed window (or of none) never ends before it starts |
| SubscriptionStore.RenewedStartsAtLaterOf | subscription_db.py:303-311 | a renewal never ends before `now + 30·months` days, nor before the old end plus that; renewals stack |
| SubscriptionStore.StatusOf | subscription_db.py:366-394 | has_subscription iff the user has a row; is_active iff the row ends after `now`; start, end, created_at and updated_at come from the row, or are None without one; days_left is the floored day count while active, else 0 |
| SubscriptionStore.ActiveAfterRenewal | subscription_db.py:303-331 | after a renewal of at least one month the user is active, with at least 30 days per month bought left |
| SubscriptionStore.Unexpired | subscription_db.py:459-464 | the sweep keeps exactly the rows with `end >= now`, unchanged; a window ending exactly at `now` survives |
| SubscriptionStore.ExpiredUsers | subscription_db.py:451-457 | the users counted by the sweep are exactly those whose row ends before `now` |
| SubscriptionStore.ExpiryPartition | subscription_db.py:451-470 | the kept users are the table's users minus the expired ones, and kept plus expired is the table's size |
| SubscriptionStore.InsertByEnd | subscription_db.py:840-845 | inserting into a list ordered by end date, latest first, keeps it ordered, and the result is a permutation of the old list plus the new entry |
| SubscriptionStore.Contribution | subscription_db.py:744-750 | a row adds its water; it adds one dish exactly when it is a dish (not named water, calories above zero), and then exactly its calories, protein, fat and carbs; any other row adds no nutrients |
| SubscriptionStore.Tally | subscription_db.py:740-752 | the number of dishes counted for a day is at most the number of rows |
| SubscriptionStore.TallyEmptyWindow | subscription_db.py:729-730 | a user with no row in the day has all-zero totals |
| SubscriptionStore.TallyAddWaterAt | subscription_db.py:796-807 | adding water to one of the user's rows for the day raises the day's water by that amount; every dish total stays the same |
| SubscriptionStore.TallyOtherUserAddWater | subscription_db.py:802-806 | adding water to a row of one user leaves every other user's totals as they were |
| SubscriptionStore.FirstInWindow | subscription_db.py:788-796 | the row picked is the user's earliest row of the day in table order; None iff the user has no row that day |
| SubscriptionStore.WithWaterAdded | subscription_db.py:787-817 | update_user_water adds at most one row |
| SubscriptionStore.WaterAddedRows | subscription_db.py:787-817 | every old row is unchanged or is one of the user's rows of the day with only its water raised by the amount; a row is appended iff the user had no row that day, and it is a water-only row with the next id, the amount and `now` |
| SubscriptionStore.WaterAddedTally | subscription_db.py:796-817 | after update_user_water, the table has one more row iff the user had no row that day; the day's water rises by exactly the amount; the dish totals are unchanged; the user now has a row that day |
| SubscriptionStore.WaterAddedOthers | subscription_db.py:796-817 | update_user_water for one user leaves every other user's totals unchanged, on every day |
| SubscriptionStore.Filter | subscription_db.py:603 | a DELETE keeps exactly the rows that pass its condition, and never adds rows |
| SubscriptionStore.FilterIncreasing | subscription_db.py:603 | the rows a DELETE leaves keep their ids in increasing order |
| SubscriptionStore.FilterKeepsNone | subscription_db.py:603 | a DELETE that every row matches leaves nothing |
| SubscriptionStore.FilterTwice | subscription_db.py:667-672 | two DELETEs in a row are one DELETE with both conditions |
| SubscriptionStore.FilterImplied | subscription_db.py:667-672 | deleting with a condition after a weaker one is the same as deleting with the condition alone |
| SubscriptionStore.FilterAgree | subscription_db.py:667-672 | DELETEs whose conditions agree on the rows present leave the same rows |
| SubscriptionStore.FilterKeepsAllTrue | subscription_db.py:598-600 | a DELETE that matches no row changes nothing |
| SubscriptionStore.RowsOf | subscription_db.py:594-596 | a user's rows are exactly the rows carrying that user's id |
| SubscriptionStore.WithoutUser | subscription_db.py:603 | clear_user_history keeps exactly the other users' rows, with ids still increasing |
| SubscriptionStore.ClearKeepsOthers | subscription_db.py:594-611 | clearing a user leaves each other user's rows exactly as they were and none of that user's; clearing twice is the same as clearing once |
| SubscriptionStore.DistinctUsers | subscription_db.py:643-644 | the list of users holds each user id of the ledger exactly once, and nothing else |
| SubscriptionStore.RetainedRows | subscription_db.py:656-682 | the sweep keeps exactly the rows that are recent enough, or whose user's deletion failed, with ids still increasing |
| SubscriptionStore.SubscriptionDb.constructor | subscription_db.py:14-17 | the store opens on the tables already in the database file (created empty if missing), whose ids increase and stay below the next id |
| SubscriptionStore.SubscriptionDb.AddSubscription | subscription_db.py:277-342 | on success only the user's row changes, to its renewal; a storage error changes nothing and reports False |
| SubscriptionStore.SubscriptionDb.Status | subscription_db.py:344-404 | the status is that of the current table, and it is never active without a row |
| SubscriptionStore.SubscriptionDb.RevokeSubscription | subscription_db.py:406-434 | exactly the user's row is deleted, and success is reported even when there was none |
| SubscriptionStore.SubscriptionDb.CleanupExpiredSubscriptions | subscription_db.py:436-474 | the table keeps exactly the unexpired rows; the count is the number of expired rows, which is also how many rows were removed; a storage error gives 0 and changes nothing |
| SubscriptionStore.SubscriptionDb.GetAllSubscriptions | subscription_db.py:828-865 | every row is listed exactly once, with its days left and activity, ordered by end date, latest first |
| SubscriptionStore.SubscriptionDb.SaveFoodAnalysis | subscription_db.py:476-541 | exactly one row is appended, with the given fields, the next id and `created_at = now`; earlier rows stay as they were |
| SubscriptionStore.SubscriptionDb.AddWater | subscription_db.py:547-579 | exactly one water-only row is always appended, with zero nutrients and the given water |
| SubscriptionStore.SubscriptionDb.UpdateUserWater | subscription_db.py:767-826 | the ledger becomes WithWaterAdded: water is added in place to the user's first row of the day, or else one water-only row is appended; the id counter moves only when a row is appended |
| SubscriptionStore.SubscriptionDb.GetUserDailyStats | subscription_db.py:700-765 | None iff the user has no row in the day's inclusive window; otherwise the day's totals: dishes are rows not named water with calories above zero, and water is summed over all rows |
| SubscriptionStore.SubscriptionDb.ClearUserHistory | subscription_db.py:581-617 | every row of the user is deleted and all others kept, with success reported when nothing matched; a storage error changes nothing |
| SubscriptionStore.SubscriptionDb.ClearAllUsersOldHistory | subscription_db.py:621-698 | the ledger keeps exactly the retained rows; the report gives the number of distinct users, the number of rows removed, and one error per failing user; an empty ledger gives zeros; an outer storage error keeps everything and reports one error |
| SubscriptionStore.Sweep | subscription_db.py:639-694 | the sweep over a ledger leaves the retained rows and reports the distinct users, the deleted rows and the failing users |
| SubscriptionStore.SweepUsers | subscription_db.py:656-682 | giving each user a turn in order leaves the ledger SweepOver; deleted rows are counted exactly, and one error per failing user |
| SubscriptionStore.ClearOld | subscription_db.py:667-672 | one user's turn deletes exactly that user's rows older than the cutoff |
| SubscriptionStore.OldCount | subscription_db.py:660-666 | the number of rows the turn would delete is zero iff no row of the user is older than the cutoff |
| SubscriptionStore.ClearOldNothing | subscription_db.py:666-678 | a turn that finds nothing to delete leaves the ledger as it was |
| SubscriptionStore.SweptRows | subscription_db.py:656-682 | once a set of users has been swept, exactly the rows that are not old rows of those users remain |
| SubscriptionStore.SweepStart | subscription_db.py:652-653 | before any user has had a turn, the ledger is unchanged |
| SubscriptionStore.SweepStep | subscription_db.py:667-674 | one more user's turn is one more per-user deletion |
| SubscriptionStore.SweepEnd | subscription_db.py:656-682 | once every user that does not fail has had a turn, exactly the retained rows remain |
| SubscriptionStore.NextUser | subscription_db.py:656 | the next user of a list without repetitions is new, and joins the users seen so far |
| SubscriptionStore.FailingCount | subscription_db.py:680-681 | a new user adds one error exactly when deleting that user's rows fails |
| SubscriptionStore.SweepOverSwept | subscription_db.py:656-682 | the turns taken in order have swept exactly the users that do not fail |
| SubscriptionStore.FailingUsersCount | subscription_db.py:656-682 | counting failing users one by one gives the number of failing users in the set |
| SubscriptionStore.SweepComplete | subscription_db.py:643-694 | once every user of the ledger has had a turn, exactly the retained rows remain and each failing user is counted once |
| SubscriptionStore.LedgerUsers | subscription_db.py:643-644 | the distinct users of the ledger are exactly its user ids, each listed once |
| Profiles.Decide | user_manager.py:52-83 | subscription iff the store reports an active row, whatever the trials used; free trial iff not subscribed and `max - used > 0`, with that many left; otherwise no access with 0 left; canUse iff the reason is not no access |
| Profiles.StatsAgreeWithDecision | user_manager.py:66-83 | without a subscription, access is granted iff the reported remaining trials are positive, and then with that many left |
| Profiles.DefaultProfile | user_manager.py:38-47 | a new profile has 0 of the default 2 trials used and no use recorded, no subscription and no end date, the default mode, and the given id and creation time |
| Profiles.StatsOf | user_manager.py:113-121 | remaining plus used trials is the maximum; every other field is copied from the profile |
| Profiles.Activated | user_manager.py:99-104 | the profile is flagged active; the cached end date is the store's end when it reports a row, else unchanged; no other field changes |
| Profiles.WithUser | user_manager.py:32-50 | a missing user gets the default profile (0 of 2 trials used, inactive, mode "claude"); an existing profile and every other user stay as they were |
| Profiles.TrialUsed | user_manager.py:85-90 | one trial raises the trials used and the uses by exactly 1 each, and changes no other field |
| Profiles.TrialsUsedCount | user_manager.py:85-90 | after n trials, both counters are up by exactly n and the settings are unchanged |
| Profiles.TrialsRunOut | user_manager.py:66-83 | without a subscription, a user has exactly `max - used` more free analyses (none if more than the maximum are already used), and no access after them |
| Profiles.NewUserHasTwoTrials | user_manager.py:36-46 | a new user has two free analyses, then one, then none |
| Profiles.UserManager.constructor | user_manager.py:10-12 | the manager starts from the loaded profiles |
| Profiles.UserManager.GetUser | user_manager.py:32-50 | the profile is created with the defaults only when it is missing; an existing profile is returned unchanged |
| Profiles.UserManager.CanUseClaude | user_manager.py:52-83 | the answer is Decide of the user's profile and the store's current status |
| Profiles.UserManager.UseClaudeTrial | user_manager.py:85-90 | the user's profile becomes TrialUsed of itself; nothing else changes |
| Profiles.UserManager.ActivateSubscription | user_manager.py:92-107 | if the store's renewal fails, the profiles are unchanged; on success the user is flagged active, with the store's end date cached, and Decide gives subscription for a renewal of a month or more |
| Profiles.UserManager.GetUserStats | user_manager.py:109-121 | the statistics report `remaining = max - used` |
| Profiles.UserManager.SetPreferredMode | user_manager.py:123-127 | only the user's preferred mode changes |
| Bot.RemoveFirst | bot.py:1062 | list.remove drops exactly one occurrence of the id |
| Bot.RemoveFirstDistinct | bot.py:1062 | in a list without repetitions, removing an id drops exactly that id and creates no repetition |
| Bot.ValidMonths | bot.py:743 | an accepted number of months buys between 30 and 360 days |
| Bot.ValidTrialGrant | bot.py:894 | an accepted grant lowers a positive trials-used counter by at least 1 and at most 10 |
| Bot.GrantedTrialsUsed | bot.py:902 | the new counter is never negative, and never above the old one when both are non-negative |
| Bot.GrantBounds | bot.py:901-903 | `max(0, used - count)` is never negative, never above `used`, lowers it by at most `count`, and is 0 iff `count` covers it |
| Bot.GrantRestoresAccess | bot.py:894-903 | a grant never lowers the trials left and never raises them above the maximum; access follows iff the maximum exceeds the new counter |
| Bot.Bot.constructor | bot.py:38 | the bot starts with the single initial administrator |
| Bot.Bot.IsAdmin | bot.py:40-42 | a user is an admin iff the user's id is in the admin list |
| Bot.Bot.AddAdmin | bot.py:1007-1037 | refused to non-admins; an id already listed is rejected with the list unchanged; otherwise the id is appended; the list stays without repetitions |
| Bot.Bot.RemoveAdmin | bot.py:1040-1074 | refused to non-admins; rejected (reported as such, list unchanged) if the id is not listed or only one admin is left; otherwise exactly that id is removed; the list never becomes empty |
| Bot.Bot.GrantSubscription | bot.py:728-807 | refused to non-admins; months outside 1..12 are rejected without touching the store; otherwise the subscription is activated, and on success only the user's profile changes, flagged active with the store's new end date cached, and the user is subscribed with at least 30 days per month left |
| Bot.Bot.RevokeSubscription | bot.py:810-845 | refused to non-admins; otherwise the store row is deleted, and on success the profile's flag and cached end date are cleared |
| Bot.Bot.ResetTrials | bot.py:848-876 | refused to non-admins; otherwise the user's trials used become 0 and nothing else changes |
| Bot.Bot.AddTrials | bot.py:879-916 | refused to non-admins; a count outside 1..10 is rejected without touching the profile; otherwise trials used become `max(0, used - count)` |
| Bot.Bot.HandlePhoto | bot.py:483-578 | without access nothing is analysed or stored; if the reply fails, nothing is stored and no trial is spent; otherwise the analysis is stored with zero water unless storage fails, and a trial is spent when access came from a free trial; never more than one trial is spent, and a counter within the maximum stays within it; the row id counter advances only by the rows appended |
| Bot.Bot.ProcessAddWater | bot.py:222-289 | nothing happens unless the button's id is the sender's; otherwise 250 ml go to one of today's rows or a new water row, today's water rises by exactly 250, other users' totals are unchanged, and the row id counter advances only by the rows appended |
| Scenarios.RenewalsStack | subscription_db.py:303-311 | two renewals of one month from a running window add 60 days; a renewal after the end restarts from `now` |
| Scenarios.WaterTwiceOneDay | subscription_db.py:796-817 | 100 ml and then 150 ml on a day without rows leave one new row, which holds 250 ml, and 250 ml more water for the day |
| Scenarios.DishAndWater | subscription_db.py:740-752 | a dish and a water row on one day give one dish, the dish's nutrients, and the water of both |
| Scenarios.SoupAndWater | subscription_db.py:740-752 | a 300 kcal soup and a 250 ml glass give one dish, 300 kcal and 250 ml |
| Scenarios.SweepKeepsRecent | subscription_db.py:639-672 | a 24-hour sweep deletes a row from 25 hours ago and keeps one from an hour ago |
| Scenarios.TwoTrialsThenNone | user_manager.py:66-83 | with the default two trials and no subscription, a user has a free trial until both are used, and no access after |

## Left out

- The SQLite connection layer (connection retries, the lock, backoff, pragmas) is not modelled. Each public store operation is one atomic step.
- Schema and maintenance code is not modelled: table creation, database cleanup, status, force-unlock, the structure check and the migration.
- `get_subscription_stats`, `get_daily_stats` and `close` are called by the bot and by scripts but not defined in the store, so there is nothing to model.
- The food analyser (the remote AI call and the parsing of its answer) is not modelled. Its text and the figures parsed from it are parameters of `Bot.Bot.HandlePhoto`.
- Loading and saving the users file is not modelled. The manager starts from the loaded map, and every in-memory change stands for a save.
- Message texts, keyboards, the payment and status text builders, the cleanup scheduler, the backup command, and the database test and migrate commands produce no state the core depends on.
- The one-off migration and cleanup scripts, the payment UI module and the configuration loader are not modelled.
- Command parsing is not modelled. Handlers take their arguments already parsed. A water button whose data does not parse gives `None`.
- Nutrient and water amounts are SQL REAL values. They are modelled as integers, so fractional grams and millilitres are not captured.
- Time is integer seconds instead of ISO-8601 strings. The day boundary is taken in UTC (`Clock.DayStart`), not in the server's local time zone.
- Reading operations (`Status`, `GetUserDailyStats`, `GetAllSubscriptions`) do not model storage errors. In the source those return the empty answer, which callers treat like "no row".
- SubscriptionStore.SubscriptionDb.UpdateUserWater: the query picks any of today's rows (LIMIT 1 without ORDER BY). The model picks the first in table order. The water lemmas hold whichever row is picked, because they only need the row to be in the user's day.
- Several `datetime.now()` calls within one operation are modelled as the same instant `now`.
- Profile fields are always present. The source's defaults for missing keys in old profiles are not modelled.
- Bot.Bot.AddTrials: "adding" trials lowers the counter of trials used, so it can never give a user more than the maximum number of free trials. This is modelled as written.
- Bot.Bot.HandlePhoto: sending the reply and the keyboard, and deleting the progress message, are I/O and are not modelled. A reply that raises is the parameter `replyFails`, and a parse or storage error in the save is the parameter `fault`.
