# Leaderboard reward distributor

This project models the periodic leaderboard reward job of a pay-to-play
contest platform (`services/leaderboardCron.js`) and proves properties of it.

- `runCronJobs` runs at 00:01. It settles the daily leaderboard every time,
  the weekly one on a Sunday and the monthly one on the first of the month.
- `processLeaderboard(type)` settles one leaderboard `leaderboards/<type>`:
  1. It takes the `lock` flag with a check-and-set and returns at once if the
     flag was already set.
  2. It sets `frozen` and reads the ten players with the highest `earnings`,
     highest first.
  3. For each rank with a positive configured reward, it adds the reward to
     `users/<uid>/wallet/winnings` and writes a "Leaderboard Reward"
     transaction record.
  4. It removes the players and releases `frozen` and `lock`. If a step
     inside the `try` block throws before the players are removed, the
     handler releases the flags and leaves the players in place. If the
     final flag update throws, the players are already gone and the handler
     releases the flags again. The lock transaction is outside the `try`
     block, so no handler runs if it throws.

The model has five modules:

- `Keys`: the order of child keys.
- `Ranking`: a board's players in rank order, and the ordered query
  `orderByChild("earnings").limitToLast(10)`.
- `Distribution`: the store as a value `Db`, and one run as the function
  `Process(db, period, now, fault)`. The function returns the new store and
  how the run ended (`AlreadyLocked`, `Completed` or `Failed`).
  - `now` stands for `Date.now()`.
  - `fault` names the awaited step that throws, if any: the freeze, the read,
    the winnings update or record write of a given rank, the removal of the
    players, or the final flag update.
- `Schedule`: the clock predicates and which boards a tick settles.
- `LeaderboardCron`: the store as a mutable `Database` object, with
  `processLeaderboard` and `runCronJobs` as imperative methods.
  - Arrays model the pushed and reversed `players` array.
  - Every method is proved to leave exactly the store that `Process` (or a
    fold of it over the boards due) describes.

Board order: ties in `earnings` are broken by key. The query lists equal
earnings in ascending key order and the code reverses the list, so among equal
earnings the greater key ranks first.

Exactly-once payment: the code does not deduplicate a retried period. A record's
key is `<TYPE>_<Date.now()>_<rank>`, so a retry writes under a new key, and the
credit step checks nothing before it adds.
- After a run that completed, the players are gone, so a second run pays
  nobody (`CompletedRunIsNotRepaid`).
- After a run whose removal of the players threw, the next run pays rank 1
  again (`RetryAfterFailedResetRepays`).
- After a run whose final flag update threw, the players are already gone, so
  the next run pays nobody (`UnlockFailsNotRepaid`).

The model follows the code here, not a design in which per-rank records would
make a retry pay each winner only once.

## Model

| member | source | states |
|---|---|---|
| Keys.KeyLess | services/leaderboardCron.js:43-45 | definition: the order in which keys of equal earnings are listed; its properties are proved by `KeyLessIrreflexive`, `KeyLessTransitive`, `KeyLessAsymmetric` and `KeyLessTotal` |
| Keys.KeyLessIrreflexive | services/leaderboardCron.js:43-45 | no key is ordered before itself |
| Keys.KeyLessTransitive | services/leaderboardCron.js:43-45 | the key order used to break ties in earnings is transitive |
| Keys.KeyLessAsymmetric | services/leaderboardCron.js:43-45 | two keys are never ordered both ways |
| Keys.KeyLessTotal | services/leaderboardCron.js:43-45 | two different keys are always ordered one way or the other |
| Ranking.Precedes | services/leaderboardCron.js:43-45 | definition: the order `orderByChild("earnings")` lists children in, by earnings then key; its properties are proved by `PrecedesIrreflexive`, `PrecedesTransitive`, `PrecedesAsymmetric` and `PrecedesTotal` |
| Ranking.PrecedesIrreflexive | services/leaderboardCron.js:43-45 | no player is listed before itself when children are ordered by earnings |
| Ranking.PrecedesTransitive | services/leaderboardCron.js:43-45 | the order by earnings, then key, is transitive |
| Ranking.PrecedesAsymmetric | services/leaderboardCron.js:43-45 | two players are never listed both ways round |
| Ranking.PrecedesTotal | services/leaderboardCron.js:43-45 | any two different players are listed one way or the other, so ranks are well defined |
| Ranking.Ranked | services/leaderboardCron.js:43-60 | the ranking has one entry per player of the board |
| Ranking.RankedMembers | services/leaderboardCron.js:53-58 | an entry is in the ranking exactly when it is a player of the board with its earnings |
| Ranking.RankedHead | services/leaderboardCron.js:43-60 | every other player precedes the first-ranked player |
| Ranking.RankedSorted | services/leaderboardCron.js:43-60 | the ranking is strictly descending: each later entry precedes each earlier one |
| Ranking.Top | services/leaderboardCron.js:45 | the selection holds min(n, number of players) entries |
| Ranking.TopFacts | services/leaderboardCron.js:43-60 | the selection holds players of the board with their earnings only, highest first |
| Ranking.TopUidsDistinct | services/leaderboardCron.js:53-60 | no player holds two ranks |
| Ranking.TopKeepsHighest | services/leaderboardCron.js:43-46 | every player left out of the top n precedes every selected player, so has earnings no higher |
| Ranking.RankOneIsMaximum | services/leaderboardCron.js:60-65 | rank 1 holds the maximum earnings of the board |
| Ranking.QueryLast | services/leaderboardCron.js:43-46 | the limitToLast answer has min(n, number of players) entries, each a player with its earnings, in ascending order |
| Ranking.QueryLastKeepsHighest | services/leaderboardCron.js:43-46 | the answer is the last n: every player left out of it precedes every player in it |
| Ranking.Reversed | services/leaderboardCron.js:60 | element i of the result is element length-1-i of the input |
| Distribution.Upper | services/leaderboardCron.js:74 | `toUpperCase` keeps the length and upper-cases each ASCII letter |
| Distribution.FaultRank | services/leaderboardCron.js:63-83 | definition: the rank whose winnings update or record write the fault names, if the loop writes for it, else 0; that the loop stops there is proved by `LeaderboardCron.Database.PayRewards` |
| Distribution.RecordKey | services/leaderboardCron.js:74 | definition: the key `<TYPE>_<now>_<rank>` of a reward record; proved to hold the record by `PayRankTransactions`, `RecordsOfRank` and `ProcessRecordsRank` |
| Distribution.RewardRecord | services/leaderboardCron.js:75-82 | definition: the six-field reward record; its fields are proved by `RecordsOfRank` and `ProcessRecordsRank` |
| Distribution.RankingOf | services/leaderboardCron.js:43-60 | definition: the top ten of a board, highest first; proved by `TopFacts`, `TopKeepsHighest` and `LeaderboardCron.ReadTop` |
| Distribution.Balance | services/leaderboardCron.js:72 | definition: the stored winnings read as a number, missing or `NaN` as 0; its use is proved by `PayRanksWinnings` and `ProcessCreditsRank` |
| Distribution.RewardFor | services/leaderboardCron.js:66 | definition: the configured reward of a rank, missing as 0; that a non-positive amount is skipped is proved by `ProcessSkipsUnpaid` and `PayoutOfRank` |
| Distribution.Credit | services/leaderboardCron.js:71-72 | definition: the winnings update of one rank; proved to add exactly the reward by `ProcessCreditsRank` |
| Distribution.Record | services/leaderboardCron.js:74-82 | definition: the `set` of one transaction record; its contents are proved by `ProcessRecordsRank` |
| Distribution.PayRank | services/leaderboardCron.js:63-83 | definition: one pass of the reward loop; its effect is proved by `PayRankTransactions`, `PayoutOfRank` and `RecordsOfRank` |
| Distribution.PayRanks | services/leaderboardCron.js:63-83 | definition: the first n passes of the loop; proved by `PayRanksWinnings`, `PayRanksTransactions` and `PayRanksKeepsBoards` |
| Distribution.ClearPlayers | services/leaderboardCron.js:86 | definition: the removal of the players; its effect is proved by `DistributeBoards` and `ProcessBoard` |
| Distribution.Release | services/leaderboardCron.js:89-101 | definition: the flag update on both paths; proved by `NextRunTakesLock` and `ProcessBoard` |
| Distribution.Distribute | services/leaderboardCron.js:63-101 | definition: the run after the read; proved by `DistributeBoards`, `DistributeWinnings` and `DistributeTransactions` |
| Distribution.Process | services/leaderboardCron.js:22-105 | definition: one call of `processLeaderboard`; proved by `LockedRunChangesNothing`, `ProcessBoard`, `ProcessWinnings`, `ProcessTransactions`, `ProcessCreditsRank`, `ProcessRecordsRank` and `ProcessSkipsUnpaid` |
| Distribution.Payout | services/leaderboardCron.js:66-72 | what the loop credits a user is never negative |
| Distribution.PayoutPositive | services/leaderboardCron.js:63-72 | a user is credited something exactly when it holds a reached rank with a positive reward |
| Distribution.RecordsForEmpty | services/leaderboardCron.js:66-67 | a user holding no reached rank with a positive reward gets no record |
| Distribution.CreditsApplied | services/leaderboardCron.js:63-83 | the number of passes that got past their winnings update (a rank skipped for a non-positive reward counts) is at most the number of ranked players |
| Distribution.RecordsWritten | services/leaderboardCron.js:71-82 | no more records are written than winnings updates are applied, since each record follows its update |
| Distribution.PayRanksKeepsBoards | services/leaderboardCron.js:63-83 | the reward loop writes no leaderboard |
| Distribution.PayRanksWinnings | services/leaderboardCron.js:66-72 | the loop adds exactly a user's payout to its balance, reading a missing or non-numeric value as 0, and leaves an unpaid user's stored value as it was |
| Distribution.PayRankTransactions | services/leaderboardCron.js:74-82 | one pass writes one record, under the key `<TYPE>_<now>_<rank>`, for its own player only |
| Distribution.PayRanksTransactions | services/leaderboardCron.js:63-83 | the loop adds exactly a user's records to its transactions and touches nobody else's |
| Distribution.PayoutOfRank | services/leaderboardCron.js:63-72 | with distinct players, the player of a reached rank is paid that rank's reward if positive, and 0 otherwise |
| Distribution.RecordsOfRank | services/leaderboardCron.js:74-82 | with distinct players, a credited rank leaves exactly one record for its player, with type, leaderboard, rank, amount, status and timestamp |
| Distribution.DistributeWrites | services/leaderboardCron.js:63-101 | after a throw, the store holds the winnings updates and records of the passes that completed, and nothing more |
| Distribution.DistributeBoards | services/leaderboardCron.js:86-101 | after the freeze, the board ends unlocked and unfrozen, and its players are cleared exactly when the removal ran; the run completes exactly when it got past the removal and the final update |
| Distribution.DistributeWinnings | services/leaderboardCron.js:63-101 | after the freeze, each user's balance grows by exactly its payout over the ranks reached |
| Distribution.DistributeTransactions | services/leaderboardCron.js:63-101 | after the freeze, each user gets exactly the records of the ranks whose write ran |
| Distribution.ProcessEarlyAbort | services/leaderboardCron.js:37-48 | a run whose freeze or read throws only releases the flags |
| Distribution.LockedRunChangesNothing | services/leaderboardCron.js:27-35 | a run over a locked board changes nothing at all |
| Distribution.ProcessBoard | services/leaderboardCron.js:22-101 | an unlocked run ends with `lock` and `frozen` false and the rewards kept; the players are cleared exactly when the removal ran, no other board changes, and the outcome is `Completed` exactly when nothing threw |
| Distribution.ProcessWinnings | services/leaderboardCron.js:63-72 | an unlocked run credits every user exactly the positive rewards of the ranks it reached, reading missing or non-numeric winnings as 0 |
| Distribution.ProcessTransactions | services/leaderboardCron.js:74-82 | an unlocked run writes exactly the records of the ranks it reached |
| Distribution.ProcessCreditsRank | services/leaderboardCron.js:63-72 | the player at a reached rank with a positive reward ends with its prior balance plus exactly that reward |
| Distribution.ProcessRecordsRank | services/leaderboardCron.js:74-82 | the player at a recorded rank gets exactly one new transaction: "Leaderboard Reward", the leaderboard, the rank, the amount, "Success", `now` |
| Distribution.ProcessSkipsUnpaid | services/leaderboardCron.js:63-72 | a user holding no reached rank with a positive reward, including any user outside the top ten, keeps its winnings entry and its transactions unchanged |
| Distribution.WinningsNeverDecrease | services/leaderboardCron.js:66-72 | no run lowers a balance, and a numeric non-negative balance stays numeric and no lower |
| Distribution.NextRunTakesLock | services/leaderboardCron.js:89-101 | after any run that took the lock, whatever threw, the next run over the board takes the lock again |
| Distribution.FailedResetKeepsBoard | services/leaderboardCron.js:86-101 | when the removal of the players throws, the board keeps its players and rewards and ends unfrozen and unlocked |
| Distribution.RetryAfterFailedResetRepays | services/leaderboardCron.js:74-101 | a retry after a run that failed at the removal pays rank 1 a second time |
| Distribution.EmptyBoardPaysNobody | services/leaderboardCron.js:43-83 | a run over a board without players changes no winnings and no transactions |
| Distribution.CompletedRunIsNotRepaid | services/leaderboardCron.js:86-92 | after a completed run, a second run over the board pays nobody and records nothing |
| Distribution.UnlockFailsNotRepaid | services/leaderboardCron.js:86-101 | after a run whose final flag update threw, a second run over the board pays nobody and records nothing |
| Schedule.IsTimeToRun | services/leaderboardCron.js:7-10 | definition: the clock reads 00:01; its role is proved by `PeriodsDue` |
| Schedule.IsSunday | services/leaderboardCron.js:12-14 | definition: the weekday is 0; its role is proved by `PeriodsDue` |
| Schedule.IsFirstDayOfMonth | services/leaderboardCron.js:16-18 | definition: the day of the month is 1; its role is proved by `PeriodsDue` |
| Schedule.PeriodsDue | services/leaderboardCron.js:7-18 | nothing is settled unless it is 00:01; then "today" is settled first, "weekly" exactly on a Sunday, "monthly" exactly on the 1st, nothing else, in that order |
| LeaderboardCron.ReverseEntries | services/leaderboardCron.js:60 | `reverse()` leaves the array holding its old contents read from the other end |
| LeaderboardCron.ReadTop | services/leaderboardCron.js:43-60 | the pushed and reversed array is the top ten of the board, highest first |
| LeaderboardCron.ProcessKeepsOtherBoards | services/leaderboardCron.js:22-105 | a run leaves every other leaderboard as it was |
| LeaderboardCron.RunPeriods | services/leaderboardCron.js:109-123 | definition: the runs over a list of boards, one after the other; proved by `RunPeriodsKeepsOthers`, `RunPeriodsReleases` and `Database.RunCronJobs` |
| LeaderboardCron.RunPeriodsKeepsOthers | services/leaderboardCron.js:109-123 | settling a list of boards leaves every board outside the list as it was |
| LeaderboardCron.RunPeriodsReleases | services/leaderboardCron.js:109-123 | a board that a run of the list finds unlocked ends unlocked |
| LeaderboardCron.CronTickReleasesLocks | services/leaderboardCron.js:109-123 | a tick leaves the boards it does not settle unchanged, and every board it settles that was unlocked ends unlocked |
| LeaderboardCron.Database.Unlock | services/leaderboardCron.js:89-92 | the update sets `frozen` and `lock` to false on that board and changes nothing else |
| LeaderboardCron.Database.PayRewards | services/leaderboardCron.js:63-83 | the loop stops at the rank that throws, if any, and leaves the store with the updates of exactly the passes before it |
| LeaderboardCron.Database.RewardAndReset | services/leaderboardCron.js:63-101 | paying, resetting and releasing leave exactly the store and outcome the run function gives after the freeze |
| LeaderboardCron.Database.ProcessLeaderboard | services/leaderboardCron.js:22-105 | the method leaves exactly the store and outcome of `Process` from the store before it |
| LeaderboardCron.Database.RunCronJobs | services/leaderboardCron.js:109-123 | a tick leaves the store of the runs over `PeriodsDue`, one after the other, each with its own clock reading and fault |

## Left out

- Firebase itself is not modelled: the network, the SDK, the `orderByChild`/`limitToLast`/`once` machinery and the snapshot objects. The query is modelled by the order it answers in.
- Keys.KeyLess: plain character-by-character order. The store lists keys that look like 32-bit integers first, in numeric order; that case is not modelled. Other keys are compared by UTF-16 code unit, while the model compares characters by code point; the two differ for characters above U+FFFF against U+E000 to U+FFFF, which is not modelled.
- Concurrency is not modelled. The lock `transaction()` is one atomic check-and-set. Other writers during a run, and the retries inside `transaction()`, are not modelled.
- The lock transaction itself and the update in the `catch` block are assumed not to throw. If the `catch` update threw, the board would stay locked; that is not modelled.
- `Date.now()` is one value `now` per call. The code reads it twice per rank, for the key and for `timestamp`; in the model both are the same.
- The three clock helpers each read the clock; the model uses one reading per tick.
- Rewards are integers, and a missing reward reads as 0. The model does not cover a non-numeric or fractional reward, which `Number(...)` would make `NaN` or a fraction.
- Winnings: `Num(n)` stands for any stored value `Number()` reads as the integer `n` (a number, a numeric string, a boolean); `NonNumeric` for one it reads as `NaN`, which `|| 0` turns into 0. Fractional amounts are not modelled.
- Player `earnings` are integers. A player without numeric earnings is not modelled.
- Distribution.Upper: ASCII letters only; Unicode case mapping is not modelled.
- `console` logging is not modelled.
- The HTTP server (`index.js`) and the Firebase setup with the `setInterval` timer (`cron.js`) are not part of this model.
