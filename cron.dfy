/**
 * The store as a mutable object, and the two entry points of the leaderboard
 * cron service: `processLeaderboard(type)` and `runCronJobs()`.
 */
module LeaderboardCron {
  import opened Keys
  import opened Ranking
  import opened Distribution
  import opened Schedule

  /** `Array.prototype.reverse`: the array is turned around in place. */
  method ReverseEntries(a: array<Entry>)
    modifies a
    ensures a[..] == Reversed(old(a[..]))
  {
    ghost var s := a[..];
    var lo, hi := 0, a.Length;
    while lo + 1 < hi
      invariant 0 <= lo <= hi <= a.Length && lo + hi == a.Length
      invariant forall k :: 0 <= k < lo ==> a[k] == s[a.Length - 1 - k]
      invariant forall k :: hi <= k < a.Length ==> a[k] == s[a.Length - 1 - k]
      invariant forall k :: lo <= k < hi ==> a[k] == s[k]
    {
      a[lo], a[hi - 1] := a[hi - 1], a[lo];
      lo, hi := lo + 1, hi - 1;
    }
    ReversedByIndex(s, a[..]);
  }

  /**
   * Step 3 of `processLeaderboard`: the answer to the ordered query for the
   * ten highest players, pushed in ascending order into a new array that is
   * then reversed, so that rank `i + 1` is element `i`.
   */
  method ReadTop(m: map<Uid, int>) returns (players: array<Entry>)
    ensures fresh(players)
    ensures players[..] == Top(m, TopCount)
  {
    var snapshot := QueryLast(m, TopCount);
    players := new Entry[|snapshot|];
    var j := 0;
    while j < |snapshot|
      modifies players
      invariant 0 <= j <= |snapshot|
      invariant players[..j] == snapshot[..j]
    {
      players[j] := snapshot[j];
      j := j + 1;
    }
    assert players[..] == snapshot;
    ReverseEntries(players);
    ReversedTwice(Top(m, TopCount));
  }

  /** The `Env` a tick hands to the run of `period`. */
  function EnvFor(period: string, today: Env, weekly: Env, monthly: Env): Env
  {
    if period == Today then today else if period == Weekly then weekly else monthly
  }

  /** The store after settling `periods` one after the other. */
  function RunPeriods(db: Db, periods: seq<string>, today: Env, weekly: Env, monthly: Env): Db
    decreases |periods|
  {
    if periods == [] then db
    else
      var e := EnvFor(periods[0], today, weekly, monthly);
      RunPeriods(Process(db, periods[0], e.now, e.fault).db, periods[1..], today, weekly, monthly)
  }

  /** A run of `period` leaves every other board as it was. */
  lemma ProcessKeepsOtherBoards(db: Db, period: string, now: int, fault: Fault, q: string)
    requires q != period
    ensures BoardAt(Process(db, period, now, fault).db, q) == BoardAt(db, q)
  {
    if !BoardAt(db, period).lock {
      ProcessBoard(db, period, now, fault);
    }
  }

  /** Settling a list of boards leaves every board outside the list as it was. */
  lemma {:induction false} RunPeriodsKeepsOthers(db: Db, periods: seq<string>, today: Env, weekly: Env, monthly: Env, q: string)
    requires q !in periods
    ensures BoardAt(RunPeriods(db, periods, today, weekly, monthly), q) == BoardAt(db, q)
    decreases |periods|
  {
    if periods != [] {
      var e := EnvFor(periods[0], today, weekly, monthly);
      ProcessKeepsOtherBoards(db, periods[0], e.now, e.fault, q);
      RunPeriodsKeepsOthers(Process(db, periods[0], e.now, e.fault).db, periods[1..], today, weekly, monthly, q);
    }
  }

  /** A board that some run of the list finds unlocked ends unlocked, whichever step threw. */
  lemma {:induction false} RunPeriodsReleases(db: Db, periods: seq<string>, today: Env, weekly: Env, monthly: Env, q: string)
    requires q in periods && !BoardAt(db, q).lock
    ensures !BoardAt(RunPeriods(db, periods, today, weekly, monthly), q).lock
    decreases |periods|
  {
    var e := EnvFor(periods[0], today, weekly, monthly);
    var next := Process(db, periods[0], e.now, e.fault).db;
    if periods[0] == q {
      ProcessBoard(db, q, e.now, e.fault);
    } else {
      ProcessKeepsOtherBoards(db, periods[0], e.now, e.fault, q);
    }
    assert !BoardAt(next, q).lock;
    if q in periods[1..] {
      RunPeriodsReleases(next, periods[1..], today, weekly, monthly, q);
    } else {
      RunPeriodsKeepsOthers(next, periods[1..], today, weekly, monthly, q);
    }
  }

  /**
   * One tick leaves the boards it does not settle alone, and every board it
   * settles that was not locked before ends unlocked, whichever step threw.
   */
  lemma CronTickReleasesLocks(db: Db, c: Clock, today: Env, weekly: Env, monthly: Env, q: string)
    ensures var after := RunPeriods(db, PeriodsDue(c), today, weekly, monthly);
      && (q !in PeriodsDue(c) ==> BoardAt(after, q) == BoardAt(db, q))
      && (q in PeriodsDue(c) && !BoardAt(db, q).lock ==> !BoardAt(after, q).lock)
  {
    if q !in PeriodsDue(c) {
      RunPeriodsKeepsOthers(db, PeriodsDue(c), today, weekly, monthly, q);
    } else if !BoardAt(db, q).lock {
      RunPeriodsReleases(db, PeriodsDue(c), today, weekly, monthly, q);
    }
  }

  lemma {:induction false} RunPeriodsSplit(db: Db, xs: seq<string>, ys: seq<string>, today: Env, weekly: Env, monthly: Env)
    ensures RunPeriods(db, xs + ys, today, weekly, monthly)
      == RunPeriods(RunPeriods(db, xs, today, weekly, monthly), ys, today, weekly, monthly)
    decreases |xs|
  {
    if xs != [] {
      assert (xs + ys)[0] == xs[0] && (xs + ys)[1..] == xs[1..] + ys;
      var e := EnvFor(xs[0], today, weekly, monthly);
      RunPeriodsSplit(Process(db, xs[0], e.now, e.fault).db, xs[1..], ys, today, weekly, monthly);
    } else {
      assert xs + ys == ys;
    }
  }

  /** The store, at the paths `leaderboards`, `users/<uid>/wallet/winnings` and `users/<uid>/transactions`. */
  class Database {
    var boards: map<string, Board>
    var winnings: map<Uid, Stored>
    var transactions: map<Uid, map<TxKey, Tx>>

    function Value(): Db
      reads this
    {
      Db(boards, winnings, transactions)
    }

    constructor (init: Db)
      ensures Value() == init
    {
      boards := init.boards;
      winnings := init.winnings;
      transactions := init.transactions;
    }

    /** `ref.update({frozen: false, lock: false})`. */
    method Unlock(period: string)
      modifies this
      ensures Value() == Release(old(Value()), period)
    {
      boards := boards[period := BoardAt(Value(), period).(lock := false, frozen := false)];
    }

    /**
     * Step 4 of `processLeaderboard`: one pass per rank of `players`,
     * crediting a positive reward and recording it. The result is the rank
     * whose winnings update or record write threw (the loop stops there), or
     * 0 when every pass finished.
     */
    method PayRewards(period: string, now: int, fault: Fault, players: array<Entry>, rewards: map<int, int>) returns (thrownAt: nat)
      modifies this
      ensures thrownAt == FaultRank(fault, players[..], rewards)
      ensures thrownAt == 0 ==> Value() == PayRanks(old(Value()), period, now, players[..], rewards, players.Length)
      ensures thrownAt > 0 && fault.CreditFails? ==> Value() == PayRanks(old(Value()), period, now, players[..], rewards, thrownAt - 1)
      ensures thrownAt > 0 && fault.RecordFails? ==>
        Value() == Credit(PayRanks(old(Value()), period, now, players[..], rewards, thrownAt - 1), players[thrownAt - 1].uid, RewardFor(rewards, thrownAt))
    {
      ghost var start := Value();
      ghost var ranked := players[..];
      ghost var k := FaultRank(fault, ranked, rewards);
      var i := 0;
      while i < players.Length
        invariant 0 <= i <= players.Length
        invariant Value() == PayRanks(start, period, now, ranked, rewards, i)
        invariant k == 0 || k > i
      {
        var rank := i + 1;
        var amount := RewardFor(rewards, rank);
        if amount > 0 {
          var uid := players[i].uid;
          if fault == CreditFails(rank) {
            return rank;
          }
          winnings := winnings[uid := Num(Balance(winnings, uid) + amount)];
          if fault == RecordFails(rank) {
            return rank;
          }
          transactions := transactions[uid := TxsOf(transactions, uid)[RecordKey(period, now, rank) := RewardRecord(period, rank, amount, now)]];
        }
        i := i + 1;
      }
      return 0;
    }

    /**
     * Steps 4 to 6 of `processLeaderboard`: the reward loop, then the removal
     * of the players and the release of the flags; any awaited step that
     * throws goes straight to the release.
     */
    method RewardAndReset(period: string, now: int, fault: Fault, players: array<Entry>, rewards: map<int, int>) returns (outcome: Outcome)
      modifies this
      ensures Run(Value(), outcome) == Distribute(old(Value()), period, now, fault, players[..], rewards)
    {
      ghost var start := Value();
      var thrownAt := PayRewards(period, now, fault, players, rewards);
      if thrownAt > 0 {
        Unlock(period);
        if fault.CreditFails? {
          DistributeCreditFails(start, period, now, players[..], rewards, thrownAt);
        } else {
          DistributeRecordFails(start, period, now, players[..], rewards, thrownAt);
        }
        return Failed;
      }
      DistributeLoopFinishes(start, period, now, fault, players[..], rewards);
      if fault == RemoveFails {
        Unlock(period);
        return Failed;
      }
      boards := boards[period := BoardAt(Value(), period).(players := map[])];
      Unlock(period);
      outcome := if fault == UnlockFails then Failed else Completed;
    }

    /**
     * `processLeaderboard(period)`, with `Date.now()` read as `now` and the
     * awaited step that throws, if any, given by `fault`.
     */
    method ProcessLeaderboard(period: string, now: int, fault: Fault) returns (outcome: Outcome)
      modifies this
      ensures Run(Value(), outcome) == Process(old(Value()), period, now, fault)
    {
      // The lock: a check-and-set that aborts when `lock` is already true.
      var b := BoardAt(Value(), period);
      if b.lock {
        LockedRunChangesNothing(Value(), period, now, fault);
        return AlreadyLocked;
      }
      ghost var before := Value();
      boards := boards[period := b.(lock := true)];
      if fault == FreezeFails {
        assert Value() == WithBoard(before, period, b.(lock := true));
        Unlock(period);
        ReleaseForgetsLock(before, period);
        ProcessEarlyAbort(before, period, now, fault);
        return Failed;
      }
      boards := boards[period := BoardAt(Value(), period).(frozen := true)];
      assert Value() == Frozen(before, period);
      if fault == FetchFails {
        Unlock(period);
        ReleaseForgetsFreeze(before, period);
        ProcessEarlyAbort(before, period, now, fault);
        return Failed;
      }

      // The ranking and the rewards, read from the frozen board.
      assert BoardAt(Value(), period) == b.(lock := true, frozen := true);
      var players := ReadTop(BoardAt(Value(), period).players);
      var rewards := BoardAt(Value(), period).rewards;
      outcome := RewardAndReset(period, now, fault, players, rewards);
      ProcessUnfolds(before, period, now, fault);
    }

    /**
     * `runCronJobs()` at clock reading `c`: nothing outside 00:01, otherwise
     * the daily board, the weekly one on a Sunday and the monthly one on the
     * first of the month, in that order.
     */
    method RunCronJobs(c: Clock, today: Env, weekly: Env, monthly: Env)
      modifies this
      ensures Value() == RunPeriods(old(Value()), PeriodsDue(c), today, weekly, monthly)
    {
      if !IsTimeToRun(c) {
        return;
      }
      ghost var todo := PeriodsDue(c);
      var _ := ProcessLeaderboard(Today, today.now, today.fault);
      assert Value() == RunPeriods(old(Value()), todo[..1], today, weekly, monthly);
      if IsSunday(c) {
        var _ := ProcessLeaderboard(Weekly, weekly.now, weekly.fault);
      }
      ghost var done := if IsSunday(c) then 2 else 1;
      assert todo[..done] == todo[..done - 1] + [todo[done - 1]];
      RunPeriodsSplit(old(Value()), todo[..done - 1], [todo[done - 1]], today, weekly, monthly);
      assert Value() == RunPeriods(old(Value()), todo[..done], today, weekly, monthly);
      if IsFirstDayOfMonth(c) {
        var _ := ProcessLeaderboard(Monthly, monthly.now, monthly.fault);
        assert todo == todo[..done] + [Monthly];
        RunPeriodsSplit(old(Value()), todo[..done], [Monthly], today, weekly, monthly);
      } else {
        assert todo == todo[..done];
      }
    }
  }
}
