/**
 * What one run of the leaderboard reward distributor does to the store, as a
 * function of the store before the run: lock, freeze, rank the top ten,
 * credit each rank's configured reward to `winnings` with a transaction
 * record, clear the players, and release the flags (also when a step throws).
 */
module Distribution {
  import opened Keys
  import opened Ranking

  /** How many players a run reads: `limitToLast(10)`. */
  const TopCount: nat := 10

  /**
   * A value found at `users/<uid>/wallet/winnings`: `Num(n)` stands for any
   * value `Number()` reads as `n` (a number, a numeric string, a boolean),
   * `NonNumeric` for one it reads as `NaN`.
   */
  datatype Stored = Num(n: int) | NonNumeric

  /**
   * The record at `leaderboards/<type>`: the `lock` latch, the `frozen` flag,
   * `players` (uid to earnings) and `rewards` (rank to amount).
   */
  datatype Board = Board(lock: bool, frozen: bool, players: map<Uid, int>, rewards: map<int, int>)

  /** What an absent `leaderboards/<type>` reads as. */
  const EmptyBoard := Board(false, false, map[], map[])

  /** The key `<TYPE>_<now>_<rank>` under `users/<uid>/transactions`. */
  datatype TxKey = TxKey(prefix: string, time: int, rank: nat)

  /** A transaction record: `type`, `leaderboard`, `rank`, `amount`, `status`, `timestamp`. */
  datatype Tx = Tx(kind: string, leaderboard: string, rank: nat, amount: int, status: string, timestamp: int)

  /** The parts of the store the distributor reads or writes. */
  datatype Db = Db(
    boards: map<string, Board>,
    winnings: map<Uid, Stored>,
    transactions: map<Uid, map<TxKey, Tx>>)

  /**
   * The awaited store operation inside the `try` block that throws, if any:
   * setting `frozen`, reading players and rewards, the winnings update or the
   * record write of a given rank, removing the players, or the final update
   * of the flags.
   */
  datatype Fault =
    | NoFault
    | FreezeFails
    | FetchFails
    | CreditFails(rank: nat)
    | RecordFails(rank: nat)
    | RemoveFails
    | UnlockFails

  /** Which way a run ended: the lock was taken, the `try` block finished, or it threw. */
  datatype Outcome = AlreadyLocked | Completed | Failed

  datatype Run = Run(db: Db, outcome: Outcome)

  /** Date.now() and the fault of one call. */
  datatype Env = Env(now: int, fault: Fault)

  function BoardAt(db: Db, period: string): Board
  {
    if period in db.boards then db.boards[period] else EmptyBoard
  }

  function WithBoard(db: Db, period: string, b: Board): Db
  {
    db.(boards := db.boards[period := b])
  }

  /** `Number(v) || 0`: a missing balance, or one `Number()` reads as `NaN`, reads as 0. */
  function Balance(w: map<Uid, Stored>, u: Uid): int
  {
    if u in w && w[u].Num? then w[u].n else 0
  }

  /** `rewards[rank] || 0`: a rank without a configured reward pays 0. */
  function RewardFor(rewards: map<int, int>, rank: int): int
  {
    if rank in rewards then rewards[rank] else 0
  }

  function TxsOf(t: map<Uid, map<TxKey, Tx>>, u: Uid): map<TxKey, Tx>
  {
    if u in t then t[u] else map[]
  }

  function UpperChar(c: char): char
  {
    if 'a' <= c <= 'z' then (c as int - 32) as char else c
  }

  /** `toUpperCase()` on ASCII letters. */
  function Upper(s: string): (r: string)
    ensures |r| == |s|
    ensures forall i :: 0 <= i < |s| ==> r[i] == UpperChar(s[i])
  {
    if s == [] then [] else [UpperChar(s[0])] + Upper(s[1..])
  }

  function RecordKey(period: string, now: int, rank: nat): TxKey
  {
    TxKey(Upper(period), now, rank)
  }

  function RewardRecord(period: string, rank: nat, amount: int, now: int): Tx
  {
    Tx("Leaderboard Reward", period, rank, amount, "Success", now)
  }

  /** The winnings update of one rank: `(Number(v) || 0) + amount`. */
  function Credit(db: Db, u: Uid, amount: int): Db
  {
    db.(winnings := db.winnings[u := Num(Balance(db.winnings, u) + amount)])
  }

  /** The `set` of one transaction record (overwriting a record under the same key). */
  function Record(db: Db, u: Uid, key: TxKey, tx: Tx): Db
  {
    db.(transactions := db.transactions[u := TxsOf(db.transactions, u)[key := tx]])
  }

  /** One pass of the reward loop, for the player at index `i` (rank `i + 1`). */
  function PayRank(db: Db, period: string, now: int, ranked: seq<Entry>, rewards: map<int, int>, i: nat): Db
    requires i < |ranked|
  {
    var amount := RewardFor(rewards, i + 1);
    if amount <= 0 then db
    else
      var u := ranked[i].uid;
      Record(Credit(db, u, amount), u, RecordKey(period, now, i + 1), RewardRecord(period, i + 1, amount, now))
  }

  /** The first `n` passes of the reward loop. */
  function PayRanks(db: Db, period: string, now: int, ranked: seq<Entry>, rewards: map<int, int>, n: nat): Db
    requires n <= |ranked|
    decreases n
  {
    if n == 0 then db else PayRank(PayRanks(db, period, now, ranked, rewards, n - 1), period, now, ranked, rewards, n - 1)
  }

  /** The `update({frozen: false, lock: false})` both paths end with. */
  function Release(db: Db, period: string): Db
  {
    WithBoard(db, period, BoardAt(db, period).(lock := false, frozen := false))
  }

  function Abort(db: Db, period: string): Run
  {
    Run(Release(db, period), Failed)
  }

  /**
   * The rank whose winnings update or record write throws, or 0 when the
   * fault names no rank the loop actually writes for (a rank past the list,
   * or one skipped for a non-positive reward).
   */
  function FaultRank(fault: Fault, ranked: seq<Entry>, rewards: map<int, int>): (k: nat)
    ensures k <= |ranked|
  {
    if (fault.CreditFails? || fault.RecordFails?) && 1 <= fault.rank <= |ranked| && RewardFor(rewards, fault.rank) > 0
    then fault.rank
    else 0
  }

  /** The players a run over board `b` ranks: rank `i + 1` is element `i`. */
  function RankingOf(b: Board): seq<Entry>
  {
    Top(b.players, TopCount)
  }

  /** The players are removed from the board: `ref.child("players").remove()`. */
  function ClearPlayers(db: Db, period: string): Db
  {
    WithBoard(db, period, BoardAt(db, period).(players := map[]))
  }

  /**
   * The part of a run after the players and rewards are read: the reward loop
   * over `ranked` (rank `i + 1` is `ranked[i]`), the reset and the release.
   */
  function Distribute(frozen: Db, period: string, now: int, fault: Fault, ranked: seq<Entry>, rewards: map<int, int>): Run
  {
    var k := FaultRank(fault, ranked, rewards);
    if k > 0 && fault.CreditFails? then
      Abort(PayRanks(frozen, period, now, ranked, rewards, k - 1), period)
    else if k > 0 then
      Abort(Credit(PayRanks(frozen, period, now, ranked, rewards, k - 1), ranked[k - 1].uid, RewardFor(rewards, k)), period)
    else
      var paid := PayRanks(frozen, period, now, ranked, rewards, |ranked|);
      if fault == RemoveFails then Abort(paid, period)
      else Run(Release(ClearPlayers(paid, period), period), if fault == UnlockFails then Failed else Completed)
  }

  /** One call of `processLeaderboard(period)` with clock reading `now` and fault `fault`. */
  function Process(db: Db, period: string, now: int, fault: Fault): Run
  {
    var b := BoardAt(db, period);
    if b.lock then Run(db, AlreadyLocked)
    else
      var locked := WithBoard(db, period, b.(lock := true));
      if fault == FreezeFails then Abort(locked, period)
      else
        var frozen := WithBoard(locked, period, b.(lock := true, frozen := true));
        if fault == FetchFails then Abort(frozen, period)
        else Distribute(frozen, period, now, fault, RankingOf(b), b.rewards)
  }

  // ---------------------------------------------------------------------
  // What a run pays

  /** The total the first `n` passes of the loop credit to `u`. */
  function Payout(ranked: seq<Entry>, rewards: map<int, int>, n: nat, u: Uid): (total: int)
    requires n <= |ranked|
    ensures total >= 0
    decreases n
  {
    if n == 0 then 0
    else
      var prev := Payout(ranked, rewards, n - 1, u);
      var amount := RewardFor(rewards, n);
      if ranked[n - 1].uid == u && amount > 0 then prev + amount else prev
  }

  /** The transaction records the first `n` passes of the loop write for `u`. */
  function RecordsFor(period: string, now: int, ranked: seq<Entry>, rewards: map<int, int>, n: nat, u: Uid): (recs: map<TxKey, Tx>)
    requires n <= |ranked|
    decreases n
  {
    if n == 0 then map[]
    else
      var prev := RecordsFor(period, now, ranked, rewards, n - 1, u);
      var amount := RewardFor(rewards, n);
      if ranked[n - 1].uid == u && amount > 0
      then prev[RecordKey(period, now, n) := RewardRecord(period, n, amount, now)]
      else prev
  }

  /** A user is paid something exactly when it holds one of the first `n` ranks with a positive reward. */
  lemma {:induction false} PayoutPositive(ranked: seq<Entry>, rewards: map<int, int>, n: nat, u: Uid)
    requires n <= |ranked|
    ensures Payout(ranked, rewards, n, u) > 0 <==> exists i :: 0 <= i < n && ranked[i].uid == u && RewardFor(rewards, i + 1) > 0
    decreases n
  {
    if n > 0 {
      PayoutPositive(ranked, rewards, n - 1, u);
    }
  }

  /** A user gets a record only if it holds one of the first `n` ranks with a positive reward. */
  lemma {:induction false} RecordsForEmpty(period: string, now: int, ranked: seq<Entry>, rewards: map<int, int>, n: nat, u: Uid)
    requires n <= |ranked|
    requires forall i :: 0 <= i < n && ranked[i].uid == u ==> RewardFor(rewards, i + 1) <= 0
    ensures RecordsFor(period, now, ranked, rewards, n, u) == map[]
    decreases n
  {
    if n > 0 {
      RecordsForEmpty(period, now, ranked, rewards, n - 1, u);
    }
  }

  /** How many passes of the reward loop got past their winnings update (a skipped rank counts). */
  function CreditsApplied(fault: Fault, ranked: seq<Entry>, rewards: map<int, int>): (n: nat)
    ensures n <= |ranked|
  {
    var k := FaultRank(fault, ranked, rewards);
    if fault == FreezeFails || fault == FetchFails then 0
    else if k == 0 then |ranked|
    else if fault.CreditFails? then k - 1
    else k
  }

  /** How many ranks had their transaction record written. */
  function RecordsWritten(fault: Fault, ranked: seq<Entry>, rewards: map<int, int>): (n: nat)
    ensures n <= CreditsApplied(fault, ranked, rewards)
  {
    var k := FaultRank(fault, ranked, rewards);
    if fault == FreezeFails || fault == FetchFails then 0
    else if k == 0 then |ranked|
    else k - 1
  }

  /** The run got past the removal of the players. */
  predicate Resets(fault: Fault, ranked: seq<Entry>, rewards: map<int, int>)
  {
    fault != FreezeFails && fault != FetchFails && fault != RemoveFails
    && FaultRank(fault, ranked, rewards) == 0
  }

  lemma {:induction false} PayRanksKeepsBoards(db: Db, period: string, now: int, ranked: seq<Entry>, rewards: map<int, int>, n: nat)
    requires n <= |ranked|
    ensures PayRanks(db, period, now, ranked, rewards, n).boards == db.boards
    decreases n
  {
    if n > 0 {
      PayRanksKeepsBoards(db, period, now, ranked, rewards, n - 1);
    }
  }

  /** The loop credits `u` exactly its payout and leaves its entry alone otherwise. */
  lemma {:induction false} PayRanksWinnings(db: Db, period: string, now: int, ranked: seq<Entry>, rewards: map<int, int>, n: nat, u: Uid)
    requires n <= |ranked|
    ensures var w := PayRanks(db, period, now, ranked, rewards, n).winnings;
      var paid := Payout(ranked, rewards, n, u);
      && Balance(w, u) == Balance(db.winnings, u) + paid
      && (paid == 0 ==> (u in w <==> u in db.winnings) && (u in db.winnings ==> w[u] == db.winnings[u]))
      && (paid > 0 ==> u in w && w[u] == Num(Balance(db.winnings, u) + paid))
    decreases n
  {
    if n > 0 {
      PayRanksWinnings(db, period, now, ranked, rewards, n - 1, u);
    }
  }

  /** One pass writes a record for its own player only. */
  lemma PayRankTransactions(db: Db, period: string, now: int, ranked: seq<Entry>, rewards: map<int, int>, i: nat, u: Uid)
    requires i < |ranked|
    ensures var t := PayRank(db, period, now, ranked, rewards, i).transactions;
      var amount := RewardFor(rewards, i + 1);
      if ranked[i].uid == u && amount > 0
      then u in t && TxsOf(t, u) == TxsOf(db.transactions, u)[RecordKey(period, now, i + 1) := RewardRecord(period, i + 1, amount, now)]
      else (u in t <==> u in db.transactions) && TxsOf(t, u) == TxsOf(db.transactions, u)
  {
  }

  /** The loop adds exactly `u`'s records to its transactions and touches nobody else's. */
  lemma {:induction false} PayRanksTransactions(db: Db, period: string, now: int, ranked: seq<Entry>, rewards: map<int, int>, n: nat, u: Uid)
    requires n <= |ranked|
    ensures var t := PayRanks(db, period, now, ranked, rewards, n).transactions;
      var recs := RecordsFor(period, now, ranked, rewards, n, u);
      && TxsOf(t, u) == TxsOf(db.transactions, u) + recs
      && (recs == map[] ==> (u in t <==> u in db.transactions))
    decreases n
  {
    if n > 0 {
      PayRanksTransactions(db, period, now, ranked, rewards, n - 1, u);
      var prev := PayRanks(db, period, now, ranked, rewards, n - 1);
      PayRankTransactions(prev, period, now, ranked, rewards, n - 1, u);
      var recs := RecordsFor(period, now, ranked, rewards, n - 1, u);
      var amount := RewardFor(rewards, n);
      if ranked[n - 1].uid == u && amount > 0 {
        var key := RecordKey(period, now, n);
        var tx := RewardRecord(period, n, amount, now);
        assert (TxsOf(db.transactions, u) + recs)[key := tx] == TxsOf(db.transactions, u) + recs[key := tx];
        assert key in RecordsFor(period, now, ranked, rewards, n, u);
      }
    } else {
      assert TxsOf(db.transactions, u) + map[] == TxsOf(db.transactions, u);
    }
  }

  /** With distinct players, a ranked player's payout is its own rank's reward. */
  lemma {:induction false} PayoutOfRank(ranked: seq<Entry>, rewards: map<int, int>, n: nat, i: nat)
    requires i < n <= |ranked|
    requires DistinctUids(ranked)
    ensures var amount := RewardFor(rewards, i + 1);
      Payout(ranked, rewards, n, ranked[i].uid) == if amount > 0 then amount else 0
    decreases n
  {
    if n - 1 > i {
      PayoutOfRank(ranked, rewards, n - 1, i);
    } else {
      PayoutPositive(ranked, rewards, i, ranked[i].uid);
    }
  }

  /** With distinct players, a credited rank leaves exactly one record for its player. */
  lemma {:induction false} RecordsOfRank(period: string, now: int, ranked: seq<Entry>, rewards: map<int, int>, n: nat, i: nat)
    requires i < n <= |ranked| && RewardFor(rewards, i + 1) > 0
    requires DistinctUids(ranked)
    ensures RecordsFor(period, now, ranked, rewards, n, ranked[i].uid)
      == map[RecordKey(period, now, i + 1) := RewardRecord(period, i + 1, RewardFor(rewards, i + 1), now)]
    decreases n
  {
    if n - 1 > i {
      RecordsOfRank(period, now, ranked, rewards, n - 1, i);
    } else {
      RecordsForEmpty(period, now, ranked, rewards, i, ranked[i].uid);
    }
  }

  // ---------------------------------------------------------------------
  // The reward loop, reset and release over a given ranking

  /** The store after the lock and the freeze, before anything is read. */
  function Frozen(db: Db, period: string): Db
  {
    WithBoard(WithBoard(db, period, BoardAt(db, period).(lock := true)), period, BoardAt(db, period).(lock := true, frozen := true))
  }

  /** Whatever the freeze wrote to the board of `period` is overwritten by the next write to it. */
  lemma FrozenOverwritten(db: Db, period: string, x: Board)
    ensures BoardAt(Frozen(db, period), period) == BoardAt(db, period).(lock := true, frozen := true)
    ensures Frozen(db, period).boards[period := x] == db.boards[period := x]
  {
    assert Frozen(db, period).boards[period := x] == db.boards[period := BoardAt(db, period).(lock := true)][period := x];
  }

  /** Releasing the flags undoes the lock. */
  lemma ReleaseForgetsLock(db: Db, period: string)
    ensures Release(WithBoard(db, period, BoardAt(db, period).(lock := true)), period) == Release(db, period)
  {
    var x := BoardAt(db, period).(lock := false, frozen := false);
    assert WithBoard(db, period, BoardAt(db, period).(lock := true)).boards[period := x] == db.boards[period := x];
  }

  /** Releasing the flags undoes the lock and the freeze. */
  lemma ReleaseForgetsFreeze(db: Db, period: string)
    ensures Release(Frozen(db, period), period) == Release(db, period)
  {
    FrozenOverwritten(db, period, BoardAt(db, period).(lock := false, frozen := false));
  }

  /**
   * After the freeze, whatever the ranking: the board of `period` ends with
   * its flags released and its players cleared exactly when the run got past
   * their removal; no other board changes.
   */
  lemma DistributeBoards(db: Db, period: string, now: int, fault: Fault, ranked: seq<Entry>, rewards: map<int, int>)
    requires fault != FreezeFails && fault != FetchFails
    ensures var b := BoardAt(db, period);
      var r := Distribute(Frozen(db, period), period, now, fault, ranked, rewards);
      && r.db.boards == db.boards[period := b.(lock := false, frozen := false, players := if Resets(fault, ranked, rewards) then map[] else b.players)]
      && (r.outcome == Completed <==> Resets(fault, ranked, rewards) && fault != UnlockFails)
      && r.outcome != AlreadyLocked
  {
    var b := BoardAt(db, period);
    var frozen := Frozen(db, period);
    var r := Distribute(frozen, period, now, fault, ranked, rewards);
    var k := FaultRank(fault, ranked, rewards);
    var players := if Resets(fault, ranked, rewards) then map[] else b.players;
    var released := b.(lock := false, frozen := false, players := players);
    FrozenOverwritten(db, period, released);
    if k > 0 {
      PayRanksKeepsBoards(frozen, period, now, ranked, rewards, k - 1);
      assert r.db.boards == frozen.boards[period := released];
    } else {
      PayRanksKeepsBoards(frozen, period, now, ranked, rewards, |ranked|);
      assert r.db.boards == frozen.boards[period := released];
    }
  }

  /** The run that throws at the winnings update of rank `k` keeps the updates of the ranks before it. */
  lemma DistributeCreditFails(frozen: Db, period: string, now: int, ranked: seq<Entry>, rewards: map<int, int>, k: nat)
    requires 1 <= k <= |ranked| && RewardFor(rewards, k) > 0
    ensures Distribute(frozen, period, now, CreditFails(k), ranked, rewards)
      == Abort(PayRanks(frozen, period, now, ranked, rewards, k - 1), period)
  {
  }

  /** The run that throws at the record write of rank `k` keeps that rank's winnings update. */
  lemma DistributeRecordFails(frozen: Db, period: string, now: int, ranked: seq<Entry>, rewards: map<int, int>, k: nat)
    requires 1 <= k <= |ranked| && RewardFor(rewards, k) > 0
    ensures Distribute(frozen, period, now, RecordFails(k), ranked, rewards)
      == Abort(Credit(PayRanks(frozen, period, now, ranked, rewards, k - 1), ranked[k - 1].uid, RewardFor(rewards, k)), period)
  {
  }

  /** The run whose loop finishes writes every rank, then clears the players unless the removal throws. */
  lemma DistributeLoopFinishes(frozen: Db, period: string, now: int, fault: Fault, ranked: seq<Entry>, rewards: map<int, int>)
    requires FaultRank(fault, ranked, rewards) == 0
    ensures var paid := PayRanks(frozen, period, now, ranked, rewards, |ranked|);
      Distribute(frozen, period, now, fault, ranked, rewards)
      == if fault == RemoveFails then Abort(paid, period)
         else Run(Release(ClearPlayers(paid, period), period), if fault == UnlockFails then Failed else Completed)
  {
  }

  /**
   * After the freeze, whatever the ranking: the winnings hold exactly the
   * updates of the first `CreditsApplied` passes and the transactions exactly
   * the records of the first `RecordsWritten` passes.
   */
  lemma DistributeWrites(frozen: Db, period: string, now: int, fault: Fault, ranked: seq<Entry>, rewards: map<int, int>)
    requires fault != FreezeFails && fault != FetchFails
    ensures var r := Distribute(frozen, period, now, fault, ranked, rewards);
      && r.db.winnings == PayRanks(frozen, period, now, ranked, rewards, CreditsApplied(fault, ranked, rewards)).winnings
      && r.db.transactions == PayRanks(frozen, period, now, ranked, rewards, RecordsWritten(fault, ranked, rewards)).transactions
  {
    var k := FaultRank(fault, ranked, rewards);
    if k > 0 && !fault.CreditFails? {
      assert PayRanks(frozen, period, now, ranked, rewards, k) == PayRank(PayRanks(frozen, period, now, ranked, rewards, k - 1), period, now, ranked, rewards, k - 1);
    }
  }

  /** After the freeze, whatever the ranking: each user is credited its payout over the ranks reached. */
  lemma DistributeWinnings(db: Db, period: string, now: int, fault: Fault, ranked: seq<Entry>, rewards: map<int, int>, u: Uid)
    requires fault != FreezeFails && fault != FetchFails
    ensures var w := Distribute(Frozen(db, period), period, now, fault, ranked, rewards).db.winnings;
      var paid := Payout(ranked, rewards, CreditsApplied(fault, ranked, rewards), u);
      && Balance(w, u) == Balance(db.winnings, u) + paid
      && (paid == 0 ==> (u in w <==> u in db.winnings) && (u in db.winnings ==> w[u] == db.winnings[u]))
      && (paid > 0 ==> u in w && w[u] == Num(Balance(db.winnings, u) + paid))
  {
    DistributeWrites(Frozen(db, period), period, now, fault, ranked, rewards);
    PayRanksWinnings(Frozen(db, period), period, now, ranked, rewards, CreditsApplied(fault, ranked, rewards), u);
  }

  /** After the freeze, whatever the ranking: each user gets the records of the ranks reached. */
  lemma DistributeTransactions(db: Db, period: string, now: int, fault: Fault, ranked: seq<Entry>, rewards: map<int, int>, u: Uid)
    requires fault != FreezeFails && fault != FetchFails
    ensures var t := Distribute(Frozen(db, period), period, now, fault, ranked, rewards).db.transactions;
      var recs := RecordsFor(period, now, ranked, rewards, RecordsWritten(fault, ranked, rewards), u);
      && TxsOf(t, u) == TxsOf(db.transactions, u) + recs
      && (recs == map[] ==> (u in t <==> u in db.transactions))
  {
    DistributeWrites(Frozen(db, period), period, now, fault, ranked, rewards);
    PayRanksTransactions(Frozen(db, period), period, now, ranked, rewards, RecordsWritten(fault, ranked, rewards), u);
  }

  // ---------------------------------------------------------------------
  // What a run does, from the store before it

  /** An unlocked run that got past the read is the reward loop over the board's ranking. */
  lemma ProcessUnfolds(db: Db, period: string, now: int, fault: Fault)
    requires !BoardAt(db, period).lock && fault != FreezeFails && fault != FetchFails
    ensures var b := BoardAt(db, period);
      Process(db, period, now, fault) == Distribute(Frozen(db, period), period, now, fault, RankingOf(b), b.rewards)
  {
  }

  /** A run whose freeze or read throws only sets and then releases the flags. */
  lemma ProcessEarlyAbort(db: Db, period: string, now: int, fault: Fault)
    requires !BoardAt(db, period).lock && (fault == FreezeFails || fault == FetchFails)
    ensures Process(db, period, now, fault) == Run(Release(db, period), Failed)
  {
    if fault == FreezeFails {
      ReleaseForgetsLock(db, period);
    } else {
      ReleaseForgetsFreeze(db, period);
    }
  }

  /**
   * An unlocked run ends with the flags released and the rewards kept; the
   * players are cleared exactly when the run got past their removal, and no
   * other board changes.
   */
  lemma ProcessBoard(db: Db, period: string, now: int, fault: Fault)
    requires !BoardAt(db, period).lock
    ensures var b := BoardAt(db, period);
      var ranked := RankingOf(b);
      var r := Process(db, period, now, fault);
      && r.db.boards == db.boards[period := b.(lock := false, frozen := false, players := if Resets(fault, ranked, b.rewards) then map[] else b.players)]
      && (r.outcome == Completed <==> Resets(fault, ranked, b.rewards) && fault != UnlockFails)
      && r.outcome != AlreadyLocked
  {
    var b := BoardAt(db, period);
    if fault != FreezeFails && fault != FetchFails {
      ProcessUnfolds(db, period, now, fault);
      DistributeBoards(db, period, now, fault, RankingOf(b), b.rewards);
    } else {
      ProcessEarlyAbort(db, period, now, fault);
    }
  }

  /**
   * An unlocked run credits every user exactly the rewards of the ranks it
   * reached, reading a missing or non-numeric balance as 0, and leaves the
   * stored value of every other user as it was.
   */
  lemma ProcessWinnings(db: Db, period: string, now: int, fault: Fault, u: Uid)
    requires !BoardAt(db, period).lock
    ensures var b := BoardAt(db, period);
      var ranked := RankingOf(b);
      var w := Process(db, period, now, fault).db.winnings;
      var paid := Payout(ranked, b.rewards, CreditsApplied(fault, ranked, b.rewards), u);
      && Balance(w, u) == Balance(db.winnings, u) + paid
      && (paid == 0 ==> (u in w <==> u in db.winnings) && (u in db.winnings ==> w[u] == db.winnings[u]))
      && (paid > 0 ==> u in w && w[u] == Num(Balance(db.winnings, u) + paid))
  {
    var b := BoardAt(db, period);
    if fault != FreezeFails && fault != FetchFails {
      ProcessUnfolds(db, period, now, fault);
      DistributeWinnings(db, period, now, fault, RankingOf(b), b.rewards, u);
    } else {
      ProcessEarlyAbort(db, period, now, fault);
    }
  }

  /** An unlocked run writes exactly the records of the ranks it reached. */
  lemma ProcessTransactions(db: Db, period: string, now: int, fault: Fault, u: Uid)
    requires !BoardAt(db, period).lock
    ensures var b := BoardAt(db, period);
      var ranked := RankingOf(b);
      var t := Process(db, period, now, fault).db.transactions;
      var recs := RecordsFor(period, now, ranked, b.rewards, RecordsWritten(fault, ranked, b.rewards), u);
      && TxsOf(t, u) == TxsOf(db.transactions, u) + recs
      && (recs == map[] ==> (u in t <==> u in db.transactions))
  {
    var b := BoardAt(db, period);
    if fault != FreezeFails && fault != FetchFails {
      ProcessUnfolds(db, period, now, fault);
      DistributeTransactions(db, period, now, fault, RankingOf(b), b.rewards, u);
    } else {
      ProcessEarlyAbort(db, period, now, fault);
      assert TxsOf(db.transactions, u) + map[] == TxsOf(db.transactions, u);
    }
  }

  /** If the board is already locked, the run changes nothing at all. */
  lemma LockedRunChangesNothing(db: Db, period: string, now: int, fault: Fault)
    requires BoardAt(db, period).lock
    ensures Process(db, period, now, fault) == Run(db, AlreadyLocked)
  {
  }

  /**
   * The player at rank `i + 1`, once the loop got past that rank's winnings
   * update, has exactly that rank's positive reward added to its balance.
   */
  lemma ProcessCreditsRank(db: Db, period: string, now: int, fault: Fault, i: nat)
    requires !BoardAt(db, period).lock
    requires i < CreditsApplied(fault, RankingOf(BoardAt(db, period)), BoardAt(db, period).rewards)
    requires RewardFor(BoardAt(db, period).rewards, i + 1) > 0
    ensures var b := BoardAt(db, period);
      var u := RankingOf(b)[i].uid;
      var after := Process(db, period, now, fault).db;
      u in after.winnings && after.winnings[u] == Num(Balance(db.winnings, u) + RewardFor(b.rewards, i + 1))
  {
    var b := BoardAt(db, period);
    var ranked := RankingOf(b);
    TopUidsDistinct(b.players, TopCount);
    PayoutOfRank(ranked, b.rewards, CreditsApplied(fault, ranked, b.rewards), i);
    ProcessWinnings(db, period, now, fault, ranked[i].uid);
  }

  /**
   * The player at rank `i + 1`, once the loop got past that rank's record
   * write, has exactly one new transaction: the record of that rank's reward.
   */
  lemma ProcessRecordsRank(db: Db, period: string, now: int, fault: Fault, i: nat)
    requires !BoardAt(db, period).lock
    requires i < RecordsWritten(fault, RankingOf(BoardAt(db, period)), BoardAt(db, period).rewards)
    requires RewardFor(BoardAt(db, period).rewards, i + 1) > 0
    ensures var b := BoardAt(db, period);
      var u := RankingOf(b)[i].uid;
      var amount := RewardFor(b.rewards, i + 1);
      var after := Process(db, period, now, fault).db;
      TxsOf(after.transactions, u) == TxsOf(db.transactions, u)[RecordKey(period, now, i + 1) := RewardRecord(period, i + 1, amount, now)]
  {
    var b := BoardAt(db, period);
    var ranked := RankingOf(b);
    TopUidsDistinct(b.players, TopCount);
    RecordsOfRank(period, now, ranked, b.rewards, RecordsWritten(fault, ranked, b.rewards), i);
    ProcessTransactions(db, period, now, fault, ranked[i].uid);
  }

  /**
   * A user who holds no reached rank with a positive reward keeps its stored
   * winnings and its transactions exactly as they were.
   */
  lemma ProcessSkipsUnpaid(db: Db, period: string, now: int, fault: Fault, u: Uid)
    requires !BoardAt(db, period).lock
    requires var b := BoardAt(db, period);
      forall i :: 0 <= i < CreditsApplied(fault, RankingOf(b), b.rewards) && RankingOf(b)[i].uid == u
        ==> RewardFor(b.rewards, i + 1) <= 0
    ensures var after := Process(db, period, now, fault).db;
      && (u in after.winnings <==> u in db.winnings)
      && (u in db.winnings ==> after.winnings[u] == db.winnings[u])
      && (u in after.transactions <==> u in db.transactions)
      && TxsOf(after.transactions, u) == TxsOf(db.transactions, u)
  {
    var b := BoardAt(db, period);
    var ranked := RankingOf(b);
    PayoutPositive(ranked, b.rewards, CreditsApplied(fault, ranked, b.rewards), u);
    RecordsForEmpty(period, now, ranked, b.rewards, RecordsWritten(fault, ranked, b.rewards), u);
    ProcessWinnings(db, period, now, fault, u);
    ProcessTransactions(db, period, now, fault, u);
    assert TxsOf(db.transactions, u) + map[] == TxsOf(db.transactions, u);
  }

  /** Winnings never decrease, and a numeric non-negative balance stays numeric and non-negative. */
  lemma WinningsNeverDecrease(db: Db, period: string, now: int, fault: Fault, u: Uid)
    ensures var w := Process(db, period, now, fault).db.winnings;
      && Balance(w, u) >= Balance(db.winnings, u)
      && (u in db.winnings && db.winnings[u].Num? && db.winnings[u].n >= 0 ==> u in w && w[u].Num? && w[u].n >= db.winnings[u].n)
  {
    if !BoardAt(db, period).lock {
      ProcessWinnings(db, period, now, fault, u);
    }
  }

  /**
   * A run that took the lock leaves it released, whatever step threw, so the
   * next run over the same board takes it again.
   */
  lemma NextRunTakesLock(db: Db, period: string, now: int, fault: Fault, now2: int, fault2: Fault)
    requires !BoardAt(db, period).lock
    ensures var first := Process(db, period, now, fault).db;
      Process(first, period, now2, fault2).outcome != AlreadyLocked
  {
    ProcessBoard(db, period, now, fault);
    ProcessBoard(Process(db, period, now, fault).db, period, now2, fault2);
  }

  /**
   * A retry is not deduplicated: when a run pays every rank but the removal of
   * the players throws, the next run ranks the same players and pays rank 1 a
   * second time (its record lands under a new key, as the key embeds `now`).
   */
  lemma RetryAfterFailedResetRepays(db: Db, period: string, now: int, now2: int)
    requires !BoardAt(db, period).lock
    requires |RankingOf(BoardAt(db, period))| > 0 && RewardFor(BoardAt(db, period).rewards, 1) > 0
    ensures var b := BoardAt(db, period);
      var u := RankingOf(b)[0].uid;
      var first := Process(db, period, now, RemoveFails).db;
      var second := Process(first, period, now2, NoFault).db;
      Balance(second.winnings, u) == Balance(db.winnings, u) + 2 * RewardFor(b.rewards, 1)
  {
    var b := BoardAt(db, period);
    var first := Process(db, period, now, RemoveFails).db;
    FailedResetKeepsBoard(db, period, now);
    ProcessCreditsRank(db, period, now, RemoveFails, 0);
    ProcessCreditsRank(first, period, now2, NoFault, 0);
  }

  lemma FailedResetKeepsBoard(db: Db, period: string, now: int)
    requires !BoardAt(db, period).lock
    ensures BoardAt(Process(db, period, now, RemoveFails).db, period) == BoardAt(db, period).(frozen := false)
  {
    ProcessBoard(db, period, now, RemoveFails);
  }

  /** A run over a board without players pays nobody and records nothing. */
  lemma EmptyBoardPaysNobody(db: Db, period: string, now: int, fault: Fault)
    requires BoardAt(db, period).players == map[]
    ensures var after := Process(db, period, now, fault).db;
      after.winnings == db.winnings && after.transactions == db.transactions
  {
    var b := BoardAt(db, period);
    assert RankingOf(b) == [];
    if b.lock {
    } else if fault == FreezeFails || fault == FetchFails {
      ProcessEarlyAbort(db, period, now, fault);
    } else {
      ProcessUnfolds(db, period, now, fault);
      DistributeWrites(Frozen(db, period), period, now, fault, [], b.rewards);
    }
  }

  /**
   * After a run that completed, a second run over the same board (whatever its
   * clock or fault) pays nobody: the players it would rank were cleared.
   */
  lemma CompletedRunIsNotRepaid(db: Db, period: string, now: int, fault: Fault, now2: int, fault2: Fault)
    requires Process(db, period, now, fault).outcome == Completed
    ensures var first := Process(db, period, now, fault).db;
      var second := Process(first, period, now2, fault2).db;
      second.winnings == first.winnings && second.transactions == first.transactions
  {
    ProcessBoard(db, period, now, fault);
    EmptyBoardPaysNobody(Process(db, period, now, fault).db, period, now2, fault2);
  }

  /**
   * After a run whose final flag update threw, a second run over the same
   * board pays nobody: the players were removed before the update.
   */
  lemma UnlockFailsNotRepaid(db: Db, period: string, now: int, now2: int, fault2: Fault)
    requires !BoardAt(db, period).lock
    ensures var first := Process(db, period, now, UnlockFails).db;
      var second := Process(first, period, now2, fault2).db;
      second.winnings == first.winnings && second.transactions == first.transactions
  {
    ProcessBoard(db, period, now, UnlockFails);
    EmptyBoardPaysNobody(Process(db, period, now, UnlockFails).db, period, now2, fault2);
  }
}
