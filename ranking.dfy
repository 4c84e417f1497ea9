/**
 * The players of a leaderboard in rank order, and the ordered query
 * `orderByChild("earnings").limitToLast(n)` that reads the top of it.
 */
module Ranking {
  import opened Keys

  /** One child of `players`: its key and its `earnings`. */
  datatype Entry = Entry(uid: Uid, earnings: int)

  /**
   * `a` is listed before `b` when children are ordered by `earnings`:
   * lower earnings first, equal earnings by key.
   */
  predicate Precedes(a: Entry, b: Entry)
  {
    a.earnings < b.earnings || (a.earnings == b.earnings && KeyLess(a.uid, b.uid))
  }

  lemma PrecedesIrreflexive(a: Entry)
    ensures !Precedes(a, a)
  {
    KeyLessIrreflexive(a.uid);
  }

  lemma PrecedesTransitive(a: Entry, b: Entry, c: Entry)
    requires Precedes(a, b) && Precedes(b, c)
    ensures Precedes(a, c)
  {
    if a.earnings == b.earnings == c.earnings {
      KeyLessTransitive(a.uid, b.uid, c.uid);
    }
  }

  lemma PrecedesAsymmetric(a: Entry, b: Entry)
    requires Precedes(a, b)
    ensures !Precedes(b, a)
  {
    if a.earnings == b.earnings {
      KeyLessAsymmetric(a.uid, b.uid);
    }
  }

  lemma PrecedesTotal(a: Entry, b: Entry)
    requires a.uid != b.uid
    ensures Precedes(a, b) || Precedes(b, a)
  {
    KeyLessTotal(a.uid, b.uid);
  }

  /** `k` is the player every other player of `m` precedes. */
  predicate IsHighest(m: map<Uid, int>, k: Uid)
  {
    k in m && forall u :: u in m && u != k ==> Precedes(Entry(u, m[u]), Entry(k, m[k]))
  }

  lemma RemoveOne(m: map<Uid, int>, k: Uid)
    requires k in m
    ensures |m - {k}| == |m| - 1
  {
    assert (m - {k}).Keys == m.Keys - {k};
  }

  lemma {:induction false} HighestExists(m: map<Uid, int>)
    requires |m| > 0
    ensures exists k :: IsHighest(m, k)
    decreases |m|
  {
    var x :| x in m;
    var rest := m - {x};
    RemoveOne(m, x);
    if |rest| == 0 {
      assert forall u :: u in m ==> u == x || u in rest;
      assert IsHighest(m, x);
    } else {
      HighestExists(rest);
      var k :| IsHighest(rest, k);
      PrecedesTotal(Entry(x, m[x]), Entry(k, m[k]));
      if Precedes(Entry(x, m[x]), Entry(k, m[k])) {
        forall u | u in m && u != k
          ensures Precedes(Entry(u, m[u]), Entry(k, m[k]))
        {
          if u != x {
            assert u in rest;
          }
        }
        assert IsHighest(m, k);
      } else {
        forall u | u in m && u != x
          ensures Precedes(Entry(u, m[u]), Entry(x, m[x]))
        {
          if u != k {
            assert u in rest;
            PrecedesTransitive(Entry(u, m[u]), Entry(k, m[k]), Entry(x, m[x]));
          }
        }
        assert IsHighest(m, x);
      }
    }
  }

  lemma HighestUnique(m: map<Uid, int>)
    ensures forall a, b :: IsHighest(m, a) && IsHighest(m, b) ==> a == b
  {
    forall a, b | IsHighest(m, a) && IsHighest(m, b)
      ensures a == b
    {
      if a != b {
        PrecedesAsymmetric(Entry(a, m[a]), Entry(b, m[b]));
      }
    }
  }

  /** The player every other player of a non-empty board precedes. */
  function Highest(m: map<Uid, int>): (k: Uid)
    requires |m| > 0
    ensures k in m
  {
    HighestExists(m);
    HighestUnique(m);
    var k :| IsHighest(m, k);
    k
  }

  /**
   * All players of `m`, highest first: the reverse of the order in which the
   * store lists them by `earnings`.
   */
  function Ranked(m: map<Uid, int>): (r: seq<Entry>)
    ensures |r| == |m|
    decreases |m|
  {
    if |m| == 0 then []
    else
      var k := Highest(m);
      RemoveOne(m, k);
      [Entry(k, m[k])] + Ranked(m - {k})
  }

  /** The ranking lists exactly the players of `m`, with their earnings. */
  lemma {:induction false} RankedMembers(m: map<Uid, int>)
    ensures forall e :: e in Ranked(m) <==> e.uid in m && m[e.uid] == e.earnings
    decreases |m|
  {
    if |m| > 0 {
      var k := Highest(m);
      var rest := m - {k};
      RemoveOne(m, k);
      RankedMembers(rest);
      var tail := Ranked(rest);
      assert Ranked(m) == [Entry(k, m[k])] + tail;
      forall e
        ensures e in Ranked(m) <==> e.uid in m && m[e.uid] == e.earnings
      {
        if e.uid == k {
          assert e !in tail;
        } else {
          assert e.uid in m <==> e.uid in rest;
          assert e.uid in rest ==> rest[e.uid] == m[e.uid];
        }
      }
    }
  }

  /** The first player of the ranking is preceded by every other one. */
  lemma RankedHead(m: map<Uid, int>, j: nat)
    requires 0 < j < |m|
    ensures Precedes(Ranked(m)[j], Ranked(m)[0])
  {
    var k := Highest(m);
    var rest := m - {k};
    RemoveOne(m, k);
    var tail := Ranked(rest);
    assert Ranked(m) == [Entry(k, m[k])] + tail;
    var e := tail[j - 1];
    RankedMembers(rest);
    assert e in tail;
    assert e.uid in rest && e.uid != k && m[e.uid] == e.earnings;
    assert Precedes(Entry(e.uid, m[e.uid]), Entry(k, m[k]));
  }

  /** The ranking is strictly descending: every later player precedes every earlier one. */
  lemma {:induction false} RankedSorted(m: map<Uid, int>)
    ensures forall i, j :: 0 <= i < j < |Ranked(m)| ==> Precedes(Ranked(m)[j], Ranked(m)[i])
    decreases |m|
  {
    if |m| > 0 {
      var k := Highest(m);
      var rest := m - {k};
      RemoveOne(m, k);
      RankedSorted(rest);
      var tail := Ranked(rest);
      var r := Ranked(m);
      assert r == [Entry(k, m[k])] + tail;
      forall i, j | 0 <= i < j < |r|
        ensures Precedes(r[j], r[i])
      {
        if i == 0 {
          RankedHead(m, j);
        } else {
          assert r[i] == tail[i - 1] && r[j] == tail[j - 1];
        }
      }
    }
  }

  function Min(a: int, b: int): int
  {
    if a <= b then a else b
  }

  /** The (at most) `n` highest players of `m`, highest first: rank `i + 1` is `r[i]`. */
  function Top(m: map<Uid, int>, n: nat): (r: seq<Entry>)
    ensures |r| == Min(n, |m|)
  {
    Ranked(m)[..Min(n, |m|)]
  }

  /** The selection holds players of `m` only, highest first. */
  lemma TopFacts(m: map<Uid, int>, n: nat)
    ensures forall e :: e in Top(m, n) ==> e.uid in m && m[e.uid] == e.earnings
    ensures forall i, j :: 0 <= i < j < |Top(m, n)| ==> Precedes(Top(m, n)[j], Top(m, n)[i])
  {
    RankedMembers(m);
    RankedSorted(m);
    var all := Ranked(m);
    forall e | e in Top(m, n)
      ensures e in all
    {
      var i :| 0 <= i < |Top(m, n)| && Top(m, n)[i] == e;
      assert all[i] == e;
    }
  }

  /** The sequence read from the other end. */
  function Reversed<T>(s: seq<T>): (r: seq<T>)
    ensures |r| == |s|
    ensures forall i :: 0 <= i < |s| ==> r[i] == s[|s| - 1 - i]
  {
    if s == [] then [] else Reversed(s[1..]) + [s[0]]
  }

  /** A sequence that holds `s` read from the other end is its reverse. */
  lemma ReversedByIndex<T>(s: seq<T>, t: seq<T>)
    requires |t| == |s|
    requires forall i :: 0 <= i < |s| ==> t[i] == s[|s| - 1 - i]
    ensures t == Reversed(s)
  {
  }

  lemma ReversedTwice<T>(s: seq<T>)
    ensures Reversed(Reversed(s)) == s
  {
  }

  /**
   * The store's answer to `orderByChild("earnings").limitToLast(n)`: the
   * last `n` players in ascending order.
   */
  function QueryLast(m: map<Uid, int>, n: nat): (r: seq<Entry>)
    ensures |r| == Min(n, |m|)
    ensures forall e :: e in r ==> e.uid in m && m[e.uid] == e.earnings
    ensures forall i, j :: 0 <= i < j < |r| ==> Precedes(r[i], r[j])
  {
    TopFacts(m, n);
    Reversed(Top(m, n))
  }

  /**
   * The answer is the last `n`: every player left out of it precedes every
   * player in it.
   */
  lemma QueryLastKeepsHighest(m: map<Uid, int>, n: nat, u: Uid, e: Entry)
    requires u in m && Entry(u, m[u]) !in QueryLast(m, n) && e in QueryLast(m, n)
    ensures Precedes(Entry(u, m[u]), e)
  {
    var t := Top(m, n);
    var r := QueryLast(m, n);
    assert r == Reversed(t);
    var i :| 0 <= i < |r| && r[i] == e;
    forall j | 0 <= j < |t|
      ensures t[j] != Entry(u, m[u])
    {
      assert r[|t| - 1 - j] == t[j];
    }
    TopKeepsHighest(m, n, u, |t| - 1 - i);
  }

  /** No player appears twice in `s`. */
  predicate DistinctUids(s: seq<Entry>)
  {
    forall i, j :: 0 <= i < j < |s| ==> s[i].uid != s[j].uid
  }

  /** No player appears twice in the ranking. */
  lemma TopUidsDistinct(m: map<Uid, int>, n: nat)
    ensures DistinctUids(Top(m, n))
  {
    var r := Top(m, n);
    TopFacts(m, n);
    forall i, j | 0 <= i < j < |r|
      ensures r[i].uid != r[j].uid
    {
      if r[i].uid == r[j].uid {
        assert r[i] in r && r[j] in r;
        PrecedesIrreflexive(r[i]);
      }
    }
  }

  /**
   * Every player left out of the top `n` precedes every player in it: the
   * selection keeps the highest earnings.
   */
  lemma TopKeepsHighest(m: map<Uid, int>, n: nat, u: Uid, i: nat)
    requires u in m && Entry(u, m[u]) !in Top(m, n)
    requires i < |Top(m, n)|
    ensures Precedes(Entry(u, m[u]), Top(m, n)[i])
    ensures m[u] <= Top(m, n)[i].earnings
  {
    var all := Ranked(m);
    RankedMembers(m);
    RankedSorted(m);
    assert Entry(u, m[u]) in all;
    var j :| 0 <= j < |all| && all[j] == Entry(u, m[u]);
    assert Top(m, n) == all[..Min(n, |m|)];
    assert forall k :: 0 <= k < Min(n, |m|) ==> all[k] in Top(m, n);
  }

  /** Rank 1 holds the maximum earnings of the board. */
  lemma RankOneIsMaximum(m: map<Uid, int>, n: nat, u: Uid)
    requires u in m && n > 0
    ensures |Top(m, n)| > 0 && m[u] <= Top(m, n)[0].earnings
  {
    var r := Top(m, n);
    TopFacts(m, n);
    if Entry(u, m[u]) in r {
      var j :| 0 <= j < |r| && r[j] == Entry(u, m[u]);
      if j > 0 {
        assert Precedes(r[j], r[0]);
      }
    } else {
      TopKeepsHighest(m, n, u, 0);
    }
  }
}
