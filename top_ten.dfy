/**
 * The TopTen model: a single stored leaderboard snapshot, recomputed when it
 * is missing or stale by ranking every user by reputation and keeping the
 * first ten.
 */
module TopTen {
  import opened Records
  import Users

  /** How many users the leaderboard keeps. */
  const Size: nat := 10

  /** A user paired with the reputation it is ranked by. */
  datatype Ranked = Ranked(user: UserId, reputation: int)

  ghost predicate NonIncreasing(s: seq<Ranked>)
  {
    forall p, q :: 0 <= p < q < |s| ==> s[p].reputation >= s[q].reputation
  }

  /** The user of each pair, in order: `topTen.map(pair => pair.user)`. */
  function UsersOf(s: seq<Ranked>): (r: seq<UserId>)
    ensures |r| == |s|
    ensures forall k :: 0 <= k < |s| ==> r[k] == s[k].user
  {
    if s == [] then [] else [s[0].user] + UsersOf(s[1..])
  }

  /** Every stored user paired with its current total reputation, in store order. */
  function Ranking(userCount: nat, babbles: seq<Babble>, comments: seq<Comment>): (r: seq<Ranked>)
    ensures |r| == userCount
    ensures forall k :: 0 <= k < userCount ==> r[k] == Ranked(k, Users.GetReputation(babbles, comments, k))
  {
    seq(userCount, k requires 0 <= k < userCount => Ranked(k, Users.GetReputation(babbles, comments, k)))
  }

  /**
   * What a freshly computed leaderboard is: min(10, #users) distinct stored
   * users, in non-increasing reputation order, none of them behind a user
   * left off the board, and every user when there are at most ten.
   */
  ghost predicate IsTopTen(top: seq<UserId>, userCount: nat, babbles: seq<Babble>, comments: seq<Comment>)
  {
    (|top| == if userCount < Size then userCount else Size) &&
    (forall k :: 0 <= k < |top| ==> top[k] < userCount) &&
    (forall p, q :: 0 <= p < q < |top| ==> top[p] != top[q]) &&
    (forall p, q :: 0 <= p < q < |top| ==>
       Users.GetReputation(babbles, comments, top[p]) >= Users.GetReputation(babbles, comments, top[q])) &&
    (forall u, k :: 0 <= u < userCount && u !in top && 0 <= k < |top| ==>
       Users.GetReputation(babbles, comments, top[k]) >= Users.GetReputation(babbles, comments, u)) &&
    (userCount <= Size ==> forall u :: 0 <= u < userCount ==> u in top)
  }

  /**
   * The state of one insertion step: the pair being inserted sits at `j`; the
   * others of `s[..i+1]` are in order, and those after `j` rank strictly below it.
   */
  ghost predicate Inserting(s: seq<Ranked>, i: nat, j: nat)
    requires j <= i < |s|
  {
    (forall p, q :: 0 <= p < q <= i && p != j && q != j ==> s[p].reputation >= s[q].reputation) &&
    (forall q :: j < q <= i ==> s[j].reputation > s[q].reputation)
  }

  lemma InsertingStart(s: seq<Ranked>, i: nat)
    requires i < |s| && NonIncreasing(s[..i])
    ensures Inserting(s, i, i)
  {
    assert forall p :: 0 <= p < i ==> s[..i][p] == s[p];
  }

  lemma InsertingSwap(s: seq<Ranked>, i: nat, j: nat)
    requires 0 < j <= i < |s| && Inserting(s, i, j)
    requires s[j - 1].reputation < s[j].reputation
    ensures Inserting(s[j - 1 := s[j]][j := s[j - 1]], i, j - 1)
  {
    var t := s[j - 1 := s[j]][j := s[j - 1]];
    assert t[j - 1] == s[j] && t[j] == s[j - 1];
    assert forall k :: 0 <= k < |t| && k != j - 1 && k != j ==> t[k] == s[k];
    forall p, q | 0 <= p < q <= i && p != j - 1 && q != j - 1
      ensures t[p].reputation >= t[q].reputation
    {
      if q == j {
        assert s[p].reputation >= s[j - 1].reputation;
      } else if p == j {
        assert s[j - 1].reputation >= s[q].reputation;
      }
    }
  }

  lemma SwapKeepsMultiset(s: seq<Ranked>, j: nat)
    requires 0 < j < |s|
    ensures multiset(s[j - 1 := s[j]][j := s[j - 1]]) == multiset(s)
  {
    var t := s[j - 1 := s[j]];
    assert multiset(t) == multiset(s) - multiset{s[j - 1]} + multiset{s[j]};
  }

  lemma InsertingDone(s: seq<Ranked>, i: nat, j: nat)
    requires j <= i < |s| && Inserting(s, i, j)
    requires j == 0 || s[j - 1].reputation >= s[j].reputation
    ensures NonIncreasing(s[..i + 1])
  {
  }

  /**
   * The sort in `getNewTopTenUsers`: rearrange the pairs in place so that
   * reputation never increases. Ties keep no particular order in the source
   * (a coin flip decides); here they keep their relative order.
   */
  method SortByReputation(a: array<Ranked>)
    modifies a
    ensures NonIncreasing(a[..])
    ensures multiset(a[..]) == multiset(old(a[..]))
  {
    var i := 0;
    while i < a.Length
      invariant 0 <= i <= a.Length
      invariant NonIncreasing(a[..i])
      invariant multiset(a[..]) == multiset(old(a[..]))
    {
      InsertNext(a, i);
      i := i + 1;
    }
    assert a[..a.Length] == a[..];
  }

  /** One insertion step: move `a[i]` down past the pairs that rank below it. */
  method InsertNext(a: array<Ranked>, i: nat)
    requires i < a.Length && NonIncreasing(a[..i])
    modifies a
    ensures NonIncreasing(a[..i + 1])
    ensures multiset(a[..]) == multiset(old(a[..]))
  {
    InsertingStart(a[..], i);
    var j := i;
    while 0 < j && a[j - 1].reputation < a[j].reputation
      invariant 0 <= j <= i
      invariant multiset(a[..]) == multiset(old(a[..]))
      invariant Inserting(a[..], i, j)
    {
      ghost var before := a[..];
      InsertingSwap(before, i, j);
      SwapKeepsMultiset(before, j);
      a[j - 1], a[j] := a[j], a[j - 1];
      assert a[..] == before[j - 1 := before[j]][j := before[j - 1]];
      j := j - 1;
    }
    InsertingDone(a[..], i, j);
    assert a[..][..i + 1] == a[..i + 1];
  }

  /**
   * `getNewTopTenUsers`: pair every user with its reputation, sort the pairs
   * by reputation, keep the first ten, and return their users.
   */
  method GetNewTopTenUsers(userCount: nat, babbles: seq<Babble>, comments: seq<Comment>) returns (top: seq<UserId>)
    ensures IsTopTen(top, userCount, babbles, comments)
  {
    var pairs := new Ranked[userCount](k => Ranked(k, Users.GetReputation(babbles, comments, k)));
    assert pairs[..] == Ranking(userCount, babbles, comments);
    SortByReputation(pairs);
    var n := if pairs.Length < Size then pairs.Length else Size;
    top := UsersOf(pairs[..n]);
    TopOfSorted(pairs[..], n, userCount, babbles, comments);
  }

  /** The users of the first `min(10, #users)` pairs of the sorted ranking form the leaderboard. */
  lemma TopOfSorted(s: seq<Ranked>, n: nat, userCount: nat, babbles: seq<Babble>, comments: seq<Comment>)
    requires multiset(s) == multiset(Ranking(userCount, babbles, comments))
    requires NonIncreasing(s)
    requires n == if userCount < Size then userCount else Size
    ensures n <= |s|
    ensures IsTopTen(UsersOf(s[..n]), userCount, babbles, comments)
  {
    SortedRankingSize(s, userCount, babbles, comments);
    SortedRankingEntries(s, userCount, babbles, comments);
    SortedRankingDistinct(s, userCount, babbles, comments);
    SortedRankingCovers(s, userCount, babbles, comments);
    var top := UsersOf(s[..n]);
    assert forall k :: 0 <= k < n ==> top[k] == s[k].user;
    LeftOffRankLower(s, n, userCount, babbles, comments);
    if userCount <= Size {
      assert s[..n] == s;
    }
  }

  /** A user outside the first `n` pairs of the sorted ranking ranks no higher than any user inside. */
  lemma LeftOffRankLower(s: seq<Ranked>, n: nat, userCount: nat, babbles: seq<Babble>, comments: seq<Comment>)
    requires n <= |s| == userCount
    requires NonIncreasing(s)
    requires forall k :: 0 <= k < |s| ==> s[k].reputation == Users.GetReputation(babbles, comments, s[k].user)
    requires forall u :: 0 <= u < userCount ==> u in UsersOf(s)
    ensures forall u, k :: 0 <= u < userCount && u !in UsersOf(s[..n]) && 0 <= k < n ==>
              Users.GetReputation(babbles, comments, UsersOf(s[..n])[k]) >= Users.GetReputation(babbles, comments, u)
  {
    var top := UsersOf(s[..n]);
    forall u, k | 0 <= u < userCount && u !in top && 0 <= k < n
      ensures Users.GetReputation(babbles, comments, top[k]) >= Users.GetReputation(babbles, comments, u)
    {
      var m := PositionOf(s, u);
      assert forall j :: 0 <= j < n ==> top[j] == s[j].user;
      assert n <= m;
      assert s[k].reputation >= s[m].reputation;
    }
  }

  /** Where user `u` stands in a ranking that holds it. */
  ghost function PositionOf(s: seq<Ranked>, u: UserId): (k: nat)
    requires u in UsersOf(s)
    ensures k < |s| && s[k].user == u
  {
    if s[0].user == u then 0
    else
      assert UsersOf(s) == [s[0].user] + UsersOf(s[1..]);
      1 + PositionOf(s[1..], u)
  }

  lemma SortedRankingSize(s: seq<Ranked>, userCount: nat, babbles: seq<Babble>, comments: seq<Comment>)
    requires multiset(s) == multiset(Ranking(userCount, babbles, comments))
    ensures |s| == userCount
  {
    assert |multiset(s)| == |multiset(Ranking(userCount, babbles, comments))|;
  }

  /** Each pair of a rearranged ranking is a stored user with its own reputation. */
  lemma SortedRankingEntries(s: seq<Ranked>, userCount: nat, babbles: seq<Babble>, comments: seq<Comment>)
    requires multiset(s) == multiset(Ranking(userCount, babbles, comments))
    ensures forall k :: 0 <= k < |s| ==>
              s[k].user < userCount && s[k].reputation == Users.GetReputation(babbles, comments, s[k].user)
  {
    var ranking := Ranking(userCount, babbles, comments);
    forall k | 0 <= k < |s|
      ensures s[k].user < userCount && s[k].reputation == Users.GetReputation(babbles, comments, s[k].user)
    {
      assert s[k] in multiset(ranking);
      var j :| 0 <= j < |ranking| && ranking[j] == s[k];
    }
  }

  /** A rearranged ranking holds each user once. */
  lemma SortedRankingDistinct(s: seq<Ranked>, userCount: nat, babbles: seq<Babble>, comments: seq<Comment>)
    requires multiset(s) == multiset(Ranking(userCount, babbles, comments))
    ensures forall p, q :: 0 <= p < q < |s| ==> s[p].user != s[q].user
  {
    var ranking := Ranking(userCount, babbles, comments);
    SortedRankingEntries(s, userCount, babbles, comments);
    forall p, q | 0 <= p < q < |s|
      ensures s[p].user != s[q].user
    {
      if s[p].user == s[q].user {
        assert s[p] == s[q];
        TwiceCounted(s, p, q);
        RankingOnce(ranking, s[p]);
      }
    }
  }

  /** A rearranged ranking holds every user. */
  lemma SortedRankingCovers(s: seq<Ranked>, userCount: nat, babbles: seq<Babble>, comments: seq<Comment>)
    requires multiset(s) == multiset(Ranking(userCount, babbles, comments))
    ensures forall u :: 0 <= u < userCount ==> u in UsersOf(s)
  {
    var ranking := Ranking(userCount, babbles, comments);
    forall u | 0 <= u < userCount
      ensures u in UsersOf(s)
    {
      assert ranking[u] in multiset(s);
      var k :| 0 <= k < |s| && s[k] == ranking[u];
      assert UsersOf(s)[k] == u;
    }
  }

  /** An element at two positions is counted at least twice. */
  lemma TwiceCounted<T>(s: seq<T>, p: nat, q: nat)
    requires p < q < |s| && s[p] == s[q]
    ensures multiset(s)[s[p]] >= 2
  {
    assert s == s[..q] + [s[q]] + s[q + 1..];
    assert s[p] in s[..q];
  }

  /** The users of a ranking are distinct, so each pair occurs in it at most once. */
  lemma {:induction false} RankingOnce(ranking: seq<Ranked>, x: Ranked)
    requires forall p, q :: 0 <= p < q < |ranking| ==> ranking[p].user != ranking[q].user
    ensures multiset(ranking)[x] <= 1
  {
    if ranking != [] {
      assert ranking == [ranking[0]] + ranking[1..];
      RankingOnce(ranking[1..], x);
      if ranking[0] == x {
        assert x !in ranking[1..];
      }
    }
  }

  /** The staleness rule of `needUpdate`: no snapshot yet, or at least `updateThreshold` milliseconds since the stored one. */
  predicate Stale(snapshots: seq<Snapshot>, currentTime: int, updateThreshold: int)
  {
    |snapshots| == 0 || currentTime - snapshots[0].updatedTime >= updateThreshold
  }

  /** The refresh interval of the deployed leaderboard: one week in milliseconds. */
  const Week: int := 7 * 24 * 60 * 60 * 1000

  /** The leaderboard store: at most one snapshot at any time. */
  class TopTenTable {
    var snapshots: seq<Snapshot>

    constructor ()
      ensures snapshots == []
    {
      snapshots := [];
    }

    /** `needUpdate`: read the stored snapshots and apply the staleness rule. */
    method NeedUpdate(currentTime: int, updateThreshold: int) returns (toUpdate: bool)
      ensures toUpdate <==> Stale(snapshots, currentTime, updateThreshold)
    {
      var resultList := snapshots;
      if |resultList| == 0 {
        return true;
      }
      var current := resultList[0];
      var timeSpanned := currentTime - current.updatedTime;
      toUpdate := timeSpanned >= updateThreshold;
    }

    /** `replace`: remove every snapshot, then store the given one. */
    method Replace(newUpdatedTime: int, newTopTenUsers: seq<UserId>)
      modifies this
      ensures snapshots == [Snapshot(newUpdatedTime, newTopTenUsers)]
    {
      snapshots := [];
      snapshots := snapshots + [Snapshot(newUpdatedTime, newTopTenUsers)];
    }

    /** `getCurrentTopTen`: the stored snapshot; with none stored, the read of `resultList[0]` fails. */
    method GetCurrentTopTen() returns (r: Result<Snapshot>)
      ensures |snapshots| == 0 <==> r == Err(NotFound)
      ensures |snapshots| > 0 ==> r == Ok(snapshots[0])
    {
      if |snapshots| == 0 {
        return Err(NotFound);
      }
      r := Ok(snapshots[0]);
    }

    /**
     * `updateTopTenUsers`: when an update is needed, compute the leaderboard,
     * store it as the only snapshot at `currentTime`, and return it; otherwise
     * return the stored snapshot as it is.
     */
    method UpdateTopTenUsers(currentTime: int, updateThreshold: int, userCount: nat,
                             babbles: seq<Babble>, comments: seq<Comment>)
      returns (r: Result<Snapshot>)
      modifies this
      ensures old(Stale(snapshots, currentTime, updateThreshold)) ==>
                r.Ok? && r.value.updatedTime == currentTime && snapshots == [r.value] &&
                IsTopTen(r.value.topUsers, userCount, babbles, comments)
      ensures !old(Stale(snapshots, currentTime, updateThreshold)) ==>
                snapshots == old(snapshots) && r == Ok(snapshots[0])
      ensures 0 < updateThreshold ==> !Stale(snapshots, currentTime, updateThreshold)
    {
      var toUpdate := NeedUpdate(currentTime, updateThreshold);
      if toUpdate {
        var newTopTen := GetNewTopTenUsers(userCount, babbles, comments);
        Replace(currentTime, newTopTen);
        r := Ok(Snapshot(currentTime, newTopTen));
      } else {
        r := GetCurrentTopTen();
      }
    }
  }

  /**
   * After the leaderboard is computed at `updatedTime`, it is recomputed
   * exactly when at least `updateThreshold` milliseconds have passed.
   */
  lemma StaleAfterUpdate(updatedTime: int, topUsers: seq<UserId>, currentTime: int, updateThreshold: int)
    ensures Stale([Snapshot(updatedTime, topUsers)], currentTime, updateThreshold)
            <==> currentTime >= updatedTime + updateThreshold
  {
  }

  /** The weekly gate: a day after the update the snapshot is kept, eight days after it is recomputed. */
  lemma WeeklyGateExamples(t0: int, topUsers: seq<UserId>)
    ensures Stale([], t0, Week)
    ensures !Stale([Snapshot(t0, topUsers)], t0 + 24 * 60 * 60 * 1000, Week)
    ensures Stale([Snapshot(t0, topUsers)], t0 + 8 * 24 * 60 * 60 * 1000, Week)
  {
  }
}
