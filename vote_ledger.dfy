/**
 * The vote ledger shared by babbles and comments: how one `goodVibe` or
 * `badVibe` edits the record's two vote lists.
 *
 * `GoodVibe` and `BadVibe` follow the code as written, including the index it
 * takes from the wrong list in two branches; `GoodVibeIntended` and
 * `BadVibeIntended` are the corrected edits, with the mutual exclusion of the
 * two lists proved about them.
 */
module VoteLedger {
  import opened Records
  import opened JsArray

  /** Good votes minus bad votes: what the record adds to its author's reputation beyond its baseline 1. */
  function Net(v: Vibes): int
  {
    |v.goodVibeUsers| - |v.badVibeUsers|
  }

  /** All votes the record has received. */
  function Total(v: Vibes): nat
  {
    |v.goodVibeUsers| + |v.badVibeUsers|
  }

  /**
   * `goodVibe` as written: a voter in neither list is pushed onto the good
   * list; a bad-viber is spliced out of the bad list and pushed onto the good
   * list; a good-viber's cancel splices the good list at the voter's index in
   * the BAD list.
   */
  function GoodVibe(v: Vibes, user: UserId): (r: Vibes)
    ensures user !in v.goodVibeUsers ==>
              |r.goodVibeUsers| == |v.goodVibeUsers| + 1 &&
              |r.badVibeUsers| == |v.badVibeUsers| - (if user in v.badVibeUsers then 1 else 0)
    ensures user in v.goodVibeUsers ==>
              r.badVibeUsers == v.badVibeUsers &&
              |r.goodVibeUsers| == |v.goodVibeUsers| - (if IndexOf(v.badVibeUsers, user) < |v.goodVibeUsers| then 1 else 0)
  {
    var good, bad := v.goodVibeUsers, v.badVibeUsers;
    var index := IndexOf(good, user);
    if index == -1 then
      if IndexOf(bad, user) > -1 then
        Vibes(Push(good, user), Splice(bad, IndexOf(bad, user)))
      else
        Vibes(Push(good, user), bad)
    else
      Vibes(Splice(good, IndexOf(bad, user)), bad)
  }

  /**
   * `badVibe` as written: a voter in neither list is pushed onto the bad list;
   * a good-viber's flip splices the good list at the voter's index in the BAD
   * list (always -1 there) and pushes onto the bad list; a bad-viber's cancel
   * splices the voter out of the bad list.
   */
  function BadVibe(v: Vibes, user: UserId): (r: Vibes)
    ensures user !in v.badVibeUsers ==>
              |r.badVibeUsers| == |v.badVibeUsers| + 1 &&
              |r.goodVibeUsers| == |v.goodVibeUsers| - (if user in v.goodVibeUsers then 1 else 0)
    ensures user in v.badVibeUsers ==>
              r.goodVibeUsers == v.goodVibeUsers && |r.badVibeUsers| == |v.badVibeUsers| - 1
  {
    var good, bad := v.goodVibeUsers, v.badVibeUsers;
    var index := IndexOf(bad, user);
    if index == -1 then
      if IndexOf(good, user) > -1 then
        Vibes(Splice(good, IndexOf(bad, user)), Push(bad, user))
      else
        Vibes(good, Push(bad, user))
    else
      Vibes(good, Splice(bad, IndexOf(bad, user)))
  }

  // ---------------------------------------------------------------------------
  // The documented contract of the code as written, branch by branch.

  /** A user who has not voted is appended to the good list; the bad list is untouched. */
  lemma GoodVibeAddsVoter(v: Vibes, user: UserId)
    requires user !in v.goodVibeUsers && user !in v.badVibeUsers
    ensures GoodVibe(v, user) == Vibes(v.goodVibeUsers + [user], v.badVibeUsers)
  {
  }

  /** A bad-viber's good vibe removes one of their entries from the bad list and appends them to the good list. */
  lemma {:induction false} GoodVibeFlipsVoter(v: Vibes, user: UserId)
    requires user !in v.goodVibeUsers && user in v.badVibeUsers
    ensures GoodVibe(v, user).goodVibeUsers == v.goodVibeUsers + [user]
    ensures multiset(GoodVibe(v, user).badVibeUsers) == multiset(v.badVibeUsers) - multiset{user}
    ensures Count(v.badVibeUsers, user) == 1 ==> user !in GoodVibe(v, user).badVibeUsers
  {
    SpliceIndexOfRemovesOne(v.badVibeUsers, user);
    if Count(v.badVibeUsers, user) == 1 {
      SpliceIndexOfRemovesSingle(v.badVibeUsers, user);
    }
  }

  /**
   * A good-viber's cancel leaves the bad list alone and, when the voter has no
   * bad vote, drops the LAST good vote; it is the voter's own vote exactly
   * when the voter is last.
   */
  lemma {:induction false} GoodVibeCancelDropsLast(v: Vibes, user: UserId)
    requires user in v.goodVibeUsers && user !in v.badVibeUsers
    ensures GoodVibe(v, user) == Vibes(v.goodVibeUsers[..|v.goodVibeUsers| - 1], v.badVibeUsers)
  {
    SpliceMinusOneDropsLast(v.goodVibeUsers);
  }

  /** The doc comment's promise for a cancel holds when the voter is the last good-viber and voted once. */
  lemma {:induction false} GoodVibeCancelsLastVoter(v: Vibes, user: UserId)
    requires user !in v.badVibeUsers
    requires |v.goodVibeUsers| > 0 && v.goodVibeUsers[|v.goodVibeUsers| - 1] == user
    requires Count(v.goodVibeUsers, user) == 1
    ensures user !in GoodVibe(v, user).goodVibeUsers
    ensures GoodVibe(v, user).badVibeUsers == v.badVibeUsers
  {
    var good := v.goodVibeUsers;
    GoodVibeCancelDropsLast(v, user);
    assert good == good[..|good| - 1] + [user];
    assert multiset(good) == multiset(good[..|good| - 1]) + multiset{user};
  }

  /** A user who has not voted is appended to the bad list; the good list is untouched. */
  lemma BadVibeAddsVoter(v: Vibes, user: UserId)
    requires user !in v.goodVibeUsers && user !in v.badVibeUsers
    ensures BadVibe(v, user) == Vibes(v.goodVibeUsers, v.badVibeUsers + [user])
  {
  }

  /** A good-viber's bad vibe appends them to the bad list and drops the LAST good vote, whoever cast it. */
  lemma {:induction false} BadVibeFlipDropsLast(v: Vibes, user: UserId)
    requires user in v.goodVibeUsers && user !in v.badVibeUsers
    ensures BadVibe(v, user) == Vibes(v.goodVibeUsers[..|v.goodVibeUsers| - 1], v.badVibeUsers + [user])
  {
    SpliceMinusOneDropsLast(v.goodVibeUsers);
  }

  /** A bad-viber's cancel removes one of their own entries from the bad list; the good list is untouched. */
  lemma {:induction false} BadVibeCancelsVoter(v: Vibes, user: UserId)
    requires user in v.badVibeUsers
    ensures BadVibe(v, user).goodVibeUsers == v.goodVibeUsers
    ensures multiset(BadVibe(v, user).badVibeUsers) == multiset(v.badVibeUsers) - multiset{user}
    ensures Count(v.badVibeUsers, user) == 1 ==> user !in BadVibe(v, user).badVibeUsers
  {
    SpliceIndexOfRemovesOne(v.badVibeUsers, user);
    if Count(v.badVibeUsers, user) == 1 {
      SpliceIndexOfRemovesSingle(v.badVibeUsers, user);
    }
  }

  // ---------------------------------------------------------------------------
  // The intended ledger.

  /** No user is in both lists. */
  ghost predicate Exclusive(v: Vibes)
  {
    forall x :: x in v.goodVibeUsers ==> x !in v.badVibeUsers
  }

  ghost predicate NoRepeats(s: seq<UserId>)
  {
    forall i, j :: 0 <= i < j < |s| ==> s[i] != s[j]
  }

  /** The ledger invariant: each user is recorded at most once, in at most one list. */
  ghost predicate WellFormed(v: Vibes)
  {
    Exclusive(v) && NoRepeats(v.goodVibeUsers) && NoRepeats(v.badVibeUsers)
  }

  /** `goodVibe` with the cancel splicing the good list at the voter's own index. */
  function GoodVibeIntended(v: Vibes, user: UserId): (r: Vibes)
    ensures WellFormed(v) ==> WellFormed(r)
    ensures WellFormed(v) ==> (user in r.goodVibeUsers <==> user !in v.goodVibeUsers) && user !in r.badVibeUsers
    ensures WellFormed(v) ==> forall x :: x != user ==>
              (x in r.goodVibeUsers <==> x in v.goodVibeUsers) && (x in r.badVibeUsers <==> x in v.badVibeUsers)
  {
    var good, bad := v.goodVibeUsers, v.badVibeUsers;
    if IndexOf(good, user) == -1 then
      if IndexOf(bad, user) > -1 then
        RemovePreservesOthers(bad, user);
        Vibes(Push(good, user), Splice(bad, IndexOf(bad, user)))
      else
        Vibes(Push(good, user), bad)
    else
      RemovePreservesOthers(good, user);
      Vibes(Splice(good, IndexOf(good, user)), bad)
  }

  /** `badVibe` with the flip splicing the good list at the voter's own index. */
  function BadVibeIntended(v: Vibes, user: UserId): (r: Vibes)
    ensures WellFormed(v) ==> WellFormed(r)
    ensures WellFormed(v) ==> (user in r.badVibeUsers <==> user !in v.badVibeUsers) && user !in r.goodVibeUsers
    ensures WellFormed(v) ==> forall x :: x != user ==>
              (x in r.goodVibeUsers <==> x in v.goodVibeUsers) && (x in r.badVibeUsers <==> x in v.badVibeUsers)
  {
    var good, bad := v.goodVibeUsers, v.badVibeUsers;
    if IndexOf(bad, user) == -1 then
      if IndexOf(good, user) > -1 then
        RemovePreservesOthers(good, user);
        Vibes(Splice(good, IndexOf(good, user)), Push(bad, user))
      else
        Vibes(good, Push(bad, user))
    else
      RemovePreservesOthers(bad, user);
      Vibes(good, Splice(bad, IndexOf(bad, user)))
  }

  /**
   * Splicing out a user's only entry keeps every other user's membership and
   * removes that user.
   */
  lemma {:induction false} RemovePreservesOthers(s: seq<UserId>, user: UserId)
    requires user in s
    ensures forall x :: x != user ==> (x in Splice(s, IndexOf(s, user)) <==> x in s)
    ensures NoRepeats(s) ==> NoRepeats(Splice(s, IndexOf(s, user))) && user !in Splice(s, IndexOf(s, user))
  {
    var k := IndexOf(s, user);
    var r := Splice(s, k);
    assert r == RemoveAt(s, k);
    SpliceIndexOfRemovesOne(s, user);
    forall x | x != user
      ensures x in r <==> x in s
    {
      assert x in r <==> multiset(r)[x] > 0;
      assert x in s <==> multiset(s)[x] > 0;
    }
  }

  /** Voting twice in the same direction from a clean slate leaves the voter in neither list. */
  lemma ToggleTwiceRestores(v: Vibes, user: UserId)
    requires WellFormed(v) && user !in v.goodVibeUsers && user !in v.badVibeUsers
    ensures var w := GoodVibeIntended(GoodVibeIntended(v, user), user);
            user !in w.goodVibeUsers && user !in w.badVibeUsers
    ensures var w := BadVibeIntended(BadVibeIntended(v, user), user);
            user !in w.goodVibeUsers && user !in w.badVibeUsers
  {
  }

  // ---------------------------------------------------------------------------
  // How the code as written relates to the intended ledger.

  /** On a well-formed ledger the two agree whenever the voter's vote, if any, is the last good vote. */
  lemma {:induction false} AsWrittenAgreesWhenVoterLast(v: Vibes, user: UserId)
    requires WellFormed(v)
    requires user in v.goodVibeUsers ==> v.goodVibeUsers[|v.goodVibeUsers| - 1] == user
    ensures GoodVibe(v, user) == GoodVibeIntended(v, user)
    ensures BadVibe(v, user) == BadVibeIntended(v, user)
  {
    var good := v.goodVibeUsers;
    if user in good {
      var n := |good| - 1;
      assert good[n] == user;
      assert user !in good[..IndexOf(good, user)];
      assert IndexOf(good, user) == n;
    }
  }

  /**
   * On a ledger without a user in both lists, the code as written changes the
   * list lengths exactly as the intended ledger does, so reputation and the
   * redaction verdict, which read only lengths, come out the same.
   */
  lemma {:induction false} AsWrittenCountsMatchIntended(v: Vibes, user: UserId)
    requires Exclusive(v)
    ensures |GoodVibe(v, user).goodVibeUsers| == |GoodVibeIntended(v, user).goodVibeUsers|
    ensures |GoodVibe(v, user).badVibeUsers| == |GoodVibeIntended(v, user).badVibeUsers|
    ensures |BadVibe(v, user).goodVibeUsers| == |BadVibeIntended(v, user).goodVibeUsers|
    ensures |BadVibe(v, user).badVibeUsers| == |BadVibeIntended(v, user).badVibeUsers|
  {
    if user in v.goodVibeUsers {
      assert user !in v.badVibeUsers;
    }
  }

  /**
   * Finding: a cancelled good vibe by a voter who is not the last good-viber
   * removes the last good-viber's vote and leaves the voter's own in place.
   */
  lemma {:induction false} GoodVibeCancelKeepsVoter(v: Vibes, user: UserId)
    requires user in v.goodVibeUsers && user !in v.badVibeUsers
    requires v.goodVibeUsers[|v.goodVibeUsers| - 1] != user
    ensures user in GoodVibe(v, user).goodVibeUsers
    ensures v.goodVibeUsers[|v.goodVibeUsers| - 1] !in GoodVibe(v, user).goodVibeUsers
            || Count(v.goodVibeUsers, v.goodVibeUsers[|v.goodVibeUsers| - 1]) > 1
  {
    var good := v.goodVibeUsers;
    var last := good[|good| - 1];
    GoodVibeCancelDropsLast(v, user);
    var k := IndexOf(good, user);
    assert good[..|good| - 1][k] == user;
    assert good == good[..|good| - 1] + [last];
    assert multiset(good) == multiset(good[..|good| - 1]) + multiset{last};
  }

  /** The concrete case: voters 1 and 2 good-vibed; 1 cancels, and 2's vote disappears instead. */
  lemma GoodVibeCancelExample()
    ensures GoodVibe(Vibes([1, 2], []), 1) == Vibes([1], [])
  {
    GoodVibeCancelDropsLast(Vibes([1, 2], []), 1);
    assert [1, 2][..1] == [1];
  }

  /**
   * Finding: a good-viber who is not the last good-viber and flips to a bad
   * vibe ends up in BOTH lists, breaking the ledger's mutual exclusion.
   */
  lemma {:induction false} BadVibeFlipBreaksExclusion(v: Vibes, user: UserId)
    requires user in v.goodVibeUsers && user !in v.badVibeUsers
    requires v.goodVibeUsers[|v.goodVibeUsers| - 1] != user
    ensures user in BadVibe(v, user).goodVibeUsers && user in BadVibe(v, user).badVibeUsers
    ensures !Exclusive(BadVibe(v, user))
  {
    var good := v.goodVibeUsers;
    BadVibeFlipDropsLast(v, user);
    var k := IndexOf(good, user);
    assert good[..|good| - 1][k] == user;
  }

  /** The concrete case: voters 1 and 2 good-vibed; 1 bad-vibes and is then in both lists. */
  lemma BadVibeFlipExample()
    ensures BadVibe(Vibes([1, 2], []), 1) == Vibes([1], [1])
  {
    BadVibeFlipDropsLast(Vibes([1, 2], []), 1);
    assert [1, 2][..1] == [1];
  }

  // ---------------------------------------------------------------------------
  // Sequences of votes: where the code as written and the intended ledger part ways.

  /** One request against the same record: a good vibe or a bad vibe by `voter`. */
  datatype Vote = Good(voter: UserId) | Bad(voter: UserId)

  /** The votes applied in order with the edits as written. */
  function ReplayAsWritten(v: Vibes, votes: seq<Vote>): Vibes
    decreases |votes|
  {
    if votes == [] then v
    else
      var w := match votes[0]
               case Good(u) => GoodVibe(v, u)
               case Bad(u) => BadVibe(v, u);
      ReplayAsWritten(w, votes[1..])
  }

  /** The votes applied in order with the corrected edits: the ledger stays well-formed throughout. */
  function ReplayIntended(v: Vibes, votes: seq<Vote>): (r: Vibes)
    ensures WellFormed(v) ==> WellFormed(r)
    decreases |votes|
  {
    if votes == [] then v
    else
      var w := match votes[0]
               case Good(u) => GoodVibeIntended(v, u)
               case Bad(u) => BadVibeIntended(v, u);
      ReplayIntended(w, votes[1..])
  }

  /**
   * Finding, over several requests: users 1 and 2 good-vibe, then user 1 flips
   * to bad and back to good. As written the ledger ends with one bad vote and
   * no good vote; intended, with two good votes and no bad vote.
   */
  lemma VoteSequenceDrift()
    ensures ReplayAsWritten(NoVibes, [Good(1), Good(2), Bad(1), Good(1)]) == Vibes([], [1])
    ensures ReplayIntended(NoVibes, [Good(1), Good(2), Bad(1), Good(1)]) == Vibes([2, 1], [])
    ensures Net(ReplayAsWritten(NoVibes, [Good(1), Good(2), Bad(1), Good(1)])) == -1
    ensures Net(ReplayIntended(NoVibes, [Good(1), Good(2), Bad(1), Good(1)])) == 2
  {
    var votes := [Good(1), Good(2), Bad(1), Good(1)];
    assert votes[1..] == [Good(2), Bad(1), Good(1)];
    assert votes[1..][1..] == [Bad(1), Good(1)];
    assert votes[1..][1..][1..] == [Good(1)];
    assert votes[1..][1..][1..][1..] == [];
    // as written
    var a1 := GoodVibe(NoVibes, 1);
    GoodVibeAddsVoter(NoVibes, 1);
    var a2 := GoodVibe(a1, 2);
    GoodVibeAddsVoter(a1, 2);
    assert a2 == Vibes([1, 2], []);
    var a3 := BadVibe(a2, 1);
    BadVibeFlipExample();
    assert a3 == Vibes([1], [1]);
    assert IndexOf([1], 1) == 0;
    assert Splice([1], 0) == [];
    assert GoodVibe(a3, 1) == Vibes([], [1]);
    // intended
    var b3 := BadVibeIntended(a2, 1);
    assert IndexOf([1, 2], 1) == 0;
    assert Splice([1, 2], 0) == [2];
    assert b3 == Vibes([2], [1]);
    assert GoodVibeIntended(b3, 1) == Vibes([2, 1], []);
  }

  /**
   * Finding: the code as written reaches good [1], bad [2, 1]; from there user
   * 1's good-vibe cancel splices the good list at 1, past its end, and
   * changes nothing.
   */
  lemma CancelCanBeNoOp()
    ensures ReplayAsWritten(NoVibes, [Bad(2), Good(1), Good(3), Bad(1)]) == Vibes([1], [2, 1])
    ensures GoodVibe(Vibes([1], [2, 1]), 1) == Vibes([1], [2, 1])
  {
    var votes := [Bad(2), Good(1), Good(3), Bad(1)];
    assert votes[1..] == [Good(1), Good(3), Bad(1)];
    assert votes[1..][1..] == [Good(3), Bad(1)];
    assert votes[1..][1..][1..] == [Bad(1)];
    assert votes[1..][1..][1..][1..] == [];
    BadVibeAddsVoter(NoVibes, 2);
    GoodVibeAddsVoter(Vibes([], [2]), 1);
    GoodVibeAddsVoter(Vibes([1], [2]), 3);
    BadVibeFlipDropsLast(Vibes([1, 3], [2]), 1);
    assert [1, 3][..1] == [1];
    assert IndexOf([2, 1], 1) == 1;
    assert Splice([1], 1) == [1];
  }
}
