/**
 * The Babble model: the babble collection, posting, linking comments, votes,
 * the per-user daily count, reputation from babbles and the redaction verdict.
 */
module Babbles {
  import opened Records
  import JsArray
  import VoteLedger
  import Ordering
  import Reputation

  /** What the reputation fold reads of each babble. */
  function Posts(babbles: seq<Babble>): (r: seq<Reputation.Authored>)
    ensures |r| == |babbles|
    ensures forall i :: 0 <= i < |babbles| ==> r[i] == Reputation.Authored(babbles[i].user, babbles[i].vibes)
  {
    seq(|babbles|, i requires 0 <= i < |babbles| => Reputation.Authored(babbles[i].user, babbles[i].vibes))
  }

  /** `findOne({_id: babbleId})`. */
  function GetBabble(babbles: seq<Babble>, babbleId: BabbleId): (r: Option<Babble>)
    ensures r.Some? <==> babbleId < |babbles|
    ensures r.Some? ==> r.value == babbles[babbleId]
  {
    if babbleId < |babbles| then Some(babbles[babbleId]) else None
  }

  function NewestFirst(b: Babble): int
  {
    -b.timestamp.millis
  }

  /** `find({}).sort("-timestamp")`: every babble, the most recent first. */
  function GetAllBabbles(babbles: seq<Babble>): (r: seq<Babble>)
    ensures multiset(r) == multiset(babbles)
    ensures forall i, j :: 0 <= i < j < |r| ==> r[i].timestamp.millis >= r[j].timestamp.millis
  {
    var r := Ordering.SortBy(babbles, NewestFirst);
    assert forall i, j :: 0 <= i < j < |r| ==> NewestFirst(r[i]) <= NewestFirst(r[j]);
    r
  }

  /**
   * The display name of a babble: its pseudonym's string when it was posted
   * anonymously, otherwise its author's kerberos.
   */
  function GetDisplayName(babbles: seq<Babble>, users: seq<User>, names: seq<AnonymousName>, babbleId: BabbleId)
    : (r: Result<string>)
    ensures babbleId >= |babbles| ==> r == Err(NotFound)
    ensures babbleId < |babbles| ==>
              var b := babbles[babbleId];
              (Resolve(b.anonymousName, names).Some? ==> r == Ok(names[b.anonymousName.value].anonymousName)) &&
              (Resolve(b.anonymousName, names).None? && b.user < |users| ==> r == Ok(users[b.user].kerberos)) &&
              (Resolve(b.anonymousName, names).None? && b.user >= |users| ==> r == Err(NotFound))
  {
    match GetBabble(babbles, babbleId)
    case None => Err(NotFound)
    case Some(b) =>
      match DisplayName(b.user, b.anonymousName, users, names)
      case Some(s) => Ok(s)
      case None => Err(NotFound)
  }

  /** Whether a babble was posted by `userId` on the local calendar date `today`. */
  predicate PostedOn(b: Babble, userId: UserId, today: CalendarDay)
  {
    b.user == userId && b.timestamp.day == today
  }

  /** `getBabbleCountByUserToday`: the user's babbles whose local date is `today`. */
  function GetBabbleCountByUserToday(babbles: seq<Babble>, userId: UserId, today: CalendarDay): (n: nat)
    ensures n <= |babbles|
    ensures n == 0 <== forall i :: 0 <= i < |babbles| ==> !PostedOn(babbles[i], userId, today)
    ensures n == |babbles| <== forall i :: 0 <= i < |babbles| ==> PostedOn(babbles[i], userId, today)
  {
    if babbles == [] then 0
    else
      (if PostedOn(babbles[0], userId, today) then 1 else 0)
      + GetBabbleCountByUserToday(babbles[1..], userId, today)
  }

  /**
   * A new babble adds one to its author's count for its own date and nothing
   * to any other user's count or any other date's.
   */
  lemma {:induction false} CountTodayAppend(babbles: seq<Babble>, b: Babble, userId: UserId, today: CalendarDay)
    ensures GetBabbleCountByUserToday(babbles + [b], userId, today)
            == GetBabbleCountByUserToday(babbles, userId, today) + (if PostedOn(b, userId, today) then 1 else 0)
  {
    if babbles == [] {
      assert ([] + [b])[1..] == [];
    } else {
      assert (babbles + [b])[1..] == babbles[1..] + [b];
      CountTodayAppend(babbles[1..], b, userId, today);
    }
  }

  /** `getReputation`: the number of the user's babbles plus their good votes minus their bad votes. */
  function GetReputation(babbles: seq<Babble>, userId: UserId): int
  {
    Reputation.ReputationOf(Posts(babbles), userId)
  }

  /** The votes a babble received decide redaction only once there are more than `countThreshold` of them. */
  function RedactionVerdict(v: Vibes, countThreshold: int): (r: bool)
    ensures r <==> VoteLedger.Total(v) > countThreshold && VoteLedger.Total(v) > 0 &&
                   (|v.badVibeUsers| as real) / (VoteLedger.Total(v) as real) > 0.8
  {
    var goodCount := |v.goodVibeUsers|;
    var badCount := |v.badVibeUsers|;
    var totalCount := goodCount + badCount;
    if totalCount > countThreshold then
      if totalCount > 0 then
        BadRatioAboveFourFifths(badCount, totalCount);
        5 * badCount > 4 * totalCount
      else
        false
    else
      false
  }

  /** The ratio test on reals is the integer test `5 * bad > 4 * total`. */
  lemma BadRatioAboveFourFifths(bad: nat, total: nat)
    requires total > 0
    ensures (bad as real) / (total as real) > 0.8 <==> 5 * bad > 4 * total
  {
    var t := total as real;
    var q := (bad as real) / t;
    assert q * t == bad as real;
    ScaleKeepsSign(q - 0.8, t);
    assert (q - 0.8) * t == q * t - 0.8 * t;
  }

  lemma ScaleKeepsSign(x: real, t: real)
    requires t > 0.0
    ensures x > 0.0 ==> x * t > 0.0
    ensures x <= 0.0 ==> x * t <= 0.0
  {
  }

  /** `shouldBeRedacted(babbleId, countThreshold)`. */
  function ShouldBeRedacted(babbles: seq<Babble>, babbleId: BabbleId, countThreshold: int): (r: Result<bool>)
    ensures babbleId >= |babbles| ==> r == Err(NotFound)
    ensures babbleId < |babbles| ==>
              var v := babbles[babbleId].vibes;
              var total := |v.goodVibeUsers| + |v.badVibeUsers|;
              r.Ok? && (r.value <==> total > countThreshold && 5 * |v.badVibeUsers| > 4 * total)
  {
    match GetBabble(babbles, babbleId)
    case None => Err(NotFound)
    case Some(b) => Ok(RedactionVerdict(b.vibes, countThreshold))
  }

  /** The babble collection. */
  class BabbleTable {
    var babbles: seq<Babble>

    constructor ()
      ensures babbles == []
    {
      babbles := [];
    }

    /** `addBabble`: store a new babble with no comments and no votes. */
    method AddBabble(content: string, userId: UserId, anonymousNameId: Option<NameId>, now: Date)
      returns (babbleId: BabbleId)
      modifies this
      ensures babbleId == |old(babbles)|
      ensures babbles == old(babbles) + [Babble(content, userId, anonymousNameId, [], now, NoVibes)]
    {
      babbleId := |babbles|;
      babbles := babbles + [Babble(content, userId, anonymousNameId, [], now, NoVibes)];
    }

    /** `addComment`: push a comment id onto the babble's comment list; a missing babble fails. */
    method AddComment(babbleId: BabbleId, commentId: CommentId) returns (r: Result<Babble>)
      modifies this
      ensures babbleId >= |old(babbles)| ==> r == Err(NotFound) && babbles == old(babbles)
      ensures babbleId < |old(babbles)| ==>
                babbles == old(babbles)[babbleId := old(babbles)[babbleId].(comments := old(babbles)[babbleId].comments + [commentId])]
                && r == Ok(babbles[babbleId])
    {
      if babbleId >= |babbles| {
        return Err(NotFound);
      }
      var babble := babbles[babbleId];
      babble := babble.(comments := JsArray.Push(babble.comments, commentId));
      babbles := babbles[babbleId := babble];
      r := Ok(babble);
    }

    /**
     * `goodVibe`: read the babble, edit its vote lists, save it. The edit is the
     * corrected one, which splices the voter's own entry (see `VoteLedger`).
     */
    method GoodVibe(babbleId: BabbleId, userId: UserId) returns (r: Result<Babble>)
      modifies this
      ensures babbleId >= |old(babbles)| ==> r == Err(NotFound) && babbles == old(babbles)
      ensures babbleId < |old(babbles)| ==>
                babbles == old(babbles)[babbleId := old(babbles)[babbleId].(vibes := VoteLedger.GoodVibeIntended(old(babbles)[babbleId].vibes, userId))]
                && r == Ok(babbles[babbleId])
      ensures babbleId < |old(babbles)| && VoteLedger.WellFormed(old(babbles)[babbleId].vibes) ==>
                VoteLedger.WellFormed(babbles[babbleId].vibes)
    {
      if babbleId >= |babbles| {
        return Err(NotFound);
      }
      var result := babbles[babbleId];
      result := result.(vibes := VoteLedger.GoodVibeIntended(result.vibes, userId));
      babbles := babbles[babbleId := result];
      r := Ok(result);
    }

    /**
     * `badVibe`: read the babble, edit its vote lists, save it. The edit is the
     * corrected one, which splices the voter's own entry (see `VoteLedger`).
     */
    method BadVibe(babbleId: BabbleId, userId: UserId) returns (r: Result<Babble>)
      modifies this
      ensures babbleId >= |old(babbles)| ==> r == Err(NotFound) && babbles == old(babbles)
      ensures babbleId < |old(babbles)| ==>
                babbles == old(babbles)[babbleId := old(babbles)[babbleId].(vibes := VoteLedger.BadVibeIntended(old(babbles)[babbleId].vibes, userId))]
                && r == Ok(babbles[babbleId])
      ensures babbleId < |old(babbles)| && VoteLedger.WellFormed(old(babbles)[babbleId].vibes) ==>
                VoteLedger.WellFormed(babbles[babbleId].vibes)
    {
      if babbleId >= |babbles| {
        return Err(NotFound);
      }
      var result := babbles[babbleId];
      result := result.(vibes := VoteLedger.BadVibeIntended(result.vibes, userId));
      babbles := babbles[babbleId := result];
      r := Ok(result);
    }
  }

  // ---------------------------------------------------------------------------
  // Properties relating the operations.

  /**
   * Looking up the babble `addBabble` just stored returns it, with no comments
   * and no votes; every other id looks up what it did before.
   */
  lemma GetAfterAddBabble(babbles: seq<Babble>, content: string, userId: UserId, anonymousNameId: Option<NameId>, now: Date)
    ensures var b := Babble(content, userId, anonymousNameId, [], now, NoVibes);
            GetBabble(babbles + [b], |babbles|) == Some(b) &&
            b.comments == [] && b.vibes.goodVibeUsers == [] && b.vibes.badVibeUsers == []
    ensures var b := Babble(content, userId, anonymousNameId, [], now, NoVibes);
            forall id :: id != |babbles| ==> GetBabble(babbles + [b], id) == GetBabble(babbles, id)
  {
  }

  /** Posting a babble raises its author's babble reputation by exactly 1 and leaves everyone else's. */
  lemma {:induction false} ReputationAfterAddBabble(babbles: seq<Babble>, b: Babble, userId: UserId)
    requires b.vibes == NoVibes
    ensures GetReputation(babbles + [b], userId) == GetReputation(babbles, userId) + (if b.user == userId then 1 else 0)
  {
    assert Posts(babbles + [b]) == Posts(babbles) + [Reputation.Authored(b.user, b.vibes)];
    Reputation.ReputationFormula(Posts(babbles + [b]), userId);
    Reputation.ReputationFormula(Posts(babbles), userId);
    Reputation.ContributionAppend(Posts(babbles), Reputation.Authored(b.user, b.vibes), userId);
  }

  /**
   * A vote on a babble changes only its author's reputation, by the change in
   * that babble's good-minus-bad count: the voter gains nothing from voting
   * on someone else's babble.
   */
  lemma {:induction false} ReputationAfterVote(babbles: seq<Babble>, babbleId: BabbleId, w: Vibes, userId: UserId)
    requires babbleId < |babbles|
    ensures GetReputation(babbles[babbleId := babbles[babbleId].(vibes := w)], userId)
            == GetReputation(babbles, userId)
               + (if babbles[babbleId].user == userId then VoteLedger.Net(w) - VoteLedger.Net(babbles[babbleId].vibes) else 0)
  {
    var updated := babbles[babbleId := babbles[babbleId].(vibes := w)];
    var posts := Posts(babbles);
    assert Posts(updated) == posts[babbleId := Reputation.Authored(posts[babbleId].author, w)];
    Reputation.ReputationFormula(Posts(updated), userId);
    Reputation.ReputationFormula(posts, userId);
    Reputation.ContributionUpdate(posts, babbleId, w, userId);
  }

  /** Each babble the user posts today raises the day's count by exactly one. */
  lemma {:induction false} CountTodayAfterPosts(babbles: seq<Babble>, posts: seq<Babble>, userId: UserId, today: CalendarDay)
    requires forall i :: 0 <= i < |posts| ==> PostedOn(posts[i], userId, today)
    ensures GetBabbleCountByUserToday(babbles + posts, userId, today)
            == GetBabbleCountByUserToday(babbles, userId, today) + |posts|
  {
    if posts != [] {
      var init := posts[..|posts| - 1];
      assert babbles + posts == (babbles + init) + [posts[|posts| - 1]];
      CountTodayAfterPosts(babbles, init, userId, today);
      CountTodayAppend(babbles + init, posts[|posts| - 1], userId, today);
    } else {
      assert babbles + posts == babbles;
    }
  }

  /** The redaction examples: 5 bad and 1 good over threshold 2 redacts; 3 bad and 1 good does not. */
  lemma RedactionExamples()
    ensures RedactionVerdict(Vibes([1], [2, 3, 4, 5, 6]), 2)
    ensures !RedactionVerdict(Vibes([1], [2, 3, 4]), 2)
    ensures !RedactionVerdict(Vibes([], [2, 3]), 2)
  {
  }

  /**
   * Finding, downstream: the vote sequence of `VoteLedger.VoteSequenceDrift`
   * on a new babble leaves its author with reputation 0 as written and 3 as
   * intended, and with no threshold the babble is redacted as written but not
   * as intended.
   */
  lemma {:induction false} VoteDriftDownstream(b: Babble)
    ensures var votes := [VoteLedger.Good(1), VoteLedger.Good(2), VoteLedger.Bad(1), VoteLedger.Good(1)];
            GetReputation([b.(vibes := VoteLedger.ReplayAsWritten(NoVibes, votes))], b.user) == 0 &&
            GetReputation([b.(vibes := VoteLedger.ReplayIntended(NoVibes, votes))], b.user) == 3
    ensures var votes := [VoteLedger.Good(1), VoteLedger.Good(2), VoteLedger.Bad(1), VoteLedger.Good(1)];
            RedactionVerdict(VoteLedger.ReplayAsWritten(NoVibes, votes), 0) &&
            !RedactionVerdict(VoteLedger.ReplayIntended(NoVibes, votes), 0)
  {
    var votes := [VoteLedger.Good(1), VoteLedger.Good(2), VoteLedger.Bad(1), VoteLedger.Good(1)];
    VoteLedger.VoteSequenceDrift();
    var written := b.(vibes := VoteLedger.ReplayAsWritten(NoVibes, votes));
    var intended := b.(vibes := VoteLedger.ReplayIntended(NoVibes, votes));
    SingleBabbleReputation(written);
    SingleBabbleReputation(intended);
  }

  /** A user's only babble gives them 1 plus its good-minus-bad count. */
  lemma {:induction false} SingleBabbleReputation(b: Babble)
    ensures GetReputation([b], b.user) == 1 + VoteLedger.Net(b.vibes)
  {
    var posts := Posts([b]);
    assert posts == [Reputation.Authored(b.user, b.vibes)];
    Reputation.ReputationFormula(posts, b.user);
    assert posts[1..] == [];
  }
}
