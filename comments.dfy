/**
 * The Comment model: the comment collection, posting under a babble, the
 * per-babble listing, votes, display names and reputation from comments.
 */
module Comments {
  import opened Records
  import VoteLedger
  import Ordering
  import Reputation
  import Babbles

  /** What the reputation fold reads of each comment (the same projection as `Babbles.Posts`, as the two models repeat each other). */
  function Posts(comments: seq<Comment>): (r: seq<Reputation.Authored>)
    ensures |r| == |comments|
    ensures forall i :: 0 <= i < |comments| ==> r[i] == Reputation.Authored(comments[i].user, comments[i].vibes)
  {
    seq(|comments|, i requires 0 <= i < |comments| => Reputation.Authored(comments[i].user, comments[i].vibes))
  }

  /** `find({babble: babbleId})`: the comments posted under a babble, in store order. */
  function UnderBabble(comments: seq<Comment>, babbleId: BabbleId): (r: seq<Comment>)
    ensures |r| <= |comments|
    ensures forall c :: c in r <==> c in comments && c.babble == babbleId
  {
    if comments == [] then []
    else
      var rest := UnderBabble(comments[1..], babbleId);
      assert comments == [comments[0]] + comments[1..];
      (if comments[0].babble == babbleId then [comments[0]] else []) + rest
  }

  function OldestFirst(c: Comment): int
  {
    c.timestamp.millis
  }

  /** `getAllCommentsForBabble`: exactly the babble's comments, the earliest first. */
  function GetAllCommentsForBabble(comments: seq<Comment>, babbleId: BabbleId): (r: seq<Comment>)
    ensures forall c :: c in r <==> c in comments && c.babble == babbleId
    ensures multiset(r) == multiset(UnderBabble(comments, babbleId))
    ensures forall i, j :: 0 <= i < j < |r| ==> r[i].timestamp.millis <= r[j].timestamp.millis
  {
    var matching := UnderBabble(comments, babbleId);
    var r := Ordering.SortBy(matching, OldestFirst);
    Ordering.SameElements(r, matching);
    assert Ordering.SortedBy(r, OldestFirst);
    r
  }

  /** `getCommentCountForBabble`: how many comments were posted under the babble. */
  function GetCommentCountForBabble(comments: seq<Comment>, babbleId: BabbleId): (n: nat)
    ensures n == |UnderBabble(comments, babbleId)|
  {
    |GetAllCommentsForBabble(comments, babbleId)|
  }

  /** `findOne({_id: commentId})`. */
  function GetComment(comments: seq<Comment>, commentId: CommentId): (r: Option<Comment>)
    ensures r.Some? <==> commentId < |comments|
    ensures r.Some? ==> r.value == comments[commentId]
  {
    if commentId < |comments| then Some(comments[commentId]) else None
  }

  /**
   * The display name of a comment: its pseudonym's string when it was posted
   * anonymously, otherwise its author's kerberos.
   */
  function GetDisplayName(comments: seq<Comment>, users: seq<User>, names: seq<AnonymousName>, commentId: CommentId)
    : (r: Result<string>)
    ensures commentId >= |comments| ==> r == Err(NotFound)
    ensures commentId < |comments| ==>
              var c := comments[commentId];
              (Resolve(c.anonymousName, names).Some? ==> r == Ok(names[c.anonymousName.value].anonymousName)) &&
              (Resolve(c.anonymousName, names).None? && c.user < |users| ==> r == Ok(users[c.user].kerberos)) &&
              (Resolve(c.anonymousName, names).None? && c.user >= |users| ==> r == Err(NotFound))
  {
    match GetComment(comments, commentId)
    case None => Err(NotFound)
    case Some(c) =>
      match DisplayName(c.user, c.anonymousName, users, names)
      case Some(s) => Ok(s)
      case None => Err(NotFound)
  }

  /** `getReputation`: the number of the user's comments plus their good votes minus their bad votes. */
  function GetReputation(comments: seq<Comment>, userId: UserId): int
  {
    Reputation.ReputationOf(Posts(comments), userId)
  }

  /** The comment collection. */
  class CommentTable {
    var comments: seq<Comment>

    constructor ()
      ensures comments == []
    {
      comments := [];
    }

    /**
     * `addComment`: save a new comment with no votes, then push its id onto
     * the parent babble's comment list. The comment is saved first, so it
     * stays stored even when the parent babble turns out to be missing.
     */
    method AddComment(content: string, babbleId: BabbleId, userId: UserId, anonymousNameId: Option<NameId>,
                      now: Date, babbleTable: Babbles.BabbleTable)
      returns (r: Result<CommentId>)
      modifies this, babbleTable
      ensures comments == old(comments) + [Comment(userId, anonymousNameId, content, babbleId, now, NoVibes)]
      ensures babbleId < |old(babbleTable.babbles)| ==>
                r == Ok(|old(comments)|) &&
                babbleTable.babbles == old(babbleTable.babbles)[babbleId :=
                  old(babbleTable.babbles)[babbleId].(comments := old(babbleTable.babbles)[babbleId].comments + [|old(comments)|])]
      ensures babbleId >= |old(babbleTable.babbles)| ==>
                r == Err(NotFound) && babbleTable.babbles == old(babbleTable.babbles)
    {
      var newComment := |comments|;
      comments := comments + [Comment(userId, anonymousNameId, content, babbleId, now, NoVibes)];
      var updatedBabble := babbleTable.AddComment(babbleId, newComment);
      if updatedBabble.Err? {
        return Err(updatedBabble.error);
      }
      r := Ok(newComment);
    }

    /**
     * `goodVibe`: read the comment, edit its vote lists, save it. The edit is the
     * corrected one, which splices the voter's own entry (see `VoteLedger`).
     */
    method GoodVibe(commentId: CommentId, userId: UserId) returns (r: Result<Comment>)
      modifies this
      ensures commentId >= |old(comments)| ==> r == Err(NotFound) && comments == old(comments)
      ensures commentId < |old(comments)| ==>
                comments == old(comments)[commentId := old(comments)[commentId].(vibes := VoteLedger.GoodVibeIntended(old(comments)[commentId].vibes, userId))]
                && r == Ok(comments[commentId])
      ensures commentId < |old(comments)| && VoteLedger.WellFormed(old(comments)[commentId].vibes) ==>
                VoteLedger.WellFormed(comments[commentId].vibes)
    {
      if commentId >= |comments| {
        return Err(NotFound);
      }
      var result := comments[commentId];
      result := result.(vibes := VoteLedger.GoodVibeIntended(result.vibes, userId));
      comments := comments[commentId := result];
      r := Ok(result);
    }

    /**
     * `badVibe`: read the comment, edit its vote lists, save it. The edit is the
     * corrected one, which splices the voter's own entry (see `VoteLedger`).
     */
    method BadVibe(commentId: CommentId, userId: UserId) returns (r: Result<Comment>)
      modifies this
      ensures commentId >= |old(comments)| ==> r == Err(NotFound) && comments == old(comments)
      ensures commentId < |old(comments)| ==>
                comments == old(comments)[commentId := old(comments)[commentId].(vibes := VoteLedger.BadVibeIntended(old(comments)[commentId].vibes, userId))]
                && r == Ok(comments[commentId])
      ensures commentId < |old(comments)| && VoteLedger.WellFormed(old(comments)[commentId].vibes) ==>
                VoteLedger.WellFormed(comments[commentId].vibes)
    {
      if commentId >= |comments| {
        return Err(NotFound);
      }
      var result := comments[commentId];
      result := result.(vibes := VoteLedger.BadVibeIntended(result.vibes, userId));
      comments := comments[commentId := result];
      r := Ok(result);
    }
  }

  // ---------------------------------------------------------------------------
  // Properties relating the operations.

  /**
   * Looking up the comment `addComment` just saved returns it, with no votes,
   * under the babble it was posted to; every other id looks up what it did before.
   */
  lemma GetAfterAddComment(comments: seq<Comment>, content: string, babbleId: BabbleId, userId: UserId,
                           anonymousNameId: Option<NameId>, now: Date)
    ensures var c := Comment(userId, anonymousNameId, content, babbleId, now, NoVibes);
            GetComment(comments + [c], |comments|) == Some(c) &&
            c.babble == babbleId && c.vibes.goodVibeUsers == [] && c.vibes.badVibeUsers == []
    ensures var c := Comment(userId, anonymousNameId, content, babbleId, now, NoVibes);
            forall id :: id != |comments| ==> GetComment(comments + [c], id) == GetComment(comments, id)
  {
  }

  /** A new comment joins its babble's listing and no other babble's. */
  lemma {:induction false} UnderBabbleAppend(comments: seq<Comment>, c: Comment, babbleId: BabbleId)
    ensures UnderBabble(comments + [c], babbleId)
            == UnderBabble(comments, babbleId) + (if c.babble == babbleId then [c] else [])
  {
    var all := comments + [c];
    if comments == [] {
      assert all[1..] == [];
    } else {
      assert all[0] == comments[0];
      assert all[1..] == comments[1..] + [c];
      UnderBabbleAppend(comments[1..], c, babbleId);
      var head := if comments[0].babble == babbleId then [comments[0]] else [];
      assert UnderBabble(all, babbleId) == head + UnderBabble(all[1..], babbleId);
      assert UnderBabble(comments, babbleId) == head + UnderBabble(comments[1..], babbleId);
    }
  }

  /** Posting a comment raises its babble's comment count by exactly 1 and leaves every other count. */
  lemma CountAfterAddComment(comments: seq<Comment>, c: Comment, babbleId: BabbleId)
    ensures GetCommentCountForBabble(comments + [c], babbleId)
            == GetCommentCountForBabble(comments, babbleId) + (if c.babble == babbleId then 1 else 0)
  {
    UnderBabbleAppend(comments, c, babbleId);
  }

  /**
   * Posting a comment raises its author's comment reputation by exactly 1 and
   * leaves everyone else's; `Babbles.ReputationAfterAddBabble` again, as
   * Comment.js repeats Babble.js.
   */
  lemma {:induction false} ReputationAfterAddComment(comments: seq<Comment>, c: Comment, userId: UserId)
    requires c.vibes == NoVibes
    ensures GetReputation(comments + [c], userId) == GetReputation(comments, userId) + (if c.user == userId then 1 else 0)
  {
    assert Posts(comments + [c]) == Posts(comments) + [Reputation.Authored(c.user, c.vibes)];
    Reputation.ReputationFormula(Posts(comments + [c]), userId);
    Reputation.ReputationFormula(Posts(comments), userId);
    Reputation.ContributionAppend(Posts(comments), Reputation.Authored(c.user, c.vibes), userId);
  }

  /**
   * A vote on a comment changes only its author's reputation, by the change
   * in that comment's good-minus-bad count: a voter gains nothing.
   * `Babbles.ReputationAfterVote` again, as Comment.js repeats Babble.js.
   */
  lemma {:induction false} ReputationAfterVote(comments: seq<Comment>, commentId: CommentId, w: Vibes, userId: UserId)
    requires commentId < |comments|
    ensures GetReputation(comments[commentId := comments[commentId].(vibes := w)], userId)
            == GetReputation(comments, userId)
               + (if comments[commentId].user == userId then VoteLedger.Net(w) - VoteLedger.Net(comments[commentId].vibes) else 0)
  {
    var updated := comments[commentId := comments[commentId].(vibes := w)];
    var posts := Posts(comments);
    assert Posts(updated) == posts[commentId := Reputation.Authored(posts[commentId].author, w)];
    Reputation.ReputationFormula(Posts(updated), userId);
    Reputation.ReputationFormula(posts, userId);
    Reputation.ContributionUpdate(posts, commentId, w, userId);
  }
}
