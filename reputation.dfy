/**
 * The reputation fold shared by babbles and comments: the documents a user
 * authored (`find({user: userId})`), reduced from the initial value "number
 * of documents" by adding each one's good votes and subtracting its bad votes.
 */
module Reputation {
  import opened Records
  import opened VoteLedger

  /** What the fold reads of one babble or comment: its author and its votes. */
  datatype Authored = Authored(author: UserId, vibes: Vibes)

  /** `find({user: u})`: the vote lists of the documents `u` authored, in store order. */
  function OfUser(posts: seq<Authored>, u: UserId): (r: seq<Vibes>)
    ensures |r| <= |posts|
  {
    if posts == [] then []
    else (if posts[0].author == u then [posts[0].vibes] else []) + OfUser(posts[1..], u)
  }

  /** `array.reduce((total, d) => total + |good| - |bad|, total)`. */
  function Reduce(vs: seq<Vibes>, total: int): int
  {
    if vs == [] then total else Reduce(vs[1..], total + |vs[0].goodVibeUsers| - |vs[0].badVibeUsers|)
  }

  /** `getReputation`: the fold started at the number of authored documents. */
  function ReputationOf(posts: seq<Authored>, u: UserId): int
  {
    var mine := OfUser(posts, u);
    Reduce(mine, |mine|)
  }

  /**
   * The reputation formula stated per document: each document `u` authored
   * counts 1 plus its good votes minus its bad votes; other documents count 0.
   */
  function Contribution(posts: seq<Authored>, u: UserId): int
  {
    if posts == [] then 0
    else (if posts[0].author == u then 1 + Net(posts[0].vibes) else 0) + Contribution(posts[1..], u)
  }

  lemma {:induction false} ReduceAddsNets(vs: seq<Vibes>, total: int)
    ensures Reduce(vs, total) == total + Reduce(vs, 0)
    ensures vs != [] ==> Reduce(vs, 0) == Net(vs[0]) + Reduce(vs[1..], 0)
  {
    if vs != [] {
      ReduceAddsNets(vs[1..], total + Net(vs[0]));
      ReduceAddsNets(vs[1..], Net(vs[0]));
    }
  }

  /** The fold computes the formula: reputation is the sum of every authored document's contribution. */
  lemma {:induction false} ReputationFormula(posts: seq<Authored>, u: UserId)
    ensures ReputationOf(posts, u) == Contribution(posts, u)
  {
    if posts != [] {
      ReputationFormula(posts[1..], u);
      var rest := OfUser(posts[1..], u);
      ReduceAddsNets(rest, |rest|);
      if posts[0].author == u {
        var mine := [posts[0].vibes] + rest;
        assert OfUser(posts, u) == mine;
        assert mine[1..] == rest;
        ReduceAddsNets(mine, |mine|);
      } else {
        assert OfUser(posts, u) == rest;
      }
    }
  }

  /** A new document changes its author's reputation by 1 plus its net votes, and no one else's. */
  lemma {:induction false} ContributionAppend(posts: seq<Authored>, p: Authored, u: UserId)
    ensures Contribution(posts + [p], u) == Contribution(posts, u) + (if p.author == u then 1 + Net(p.vibes) else 0)
  {
    if posts != [] {
      assert (posts + [p])[1..] == posts[1..] + [p];
      ContributionAppend(posts[1..], p, u);
    } else {
      assert ([] + [p])[1..] == [];
    }
  }

  /** Reputation over two collections is the sum of the reputations over each. */
  lemma {:induction false} ContributionConcat(xs: seq<Authored>, ys: seq<Authored>, u: UserId)
    ensures Contribution(xs + ys, u) == Contribution(xs, u) + Contribution(ys, u)
  {
    if xs != [] {
      assert (xs + ys)[1..] == xs[1..] + ys;
      ContributionConcat(xs[1..], ys, u);
    } else {
      assert [] + ys == ys;
    }
  }

  /**
   * Replacing the votes of one document changes only its author's reputation,
   * by the change in that document's net votes.
   */
  lemma {:induction false} ContributionUpdate(posts: seq<Authored>, k: nat, w: Vibes, u: UserId)
    requires k < |posts|
    ensures Contribution(posts[k := Authored(posts[k].author, w)], u)
            == Contribution(posts, u) + (if posts[k].author == u then Net(w) - Net(posts[k].vibes) else 0)
  {
    var updated := posts[k := Authored(posts[k].author, w)];
    if k == 0 {
      assert updated[1..] == posts[1..];
    } else {
      assert updated[1..] == posts[1..][k - 1 := Authored(posts[k].author, w)];
      ContributionUpdate(posts[1..], k - 1, w, u);
    }
  }
}
