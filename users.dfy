/**
 * The User model: the posting quota derived from reputation, the record a
 * registration creates, the lookup by kerberos, and a user's total
 * reputation over babbles and comments.
 */
module Users {
  import opened Records
  import Reputation
  import Babbles
  import Comments

  /** The quota a newly registered user starts with. */
  const InitialLimit: int := 5

  /**
   * `updateLimit`'s formula: with a positive reputation, `floor(rep / 50) + 5`
   * babbles a day; otherwise one.
   */
  function Quota(reputation: int): (limit: int)
    ensures limit >= 1
    ensures reputation <= 0 ==> limit == 1
    ensures reputation > 0 ==> limit >= 5 && 50 * (limit - 5) <= reputation < 50 * (limit - 4)
  {
    if reputation > 0 then reputation / 50 + 5 else 1
  }

  /** The posting gate: a user may post another babble today while today's count is below the limit. */
  predicate MayPost(babbleCountToday: nat, limit: int)
  {
    babbleCountToday < limit
  }

  /**
   * The record `sendVerification` builds for a registration: the given name,
   * password and kerberos, the MIT address of the kerberos, and the initial quota.
   */
  function NewUser(kerberos: string, name: string, password: string): (u: User)
    ensures u.kerberos == kerberos && u.name == name && u.password == password
    ensures u.email == kerberos + "@mit.edu"
    ensures u.babbleLimit == InitialLimit
  {
    User(name, password, kerberos, kerberos + "@mit.edu", InitialLimit)
  }

  /** `getUser`: the first user whose kerberos is exactly `kerberos`, or nothing. */
  function FindByKerberos(users: seq<User>, kerberos: string): (r: Option<UserId>)
    ensures r.None? <==> forall i :: 0 <= i < |users| ==> users[i].kerberos != kerberos
    ensures r.Some? ==> r.value < |users| && users[r.value].kerberos == kerberos &&
                        forall j :: 0 <= j < r.value ==> users[j].kerberos != kerberos
  {
    if users == [] then None
    else if users[0].kerberos == kerberos then Some(0)
    else
      match FindByKerberos(users[1..], kerberos)
      case None => None
      case Some(k) => Some(k + 1)
  }

  /** `getReputation`: the babble reputation plus the comment reputation. */
  function GetReputation(babbles: seq<Babble>, comments: seq<Comment>, userId: UserId): int
  {
    Babbles.GetReputation(babbles, userId) + Comments.GetReputation(comments, userId)
  }

  /** The user collection. */
  class UserTable {
    var users: seq<User>

    constructor ()
      ensures users == []
    {
      users := [];
    }

    /** A verified registration stores the record `sendVerification` built. */
    method Register(kerberos: string, name: string, password: string) returns (userId: UserId)
      modifies this
      ensures userId == |old(users)|
      ensures users == old(users) + [NewUser(kerberos, name, password)]
    {
      userId := |users|;
      users := users + [NewUser(kerberos, name, password)];
    }

    /**
     * `updateLimit`: look the user up by id and overwrite only its
     * `babbleLimit` with the quota for `reputation`; a missing user fails.
     */
    method UpdateLimit(userId: UserId, reputation: int) returns (r: Result<User>)
      modifies this
      ensures userId >= |old(users)| ==> r == Err(NotFound) && users == old(users)
      ensures userId < |old(users)| ==>
                users == old(users)[userId := old(users)[userId].(babbleLimit := Quota(reputation))]
                && r == Ok(users[userId])
    {
      var newLimit := reputation / 50;  // a positive divisor: Dafny's division floors, as `Math.floor` does
      if userId >= |users| {
        return Err(NotFound);
      }
      var user := users[userId];
      if reputation > 0 {
        user := user.(babbleLimit := newLimit + 5);
      } else {
        user := user.(babbleLimit := 1);
      }
      users := users[userId := user];
      r := Ok(user);
    }
  }

  // ---------------------------------------------------------------------------
  // Properties relating the operations.

  /** A higher reputation never lowers the quota. */
  lemma QuotaMonotone(low: int, high: int)
    requires low <= high
    ensures Quota(low) <= Quota(high)
  {
  }

  /** Every 50 points of reputation above zero buy exactly one more babble a day. */
  lemma QuotaStep(reputation: int)
    requires reputation > 0
    ensures Quota(reputation + 50) == Quota(reputation) + 1
  {
  }

  /** The quota examples: 101 gives 7, 35 gives 5, 50 gives 6, 1 gives 5, 0 and -3 give 1. */
  lemma QuotaExamples()
    ensures Quota(101) == 7 && Quota(35) == 5 && Quota(50) == 6 && Quota(1) == 5
    ensures Quota(0) == 1 && Quota(-3) == 1
  {
  }

  /**
   * Whatever the reputation, a user whose limit was set by `updateLimit` may
   * post at least once a day; a user with positive reputation at least five times.
   */
  lemma QuotaAlwaysAdmitsOne(reputation: int, count: nat)
    ensures MayPost(0, Quota(reputation))
    ensures reputation > 0 && count < 5 ==> MayPost(count, Quota(reputation))
    ensures reputation <= 0 ==> (MayPost(count, Quota(reputation)) <==> count == 0)
  {
  }

  /** A new user may post exactly five babbles a day until the first limit update. */
  lemma NewUserQuota(kerberos: string, name: string, password: string, count: nat)
    ensures MayPost(count, NewUser(kerberos, name, password).babbleLimit) <==> count < 5
  {
  }

  /** Lookup finds a registered kerberos, and the first registration wins. */
  lemma {:induction false} FindAfterRegister(users: seq<User>, u: User)
    ensures FindByKerberos(users + [u], u.kerberos).Some?
    ensures FindByKerberos(users, u.kerberos).Some? ==>
              FindByKerberos(users + [u], u.kerberos) == FindByKerberos(users, u.kerberos)
    ensures FindByKerberos(users, u.kerberos).None? ==>
              FindByKerberos(users + [u], u.kerberos) == Some(|users|)
  {
    var all := users + [u];
    assert all[|users|].kerberos == u.kerberos;
    assert forall j :: 0 <= j < |users| ==> all[j] == users[j];
  }

  /**
   * The total reputation is the formula over both collections together: each
   * babble and each comment the user authored counts 1 plus its good votes
   * minus its bad votes.
   */
  lemma {:induction false} ReputationFormula(babbles: seq<Babble>, comments: seq<Comment>, userId: UserId)
    ensures GetReputation(babbles, comments, userId)
            == Reputation.Contribution(Babbles.Posts(babbles) + Comments.Posts(comments), userId)
  {
    Reputation.ReputationFormula(Babbles.Posts(babbles), userId);
    Reputation.ReputationFormula(Comments.Posts(comments), userId);
    Reputation.ContributionConcat(Babbles.Posts(babbles), Comments.Posts(comments), userId);
  }

  /** A user who has posted nothing has reputation 0, and so the smallest quota. */
  lemma {:induction false} NoPostsNoReputation(babbles: seq<Babble>, comments: seq<Comment>, userId: UserId)
    requires forall i :: 0 <= i < |babbles| ==> babbles[i].user != userId
    requires forall i :: 0 <= i < |comments| ==> comments[i].user != userId
    ensures GetReputation(babbles, comments, userId) == 0
    ensures Quota(GetReputation(babbles, comments, userId)) == 1
  {
    ReputationFormula(babbles, comments, userId);
    var posts := Babbles.Posts(babbles) + Comments.Posts(comments);
    assert forall i :: 0 <= i < |posts| ==> posts[i].author != userId;
    NobodyElseContributes(posts, userId);
  }

  lemma {:induction false} NobodyElseContributes(posts: seq<Reputation.Authored>, userId: UserId)
    requires forall i :: 0 <= i < |posts| ==> posts[i].author != userId
    ensures Reputation.Contribution(posts, userId) == 0
  {
    if posts != [] {
      NobodyElseContributes(posts[1..], userId);
    }
  }
}
