/**
 * The records of the Babble store, one datatype per collection.
 *
 * Each collection is an insertion-ordered sequence of records and a record's
 * id is its position in that sequence: documents are never deleted by the
 * modelled code, so positions are stable, unique ids, as ObjectIds are.
 */
module Records {

  type UserId = nat
  type BabbleId = nat
  type CommentId = nat
  type NameId = nat

  datatype Option<T> = None | Some(value: T)

  /** The ways a modelled operation can fail instead of returning a record. */
  datatype Failure =
    | NotFound      // the referenced document does not exist (a `null` the code dereferences)
    | NoFreshName   // every supplied random draw produced a name already used in the thread

  datatype Result<T> = Ok(value: T) | Err(error: Failure)

  /** A local calendar date, as `getFullYear`, `getMonth` and `getDate` read it. */
  datatype CalendarDay = CalendarDay(year: int, month: int, date: int)

  /**
   * A JavaScript `Date`: its instant in milliseconds, and the local calendar
   * date of that instant (a function of the server's time zone, which is not
   * modelled, so it is carried alongside).
   */
  datatype Date = Date(millis: int, day: CalendarDay)

  /** The two vote lists every babble and comment carries. */
  datatype Vibes = Vibes(goodVibeUsers: seq<UserId>, badVibeUsers: seq<UserId>)

  const NoVibes: Vibes := Vibes([], [])

  datatype User = User(name: string, password: string, kerberos: string, email: string, babbleLimit: int)

  datatype Babble = Babble(
    content: string,
    user: UserId,
    anonymousName: Option<NameId>,
    comments: seq<CommentId>,
    timestamp: Date,
    vibes: Vibes)

  datatype Comment = Comment(
    user: UserId,
    anonymousName: Option<NameId>,
    content: string,
    babble: BabbleId,
    timestamp: Date,
    vibes: Vibes)

  datatype AnonymousName = AnonymousName(anonymousName: string, user: UserId)

  /** The stored leaderboard: when it was computed and the ranked user ids. */
  datatype Snapshot = Snapshot(updatedTime: int, topUsers: seq<UserId>)

  /**
   * What populating an `anonymousName` reference yields: the id when it names
   * a stored record, nothing when the reference is null or dangling.
   */
  function Resolve(ref: Option<NameId>, names: seq<AnonymousName>): (r: Option<NameId>)
    ensures r.Some? <==> ref.Some? && ref.value < |names|
    ensures r.Some? ==> r == ref
  {
    if ref.Some? && ref.value < |names| then ref else None
  }

  /**
   * The name a post is shown under: the pseudonym's string when the post's
   * `anonymousName` resolves to a stored pseudonym, otherwise the author's
   * kerberos; a missing author is dereferenced as null and fails.
   */
  function DisplayName(author: UserId, anonymousName: Option<NameId>, users: seq<User>, names: seq<AnonymousName>)
    : (r: Option<string>)
    ensures anonymousName.Some? && anonymousName.value < |names| ==>
              r == Some(names[anonymousName.value].anonymousName)
    ensures (anonymousName.None? || anonymousName.value >= |names|) ==>
              (r.Some? <==> author < |users|) && (r.Some? ==> r.value == users[author].kerberos)
  {
    match Resolve(anonymousName, names)
    case Some(n) => Some(names[n].anonymousName)
    case None => if author < |users| then Some(users[author].kerberos) else None
  }
}
