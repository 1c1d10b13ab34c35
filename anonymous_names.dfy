/**
 * The AnonymousName model: pseudonyms of the form "action fruit", one per
 * anonymous babble, and per thread (a babble and the comments under it) one
 * per anonymous commenter, reused when the commenter asks again and otherwise
 * drawn until its string is new to the thread.
 *
 * The two random word picks of `generate` are supplied as `Draw`s: any
 * natural numbers, reduced to an index into each word list.
 */
module AnonymousNames {
  import opened Records
  import Babbles
  import Comments

  /** One call to `generate`: the random picks into the action and fruit lists. */
  datatype Draw = Draw(action: nat, fruit: nat)

  /** Two words, an action then a fruit, separated by a single space. */
  ghost predicate IsActionFruit(actions: seq<string>, fruits: seq<string>, s: string)
  {
    exists i, j :: 0 <= i < |actions| && 0 <= j < |fruits| && s == actions[i] + " " + fruits[j]
  }

  /** `generate`: the drawn action, a space, the drawn fruit. */
  function Generate(actions: seq<string>, fruits: seq<string>, d: Draw): (name: string)
    requires 0 < |actions| && 0 < |fruits|
    ensures IsActionFruit(actions, fruits, name)
  {
    var i := d.action % |actions|;
    var j := d.fruit % |fruits|;
    actions[i] + " " + fruits[j]
  }

  /**
   * `getAllAnonymousNamesInComments`: for each of the babble's comments that
   * populates (a comment id that is stored), its pseudonym, or nothing where
   * the comment has none.
   */
  function CommentNames(commentIds: seq<CommentId>, comments: seq<Comment>, names: seq<AnonymousName>)
    : (r: seq<Option<NameId>>)
    ensures |r| <= |commentIds|
    ensures forall k :: 0 <= k < |r| ==> r[k].None? || r[k].value < |names|
    ensures (forall k :: 0 <= k < |commentIds| ==> commentIds[k] < |comments|) ==>
              |r| == |commentIds| &&
              forall k :: 0 <= k < |r| ==> r[k] == Resolve(comments[commentIds[k]].anonymousName, names)
  {
    if commentIds == [] then []
    else
      var rest := CommentNames(commentIds[1..], comments, names);
      assert forall k :: 1 <= k < |commentIds| ==> commentIds[k] == commentIds[1..][k - 1];
      if commentIds[0] < |comments| then [Resolve(comments[commentIds[0]].anonymousName, names)] + rest
      else rest
  }

  /** `getAllAnonymousNamesInBabble`: the babble's own pseudonym, then its comments'. */
  function ThreadNames(babble: Babble, comments: seq<Comment>, names: seq<AnonymousName>)
    : (r: seq<Option<NameId>>)
    ensures 0 < |r| && r[0] == Resolve(babble.anonymousName, names)
    ensures r[1..] == CommentNames(babble.comments, comments, names)
    ensures |r| <= 1 + |babble.comments|
    ensures forall k :: 0 <= k < |r| ==> r[k].None? || r[k].value < |names|
  {
    [Resolve(babble.anonymousName, names)] + CommentNames(babble.comments, comments, names)
  }

  /** Whether a thread entry is a stored name that belongs to `userId`. */
  predicate Owns(entry: Option<NameId>, names: seq<AnonymousName>, userId: UserId)
  {
    entry.Some? && entry.value < |names| && names[entry.value].user == userId
  }

  /** The filter in `getAnonymousNameForComment`: the thread's names that belong to `userId`, in thread order. */
  function OwnedBy(thread: seq<Option<NameId>>, names: seq<AnonymousName>, userId: UserId): (r: seq<NameId>)
    ensures |r| <= |thread|
    ensures forall k :: 0 <= k < |r| ==> r[k] < |names| && names[r[k]].user == userId && Some(r[k]) in thread
    ensures forall k :: (0 <= k < |thread| && thread[k].Some? && thread[k].value < |names| &&
                         names[thread[k].value].user == userId) ==> thread[k].value in r
  {
    if thread == [] then []
    else
      var rest := OwnedBy(thread[1..], names, userId);
      assert forall k :: 1 <= k < |thread| ==> thread[k] == thread[1..][k - 1];
      if Owns(thread[0], names, userId) then
        [thread[0].value] + rest
      else
        rest
  }

  /** The filter in `containsName`: the thread's names whose string is `s`. */
  function SameNames(thread: seq<Option<NameId>>, names: seq<AnonymousName>, s: string): (r: seq<NameId>)
    ensures forall k :: 0 <= k < |r| ==> r[k] < |names| && names[r[k]].anonymousName == s && Some(r[k]) in thread
    ensures forall k :: (0 <= k < |thread| && thread[k].Some? && thread[k].value < |names| &&
                         names[thread[k].value].anonymousName == s) ==> thread[k].value in r
  {
    if thread == [] then []
    else
      var rest := SameNames(thread[1..], names, s);
      assert forall k :: 1 <= k < |thread| ==> thread[k] == thread[1..][k - 1];
      if thread[0].Some? && thread[0].value < |names| && names[thread[0].value].anonymousName == s then
        [thread[0].value] + rest
      else
        rest
  }

  /** `containsName`: whether some name in the thread has the string `s`. */
  function ContainsName(thread: seq<Option<NameId>>, names: seq<AnonymousName>, s: string): (r: bool)
    ensures r <==> exists k :: 0 <= k < |thread| && thread[k].Some? && thread[k].value < |names| &&
                              names[thread[k].value].anonymousName == s
  {
    var same := SameNames(thread, names, s);
    assert |same| != 0 ==> Some(same[0]) in thread;
    |same| != 0
  }

  /** The first draw whose generated string is not yet used in the thread. */
  function FirstFresh(actions: seq<string>, fruits: seq<string>, thread: seq<Option<NameId>>,
                      names: seq<AnonymousName>, draws: seq<Draw>): (r: Option<nat>)
    requires 0 < |actions| && 0 < |fruits|
    ensures r.Some? ==> r.value < |draws| && !ContainsName(thread, names, Generate(actions, fruits, draws[r.value]))
    ensures forall k :: 0 <= k < |draws| && (r.None? || k < r.value) ==>
                        ContainsName(thread, names, Generate(actions, fruits, draws[k]))
  {
    if draws == [] then None
    else if !ContainsName(thread, names, Generate(actions, fruits, draws[0])) then Some(0)
    else
      var rest := FirstFresh(actions, fruits, thread, names, draws[1..]);
      assert forall k :: 1 <= k < |draws| ==> draws[k] == draws[1..][k - 1];
      match rest
      case None => None
      case Some(k) => Some(k + 1)
  }

  /** The pseudonym collection, with the two word lists `generate` picks from. */
  class NameTable {
    const actions: seq<string>
    const fruits: seq<string>
    var names: seq<AnonymousName>

    predicate Valid()
    {
      0 < |actions| && 0 < |fruits|
    }

    constructor (actions: seq<string>, fruits: seq<string>)
      requires 0 < |actions| && 0 < |fruits|
      ensures Valid()
      ensures this.actions == actions && this.fruits == fruits && names == []
    {
      this.actions := actions;
      this.fruits := fruits;
      names := [];
    }

    /** `getNewAnonymousNameForBabble`: store one freshly generated name for the user, unchecked. */
    method NewNameForBabble(userId: UserId, draw: Draw) returns (nameId: NameId)
      requires Valid()
      modifies this
      ensures nameId == |old(names)|
      ensures names == old(names) + [AnonymousName(Generate(actions, fruits, draw), userId)]
    {
      var newName := Generate(actions, fruits, draw);
      nameId := |names|;
      names := names + [AnonymousName(newName, userId)];
    }

    /**
     * `getNewAnonymousNameForComment`: generate names until one is not used in
     * the thread, then store it for the user. A collision retries with the
     * next draw; running out of draws fails and stores nothing.
     */
    method NewNameForComment(babble: Babble, comments: seq<Comment>, userId: UserId, draws: seq<Draw>)
      returns (r: Result<NameId>)
      requires Valid()
      modifies this
      ensures var first := FirstFresh(actions, fruits, ThreadNames(babble, comments, old(names)), old(names), draws);
              (first.None? ==> r == Err(NoFreshName) && names == old(names)) &&
              (first.Some? ==> r == Ok(|old(names)|) &&
                               names == old(names) + [AnonymousName(Generate(actions, fruits, draws[first.value]), userId)])
    {
      // `containsName` reads the thread again on every retry; nothing changes it in between.
      var thread := ThreadNames(babble, comments, names);
      ghost var first := FirstFresh(actions, fruits, thread, names, draws);
      var i := 0;
      while i < |draws|
        invariant 0 <= i <= |draws|
        invariant names == old(names)
        invariant forall k :: 0 <= k < i ==> ContainsName(thread, names, Generate(actions, fruits, draws[k]))
      {
        var newName := Generate(actions, fruits, draws[i]);
        if !ContainsName(thread, names, newName) {
          assert first == Some(i);
          r := Ok(|names|);
          names := names + [AnonymousName(newName, userId)];
          return;
        }
        i := i + 1;
      }
      r := Err(NoFreshName);
    }

    /**
     * `getAnonymousNameForComment`: the first name in the thread the user
     * already owns; if none, a new one. A missing babble fails.
     */
    method NameForComment(babbleTable: Babbles.BabbleTable, commentTable: Comments.CommentTable,
                          babbleId: BabbleId, userId: UserId, draws: seq<Draw>)
      returns (r: Result<NameId>)
      requires Valid()
      modifies this
      ensures babbleId >= |babbleTable.babbles| ==> r == Err(NotFound) && names == old(names)
      ensures babbleId < |babbleTable.babbles| ==>
                var thread := ThreadNames(babbleTable.babbles[babbleId], commentTable.comments, old(names));
                var owned := OwnedBy(thread, old(names), userId);
                var first := FirstFresh(actions, fruits, thread, old(names), draws);
                (owned != [] ==> r == Ok(owned[0]) && names == old(names)) &&
                (owned == [] && first.None? ==> r == Err(NoFreshName) && names == old(names)) &&
                (owned == [] && first.Some? ==>
                   r == Ok(|old(names)|) &&
                   names == old(names) + [AnonymousName(Generate(actions, fruits, draws[first.value]), userId)])
    {
      if babbleId >= |babbleTable.babbles| {
        return Err(NotFound);
      }
      var babble := babbleTable.babbles[babbleId];
      var filtered := OwnedBy(ThreadNames(babble, commentTable.comments, names), names, userId);
      if |filtered| == 0 {
        r := NewNameForComment(babble, commentTable.comments, userId, draws);
      } else {
        r := Ok(filtered[0]);
      }
    }
  }

  // ---------------------------------------------------------------------------
  // Properties relating the operations.

  /** The babble's poster, asking for a comment name, gets the babble's own pseudonym back. */
  lemma PosterKeepsBabbleName(babble: Babble, comments: seq<Comment>, names: seq<AnonymousName>, userId: UserId)
    requires babble.anonymousName.Some? && babble.anonymousName.value < |names|
    requires names[babble.anonymousName.value].user == userId
    ensures var owned := OwnedBy(ThreadNames(babble, comments, names), names, userId);
            owned != [] && owned[0] == babble.anonymousName.value
  {
  }

  /** Every stored reference of the thread (its comments, their pseudonyms and the babble's) points at a stored record. */
  ghost predicate ThreadRefsStored(babble: Babble, comments: seq<Comment>, names: seq<AnonymousName>)
  {
    (babble.anonymousName.Some? ==> babble.anonymousName.value < |names|) &&
    forall k :: 0 <= k < |babble.comments| ==>
      babble.comments[k] < |comments| &&
      (comments[babble.comments[k]].anonymousName.Some? ==> comments[babble.comments[k]].anonymousName.value < |names|)
  }

  /** The name `getAnonymousNameForComment` reuses is the user's first owned entry in thread order. */
  lemma {:induction false} OwnedByFirst(thread: seq<Option<NameId>>, names: seq<AnonymousName>, userId: UserId, k: nat)
    requires k < |thread| && Owns(thread[k], names, userId)
    requires forall j :: 0 <= j < k ==> !Owns(thread[j], names, userId)
    ensures OwnedBy(thread, names, userId) != [] && OwnedBy(thread, names, userId)[0] == thread[k].value
  {
    if k > 0 {
      assert !Owns(thread[0], names, userId);
      assert forall j :: 0 <= j < k - 1 ==> thread[1..][j] == thread[j + 1];
      OwnedByFirst(thread[1..], names, userId, k - 1);
    }
  }

  /** A name owned by the asker, appended to the thread, joins the end of the owned list. */
  lemma {:induction false} OwnedByAppend(thread: seq<Option<NameId>>, names: seq<AnonymousName>, userId: UserId, n: NameId)
    requires n < |names| && names[n].user == userId
    ensures OwnedBy(thread + [Some(n)], names, userId) == OwnedBy(thread, names, userId) + [n]
  {
    if thread == [] {
      assert ([] + [Some(n)])[1..] == [];
    } else {
      assert (thread + [Some(n)])[1..] == thread[1..] + [Some(n)];
      OwnedByAppend(thread[1..], names, userId, n);
    }
  }

  /** Stored comments keep their pseudonyms when another comment is stored after them. */
  lemma {:induction false} CommentNamesAfterNewComment(commentIds: seq<CommentId>, comments: seq<Comment>, c: Comment,
                                                       names: seq<AnonymousName>)
    requires forall k :: 0 <= k < |commentIds| ==> commentIds[k] < |comments|
    ensures CommentNames(commentIds + [|comments|], comments + [c], names)
            == CommentNames(commentIds, comments, names) + [Resolve(c.anonymousName, names)]
  {
    if commentIds == [] {
      assert ([] + [|comments|])[1..] == [];
    } else {
      assert (commentIds + [|comments|])[1..] == commentIds[1..] + [|comments|];
      assert (comments + [c])[commentIds[0]] == comments[commentIds[0]];
      CommentNamesAfterNewComment(commentIds[1..], comments, c, names);
    }
  }

  /** Storing a new pseudonym does not change how a thread whose references are all stored resolves. */
  lemma {:induction false} CommentNamesAfterNewName(commentIds: seq<CommentId>, comments: seq<Comment>,
                                                    names: seq<AnonymousName>, x: AnonymousName)
    requires forall k :: 0 <= k < |commentIds| ==>
               commentIds[k] < |comments| &&
               (comments[commentIds[k]].anonymousName.Some? ==> comments[commentIds[k]].anonymousName.value < |names|)
    ensures CommentNames(commentIds, comments, names + [x]) == CommentNames(commentIds, comments, names)
  {
    if commentIds != [] {
      assert forall k :: 1 <= k < |commentIds| ==> commentIds[k] == commentIds[1..][k - 1];
      CommentNamesAfterNewName(commentIds[1..], comments, names, x);
    }
  }

  /** A comment stored and linked under the babble adds its pseudonym at the end of the thread. */
  lemma ThreadAfterNewComment(babble: Babble, comments: seq<Comment>, names: seq<AnonymousName>, c: Comment)
    requires forall k :: 0 <= k < |babble.comments| ==> babble.comments[k] < |comments|
    ensures ThreadNames(babble.(comments := babble.comments + [|comments|]), comments + [c], names)
            == ThreadNames(babble, comments, names) + [Resolve(c.anonymousName, names)]
  {
    CommentNamesAfterNewComment(babble.comments, comments, c, names);
  }

  /** Storing a new pseudonym leaves a thread whose references are all stored as it was. */
  lemma ThreadAfterNewName(babble: Babble, comments: seq<Comment>, names: seq<AnonymousName>, x: AnonymousName)
    requires ThreadRefsStored(babble, comments, names)
    ensures ThreadNames(babble, comments, names + [x]) == ThreadNames(babble, comments, names)
  {
    CommentNamesAfterNewName(babble.comments, comments, names, x);
  }

  /**
   * Stability, when the commenter already owned a name in the thread: after
   * commenting under it, asking again in the same thread returns it again.
   */
  lemma StableWhenOwned(babble: Babble, comments: seq<Comment>, names: seq<AnonymousName>,
                        userId: UserId, c: Comment)
    requires ThreadRefsStored(babble, comments, names)
    requires OwnedBy(ThreadNames(babble, comments, names), names, userId) != []
    requires c.anonymousName == Some(OwnedBy(ThreadNames(babble, comments, names), names, userId)[0])
    ensures var after := babble.(comments := babble.comments + [|comments|]);
            var owned := OwnedBy(ThreadNames(after, comments + [c], names), names, userId);
            owned != [] && owned[0] == c.anonymousName.value
  {
    var thread := ThreadNames(babble, comments, names);
    ThreadAfterNewComment(babble, comments, names, c);
    OwnedByAppend(thread, names, userId, c.anonymousName.value);
  }

  /**
   * Stability, when the commenter owned no name in the thread and got a new
   * one: after storing it and commenting under it, asking again in the same
   * thread returns that new name.
   */
  lemma StableWhenNew(babble: Babble, comments: seq<Comment>, names: seq<AnonymousName>,
                      userId: UserId, s: string, c: Comment)
    requires ThreadRefsStored(babble, comments, names)
    requires OwnedBy(ThreadNames(babble, comments, names), names, userId) == []
    requires c.anonymousName == Some(|names|)
    ensures var after := babble.(comments := babble.comments + [|comments|]);
            var names2 := names + [AnonymousName(s, userId)];
            var owned := OwnedBy(ThreadNames(after, comments + [c], names2), names2, userId);
            owned != [] && owned[0] == |names|
  {
    var x := AnonymousName(s, userId);
    var names2 := names + [x];
    var thread := ThreadNames(babble, comments, names);
    ThreadAfterNewName(babble, comments, names, x);
    OwnedByGrowsOnlyAtNew(thread, names, x, userId);
    ThreadAfterNewComment(babble, comments, names2, c);
    assert Resolve(c.anonymousName, names2) == Some(|names|);
    OwnedByAppend(thread, names2, userId, |names|);
  }

  /** Storing a new name changes no owner of a thread that only refers to stored names. */
  lemma {:induction false} OwnedByGrowsOnlyAtNew(thread: seq<Option<NameId>>, names: seq<AnonymousName>,
                                                 x: AnonymousName, userId: UserId)
    requires forall k :: 0 <= k < |thread| ==> thread[k].None? || thread[k].value < |names|
    ensures OwnedBy(thread, names + [x], userId) == OwnedBy(thread, names, userId)
  {
    if thread != [] {
      assert forall k :: 1 <= k < |thread| ==> thread[k] == thread[1..][k - 1];
      OwnedByGrowsOnlyAtNew(thread[1..], names, x, userId);
      if thread[0].Some? {
        assert (names + [x])[thread[0].value] == names[thread[0].value];
      }
    }
  }

  /** A name made for a comment differs from every name string already in the thread. */
  lemma NewCommentNameIsFresh(actions: seq<string>, fruits: seq<string>, babble: Babble, comments: seq<Comment>,
                              names: seq<AnonymousName>, draws: seq<Draw>, k: nat)
    requires 0 < |actions| && 0 < |fruits|
    requires FirstFresh(actions, fruits, ThreadNames(babble, comments, names), names, draws) == Some(k)
    ensures forall m :: 0 <= m < |ThreadNames(babble, comments, names)| && ThreadNames(babble, comments, names)[m].Some? ==>
              names[ThreadNames(babble, comments, names)[m].value].anonymousName != Generate(actions, fruits, draws[k])
    ensures IsActionFruit(actions, fruits, Generate(actions, fruits, draws[k]))
  {
  }
}
