# Babble core, modelled in Dafny

Babble is an anonymous-capable posting board. Users post short messages
("babbles"), either as themselves or under a per-thread pseudonym. They comment
under babbles and react to posts with good or bad "vibes". Reputation, computed
from those reactions, sets a daily posting quota and feeds a weekly leaderboard.
A babble with enough mostly-bad votes is flagged for redaction.

This project models the five model modules of the repository: Babble, Comment,
User, AnonymousName and TopTen.

- **Store.** Each document collection is a `seq` of datatype records inside one
  class per module: `BabbleTable`, `CommentTable`, `UserTable`, `NameTable` and
  `TopTenTable`. A document's id is its position in that sequence. The modelled
  code never deletes babbles, comments, users or names, so positions are stable
  ids.
- **Methods.** Operations that read a document, edit it and save it are methods
  that reassign the table field.
- **Functions.** Queries, folds and formulas are functions.
- **Failure.** A `null` document that the code would dereference becomes
  `Err(NotFound)`.

| file | module | models |
|---|---|---|
| `records.dfy` | `Records` | record types, `Option`/`Result`, populate of a pseudonym reference, display name |
| `js_array.dfy` | `JsArray` | `indexOf`, `splice(start, 1)` (negative start counts from the end), `push` |
| `vote_ledger.dfy` | `VoteLedger` | the `goodVibe`/`badVibe` list edits, as written and corrected |
| `reputation.dfy` | `Reputation` | the `reduce` fold behind every `getReputation` |
| `ordering.dfy` | `Ordering` | `.sort(key)` of a store query |
| `babbles.dfy` | `Babbles` | `models/Babble.js` |
| `comments.dfy` | `Comments` | `models/Comment.js` |
| `users.dfy` | `Users` | `models/User.js`, and the posting gate of `routes/babbles.js` |
| `anonymous_names.dfy` | `AnonymousNames` | `models/AnonymousName.js` |
| `top_ten.dfy` | `TopTen` | `models/TopTen.js` |

### The vote edits

The two vote edits of the source, `VoteLedger.GoodVibe` and
`VoteLedger.BadVibe`, are transcribed as written. Two branches take the splice
position from the wrong list (see Findings). In those branches the position is
normally -1, which removes the last good vote instead of the voter's own.

The corrected edits are `GoodVibeIntended` and `BadVibeIntended`. They keep
each user recorded at most once, in at most one list, and the store methods use
them. `AsWrittenCountsMatchIntended` shows that a single vote changes the list
lengths alike under both versions, starting from any ledger where no user is in
both lists. Over several votes the two part ways, because the as-written edits
can put a user in both lists. `VoteSequenceDrift` and `VoteDriftDownstream`
exhibit a four-vote sequence after which the ledgers, the author's reputation
and the redaction verdict all differ (see Findings).

## Model

| member | source | states |
|---|---|---|
| Records.DisplayName | models/Babble.js:82-90 | a post with a stored pseudonym shows that pseudonym's string; otherwise it shows the author's kerberos, or fails when the author is missing |
| JsArray.IndexOf | models/Babble.js:142 | -1 exactly when absent; otherwise the position of the first occurrence |
| JsArray.SpliceStart | models/Babble.js:147 | a negative start counts from the end and is clamped to the bounds; a position inside the array exists exactly when the array is non-empty and start < length |
| JsArray.Splice | models/Babble.js:147 | removes one element when the normalised start falls inside the array; otherwise the array is unchanged |
| JsArray.Push | models/Babble.js:148 | the array grows by one, with the value at the end and earlier entries unchanged |
| JsArray.SpliceIndexOfRemovesOne | models/Babble.js:189 | splicing at `indexOf(x)` of a present x removes exactly one x and nothing else (as multisets) |
| JsArray.SpliceMinusOneDropsLast | models/Babble.js:156 | `splice(-1, 1)` drops the last element |
| JsArray.SpliceIndexOfRemovesSingle | models/Babble.js:189 | a value present once is gone after splicing at its index |
| VoteLedger.GoodVibe | models/Babble.js:139-160 | as written: a new voter adds one good vote; a flip moves one vote from bad to good; a cancel leaves the bad list and shrinks the good list by one exactly when the voter's bad-list index is below the good-list length |
| VoteLedger.BadVibe | models/Babble.js:172-193 | as written: a new voter or a flip adds one bad vote, and a flip removes one good vote; a cancel removes one bad vote and leaves the good list |
| VoteLedger.GoodVibeAddsVoter | models/Babble.js:150-152 | a user in neither list is appended to the good list, and the bad list is unchanged |
| VoteLedger.GoodVibeFlipsVoter | models/Babble.js:145-148 | a bad-viber is appended to the good list and one of their bad entries is removed |
| VoteLedger.GoodVibeCancelDropsLast | models/Babble.js:154-157 | with no bad vote, a good-viber's cancel removes the last good vote, whoever cast it |
| VoteLedger.GoodVibeCancelsLastVoter | models/Babble.js:154-157 | the documented cancel (voter removed, bad list kept) holds when the voter is the last good-viber |
| VoteLedger.BadVibeAddsVoter | models/Babble.js:183-185 | a user in neither list is appended to the bad list, and the good list is unchanged |
| VoteLedger.BadVibeFlipDropsLast | models/Babble.js:178-181 | a good-viber's bad vibe appends them to the bad list and removes the last good vote |
| VoteLedger.BadVibeCancelsVoter | models/Babble.js:187-190 | a bad-viber's cancel removes one of their own bad entries, and the good list is unchanged |
| VoteLedger.GoodVibeIntended | models/Babble.js:139-160 | corrected edit: on a well-formed ledger it toggles the voter's good vote, clears their bad vote, keeps every other user's membership, and keeps the ledger well-formed |
| VoteLedger.BadVibeIntended | models/Babble.js:172-193 | corrected edit: on a well-formed ledger it toggles the voter's bad vote, clears their good vote, keeps every other user's membership, and keeps the ledger well-formed |
| VoteLedger.RemovePreservesOthers | models/Babble.js:147 | splicing a user out at its own index keeps every other user's membership, and removes a non-repeated user |
| VoteLedger.ToggleTwiceRestores | models/Babble.js:162-167 | voting the same way twice from a clean slate leaves the voter in neither list |
| VoteLedger.AsWrittenAgreesWhenVoterLast | models/Babble.js:154-157 | on a well-formed ledger, when any good vote of the voter is the last one, the as-written edits equal the corrected ones |
| VoteLedger.AsWrittenCountsMatchIntended | models/Babble.js:172-193 | when no user is in both lists, as-written and corrected edits give the same list lengths |
| VoteLedger.GoodVibeCancelKeepsVoter | models/Babble.js:156 | a cancelling voter who is not last keeps their good vote, and the last good-viber loses theirs |
| VoteLedger.GoodVibeCancelExample | models/Babble.js:156 | good list [1, 2]: user 1 cancels and the result is [1] |
| VoteLedger.BadVibeFlipBreaksExclusion | models/Babble.js:180 | a flipping good-viber who is not last ends up in both lists |
| VoteLedger.ReplayIntended | models/Babble.js:139-193 | any sequence of corrected votes keeps a well-formed ledger well-formed |
| VoteLedger.VoteSequenceDrift | models/Babble.js:156-180 | votes good 1, good 2, bad 1, good 1 from an empty ledger end as written with good [], bad [1] (net −1), and as intended with good [2, 1], bad [] (net +2) |
| VoteLedger.CancelCanBeNoOp | models/Babble.js:156 | as written, bad 2, good 1, good 3, bad 1 reach good [1], bad [2, 1], and user 1's good-vibe cancel then changes nothing |
| VoteLedger.BadVibeFlipExample | models/Babble.js:180 | good list [1, 2]: user 1 bad-vibes and is then in both lists |
| Reputation.ReduceAddsNets | models/Babble.js:205-209 | the fold is its start value plus each document's good-minus-bad count |
| Reputation.ReputationFormula | models/Babble.js:202-212 | reputation = number of the user's documents + their good votes − their bad votes |
| Reputation.ContributionAppend | models/Babble.js:202-212 | a new document changes only its author's reputation, by 1 plus its net votes |
| Reputation.ContributionConcat | models/User.js:171-177 | reputation over two collections is the sum of the reputations over each |
| Reputation.ContributionUpdate | models/Babble.js:202-212 | replacing one document's votes changes only its author's reputation, by the change in net votes |
| Ordering.Insert | models/Babble.js:51 | inserting into a sorted list keeps it sorted and adds exactly that element |
| Ordering.SortBy | models/Babble.js:51 | the result is sorted by the key and is a permutation of the input |
| Babbles.GetAfterAddBabble | models/Babble.js:21-42 | the babble just added is found under its id, with no comments and no votes; every other id finds what it found before |
| Babbles.GetAllBabbles | models/Babble.js:49-58 | a permutation of every babble, most recent first |
| Babbles.GetDisplayName | models/Babble.js:82-90 | a missing babble fails; a pseudonym that resolves to a stored record gives its string; otherwise (no pseudonym, or a dangling one) the author's kerberos, or a failure when the author is missing |
| Babbles.GetBabbleCountByUserToday | models/Babble.js:107-128 | at most the number of babbles; 0 when none is the user's from today; all when all are |
| Babbles.CountTodayAppend | models/Babble.js:107-128 | a new babble adds one to its author's count for its own date and nothing to any other count |
| Babbles.RedactionVerdict | models/Babble.js:224-239 | redact exactly when total votes exceed the threshold and bad/total > 0.8 as a real ratio |
| Babbles.BadRatioAboveFourFifths | models/Babble.js:230 | bad/total > 0.8 over the reals exactly when 5·bad > 4·total |
| Babbles.ShouldBeRedacted | models/Babble.js:224-239 | a missing babble fails; otherwise the verdict is total > threshold and 5·bad > 4·total |
| Babbles.BabbleTable.AddBabble | models/Babble.js:21-30 | appends a babble with the given content, author and pseudonym, no comments and no votes, and returns its id |
| Babbles.BabbleTable.AddComment | models/Babble.js:67-72 | appends the comment id to the babble's comment list and changes nothing else; a missing babble fails and nothing changes |
| Babbles.BabbleTable.GoodVibe | models/Babble.js:139-160 | only the babble's votes change, by the corrected good-vibe edit, and a well-formed ledger stays well-formed; a missing babble fails |
| Babbles.BabbleTable.BadVibe | models/Babble.js:172-193 | only the babble's votes change, by the corrected bad-vibe edit, and a well-formed ledger stays well-formed; a missing babble fails |
| Babbles.ReputationAfterAddBabble | models/Babble.js:202-212 | posting raises the author's babble reputation by exactly 1 and leaves everyone else's |
| Babbles.ReputationAfterVote | models/Babble.js:202-212 | a vote changes only the author's reputation, by the change in net votes; the voter gains nothing |
| Babbles.CountTodayAfterPosts | models/Babble.js:107-128 | each babble posted today by the user raises the day's count by one |
| Babbles.SingleBabbleReputation | models/Babble.js:202-212 | a user's only babble gives them 1 plus its good-minus-bad count |
| Babbles.VoteDriftDownstream | models/Babble.js:202-239 | after the four-vote sequence above, the author's reputation is 0 as written and 3 as intended, and with threshold 0 the babble is redacted as written but not as intended |
| Babbles.RedactionExamples | models/Babble.js:224-239 | 5 bad + 1 good over threshold 2 redacts; 3 bad + 1 good does not; 2 votes do not exceed 2 |
| Comments.UnderBabble | models/Comment.js:45 | exactly the stored comments whose babble is the id |
| Comments.GetAllCommentsForBabble | models/Comment.js:44-50 | exactly the babble's comments, as a permutation of the matching ones, earliest first |
| Comments.GetAfterAddComment | models/Comment.js:22-36 | the comment just saved is found under its id, with no votes and under its babble; every other id finds what it found before |
| Comments.GetCommentCountForBabble | models/Comment.js:57-61 | the number of comments under the babble |
| Comments.GetDisplayName | models/Comment.js:97-105 | a missing comment fails; a pseudonym that resolves to a stored record gives its string; otherwise (no pseudonym, or a dangling one) the author's kerberos, or a failure when the author is missing |
| Comments.CommentTable.AddComment | models/Comment.js:22-36 | stores a comment with no votes under the babble, then links its id at the end of the babble's comments; for a missing babble the comment stays stored and the call fails |
| Comments.CommentTable.GoodVibe | models/Comment.js:117-138 | only the comment's votes change, by the corrected good-vibe edit, and a well-formed ledger stays well-formed; a missing comment fails |
| Comments.CommentTable.BadVibe | models/Comment.js:151-173 | only the comment's votes change, by the corrected bad-vibe edit, and a well-formed ledger stays well-formed; a missing comment fails |
| Comments.UnderBabbleAppend | models/Comment.js:44-50 | a new comment joins its own babble's listing at the end and no other listing |
| Comments.CountAfterAddComment | models/Comment.js:57-61 | a new comment raises its babble's count by one and leaves every other count |
| Comments.ReputationAfterAddComment | models/Comment.js:182-192 | a new comment raises its author's comment reputation by exactly 1 |
| Comments.ReputationAfterVote | models/Comment.js:182-192 | a vote on a comment changes only its author's reputation, by the change in net votes |
| Users.Quota | models/User.js:151-162 | the limit is at least 1; it is 1 for reputation ≤ 0; for positive reputation it is the k ≥ 5 with 50(k−5) ≤ rep < 50(k−4) |
| Users.NewUser | models/User.js:74-80 | a registration stores name, password and kerberos, email kerberos@mit.edu, and limit 5 |
| Users.FindByKerberos | models/User.js:130-132 | nothing exactly when no user has that kerberos; otherwise the first user with exactly that kerberos |
| Users.UserTable.Register | models/User.js:74-80 | appends the registration record and returns its id |
| Users.UserTable.UpdateLimit | models/User.js:151-162 | only that user's babbleLimit changes, to the quota for the reputation; a missing user fails and nothing changes |
| Users.QuotaMonotone | models/User.js:151-162 | a higher reputation never lowers the quota |
| Users.QuotaStep | models/User.js:152-155 | each 50 points of positive reputation add exactly one babble a day |
| Users.QuotaExamples | models/User.js:151-162 | 101 gives 7, 35 gives 5, 50 gives 6, 1 gives 5, 0 and −3 give 1 |
| Users.QuotaAlwaysAdmitsOne | routes/babbles.js:271-273 | under any quota a user may post at least once a day; with positive reputation five times; with reputation ≤ 0 exactly once |
| Users.NewUserQuota | schemas/UserSchema.js:14 | a new user may post exactly five babbles a day |
| Users.FindAfterRegister | models/User.js:130-132 | a registered kerberos is found, and an earlier registration with the same kerberos wins |
| Users.ReputationFormula | models/User.js:171-177 | total reputation = the formula over babbles and comments together |
| Users.NoPostsNoReputation | models/User.js:171-177 | a user with no posts has reputation 0 and quota 1 |
| AnonymousNames.Generate | models/AnonymousName.js:20-24 | the name is an action word, one space, a fruit word |
| AnonymousNames.CommentNames | models/AnonymousName.js:129-137 | each entry is empty or a stored name; when every comment id is stored, exactly one entry per comment, in order, each the comment's resolved pseudonym |
| AnonymousNames.ThreadNames | models/AnonymousName.js:116-122 | the babble's own resolved name first, and after it exactly the comment names above |
| AnonymousNames.OwnedBy | models/AnonymousName.js:51-58 | exactly the thread's names owned by the user |
| AnonymousNames.OwnedByFirst | models/AnonymousName.js:51-64 | the first owned name, which `getAnonymousNameForComment` reuses, is the user's first owned entry in thread order |
| AnonymousNames.SameNames | models/AnonymousName.js:99-104 | exactly the thread's names with the given string |
| AnonymousNames.ContainsName | models/AnonymousName.js:97-109 | true exactly when some name in the thread has the string |
| AnonymousNames.FirstFresh | models/AnonymousName.js:74-87 | the first draw whose name is unused in the thread; every earlier draw collides |
| AnonymousNames.NameTable.NewNameForBabble | models/AnonymousName.js:31-38 | stores exactly one generated name for the user, with no uniqueness check, and returns its id |
| AnonymousNames.NameTable.NewNameForComment | models/AnonymousName.js:74-87 | stores the first draw's name that is unused in the thread, tagged with the user; if every draw collides, nothing is stored |
| AnonymousNames.NameTable.NameForComment | models/AnonymousName.js:49-66 | a missing babble fails; returns the user's first name in the thread without storing anything, or else a new name |
| AnonymousNames.PosterKeepsBabbleName | models/AnonymousName.js:59-64 | the babble's poster gets the babble's own pseudonym back |
| AnonymousNames.OwnedByAppend | models/AnonymousName.js:51-58 | a name owned by the user, appended to the thread, joins the end of the owned list |
| AnonymousNames.CommentNamesAfterNewComment | models/AnonymousName.js:129-137 | a newly stored and linked comment adds its name at the end |
| AnonymousNames.CommentNamesAfterNewName | models/AnonymousName.js:129-137 | storing a new name leaves resolved comment names unchanged when every reference is stored |
| AnonymousNames.ThreadAfterNewComment | models/AnonymousName.js:116-122 | a comment posted under the babble adds its name at the end of the thread |
| AnonymousNames.ThreadAfterNewName | models/AnonymousName.js:116-122 | storing a new name leaves a fully stored thread unchanged |
| AnonymousNames.StableWhenOwned | models/AnonymousName.js:49-66 | a commenter who reused their name gets the same name again after commenting |
| AnonymousNames.StableWhenNew | models/AnonymousName.js:49-87 | a commenter who got a new name gets that name again after commenting |
| AnonymousNames.OwnedByGrowsOnlyAtNew | models/AnonymousName.js:51-58 | storing a new name changes no owner of a thread of stored names |
| AnonymousNames.NewCommentNameIsFresh | models/AnonymousName.js:74-87 | a new comment name differs from every name string in the thread and has the action-fruit form |
| TopTen.UsersOf | models/TopTen.js:74-76 | the user of each pair, in order |
| TopTen.SortByReputation | models/TopTen.js:54-72 | in place, reputation never increases, and the pairs are a permutation of the old ones |
| TopTen.InsertNext | models/TopTen.js:54-72 | one insertion step extends the sorted prefix by one and keeps the pairs a permutation |
| TopTen.GetNewTopTenUsers | models/TopTen.js:47-79 | min(10, #users) distinct users, reputation non-increasing, none behind a user left off, and all users when there are at most ten |
| TopTen.TopOfSorted | models/TopTen.js:73-76 | the first min(10, n) users of a sorted ranking form such a leaderboard |
| TopTen.LeftOffRankLower | models/TopTen.js:54-76 | a user beyond the cut ranks no higher than anyone on the board |
| TopTen.SortedRankingEntries | models/TopTen.js:48-52 | each pair of a rearranged ranking is a stored user with its own reputation |
| TopTen.SortedRankingDistinct | models/TopTen.js:48-52 | a rearranged ranking holds each user once |
| TopTen.SortedRankingCovers | models/TopTen.js:48-52 | a rearranged ranking holds every user |
| TopTen.TopTenTable.NeedUpdate | models/TopTen.js:91-106 | true exactly when there is no snapshot or currentTime − updatedTime ≥ threshold |
| TopTen.TopTenTable.Replace | models/TopTen.js:117-125 | afterwards exactly one snapshot exists, holding the new time and list |
| TopTen.TopTenTable.GetCurrentTopTen | models/TopTen.js:132-138 | the stored snapshot, or a failure when none is stored |
| TopTen.TopTenTable.UpdateTopTenUsers | models/TopTen.js:25-38 | when stale, returns and stores the only snapshot, at currentTime, holding a leaderboard as above; otherwise returns the stored snapshot unchanged; afterwards it is not stale for a positive threshold |
| TopTen.StaleAfterUpdate | models/TopTen.js:91-106 | after an update at t, the next recompute happens exactly from t + threshold on |
| TopTen.WeeklyGateExamples | models/TopTen.js:91-106 | no snapshot means stale; with a week interval, one day later the snapshot is kept and eight days later it is recomputed |

## Left out

- Store access is left out: Mongoose/MongoDB, `populate` beyond resolving a reference, promises and asynchrony. Each call is one sequential step on in-memory tables, and ObjectIds are positions. Concurrent requests are not modelled.
- Registration and login are left out: email verification (`createTempUser`, `confirmTempUser`), `login` and bcrypt. They call code outside the repository. Only the user record that `sendVerification` builds is modelled, and it is stored directly by `Users.UserTable.Register`.
- Everything under `routes/`, `app.js`, `services/` and `react/` is left out: HTTP, sessions and UI. The one exception is the posting gate `babbleCount < limit` (routes/babbles.js:273), modelled as the predicate `Users.MayPost`.
- `getBabbleCount`, `getAllCommentsByUser` and `getAllUsers` are plain store reads and are not modelled separately.
- `AnonymousNames.Generate`: `Math.random` is replaced by a supplied `Draw` of two natural numbers, each reduced modulo the length of its word list. The word-list files `data/actions` and `data/fruits` are not part of this model. They are parameters of `NameTable` and must be non-empty.
- `AnonymousNames.NameTable.NewNameForComment`: the source retries without bound until it draws an unused name. The model takes a finite sequence of draws and fails with `NoFreshName` when every draw collides. It reads the thread once, because nothing changes the thread between retries.
- `AnonymousNames.StableWhenOwned`, `AnonymousNames.StableWhenNew`: proved only for threads whose references all point at stored documents. A dangling reference could start to resolve once a new name or comment is stored.
- `TopTen.SortByReputation`: the source breaks reputation ties with a coin flip per comparison. The model keeps ties in their original order, and every contract leaves the order among ties open.
- `TopTen.GetNewTopTenUsers`: takes the number of stored users instead of the user list, since user ids are the positions `0 .. n-1`.
- `Ordering.SortBy`: the store's order among equal timestamps is unspecified. The model keeps insertion order, and the contracts promise only sortedness and the permutation.
- `Babbles.GetBabbleCountByUserToday`: the clock and local-time conversion are left out. A babble carries its local calendar date, and "today" is a parameter.
- The `shouldBeRedacted` ratio is floating point in the source. The model uses exact reals, proved equal to the integer test `5·bad > 4·total`. The source's `NaN` case, with zero votes over a negative threshold, yields false in both.
- Babbles.BabbleTable.GoodVibe: applies the corrected edit `GoodVibeIntended`, not the one at models/Babble.js:139-160. After some vote sequences the stored ledger, the author's reputation and the redaction verdict therefore differ from the program's (see Findings). The as-written edit is `VoteLedger.GoodVibe`.
- Babbles.BabbleTable.BadVibe: applies `BadVibeIntended`, not the edit at models/Babble.js:172-193, with the same consequence. The as-written edit is `VoteLedger.BadVibe`.
- Comments.CommentTable.GoodVibe: applies `GoodVibeIntended`, not the edit at models/Comment.js:117-138, with the same consequence.
- Comments.CommentTable.BadVibe: applies `BadVibeIntended`, not the edit at models/Comment.js:151-173, with the same consequence.
- `getDisplayName` with a missing author raises a TypeError in the source. `Babbles.GetDisplayName` and `Comments.GetDisplayName` return `Err(NotFound)` instead.
- The auto-incremented `babbleNumber` is left out. It comes from a plugin, not from code in the repository.

## Findings

| source | as written | input that shows it | evidently intended | confidence | as-written member | corrected member |
|---|---|---|---|---|---|---|
| models/Babble.js:156 | a good-vibe cancel splices the good list at `badVibeUsers.indexOf(user)`, which is -1 for a good-viber and so removes the last good vote | good [1, 2], bad [], user 1 calls goodVibe: the result is good [1], so user 1's vote stays and user 2's is gone (also models/Comment.js:134) | splice at `goodVibeUsers.indexOf(user)`, removing the voter's own vote | high (not executed) | VoteLedger.GoodVibeCancelExample | VoteLedger.GoodVibeIntended |
| models/Babble.js:180 | a flip from good to bad splices the good list at `badVibeUsers.indexOf(user)`, which is -1, and so removes the last good vote | good [1, 2], bad [], user 1 calls badVibe: the result is good [1], bad [1], so user 1 is in both lists (also models/Comment.js:159) | splice at `goodVibeUsers.indexOf(user)`, so the voter leaves the good list | high (not executed) | VoteLedger.BadVibeFlipBreaksExclusion | VoteLedger.BadVibeIntended |
| models/Babble.js:180 | over several votes, the wrong-list splices leave a user in both lists, so later votes edit the wrong entries; reputation and redaction read that ledger | votes good 1, good 2, bad 1, good 1 on a new babble: as written it ends with good [], bad [1], so the author's reputation is 0 and with threshold 0 the babble is redacted; intended, good [2, 1], bad [], reputation 3, not redacted (also models/Comment.js:134, 159) | each user's latest vote counts once | high (not executed) | Babbles.VoteDriftDownstream | VoteLedger.ReplayIntended |
| models/Babble.js:156 | once a user is in both lists, a good-vibe cancel splices the good list at the user's bad-list index, which can lie past the end of the good list | bad 2, good 1, good 3, bad 1 reach good [1], bad [2, 1]; user 1 then calls goodVibe and nothing changes | the cancel removes the user's good vote | high (not executed) | VoteLedger.CancelCanBeNoOp | VoteLedger.GoodVibeIntended |
