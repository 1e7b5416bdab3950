# BeWare vote engine, modelled in Dafny

BeWare is a travel-tips API. Users publish posts and mark other posts
"helpful" or "unhelpful". Every vote changes three records: the voter's two
vote lists (`helpful_posts`, `unhelpful_posts`), the post's `helpful_count`,
and the post owner's `reputation`. This project models the code that keeps
those records in step, `handleVoteChange` in `src/routes/posts.js`, and the
delete handler that takes a deleted post's counter back out of its owner's
reputation. It also models the two computed pieces of the post listing: the
ORDER BY lookup and the page offset.

Modules, from the leaves up:

- `Wrappers` (`wrappers.dfy`): `Option`.
- `VoteResolver` (`resolver.dfy`): the list editing as a pure function.
  `Resolve` takes the two lists, a post id and an action (`Helpful`,
  `Unhelpful`, `Unvote`). It returns the new lists and the counter delta, or a
  rejection. `Table` is the 3×3 transition table written out as a separate
  reference. `IndexOf` and `RemoveFirst` are JavaScript's `indexOf` and
  `splice(i, 1)`. The lists are sequences, as in the source. Removing an id
  cuts out one position and keeps the rest in order (`RemoveFirstKeepsOrder`),
  and a successful vote adds no duplicate (`ResolvePreservesWellFormed`).
- `Ledger` (`ledger.dfy`): sums over finite maps, used to state the
  denormalised totals.
- `VoteStore` (`store.dfy`): the `users` and `posts` rows. `VoteStep` gives the
  effect of one `handleVoteChange` call on both tables. `DeleteStep` does the
  same for one delete request. Each is a function of the state before the call
  and of a `fault` argument naming the SQL statement that fails, if any.
  Lemmas state atomicity, the leaked transactions and concrete scenarios.
  `WriteVote` and `UpdateRecords` perform the three writes in the source's
  order. No lemma states that order: each write changes a different field, so
  the final tables do not depend on it.
- `StoreInvariants` (`invariants.dfy`): the invariants.
  - I1: no user holds a post id in both lists, and neither list repeats an id.
  - I2: a post's `helpful_count` is its number of helpful votes minus its
    number of unhelpful votes, counted over all users.
  - I3: a user's `reputation` is the sum of the `helpful_count` of the posts
    that user owns.

  Every vote keeps all three. A completed deletion keeps them. The lemmas on
  fresh records use the schema defaults (`'[]'`, `'[]'`, `0`, `0`).
- `VoteDatabase` (`database.dfy`): class `Database`, the process-wide SQLite
  connection. It holds `users` and `posts` as the connection sees them, a
  `txOpen` flag, and the snapshot a ROLLBACK returns to. `ApplyVote` and
  `UpdateRecords` follow `handleVoteChange` statement by statement: BEGIN, read
  the user, parse, edit the lists in place, look up the owner, the three
  UPDATEs, then COMMIT. `DeletePost` follows the delete handler. `ApplyVote` is
  proved equal to `VoteStep` and to keep I1–I3. `UpdateRecords` is proved
  equal to `RecordVote`. `DeletePost` is proved equal to `DeleteStep`, and to
  keep I1–I3 when the deletion completes.
- `Listing` (`listing.dfy`): the `allowedSortOptions` lookup with its default,
  and `(page - 1) * limit`.

Behaviour of the source that the model keeps and the lemmas expose:

- Two exits of the vote path return without ROLLBACK, so the transaction on
  the shared connection stays open. These are the owner lookup, on an error or
  a missing post (posts.js:434-435), and a failed COMMIT (posts.js:466). At the
  owner lookup nothing has been written yet, so both tables are unchanged
  (`VoteTransactionLeftOpen`, `MissingPostLeavesTransactionOpen`). After a
  failed COMMIT the three writes are still pending in the open transaction
  (`CommitFailureKeepsPendingWrites`). This follows SQLite, where a COMMIT that
  fails with SQLITE_BUSY leaves the transaction active. On other COMMIT errors
  (SQLITE_FULL, SQLITE_IOERR, SQLITE_NOMEM) SQLite may roll the transaction back
  itself. The fault `CommitRolledBack` is that case: the tables are those from
  before the call and no transaction is open.
- The delete handler uses no transaction. If the reputation UPDATE fails after
  the DELETE, the post is gone but the owner's reputation still counts its
  votes. `DeleteWithoutTransactionBreaksReputation` gives such a state: I3
  held before the request and does not hold after it.
- Switching a vote needs no unvote first. Helpful to unhelpful is accepted
  with delta −2, and the reverse with +2. Only a repeated vote in the same
  direction is refused. posts.js:403-415 removes the id from the opposite list
  and accepts the switch (`SwitchToUnhelpfulScenario`).
- Self-voting is not prevented. When the voter owns the post, the same row
  gets the new lists and then the reputation change (`VoteCommitsThreeRecords`).
- Deleting a post leaves its id in other users' vote lists. Post ids are
  AUTOINCREMENT and never reused, so no new post can pick up those stale votes.
  `AddPostPreservesConsistency` takes this as its hypothesis `NoVotesFor`.

## Model

| member | source | states |
|---|---|---|
| `VoteResolver.IndexOf` | src/routes/posts.js:395 | `indexOf` returns a position holding the id, and no earlier position holds it |
| `VoteResolver.RemoveFirst` | src/routes/posts.js:419 | `splice(indexOf(x), 1)` removes exactly one copy of x: the length drops by one, the multiset loses one x, every other id keeps its membership, and a duplicate-free list no longer contains x |
| `VoteResolver.RemoveFirstKeepsOrder` | src/routes/posts.js:395 | `splice(indexOf(x), 1)` cuts out the position of the first x and leaves the other elements in their order |
| `VoteResolver.Resolve` | src/routes/posts.js:386-430 | a successful transition's counter change is one of −2, −1, +1, +2 |
| `VoteResolver.ResolveFollowsTable` | src/routes/posts.js:389-429 | on well-formed lists, a transition succeeds exactly when the 3×3 table allows it; the new vote and the delta are the table's, and a rejection carries the table's reason (already helpful, already unhelpful, not voted) |
| `VoteResolver.ResolvePreservesWellFormed` | src/routes/posts.js:389-415 | a successful vote keeps a duplicate-free list duplicate-free, and on duplicate-free lists with no id in both, a successful vote keeps them so |
| `VoteResolver.ResolveTouchesOnlyPost` | src/routes/posts.js:389-429 | every other post id keeps its membership in both lists |
| `VoteResolver.ResolveShiftsWeight` | src/routes/posts.js:386-430 | on duplicate-free lists, the delta equals the change in the voter's own contribution (+1 helpful, −1 unhelpful) to the post |
| `VoteResolver.VoteThenUnvoteRestores` | src/routes/posts.js:417-429 | voting on an unvoted post and then unvoting returns exactly the original lists, with deltas summing to 0 |
| `VoteResolver.SwitchMatchesDirectVote` | src/routes/posts.js:394-415 | from no vote, a vote followed by the opposite vote gives the same lists and net delta as the opposite vote cast directly |
| `VoteResolver.RepeatIsRejected` | src/routes/posts.js:390-428 | on well-formed lists, repeating a successful vote or unvote is rejected with that direction's reason |
| `VoteStore.ParseColumn` | src/routes/posts.js:379-380 | the column parsed as JSON, with `'[]'` in place of NULL; `BadVoteDataIsRejected` states what a parse failure does to the call |
| `VoteStore.BadVoteDataIsRejected` | src/routes/posts.js:378-384 | when the user lookup itself does not fail, an existing user whose vote column does not parse gets ROLLBACK and "Invalid vote data in database", for any action and post, with both tables unchanged and no transaction open |
| `VoteStore.EarlyRejectionsRollBack` | src/routes/posts.js:374-429 | when the user lookup itself does not fail, a missing user is reported as user not found, and a transition the lists do not allow as a refusal carrying the resolver's reason; both roll back and change nothing |
| `VoteStore.WriteVote` | src/routes/posts.js:440-459 | the three writes add or remove no row; `VoteCommitsThreeRecords`, `VoteKeepsVoteCounts` and `VoteKeepsReputation` state what they change |
| `VoteStore.RecordVote` | src/routes/posts.js:433-469 | the part after the list editing adds or removes no row, and leaves the transaction open exactly after a failed owner lookup, a missing post or a COMMIT that SQLite does not roll back |
| `VoteStore.VoteStep` | src/routes/posts.js:366-479 | one call adds or removes no row, and a processed call reports its own action with the transaction closed; the lemmas below state the rest |
| `VoteStore.VoteFailureChangesNothing` | src/routes/posts.js:373-466 | every failure except a COMMIT that leaves the transaction active (missing user, bad vote data, refused transition, missing post, a write error, zero rows updated, a COMMIT that SQLite rolls back) leaves both tables exactly as before |
| `VoteStore.VoteCommitsThreeRecords` | src/routes/posts.js:437-469 | a processed vote means no fault, an existing user and post, and a resolved transition; the post's counter and the owner's reputation both gain the delta; the voter's lists are the new lists; no other post, user or vote list changes, and no row is added or removed |
| `VoteStore.VoteProceedsOnValidRequest` | src/routes/posts.js:366-469 | with no storage failure, an existing user's acceptable vote on an existing post is processed |
| `VoteStore.VoteTransactionLeftOpen` | src/routes/posts.js:433-466 | the transaction stays open exactly after a failed owner lookup, a missing post, or a failed COMMIT that SQLite does not roll back; before COMMIT those exits changed nothing |
| `VoteStore.MissingPostLeavesTransactionOpen` | src/routes/posts.js:433-435 | a valid vote on a post id with no row fails with PostNotFound, changes nothing and leaves the transaction open |
| `VoteStore.CommitFailureKeepsPendingWrites` | src/routes/posts.js:465-466 | a failed COMMIT reports an error; when the transaction stays active the connection still sees the processed vote's writes, and when SQLite rolls it back the tables are as before the call and no transaction is open |
| `VoteStore.DeleteStep` | src/routes/posts.js:528-552 | a delete request adds or removes no user, and succeeds only for the owner of an existing post, whose row alone is removed |
| `VoteStore.DeleteOnlyByOwner` | src/routes/posts.js:532-549 | a successful deletion means the post existed and the caller owned it; exactly that post is removed, the caller's reputation drops by its counter, and no other user changes |
| `VoteStore.OwnerCanDelete` | src/routes/posts.js:532-548 | the owner's deletion succeeds when no statement fails |
| `VoteStore.DeleteFailureChangesNothing` | src/routes/posts.js:532-542 | a refused or failed deletion, except one failing at the reputation update, changes nothing |
| `VoteStore.NonOwnerIsRefused` | src/routes/posts.js:532-534 | when the post lookup itself does not fail, a non-owner, or a post id with no row, gets "Not authorized or post not found" and no change |
| `VoteStore.HelpfulThenUnvoteScenario` | src/routes/posts.js:389-469 | user 2 marks user 1's post 7 helpful (counter 1, reputation 1) and then unvotes; both tables are back to their start |
| `VoteStore.SwitchToUnhelpfulScenario` | src/routes/posts.js:403-415 | switching helpful to unhelpful is accepted with −2 on the counter and on the owner's reputation; a second unhelpful is refused with no change |
| `VoteStore.SwitchToHelpfulScenario` | src/routes/posts.js:389-401 | switching unhelpful back to helpful is accepted with +2 and restores the earlier rows |
| `StoreInvariants.VoteKeepsVoteCounts` | src/routes/posts.js:440-451 | writing a processed vote's lists and adding its delta to the post keeps I1 and I2 |
| `StoreInvariants.VoteKeepsReputation` | src/routes/posts.js:458-459 | adding the same delta to the post's counter and the owner's reputation keeps I3 |
| `StoreInvariants.WriteVotePreservesConsistency` | src/routes/posts.js:437-463 | the three writes of a processed vote together keep I1, I2 and I3 |
| `StoreInvariants.VotePreservesConsistency` | src/routes/posts.js:366-479 | every call of the vote engine, whatever its outcome and whichever statement fails, keeps I1, I2 and I3 |
| `StoreInvariants.DeletePreservesConsistency` | src/routes/posts.js:532-549 | a completed deletion keeps I1, I2 and I3: the owner loses exactly the removed post's counter |
| `StoreInvariants.DeleteWithoutTransactionBreaksReputation` | src/routes/posts.js:540-546 | a consistent store where the reputation UPDATE fails after the DELETE: the post is gone and I3 no longer holds |
| `StoreInvariants.EmptyStoreConsistent` | src/config/db.js:8-39 | the empty tables satisfy I1-I3 |
| `StoreInvariants.AddUserPreservesConsistency` | src/config/db.js:17-19 | a new user with the default empty lists and reputation 0, owning no post, keeps I1-I3 |
| `StoreInvariants.AddPostPreservesConsistency` | src/config/db.js:35 | a new post with the default counter 0, under an id no vote list mentions, keeps I1-I3 |
| `VoteDatabase.Database.constructor` | src/config/db.js:5-40 | a connection to a new database file has empty tables and no open transaction, and satisfies I1-I3 |
| `VoteDatabase.Database.Begin` | src/routes/posts.js:370 | BEGIN opens a transaction and snapshots both tables |
| `VoteDatabase.Database.Rollback` | src/routes/posts.js:374 | ROLLBACK restores the snapshot and closes the transaction |
| `VoteDatabase.Database.ApplyVote` | src/routes/posts.js:366-479 | the imperative vote path gives exactly VoteStep's outcome, tables and transaction flag; a transaction left open still holds the pre-call snapshot; I1-I3 are kept |
| `VoteDatabase.Database.UpdateRecords` | src/routes/posts.js:433-469 | the owner lookup, the three UPDATEs in order and COMMIT, with ROLLBACK on the UPDATE errors and SQLite's own rollback on a COMMIT error of that kind, give exactly RecordVote's result |
| `VoteDatabase.Database.DeletePost` | src/routes/posts.js:528-552 | the imperative delete path gives exactly DeleteStep's outcome and tables, leaves the transaction state alone, and keeps I1-I3 when it completes |
| `Listing.OrderBy` | src/routes/posts.js:235-246 | the ORDER BY text always comes from the four whitelisted clauses, and a known sort key selects its own clause |
| `Listing.UnknownSortIsNewestFirst` | src/routes/posts.js:246 | a missing or unknown sort value gives `created_at DESC` |
| `Listing.Window` | src/routes/posts.js:244 | each default applies on its own: no `limit` gives LIMIT 10, a given `limit` is used as is, no `page` gives OFFSET 0, a given `page` gives `(page - 1) * limit` |
| `Listing.Offset` | src/routes/posts.js:271 | page 1 starts at row 0, and from page 1 on with a non-negative limit the offset is never negative; `PagesAreConsecutive` and `RowOnExactlyOnePage` state the rest |
| `Listing.PagesAreConsecutive` | src/routes/posts.js:269-271 | from page 1 on, offsets start at 0, are never negative, and each page starts where the previous one ends |
| `Listing.RowOnExactlyOnePage` | src/routes/posts.js:269-271 | with a positive limit, every row index lies in the window of exactly one page, page `i / limit + 1` |

## Left out

- HTTP routing, the `auth` middleware, status-code mapping and the three vote
  route handlers (posts.js:482-509). They only call `handleVoteChange` and
  map its result to a response.
- The SQL queries of the listing and search endpoints (posts.js:243-349), post
  creation and update, `src/routes/auth.js` (bcrypt, JWT, rate limiting) and
  `src/routes/users.js`. Their behaviour lives in SQLite or in foreign
  libraries. `src/middleware/auth.js` is not part of this model.
- The `ids` parsing at posts.js:250 and the `parseInt` of `page` and `limit`.
  These depend on JavaScript coercion rules, including NaN. `Listing` takes
  `page` and `limit` as integers that are either present or absent.
- `Listing.OrderBy`: does not model JavaScript property lookup of inherited
  names such as `constructor` or `toString`. `allowedSortOptions[sort]` would
  return a non-string value for those. The model treats them as unknown keys.
- JSON serialisation of the vote lists. A column is NULL (read as `[]`), an
  array of integer ids, or `Unparseable`. Text that parses to a JSON value
  other than an array is not represented. For a number, an object, a boolean
  or `null`, the first `includes` throws. For a string, `includes` is a
  substring test, so the call may end in an ordinary rejection or throw later
  at `push` or `splice`. Either throw happens inside a database callback,
  outside the error handling of `handleVoteChange`. Route ids that are not numbers, where
  `Number(...)` gives NaN, are left out too.
- Actions other than the three. Called with any other string,
  `handleVoteChange` would write a delta of 0. The three routes never pass one,
  so `Action` has three values. The local `voteChanged` is assigned but never
  read, so it is not modelled.
- `VoteDatabase.Database.ApplyVote`: requires that no transaction is open on
  entry. A previous call can leave one open. The next BEGIN then fails, and
  the source passes it no callback, so how that failure is reported belongs to
  the database driver, which this model does not include.
- Concurrency, `db.serialize` and the promise and callback plumbing. Each call
  is one sequential step. Storage failures, including a post deleted by a
  concurrent request between lookup and update (`PostVanished`), are the
  `fault` argument. Only the first failing statement matters, because every
  error exits the call.
- A NULL `helpful_count` or `reputation`. Neither column is ever written as
  NULL: both start at their defaults. The posts INSERT at posts.js:354-357
  leaves out `helpful_count`, and the users INSERT at auth.js:113 leaves out
  `reputation`. So the delete handler's `|| 0` never applies, and counters are
  integers.
