/**
 The records the vote engine reads and writes (the `users` and `posts` tables
 of src/config/db.js), and the effect that one call of `handleVoteChange` and
 one call of the delete handler in src/routes/posts.js has on them, written as
 functions of the state before the call. Storage failures are an explicit
 `fault` argument naming the statement that fails.
 */
module VoteStore {
  import opened Wrappers
  import opened VoteResolver

  type UserId = int

  /**
   A `helpful_posts` or `unhelpful_posts` column: NULL, a JSON array of post
   ids, or text that JSON.parse rejects.
   */
  datatype VoteColumn = Null | Ids(ids: seq<PostId>) | Unparseable

  datatype User = User(helpfulPosts: VoteColumn, unhelpfulPosts: VoteColumn, reputation: int)

  datatype Post = Post(owner: UserId, helpfulCount: int)

  /** `JSON.parse(column || '[]')`, with a parse failure as None. */
  function ParseColumn(c: VoteColumn): (r: Option<seq<PostId>>)
    ensures r.None? <==> c.Unparseable?
    ensures c.Null? ==> r == Some([])
    ensures c.Ids? ==> r == Some(c.ids)
  {
    match c
    case Null => Some([])
    case Ids(s) => Some(s)
    case Unparseable => None
  }

  /** A newly registered user: the column defaults `'[]'`, `'[]'` and 0. */
  function FreshUser(): User
  {
    User(Ids([]), Ids([]), 0)
  }

  /** A newly created post: `helpful_count` takes its default 0. */
  function FreshPost(owner: UserId): Post
  {
    Post(owner, 0)
  }

  // ---------------------------------------------------------------- voting

  /** The statement of handleVoteChange whose callback receives an error. */
  datatype Fault =
    | NoFault
    | ReadUserFails           // SELECT helpful_posts, unhelpful_posts FROM users
    | ReadPostFails           // SELECT user_id FROM posts
    | CountUpdateFails        // UPDATE posts SET helpful_count ...
    | PostVanished            // the same UPDATE changes zero rows
    | VotesUpdateFails        // UPDATE users SET helpful_posts, unhelpful_posts ...
    | ReputationUpdateFails   // UPDATE users SET reputation ...
    | CommitFails             // COMMIT fails and the transaction stays active (SQLITE_BUSY)
    | CommitRolledBack        // COMMIT fails and SQLite rolls the transaction back itself

  datatype VoteError =
    | StorageError
    | UserNotFound
    | InvalidVoteData
    | VoteRefused(reason: Rejection)
    | PostNotFound

  datatype Outcome = Processed(action: Action) | Failed(error: VoteError)

  /** What one call leaves behind: the result, the two tables, and whether a transaction is still open. */
  datatype VoteState = VoteState(outcome: Outcome, users: map<UserId, User>, posts: map<PostId, Post>, txOpen: bool)

  /**
   The three dependent writes, in the source's order: the post's counter, the
   voter's lists, the owner's reputation (the owner may be the voter; an owner
   id with no user row changes nothing, as an UPDATE matching no row).
   */
  function WriteVote(users: map<UserId, User>, posts: map<PostId, Post>, v: UserId, p: PostId, t: Transition):
    (r: (map<UserId, User>, map<PostId, Post>))
    requires v in users && p in posts
    ensures r.0.Keys == users.Keys && r.1.Keys == posts.Keys
  {
    var owner := posts[p].owner;
    var posts1 := posts[p := posts[p].(helpfulCount := posts[p].helpfulCount + t.delta)];
    var users1 := users[v := users[v].(helpfulPosts := Ids(t.helpful), unhelpfulPosts := Ids(t.unhelpful))];
    var users2 :=
      if owner in users1 then users1[owner := users1[owner].(reputation := users1[owner].reputation + t.delta)]
      else users1;
    (users2, posts1)
  }

  /**
   One call of handleVoteChange(p, v, a). An error before the post lookup, or
   at any write, rolls back; the post lookup and COMMIT return without ROLLBACK,
   so those exits leave the transaction open.
   */
  function VoteStep(users: map<UserId, User>, posts: map<PostId, Post>, v: UserId, p: PostId, a: Action, fault: Fault): (s: VoteState)
    ensures s.users.Keys == users.Keys && s.posts.Keys == posts.Keys
    ensures s.outcome.Processed? ==> s.outcome.action == a && !s.txOpen
  {
    if fault == ReadUserFails then VoteState(Failed(StorageError), users, posts, false)
    else if v !in users then VoteState(Failed(UserNotFound), users, posts, false)
    else
      match (ParseColumn(users[v].helpfulPosts), ParseColumn(users[v].unhelpfulPosts))
      case (Some(h), Some(u)) =>
        (match Resolve(h, u, p, a)
         case Rejected(e) => VoteState(Failed(VoteRefused(e)), users, posts, false)
         case Resolved(t) => RecordVote(users, posts, v, p, a, t, fault))
      case _ => VoteState(Failed(InvalidVoteData), users, posts, false)
  }

  /** The part of handleVoteChange after the lists are edited: owner lookup, three writes, COMMIT. */
  function RecordVote(users: map<UserId, User>, posts: map<PostId, Post>, v: UserId, p: PostId, a: Action, t: Transition, fault: Fault): (s: VoteState)
    requires v in users
    ensures s.users.Keys == users.Keys && s.posts.Keys == posts.Keys
    ensures s.txOpen <==> fault == ReadPostFails || p !in posts || fault == CommitFails
  {
    if fault == ReadPostFails then VoteState(Failed(StorageError), users, posts, true)
    else if p !in posts then VoteState(Failed(PostNotFound), users, posts, true)
    else if fault == CountUpdateFails then VoteState(Failed(StorageError), users, posts, false)
    else if fault == PostVanished then VoteState(Failed(PostNotFound), users, posts, false)
    else if fault == VotesUpdateFails then VoteState(Failed(StorageError), users, posts, false)
    else if fault == ReputationUpdateFails then VoteState(Failed(StorageError), users, posts, false)
    else
      var (users', posts') := WriteVote(users, posts, v, p, t);
      if fault == CommitFails then VoteState(Failed(StorageError), users', posts', true)
      else if fault == CommitRolledBack then VoteState(Failed(StorageError), users, posts, false)
      else VoteState(Processed(a), users', posts', false)
  }

  /**
   A vote column that JSON.parse rejects: the call issues ROLLBACK and reports
   invalid vote data, whatever the action and the post.
   */
  lemma BadVoteDataIsRejected(users: map<UserId, User>, posts: map<PostId, Post>, v: UserId, p: PostId, a: Action, fault: Fault)
    requires fault != ReadUserFails && v in users
    requires users[v].helpfulPosts.Unparseable? || users[v].unhelpfulPosts.Unparseable?
    ensures VoteStep(users, posts, v, p, a, fault) == VoteState(Failed(InvalidVoteData), users, posts, false)
  {
  }

  /**
   The other exits before the post lookup: a missing user, and a transition
   the resolver refuses, reported with the resolver's reason. Both roll back.
   */
  lemma EarlyRejectionsRollBack(users: map<UserId, User>, posts: map<PostId, Post>, v: UserId, p: PostId, a: Action, fault: Fault)
    requires fault != ReadUserFails
    ensures v !in users ==> VoteStep(users, posts, v, p, a, fault) == VoteState(Failed(UserNotFound), users, posts, false)
    ensures v in users && ParseColumn(users[v].helpfulPosts).Some? && ParseColumn(users[v].unhelpfulPosts).Some? ==>
      var res := Resolve(ParseColumn(users[v].helpfulPosts).value, ParseColumn(users[v].unhelpfulPosts).value, p, a);
      res.Rejected? ==> VoteState(Failed(VoteRefused(res.reason)), users, posts, false) == VoteStep(users, posts, v, p, a, fault)
  {
  }

  /**
   Error implies no state change: every failure except a COMMIT that leaves the
   transaction active leaves both tables exactly as they were.
   */
  lemma VoteFailureChangesNothing(users: map<UserId, User>, posts: map<PostId, Post>, v: UserId, p: PostId, a: Action, fault: Fault)
    requires fault != CommitFails
    ensures var s := VoteStep(users, posts, v, p, a, fault);
      s.outcome.Failed? ==> s.users == users && s.posts == posts
  {
    if fault != ReadUserFails && v in users {
      var hc, uc := ParseColumn(users[v].helpfulPosts), ParseColumn(users[v].unhelpfulPosts);
      if hc.Some? && uc.Some? && Resolve(hc.value, uc.value, p, a).Resolved? {
        var t := Resolve(hc.value, uc.value, p, a).t;
        assert VoteStep(users, posts, v, p, a, fault) == RecordVote(users, posts, v, p, a, t, fault);
      }
    }
  }

  /**
   A processed vote took the resolver's transition and added the same delta to
   the post's counter and to its owner's reputation; the voter's lists are the
   new lists; no other user or post changed, and no record was added or removed.
   */
  lemma VoteCommitsThreeRecords(users: map<UserId, User>, posts: map<PostId, Post>, v: UserId, p: PostId, a: Action, fault: Fault)
    requires VoteStep(users, posts, v, p, a, fault).outcome.Processed?
    ensures v in users && p in posts && fault == NoFault
    ensures ParseColumn(users[v].helpfulPosts).Some? && ParseColumn(users[v].unhelpfulPosts).Some?
    ensures var s := VoteStep(users, posts, v, p, a, fault);
      var res := Resolve(ParseColumn(users[v].helpfulPosts).value, ParseColumn(users[v].unhelpfulPosts).value, p, a);
      var owner := posts[p].owner;
      && res.Resolved?
      && s.outcome == Processed(a) && !s.txOpen
      && s.users.Keys == users.Keys && s.posts.Keys == posts.Keys
      && s.posts[p] == Post(owner, posts[p].helpfulCount + res.t.delta)
      && (forall q :: q in posts && q != p ==> s.posts[q] == posts[q])
      && s.users[v].helpfulPosts == Ids(res.t.helpful) && s.users[v].unhelpfulPosts == Ids(res.t.unhelpful)
      && (owner in users ==> s.users[owner].reputation == users[owner].reputation + res.t.delta)
      && (v != owner ==> s.users[v].reputation == users[v].reputation)
      && (forall w :: w in users && w != v && w != owner ==> s.users[w] == users[w])
      && (forall w :: w in users && w != v ==>
            s.users[w].helpfulPosts == users[w].helpfulPosts && s.users[w].unhelpfulPosts == users[w].unhelpfulPosts)
  {
  }

  /** With no storage failure, an existing user's acceptable vote on an existing post is processed. */
  lemma VoteProceedsOnValidRequest(users: map<UserId, User>, posts: map<PostId, Post>, v: UserId, p: PostId, a: Action)
    requires v in users && p in posts
    requires ParseColumn(users[v].helpfulPosts).Some? && ParseColumn(users[v].unhelpfulPosts).Some?
    requires Resolve(ParseColumn(users[v].helpfulPosts).value, ParseColumn(users[v].unhelpfulPosts).value, p, a).Resolved?
    ensures VoteStep(users, posts, v, p, a, NoFault).outcome == Processed(a)
  {
  }

  /**
   Which exits leave the transaction open: only the post lookup (an error or a
   missing post) and a failed COMMIT. Before COMMIT nothing has been written, so
   the tables are still unchanged there.
   */
  lemma VoteTransactionLeftOpen(users: map<UserId, User>, posts: map<PostId, Post>, v: UserId, p: PostId, a: Action, fault: Fault)
    ensures var s := VoteStep(users, posts, v, p, a, fault);
      s.txOpen <==>
        (s.outcome == Failed(PostNotFound) && p !in posts)
        || (s.outcome == Failed(StorageError) && (fault == ReadPostFails || fault == CommitFails))
    ensures var s := VoteStep(users, posts, v, p, a, fault);
      s.txOpen && fault != CommitFails ==> s.users == users && s.posts == posts
  {
  }

  /**
   The missing-post exit: an existing user's acceptable vote on a post id with
   no row fails with PostNotFound, changes nothing, and issues no ROLLBACK.
   */
  lemma MissingPostLeavesTransactionOpen(users: map<UserId, User>, posts: map<PostId, Post>, v: UserId, p: PostId, a: Action)
    requires v in users && p !in posts
    requires ParseColumn(users[v].helpfulPosts).Some? && ParseColumn(users[v].unhelpfulPosts).Some?
    requires Resolve(ParseColumn(users[v].helpfulPosts).value, ParseColumn(users[v].unhelpfulPosts).value, p, a).Resolved?
    ensures VoteStep(users, posts, v, p, a, NoFault) == VoteState(Failed(PostNotFound), users, posts, true)
  {
  }

  /**
   The two kinds of failed COMMIT both report an error. When the transaction
   stays active, the three writes stay pending in it: the tables the connection
   sees are those of a processed vote. When SQLite rolls it back itself, the
   tables are those from before the call and no transaction is open.
   */
  lemma CommitFailureKeepsPendingWrites(users: map<UserId, User>, posts: map<PostId, Post>, v: UserId, p: PostId, a: Action)
    requires VoteStep(users, posts, v, p, a, NoFault).outcome.Processed?
    ensures var ok := VoteStep(users, posts, v, p, a, NoFault);
      VoteStep(users, posts, v, p, a, CommitFails) == VoteState(Failed(StorageError), ok.users, ok.posts, true)
      && (ok.users != users || ok.posts != posts)
    ensures VoteStep(users, posts, v, p, a, CommitRolledBack) == VoteState(Failed(StorageError), users, posts, false)
  {
    var h := ParseColumn(users[v].helpfulPosts).value;
    var u := ParseColumn(users[v].unhelpfulPosts).value;
    var t := Resolve(h, u, p, a).t;
    var ok := VoteStep(users, posts, v, p, a, NoFault);
    assert ok.posts[p].helpfulCount == posts[p].helpfulCount + t.delta;
  }

  // -------------------------------------------------------------- deletion

  /** The statement of the delete handler whose callback receives an error. */
  datatype DeleteFault =
    | NoDeleteFault
    | SelectFails         // SELECT user_id, helpful_count FROM posts
    | DeleteFails         // DELETE FROM posts
    | NothingDeleted      // the DELETE changes zero rows
    | ReputationFails     // UPDATE users SET reputation = reputation - ?

  /** 200 "Post deleted successfully", 403 "Not authorized or post not found", or 500. */
  datatype DeleteOutcome = Deleted | NotAuthorizedOrNotFound | ServerError

  datatype DeleteState = DeleteState(outcome: DeleteOutcome, users: map<UserId, User>, posts: map<PostId, Post>)

  /**
   The delete handler: the post must exist and belong to the caller; it is
   removed, then its counter is subtracted from the owner's reputation. The
   three statements run without a transaction.
   */
  function DeleteStep(users: map<UserId, User>, posts: map<PostId, Post>, caller: UserId, p: PostId, fault: DeleteFault): (s: DeleteState)
    ensures s.users.Keys == users.Keys
    ensures s.outcome == Deleted ==> p in posts && posts[p].owner == caller && s.posts == posts - {p}
  {
    if fault == SelectFails then DeleteState(ServerError, users, posts)
    else if p !in posts || posts[p].owner != caller then DeleteState(NotAuthorizedOrNotFound, users, posts)
    else if fault == DeleteFails then DeleteState(ServerError, users, posts)
    else if fault == NothingDeleted then DeleteState(NotAuthorizedOrNotFound, users, posts)
    else
      var owner := posts[p].owner;
      var helpfulCount := posts[p].helpfulCount;
      var posts' := posts - {p};
      if fault == ReputationFails then DeleteState(ServerError, users, posts')
      else
        var users' := if owner in users then users[owner := users[owner].(reputation := users[owner].reputation - helpfulCount)] else users;
        DeleteState(Deleted, users', posts')
  }

  /**
   Deletion succeeds only for the owner of an existing post, and then it
   removes exactly that post and lowers the owner's reputation by its counter.
   */
  lemma DeleteOnlyByOwner(users: map<UserId, User>, posts: map<PostId, Post>, caller: UserId, p: PostId, fault: DeleteFault)
    requires DeleteStep(users, posts, caller, p, fault).outcome == Deleted
    ensures p in posts && posts[p].owner == caller && fault == NoDeleteFault
    ensures var s := DeleteStep(users, posts, caller, p, fault);
      && s.posts.Keys == posts.Keys - {p}
      && (forall q :: q in s.posts ==> s.posts[q] == posts[q])
      && s.users.Keys == users.Keys
      && (caller in users ==> s.users[caller] == users[caller].(reputation := users[caller].reputation - posts[p].helpfulCount))
      && (forall w :: w in users && w != caller ==> s.users[w] == users[w])
  {
  }

  /** Conversely, the owner's request succeeds when no statement fails. */
  lemma OwnerCanDelete(users: map<UserId, User>, posts: map<PostId, Post>, p: PostId)
    requires p in posts
    ensures DeleteStep(users, posts, posts[p].owner, p, NoDeleteFault).outcome == Deleted
  {
  }

  /** A rejected or failed deletion changes nothing, except one failing at the reputation update. */
  lemma DeleteFailureChangesNothing(users: map<UserId, User>, posts: map<PostId, Post>, caller: UserId, p: PostId, fault: DeleteFault)
    requires fault != ReputationFails
    ensures var s := DeleteStep(users, posts, caller, p, fault);
      s.outcome != Deleted ==> s.users == users && s.posts == posts
  {
  }

  /** A non-owner, or a post id with no row, is refused with no change. */
  lemma NonOwnerIsRefused(users: map<UserId, User>, posts: map<PostId, Post>, caller: UserId, p: PostId, fault: DeleteFault)
    requires fault != SelectFails
    requires p !in posts || posts[p].owner != caller
    ensures DeleteStep(users, posts, caller, p, fault) == DeleteState(NotAuthorizedOrNotFound, users, posts)
  {
  }

  // -------------------------------------------------------------- scenarios

  /**
   User 1 owns post 7; user 2 marks it helpful, then unvotes. The counter and
   the owner's reputation go to 1 and back to 0, and user 2's lists are empty again.
   */
  lemma {:induction false} HelpfulThenUnvoteScenario()
    ensures var users := map[1 := FreshUser(), 2 := FreshUser()];
      var posts := map[7 := FreshPost(1)];
      var s1 := VoteStep(users, posts, 2, 7, Helpful, NoFault);
      var s2 := VoteStep(s1.users, s1.posts, 2, 7, Unvote, NoFault);
      && s1.outcome == Processed(Helpful) && s1.posts[7].helpfulCount == 1 && s1.users[1].reputation == 1
      && s2.outcome == Processed(Unvote) && s2.posts == posts && s2.users == users
  {
    var users := map[1 := FreshUser(), 2 := FreshUser()];
    var posts := map[7 := FreshPost(1)];
    var empty: seq<PostId> := [];
    assert empty + [7] == [7];
    var t1 := Transition([7], [], 1);
    assert Resolve([], [], 7, Helpful) == Resolved(t1);
    var s1 := VoteStep(users, posts, 2, 7, Helpful, NoFault);
    assert s1 == RecordVote(users, posts, 2, 7, Helpful, t1, NoFault);
    assert s1.users == map[1 := User(Ids([]), Ids([]), 1), 2 := User(Ids([7]), Ids([]), 0)];
    assert s1.posts == map[7 := Post(1, 1)];
    assert RemoveFirst([7], 7) == [];
    var t2 := Transition([], [], -1);
    assert Resolve([7], [], 7, Unvote) == Resolved(t2);
    var s2 := VoteStep(s1.users, s1.posts, 2, 7, Unvote, NoFault);
    assert s2 == RecordVote(s1.users, s1.posts, 2, 7, Unvote, t2, NoFault);
    assert s2.users == users;
  }

  /**
   Switching a helpful vote to unhelpful without unvoting is accepted with a
   change of -2; only a repeated vote in the same direction is refused.
   */
  lemma {:induction false} SwitchToUnhelpfulScenario()
    ensures var users := map[1 := User(Ids([]), Ids([]), 1), 2 := User(Ids([7]), Ids([]), 0)];
      var posts := map[7 := Post(1, 1)];
      var s := VoteStep(users, posts, 2, 7, Unhelpful, NoFault);
      var again := VoteStep(s.users, s.posts, 2, 7, Unhelpful, NoFault);
      && s.outcome == Processed(Unhelpful)
      && s.users == map[1 := User(Ids([]), Ids([]), -1), 2 := User(Ids([]), Ids([7]), 0)]
      && s.posts == map[7 := Post(1, -1)]
      && again.outcome == Failed(VoteRefused(AlreadyUnhelpful))
      && again.users == s.users && again.posts == s.posts
  {
    var users := map[1 := User(Ids([]), Ids([]), 1), 2 := User(Ids([7]), Ids([]), 0)];
    var posts := map[7 := Post(1, 1)];
    var empty: seq<PostId> := [];
    assert empty + [7] == [7];
    assert RemoveFirst([7], 7) == [];
    var t := Transition([], [7], -2);
    assert Resolve([7], [], 7, Unhelpful) == Resolved(t);
    var s := VoteStep(users, posts, 2, 7, Unhelpful, NoFault);
    assert s == RecordVote(users, posts, 2, 7, Unhelpful, t, NoFault);
    assert s.users == map[1 := User(Ids([]), Ids([]), -1), 2 := User(Ids([]), Ids([7]), 0)];
    assert s.posts == map[7 := Post(1, -1)];
    assert Resolve([], [7], 7, Unhelpful) == Rejected(AlreadyUnhelpful);
    var again := VoteStep(s.users, s.posts, 2, 7, Unhelpful, NoFault);
    assert s.users[2] == User(Ids([]), Ids([7]), 0);
    assert again == VoteState(Failed(VoteRefused(AlreadyUnhelpful)), s.users, s.posts, false);
  }

  /** The reverse switch, unhelpful to helpful, is accepted with +2 and restores the earlier state. */
  lemma {:induction false} SwitchToHelpfulScenario()
    ensures var users := map[1 := User(Ids([]), Ids([]), -1), 2 := User(Ids([]), Ids([7]), 0)];
      var posts := map[7 := Post(1, -1)];
      var s := VoteStep(users, posts, 2, 7, Helpful, NoFault);
      && s.outcome == Processed(Helpful)
      && s.users == map[1 := User(Ids([]), Ids([]), 1), 2 := User(Ids([7]), Ids([]), 0)]
      && s.posts == map[7 := Post(1, 1)]
  {
    var users := map[1 := User(Ids([]), Ids([]), -1), 2 := User(Ids([]), Ids([7]), 0)];
    var posts := map[7 := Post(1, -1)];
    var empty: seq<PostId> := [];
    assert empty + [7] == [7];
    assert RemoveFirst([7], 7) == [];
    var t := Transition([7], [], 2);
    assert Resolve([], [7], 7, Helpful) == Resolved(t);
    var s := VoteStep(users, posts, 2, 7, Helpful, NoFault);
    assert s == RecordVote(users, posts, 2, 7, Helpful, t, NoFault);
  }
}
