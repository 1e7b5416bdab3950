/**
 The process-wide SQLite connection that handleVoteChange and the delete
 handler of src/routes/posts.js work through: the two tables as the connection
 sees them, whether a transaction is open, and the snapshot a ROLLBACK returns to.
 The methods follow the source statement by statement and are proved against
 VoteStep and DeleteStep.
 */
module VoteDatabase {
  import opened VoteResolver
  import opened VoteStore
  import opened StoreInvariants

  class Database {
    var users: map<UserId, User>
    var posts: map<PostId, Post>
    var txOpen: bool
    var savedUsers: map<UserId, User>
    var savedPosts: map<PostId, Post>

    ghost predicate Valid()
      reads this
    {
      Consistent(users, posts)
    }

    /** A new database: both tables empty, no transaction. */
    constructor ()
      ensures users == map[] && posts == map[] && !txOpen
      ensures Valid()
    {
      users, posts := map[], map[];
      savedUsers, savedPosts := map[], map[];
      txOpen := false;
      EmptyStoreConsistent();
    }

    /** BEGIN TRANSACTION. */
    method Begin()
      requires !txOpen
      modifies this
      ensures txOpen
      ensures users == old(users) && posts == old(posts)
      ensures savedUsers == old(users) && savedPosts == old(posts)
    {
      savedUsers, savedPosts := users, posts;
      txOpen := true;
    }

    /** ROLLBACK: every write since BEGIN is undone. */
    method Rollback()
      requires txOpen
      modifies this
      ensures !txOpen
      ensures users == old(savedUsers) && posts == old(savedPosts)
      ensures savedUsers == old(savedUsers) && savedPosts == old(savedPosts)
    {
      users, posts := savedUsers, savedPosts;
      txOpen := false;
    }

    /**
     handleVoteChange(postId, userId, action). The outcome, the tables and the
     transaction flag are those VoteStep gives; a transaction left open still
     holds the pre-call snapshot; I1-I3 are kept.
     */
    method ApplyVote(userId: UserId, postId: PostId, action: Action, fault: Fault) returns (r: Outcome)
      requires !txOpen
      modifies this
      ensures VoteState(r, users, posts, txOpen) == VoteStep(old(users), old(posts), userId, postId, action, fault)
      ensures txOpen ==> savedUsers == old(users) && savedPosts == old(posts)
      ensures old(Valid()) ==> Valid()
    {
      if Valid() {
        VotePreservesConsistency(users, posts, userId, postId, action, fault);
      }
      Begin();
      if fault == ReadUserFails { Rollback(); return Failed(StorageError); }
      if userId !in users { Rollback(); return Failed(UserNotFound); }
      var helpfulColumn := ParseColumn(users[userId].helpfulPosts);
      var unhelpfulColumn := ParseColumn(users[userId].unhelpfulPosts);
      if helpfulColumn.None? || unhelpfulColumn.None? { Rollback(); return Failed(InvalidVoteData); }
      var helpfulPosts, unhelpfulPosts := helpfulColumn.value, unhelpfulColumn.value;

      var helpfulCountChange := 0;
      if action == Helpful {
        if postId in helpfulPosts { Rollback(); return Failed(VoteRefused(AlreadyHelpful)); }
        if postId in unhelpfulPosts {
          unhelpfulPosts := RemoveFirst(unhelpfulPosts, postId);
          helpfulCountChange := 2;
        } else {
          helpfulCountChange := 1;
        }
        helpfulPosts := helpfulPosts + [postId];
      } else if action == Unhelpful {
        if postId in unhelpfulPosts { Rollback(); return Failed(VoteRefused(AlreadyUnhelpful)); }
        if postId in helpfulPosts {
          helpfulPosts := RemoveFirst(helpfulPosts, postId);
          helpfulCountChange := -2;
        } else {
          helpfulCountChange := -1;
        }
        unhelpfulPosts := unhelpfulPosts + [postId];
      } else {
        if postId in helpfulPosts {
          helpfulPosts := RemoveFirst(helpfulPosts, postId);
          helpfulCountChange := -1;
        } else if postId in unhelpfulPosts {
          unhelpfulPosts := RemoveFirst(unhelpfulPosts, postId);
          helpfulCountChange := 1;
        } else {
          Rollback();
          return Failed(VoteRefused(NotVoted));
        }
      }

      var t := Transition(helpfulPosts, unhelpfulPosts, helpfulCountChange);
      assert Resolve(helpfulColumn.value, unhelpfulColumn.value, postId, action) == Resolved(t);
      r := UpdateRecords(userId, postId, action, t, fault);
    }

    /**
     The callbacks from the owner lookup on: the three UPDATEs and COMMIT, each
     failure rolling back except at the lookup and at COMMIT.
     */
    method UpdateRecords(userId: UserId, postId: PostId, action: Action, t: Transition, fault: Fault) returns (r: Outcome)
      requires txOpen && userId in users
      requires savedUsers == users && savedPosts == posts
      modifies this
      ensures VoteState(r, users, posts, txOpen) == RecordVote(old(users), old(posts), userId, postId, action, t, fault)
      ensures savedUsers == old(savedUsers) && savedPosts == old(savedPosts)
    {
      // The owner lookup returns on both failures without ROLLBACK.
      if fault == ReadPostFails { return Failed(StorageError); }
      if postId !in posts { return Failed(PostNotFound); }
      var postOwnerId := posts[postId].owner;

      if fault == CountUpdateFails { Rollback(); return Failed(StorageError); }
      if fault == PostVanished { Rollback(); return Failed(PostNotFound); }
      posts := posts[postId := posts[postId].(helpfulCount := posts[postId].helpfulCount + t.delta)];

      if fault == VotesUpdateFails { Rollback(); return Failed(StorageError); }
      users := users[userId := users[userId].(helpfulPosts := Ids(t.helpful), unhelpfulPosts := Ids(t.unhelpful))];

      if fault == ReputationUpdateFails { Rollback(); return Failed(StorageError); }
      if postOwnerId in users {
        users := users[postOwnerId := users[postOwnerId].(reputation := users[postOwnerId].reputation + t.delta)];
      }

      assert (users, posts) == WriteVote(old(users), old(posts), userId, postId, t);
      // A failed COMMIT returns without ROLLBACK. On some errors SQLite itself
      // rolls the transaction back; otherwise it stays active with its writes.
      if fault == CommitFails { return Failed(StorageError); }
      if fault == CommitRolledBack { Rollback(); return Failed(StorageError); }
      txOpen := false;
      r := Processed(action);
    }

    /**
     The delete handler for post postId on behalf of callerId. Its statements
     run on the same connection with no BEGIN of their own, so the transaction
     flag and snapshot are untouched. A completed deletion keeps I1-I3.
     */
    method DeletePost(callerId: UserId, postId: PostId, fault: DeleteFault) returns (r: DeleteOutcome)
      modifies this
      ensures DeleteState(r, users, posts) == DeleteStep(old(users), old(posts), callerId, postId, fault)
      ensures txOpen == old(txOpen) && savedUsers == old(savedUsers) && savedPosts == old(savedPosts)
      ensures old(Valid()) && r == Deleted ==> Valid()
    {
      if Valid() && DeleteStep(users, posts, callerId, postId, fault).outcome == Deleted {
        DeletePreservesConsistency(users, posts, callerId, postId, fault);
      }
      if fault == SelectFails { return ServerError; }
      if postId !in posts || posts[postId].owner != callerId { return NotAuthorizedOrNotFound; }
      var postOwnerId := posts[postId].owner;
      var helpfulCount := posts[postId].helpfulCount;

      if fault == DeleteFails { return ServerError; }
      if fault == NothingDeleted { return NotAuthorizedOrNotFound; }
      posts := posts - {postId};

      if fault == ReputationFails { return ServerError; }
      if postOwnerId in users {
        users := users[postOwnerId := users[postOwnerId].(reputation := users[postOwnerId].reputation - helpfulCount)];
      }
      r := Deleted;
    }
  }
}
