/**
 The consistency of the three denormalised records:
   I1  no user holds a post id in both lists (and neither list repeats an id);
   I2  a post's helpful_count is the number of users holding it in helpful_posts
       minus the number holding it in unhelpful_posts;
   I3  a user's reputation is the sum of the helpful_count of the posts that
       user owns.
 A vote keeps all three; a deletion keeps them when it completes, but its
 statements run without a transaction and a failure between them breaks I3.
 */
module StoreInvariants {
  import opened Wrappers
  import opened VoteResolver
  import opened Ledger
  import opened VoteStore

  /** A user's contribution to post p's counter; a user whose lists cannot be parsed contributes nothing. */
  function UserWeight(user: User, p: PostId): int
  {
    match (ParseColumn(user.helpfulPosts), ParseColumn(user.unhelpfulPosts))
    case (Some(h), Some(u)) => Weight(h, u, p)
    case _ => 0
  }

  predicate UserWellFormed(user: User)
  {
    match (ParseColumn(user.helpfulPosts), ParseColumn(user.unhelpfulPosts))
    case (Some(h), Some(u)) => WellFormed(h, u)
    case _ => true
  }

  ghost function WeightMap(users: map<UserId, User>, p: PostId): map<UserId, int>
  {
    map v | v in users :: UserWeight(users[v], p)
  }

  /** Net helpful votes for p over all users. */
  ghost function NetVotes(users: map<UserId, User>, p: PostId): int
  {
    Sum(WeightMap(users, p))
  }

  ghost function OwnedMap(posts: map<PostId, Post>, v: UserId): map<PostId, int>
  {
    map q | q in posts :: if posts[q].owner == v then posts[q].helpfulCount else 0
  }

  /** The sum of the counters of the posts v owns. */
  ghost function OwnedTotal(posts: map<PostId, Post>, v: UserId): int
  {
    Sum(OwnedMap(posts, v))
  }

  ghost predicate Consistent(users: map<UserId, User>, posts: map<PostId, Post>)
  {
    && (forall v :: v in users ==> UserWellFormed(users[v]))
    && (forall p :: p in posts ==> posts[p].helpfulCount == NetVotes(users, p))
    && (forall v :: v in users ==> users[v].reputation == OwnedTotal(posts, v))
  }

  /** No user's lists mention p: what AUTOINCREMENT guarantees of a newly assigned post id. */
  predicate NoVotesFor(users: map<UserId, User>, p: PostId)
  {
    forall v :: v in users ==> UserWeight(users[v], p) == 0
  }

  // ------------------------------------------------------- frame lemmas

  /** Changing reputations leaves every vote count as it was. */
  lemma ReputationDoesNotVote(users: map<UserId, User>, w: UserId, r: int, q: PostId)
    requires w in users
    ensures WeightMap(users[w := users[w].(reputation := r)], q) == WeightMap(users, q)
  {
    var users' := users[w := users[w].(reputation := r)];
    assert forall v :: v in users' ==> UserWeight(users'[v], q) == UserWeight(users[v], q);
  }

  /** Rewriting one user's lists changes only that user's entry of the weight map. */
  lemma ListsRewritten(users: map<UserId, User>, v: UserId, h: seq<PostId>, u: seq<PostId>, q: PostId)
    requires v in users
    ensures WeightMap(users[v := users[v].(helpfulPosts := Ids(h), unhelpfulPosts := Ids(u))], q)
         == WeightMap(users, q)[v := Weight(h, u, q)]
  {
  }

  /** Changing one post's counter changes only that post's entry of each owner map. */
  lemma CounterRewritten(posts: map<PostId, Post>, p: PostId, c: int, w: UserId)
    requires p in posts
    ensures OwnedMap(posts[p := posts[p].(helpfulCount := c)], w)
         == OwnedMap(posts, w)[p := if posts[p].owner == w then c else 0]
  {
  }

  lemma PostRemoved(posts: map<PostId, Post>, p: PostId, w: UserId)
    requires p in posts
    ensures OwnedMap(posts - {p}, w) == OwnedMap(posts, w) - {p}
  {
  }

  // ------------------------------------------------------- voting keeps I1-I3

  /** The new lists of a processed vote, written into the voter's row, keep I1 and I2. */
  lemma {:induction false} VoteKeepsVoteCounts(users: map<UserId, User>, posts: map<PostId, Post>, v: UserId, p: PostId, t: Transition,
                                               h: seq<PostId>, u: seq<PostId>, a: Action)
    requires Consistent(users, posts)
    requires v in users && p in posts
    requires ParseColumn(users[v].helpfulPosts) == Some(h) && ParseColumn(users[v].unhelpfulPosts) == Some(u)
    requires Resolve(h, u, p, a) == Resolved(t)
    ensures var users1 := users[v := users[v].(helpfulPosts := Ids(t.helpful), unhelpfulPosts := Ids(t.unhelpful))];
      var posts1 := posts[p := posts[p].(helpfulCount := posts[p].helpfulCount + t.delta)];
      && (forall w :: w in users1 ==> UserWellFormed(users1[w]))
      && (forall q :: q in posts1 ==> posts1[q].helpfulCount == NetVotes(users1, q))
  {
    var users1 := users[v := users[v].(helpfulPosts := Ids(t.helpful), unhelpfulPosts := Ids(t.unhelpful))];
    var posts1 := posts[p := posts[p].(helpfulCount := posts[p].helpfulCount + t.delta)];
    assert UserWellFormed(users[v]);
    ResolvePreservesWellFormed(h, u, p, a);
    assert UserWellFormed(users1[v]);
    forall q | q in posts1 ensures posts1[q].helpfulCount == NetVotes(users1, q) {
      ListsRewritten(users, v, t.helpful, t.unhelpful, q);
      SumUpdate(WeightMap(users, q), v, Weight(t.helpful, t.unhelpful, q));
      assert UserWeight(users[v], q) == Weight(h, u, q);
      if q == p {
        ResolveShiftsWeight(h, u, p, a);
      } else {
        ResolveTouchesOnlyPost(h, u, p, a, q);
      }
    }
  }

  /** Adding the same delta to the post and to its owner's reputation keeps I3. */
  lemma {:induction false} VoteKeepsReputation(users1: map<UserId, User>, posts: map<PostId, Post>, p: PostId, d: int)
    requires p in posts
    requires forall w :: w in users1 ==> users1[w].reputation == OwnedTotal(posts, w)
    ensures var owner := posts[p].owner;
      var posts1 := posts[p := posts[p].(helpfulCount := posts[p].helpfulCount + d)];
      var users2 := if owner in users1 then users1[owner := users1[owner].(reputation := users1[owner].reputation + d)] else users1;
      forall w :: w in users2 ==> users2[w].reputation == OwnedTotal(posts1, w)
  {
    var owner := posts[p].owner;
    var posts1 := posts[p := posts[p].(helpfulCount := posts[p].helpfulCount + d)];
    var users2 := if owner in users1 then users1[owner := users1[owner].(reputation := users1[owner].reputation + d)] else users1;
    forall w | w in users2 ensures users2[w].reputation == OwnedTotal(posts1, w) {
      CounterRewritten(posts, p, posts[p].helpfulCount + d, w);
      SumUpdate(OwnedMap(posts, w), p, if owner == w then posts[p].helpfulCount + d else 0);
    }
  }

  /** The three writes of a processed vote, applied together, keep I1, I2 and I3. */
  lemma {:induction false} WriteVotePreservesConsistency(users: map<UserId, User>, posts: map<PostId, Post>, v: UserId, p: PostId, t: Transition,
                                                         h: seq<PostId>, u: seq<PostId>, a: Action)
    requires Consistent(users, posts)
    requires v in users && p in posts
    requires ParseColumn(users[v].helpfulPosts) == Some(h) && ParseColumn(users[v].unhelpfulPosts) == Some(u)
    requires Resolve(h, u, p, a) == Resolved(t)
    ensures Consistent(WriteVote(users, posts, v, p, t).0, WriteVote(users, posts, v, p, t).1)
  {
    var owner := posts[p].owner;
    var users1 := users[v := users[v].(helpfulPosts := Ids(t.helpful), unhelpfulPosts := Ids(t.unhelpful))];
    var posts1 := posts[p := posts[p].(helpfulCount := posts[p].helpfulCount + t.delta)];
    var users2 := if owner in users1 then users1[owner := users1[owner].(reputation := users1[owner].reputation + t.delta)] else users1;
    assert WriteVote(users, posts, v, p, t) == (users2, posts1);
    VoteKeepsVoteCounts(users, posts, v, p, t, h, u, a);
    forall w | w in users1 ensures users1[w].reputation == OwnedTotal(posts, w) {
      assert users1[w].reputation == users[w].reputation;
    }
    VoteKeepsReputation(users1, posts, p, t.delta);
    assert forall w :: w in users2 ==> users2[w].reputation == OwnedTotal(posts1, w);
    assert forall w :: w in users2 ==> UserWellFormed(users2[w]) by {
      forall w | w in users2 ensures UserWellFormed(users2[w]) {
        assert users2[w].helpfulPosts == users1[w].helpfulPosts && users2[w].unhelpfulPosts == users1[w].unhelpfulPosts;
      }
    }
    forall q | q in posts1 ensures posts1[q].helpfulCount == NetVotes(users2, q) {
      if owner in users1 {
        ReputationDoesNotVote(users1, owner, users1[owner].reputation + t.delta, q);
      }
    }
  }

  /** Every call of handleVoteChange, whatever its outcome, keeps I1, I2 and I3. */
  lemma {:induction false} VotePreservesConsistency(users: map<UserId, User>, posts: map<PostId, Post>, v: UserId, p: PostId, a: Action, fault: Fault)
    requires Consistent(users, posts)
    ensures var s := VoteStep(users, posts, v, p, a, fault);
      Consistent(s.users, s.posts)
  {
    if fault != ReadUserFails && v in users {
      var hc := ParseColumn(users[v].helpfulPosts);
      var uc := ParseColumn(users[v].unhelpfulPosts);
      if hc.Some? && uc.Some? {
        var r := Resolve(hc.value, uc.value, p, a);
        if r.Resolved? {
          var s := RecordVote(users, posts, v, p, a, r.t, fault);
          assert VoteStep(users, posts, v, p, a, fault) == s;
          if p in posts && (fault == NoFault || fault == CommitFails) {
            WriteVotePreservesConsistency(users, posts, v, p, r.t, hc.value, uc.value, a);
            assert (s.users, s.posts) == WriteVote(users, posts, v, p, r.t);
          } else {
            assert s.users == users && s.posts == posts;
          }
        }
      }
    }
  }

  // ------------------------------------------------------- deletion

  /** A completed deletion keeps I1, I2 and I3: the owner loses exactly the removed post's counter. */
  lemma {:induction false} DeletePreservesConsistency(users: map<UserId, User>, posts: map<PostId, Post>, caller: UserId, p: PostId, fault: DeleteFault)
    requires Consistent(users, posts)
    requires DeleteStep(users, posts, caller, p, fault).outcome == Deleted
    ensures var s := DeleteStep(users, posts, caller, p, fault);
      Consistent(s.users, s.posts)
  {
    var s := DeleteStep(users, posts, caller, p, fault);
    var c := posts[p].helpfulCount;
    forall w | w in s.users ensures s.users[w].reputation == OwnedTotal(s.posts, w) {
      PostRemoved(posts, p, w);
      SumRemove(OwnedMap(posts, w), p);
    }
    if caller in users {
      forall q | q in s.posts ensures NetVotes(s.users, q) == NetVotes(users, q) {
        ReputationDoesNotVote(users, caller, users[caller].reputation - c, q);
      }
    }
  }

  /**
   The delete handler has no transaction: when the reputation update fails after
   the DELETE, a consistent store is left with the post gone and the owner's
   reputation still counting its votes.
   */
  lemma DeleteWithoutTransactionBreaksReputation()
    ensures var users := map[1 := User(Ids([]), Ids([]), 1), 2 := User(Ids([7]), Ids([]), 0)];
      var posts := map[7 := Post(1, 1)];
      var s := DeleteStep(users, posts, 1, 7, ReputationFails);
      Consistent(users, posts) && s.outcome == ServerError && s.posts == map[] && !Consistent(s.users, s.posts)
  {
    var users := map[1 := User(Ids([]), Ids([]), 1), 2 := User(Ids([7]), Ids([]), 0)];
    var posts := map[7 := Post(1, 1)];
    assert DeleteStep(users, posts, 1, 7, ReputationFails) == DeleteState(ServerError, users, map[]);
    var empty: map<UserId, int> := map[];
    var noPosts: map<PostId, int> := map[];
    SumInsert(noPosts, 7, 1);
    SumInsert(noPosts, 7, 0);
    assert OwnedMap(posts, 1) == noPosts[7 := 1];
    assert OwnedMap(posts, 2) == noPosts[7 := 0];
    assert WeightMap(users, 7) == empty[2 := 1][1 := 0];
    SumInsert(empty, 2, 1);
    SumInsert(empty[2 := 1], 1, 0);
    assert OwnedMap(map[], 1) == noPosts;
  }

  // ------------------------------------------------------- fresh records

  lemma EmptyStoreConsistent()
    ensures Consistent(map[], map[])
  {
  }

  /** Registering a user who owns no post keeps the store consistent. */
  lemma {:induction false} AddUserPreservesConsistency(users: map<UserId, User>, posts: map<PostId, Post>, v: UserId)
    requires Consistent(users, posts)
    requires v !in users
    requires forall q :: q in posts ==> posts[q].owner != v
    ensures Consistent(users[v := FreshUser()], posts)
  {
    var users' := users[v := FreshUser()];
    forall q | q in posts ensures NetVotes(users', q) == NetVotes(users, q) {
      assert WeightMap(users', q) == WeightMap(users, q)[v := 0];
      SumInsert(WeightMap(users, q), v, 0);
    }
    assert forall q :: q in OwnedMap(posts, v) ==> OwnedMap(posts, v)[q] == 0;
    SumZero(OwnedMap(posts, v));
  }

  /** Creating a post under a never-used id keeps the store consistent: its counter 0 is its net vote. */
  lemma {:induction false} AddPostPreservesConsistency(users: map<UserId, User>, posts: map<PostId, Post>, p: PostId, owner: UserId)
    requires Consistent(users, posts)
    requires p !in posts
    requires NoVotesFor(users, p)
    ensures Consistent(users, posts[p := FreshPost(owner)])
  {
    var posts' := posts[p := FreshPost(owner)];
    assert forall w :: w in WeightMap(users, p) ==> WeightMap(users, p)[w] == 0;
    SumZero(WeightMap(users, p));
    forall w | w in users ensures users[w].reputation == OwnedTotal(posts', w) {
      assert OwnedMap(posts', w) == OwnedMap(posts, w)[p := 0];
      SumInsert(OwnedMap(posts, w), p, 0);
    }
  }
}
