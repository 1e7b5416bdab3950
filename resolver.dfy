/**
 The vote transition resolver: given a user's two vote lists, a post id and a
 requested action, it decides the new lists and the signed change to the post's
 helpful counter, or rejects the request. This is the list editing that
 `handleVoteChange` in src/routes/posts.js does with `includes`, `splice` and
 `push` before it touches the database.
 */
module VoteResolver {

  type PostId = int

  datatype Action = Helpful | Unhelpful | Unvote

  /** The three rejections of the resolver, one per error message of the source. */
  datatype Rejection =
    | AlreadyHelpful      // "Post already marked as helpful"
    | AlreadyUnhelpful    // "Post already marked as unhelpful"
    | NotVoted            // "Post has not been voted on by user"

  datatype Transition = Transition(helpful: seq<PostId>, unhelpful: seq<PostId>, delta: int)

  datatype Resolution = Resolved(t: Transition) | Rejected(reason: Rejection)

  /** The vote a user holds on one post, read off the two lists. */
  datatype Vote = NoVote | VotedHelpful | VotedUnhelpful

  predicate NoDup(s: seq<PostId>)
  {
    forall i, j :: 0 <= i < j < |s| ==> s[i] != s[j]
  }

  /** Invariant I1 together with the absence of duplicates in either list. */
  predicate WellFormed(helpful: seq<PostId>, unhelpful: seq<PostId>)
  {
    NoDup(helpful) && NoDup(unhelpful) && forall x :: x in helpful ==> x !in unhelpful
  }

  function VoteOn(helpful: seq<PostId>, unhelpful: seq<PostId>, p: PostId): Vote
  {
    if p in helpful then VotedHelpful else if p in unhelpful then VotedUnhelpful else NoVote
  }

  /** What a user's lists contribute to the helpful counter of post p. */
  function Weight(helpful: seq<PostId>, unhelpful: seq<PostId>, p: PostId): int
  {
    (if p in helpful then 1 else 0) - (if p in unhelpful then 1 else 0)
  }

  /** JavaScript's `indexOf`: the first position holding x. */
  function IndexOf(s: seq<PostId>, x: PostId): (i: nat)
    requires x in s
    ensures i < |s| && s[i] == x
    ensures x !in s[..i]
  {
    if s[0] == x then 0
    else
      var i := 1 + IndexOf(s[1..], x);
      assert s[..i] == [s[0]] + s[1..][..i - 1];
      i
  }

  /** `s.splice(s.indexOf(x), 1)`: drop the first occurrence of x. */
  function RemoveFirst(s: seq<PostId>, x: PostId): (r: seq<PostId>)
    requires x in s
    ensures |r| == |s| - 1
    ensures multiset(r) == multiset(s) - multiset{x}
    ensures forall y :: y != x ==> (y in r <==> y in s)
    ensures NoDup(s) ==> NoDup(r) && x !in r
  {
    var i := IndexOf(s, x);
    SpliceCounts(s, i);
    assert NoDup(s) ==> NoDup(s[..i] + s[i + 1..]) && x !in s[..i] + s[i + 1..] by {
      if NoDup(s) { SpliceNoDup(s, i); }
    }
    s[..i] + s[i + 1..]
  }

  /**
   The elements left in place keep their order: the result is the list with
   one position cut out, and that position holds the first copy of x.
   */
  lemma RemoveFirstKeepsOrder(s: seq<PostId>, x: PostId)
    requires x in s
    ensures exists i :: 0 <= i < |s| && s[i] == x && x !in s[..i] && RemoveFirst(s, x) == s[..i] + s[i + 1..]
  {
    var i := IndexOf(s, x);
    assert 0 <= i < |s| && s[i] == x && x !in s[..i] && RemoveFirst(s, x) == s[..i] + s[i + 1..];
  }

  lemma SpliceCounts(s: seq<PostId>, i: nat)
    requires i < |s|
    ensures multiset(s[..i] + s[i + 1..]) == multiset(s) - multiset{s[i]}
    ensures forall y :: y != s[i] ==> (y in s[..i] + s[i + 1..] <==> y in s)
  {
    var r := s[..i] + s[i + 1..];
    assert s == s[..i] + [s[i]] + s[i + 1..];
    assert multiset(s) == multiset(s[..i]) + multiset{s[i]} + multiset(s[i + 1..]);
    forall y | y != s[i] ensures y in r <==> y in s {
      assert y in r <==> multiset(r)[y] > 0;
      assert y in s <==> multiset(s)[y] > 0;
    }
  }

  lemma SpliceNoDup(s: seq<PostId>, i: nat)
    requires i < |s| && NoDup(s)
    ensures NoDup(s[..i] + s[i + 1..]) && s[i] !in s[..i] + s[i + 1..]
  {
    var r := s[..i] + s[i + 1..];
    forall a, b | 0 <= a < b < |r| ensures r[a] != r[b] {
      var a' := if a < i then a else a + 1;
      var b' := if b < i then b else b + 1;
      assert r[a] == s[a'] && r[b] == s[b'];
    }
    forall k | 0 <= k < |r| ensures r[k] != s[i] {
      if k < i { assert r[k] == s[k]; } else { assert r[k] == s[k + 1]; }
    }
  }

  /**
   The branches of handleVoteChange: each action first checks for a vote in the
   same direction, then moves the id between the lists.
   */
  function Resolve(helpful: seq<PostId>, unhelpful: seq<PostId>, p: PostId, a: Action): (r: Resolution)
    ensures r.Resolved? ==> r.t.delta in {-2, -1, 1, 2}
  {
    match a
    case Helpful =>
      if p in helpful then Rejected(AlreadyHelpful)
      else if p in unhelpful then Resolved(Transition(helpful + [p], RemoveFirst(unhelpful, p), 2))
      else Resolved(Transition(helpful + [p], unhelpful, 1))
    case Unhelpful =>
      if p in unhelpful then Rejected(AlreadyUnhelpful)
      else if p in helpful then Resolved(Transition(RemoveFirst(helpful, p), unhelpful + [p], -2))
      else Resolved(Transition(helpful, unhelpful + [p], -1))
    case Unvote =>
      if p in helpful then Resolved(Transition(RemoveFirst(helpful, p), unhelpful, -1))
      else if p in unhelpful then Resolved(Transition(helpful, RemoveFirst(unhelpful, p), 1))
      else Rejected(NotVoted)
  }

  /** One cell of the transition table: the new vote and the counter change, or a rejection. */
  datatype Entry = Allowed(next: Vote, delta: int) | Refused(reason: Rejection)

  /** The 3x3 transition table, row by row, as an independent reference for Resolve. */
  function Table(prior: Vote, a: Action): Entry
  {
    match (prior, a)
    case (NoVote, Helpful) => Allowed(VotedHelpful, 1)
    case (VotedUnhelpful, Helpful) => Allowed(VotedHelpful, 2)
    case (VotedHelpful, Helpful) => Refused(AlreadyHelpful)
    case (NoVote, Unhelpful) => Allowed(VotedUnhelpful, -1)
    case (VotedHelpful, Unhelpful) => Allowed(VotedUnhelpful, -2)
    case (VotedUnhelpful, Unhelpful) => Refused(AlreadyUnhelpful)
    case (VotedHelpful, Unvote) => Allowed(NoVote, -1)
    case (VotedUnhelpful, Unvote) => Allowed(NoVote, 1)
    case (NoVote, Unvote) => Refused(NotVoted)
  }

  /** On well-formed lists, Resolve does exactly what the table says, in both directions. */
  lemma ResolveFollowsTable(helpful: seq<PostId>, unhelpful: seq<PostId>, p: PostId, a: Action)
    requires WellFormed(helpful, unhelpful)
    ensures Resolve(helpful, unhelpful, p, a).Resolved? <==> Table(VoteOn(helpful, unhelpful, p), a).Allowed?
    ensures Resolve(helpful, unhelpful, p, a).Resolved? ==>
      var t := Resolve(helpful, unhelpful, p, a).t;
      VoteOn(t.helpful, t.unhelpful, p) == Table(VoteOn(helpful, unhelpful, p), a).next
      && t.delta == Table(VoteOn(helpful, unhelpful, p), a).delta
    ensures Resolve(helpful, unhelpful, p, a).Rejected? ==>
      Resolve(helpful, unhelpful, p, a).reason == Table(VoteOn(helpful, unhelpful, p), a).reason
  {
  }

  /**
   A successful vote keeps a post id in at most one list and adds no duplicate:
   an id is pushed only after the same-direction membership check failed.
   */
  lemma ResolvePreservesWellFormed(helpful: seq<PostId>, unhelpful: seq<PostId>, p: PostId, a: Action)
    requires Resolve(helpful, unhelpful, p, a).Resolved?
    ensures var t := Resolve(helpful, unhelpful, p, a).t;
      (NoDup(helpful) ==> NoDup(t.helpful)) && (NoDup(unhelpful) ==> NoDup(t.unhelpful))
    ensures WellFormed(helpful, unhelpful) ==>
      var t := Resolve(helpful, unhelpful, p, a).t;
      WellFormed(t.helpful, t.unhelpful)
  {
    if NoDup(helpful) && p !in helpful { AppendFresh(helpful, p); }
    if NoDup(unhelpful) && p !in unhelpful { AppendFresh(unhelpful, p); }
  }

  lemma AppendFresh(s: seq<PostId>, x: PostId)
    requires NoDup(s) && x !in s
    ensures NoDup(s + [x])
  {
  }

  /** A vote touches only the voted post: every other id keeps its membership in both lists. */
  lemma ResolveTouchesOnlyPost(helpful: seq<PostId>, unhelpful: seq<PostId>, p: PostId, a: Action, q: PostId)
    requires Resolve(helpful, unhelpful, p, a).Resolved?
    requires q != p
    ensures var t := Resolve(helpful, unhelpful, p, a).t;
      (q in t.helpful <==> q in helpful) && (q in t.unhelpful <==> q in unhelpful)
  {
  }

  /**
   The counter change is the change of the voter's own contribution to the post:
   the net delta matches the vote transition.
   */
  lemma ResolveShiftsWeight(helpful: seq<PostId>, unhelpful: seq<PostId>, p: PostId, a: Action)
    requires NoDup(helpful) && NoDup(unhelpful)
    requires Resolve(helpful, unhelpful, p, a).Resolved?
    ensures var t := Resolve(helpful, unhelpful, p, a).t;
      Weight(t.helpful, t.unhelpful, p) == Weight(helpful, unhelpful, p) + t.delta
  {
  }

  lemma RemoveLastAppended(s: seq<PostId>, x: PostId)
    requires x !in s
    ensures RemoveFirst(s + [x], x) == s
  {
    var i := IndexOf(s + [x], x);
    assert (s + [x])[i] == x;
    assert i == |s|;
    assert (s + [x])[..i] == s;
  }

  /** Voting on an unvoted post and then unvoting gives back the same lists, with net delta 0. */
  lemma {:induction false} VoteThenUnvoteRestores(helpful: seq<PostId>, unhelpful: seq<PostId>, p: PostId, a: Action)
    requires p !in helpful && p !in unhelpful
    requires a != Unvote
    ensures Resolve(helpful, unhelpful, p, a).Resolved?
    ensures var t1 := Resolve(helpful, unhelpful, p, a).t;
      var r2 := Resolve(t1.helpful, t1.unhelpful, p, Unvote);
      r2.Resolved? && r2.t.helpful == helpful && r2.t.unhelpful == unhelpful
      && t1.delta + r2.t.delta == 0
  {
    if a == Helpful {
      RemoveLastAppended(helpful, p);
    } else {
      RemoveLastAppended(unhelpful, p);
    }
  }

  /**
   Switch law: from no vote, a vote followed by the opposite vote ends in the same
   lists and the same net delta as casting the opposite vote directly.
   */
  lemma {:induction false} SwitchMatchesDirectVote(helpful: seq<PostId>, unhelpful: seq<PostId>, p: PostId, a: Action)
    requires p !in helpful && p !in unhelpful
    requires a != Unvote
    ensures var b := if a == Helpful then Unhelpful else Helpful;
      var t1 := Resolve(helpful, unhelpful, p, a).t;
      var r2 := Resolve(t1.helpful, t1.unhelpful, p, b);
      var direct := Resolve(helpful, unhelpful, p, b);
      r2.Resolved? && direct.Resolved?
      && r2.t.helpful == direct.t.helpful && r2.t.unhelpful == direct.t.unhelpful
      && t1.delta + r2.t.delta == direct.t.delta
  {
    if a == Helpful {
      RemoveLastAppended(helpful, p);
    } else {
      RemoveLastAppended(unhelpful, p);
    }
  }

  /** Casting the same vote twice, or unvoting twice, is rejected the second time. */
  lemma RepeatIsRejected(helpful: seq<PostId>, unhelpful: seq<PostId>, p: PostId, a: Action)
    requires WellFormed(helpful, unhelpful)
    requires Resolve(helpful, unhelpful, p, a).Resolved?
    ensures var t := Resolve(helpful, unhelpful, p, a).t;
      Resolve(t.helpful, t.unhelpful, p, a) ==
        Rejected(match a case Helpful => AlreadyHelpful case Unhelpful => AlreadyUnhelpful case Unvote => NotVoted)
  {
  }
}
