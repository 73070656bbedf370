/**
 * Sequences of transactions against the ledger: the invariant every
 * reachable ledger keeps, the append-only event log, the fact that the event
 * log alone determines the ledger, and the effect of repeated posts, likes
 * and comments.
 */
module SocialHistory {
  import opened SocialLedger
  import opened SocialProperties

  /** One transaction: the mutator called, its sender and, where used, the block time. */
  datatype Tx =
    | RegisterUserTx(sender: Address, username: string)
    | CreatePostTx(sender: Address, content: string, timestamp: nat)
    | LikePostTx(sender: Address, postId: nat)
    | AddCommentTx(sender: Address, postId: nat, content: string, timestamp: nat)

  function Execute(l: Ledger, tx: Tx): Step {
    match tx
    case RegisterUserTx(sender, username) => RegisterUser(l, sender, username)
    case CreatePostTx(sender, content, now) => CreatePost(l, sender, content, now)
    case LikePostTx(sender, postId) => LikePost(l, sender, postId)
    case AddCommentTx(sender, postId, content, now) => AddComment(l, sender, postId, content, now)
  }

  /** The ledger after executing `txs` one at a time, in order, from `l`. */
  function Run(l: Ledger, txs: seq<Tx>): Ledger
    decreases |txs|
  {
    if txs == [] then l else Run(Execute(l, txs[0]).next, txs[1..])
  }

  lemma ExecuteKeepsValid(l: Ledger, tx: Tx)
    requires Valid(l)
    ensures Valid(Execute(l, tx).next)
  {
    match tx
    case RegisterUserTx(sender, username) => RegisterUserKeepsValid(l, sender, username);
    case CreatePostTx(sender, content, now) => CreatePostKeepsValid(l, sender, content, now);
    case LikePostTx(sender, postId) => LikePostKeepsValid(l, sender, postId);
    case AddCommentTx(sender, postId, content, now) => AddCommentKeepsValid(l, sender, postId, content, now);
  }

  /**
   * Along any run the invariant holds, the owner never changes, and the
   * event log only grows, by at most one event per transaction.
   */
  lemma {:induction false} RunKeepsValid(l: Ledger, txs: seq<Tx>)
    requires Valid(l)
    ensures Valid(Run(l, txs))
    ensures Run(l, txs).owner == l.owner
    ensures l.events <= Run(l, txs).events
    ensures |Run(l, txs).events| <= |l.events| + |txs|
    decreases |txs|
  {
    if txs != [] {
      var n := Execute(l, txs[0]).next;
      ExecuteKeepsValid(l, txs[0]);
      RunKeepsValid(n, txs[1..]);
    }
  }

  /** Every ledger reachable from deployment is valid and keeps its deployer as owner. */
  lemma ReachableIsValid(deployer: Address, txs: seq<Tx>)
    ensures Valid(Run(Deployed(deployer), txs))
    ensures Owner(Run(Deployed(deployer), txs)) == deployer
  {
    RunKeepsValid(Deployed(deployer), txs);
  }

  // ---------------------------------------------------------------------
  // Nothing is ever taken back
  // ---------------------------------------------------------------------

  /** `q` is post `p` later on: the same author, content and time, and no fewer likes or comments. */
  ghost predicate Grown(p: Post, q: Post) {
    && q.author == p.author && q.content == p.content && q.timestamp == p.timestamp
    && q.likes >= p.likes && q.commentsCount >= p.commentsCount
  }

  /**
   * `r` extends `l`: user records are never changed or removed, the posts of
   * `l` are a prefix of those of `r` and have only grown, every comment of `l`
   * is still in place, and the event log of `l` is a prefix of that of `r`.
   */
  ghost predicate Extends(l: Ledger, r: Ledger) {
    && r.owner == l.owner
    && (forall a :: a in l.users ==> a in r.users && r.users[a] == l.users[a])
    && |l.posts| <= |r.posts|
    && (forall i :: 0 <= i < |l.posts| ==> Grown(l.posts[i], r.posts[i]))
    && (forall k :: k in l.postComments ==> k in r.postComments && r.postComments[k] == l.postComments[k])
    && l.events <= r.events
  }

  lemma ExtendsTransitive(l: Ledger, m: Ledger, r: Ledger)
    requires Extends(l, m) && Extends(m, r)
    ensures Extends(l, r)
  {
    assert forall i :: 0 <= i < |l.posts| ==> Grown(l.posts[i], m.posts[i]) && Grown(m.posts[i], r.posts[i]);
  }

  lemma RegisterUserExtends(l: Ledger, caller: Address, username: string)
    ensures Extends(l, RegisterUser(l, caller, username).next)
  {
  }

  lemma CreatePostExtends(l: Ledger, caller: Address, content: string, now: nat)
    ensures Extends(l, CreatePost(l, caller, content, now).next)
  {
  }

  lemma LikePostExtends(l: Ledger, caller: Address, postId: nat)
    ensures Extends(l, LikePost(l, caller, postId).next)
  {
  }

  /** The new comment goes to a slot that was empty, so no stored comment is overwritten. */
  lemma AddCommentExtends(l: Ledger, caller: Address, postId: nat, content: string, now: nat)
    requires CountersAgree(l) && CommentsDense(l)
    ensures Extends(l, AddComment(l, caller, postId, content, now).next)
  {
    if IsRegistered(l, caller) && postId < |l.posts| {
      assert (postId, PostCommentsCount(l, postId)) !in l.postComments;
    }
  }

  /** One call, completed or reverted, takes nothing back from a valid ledger. */
  lemma ExecuteExtends(l: Ledger, tx: Tx)
    requires Valid(l)
    ensures Extends(l, Execute(l, tx).next)
  {
    match tx
    case RegisterUserTx(sender, username) => RegisterUserExtends(l, sender, username);
    case CreatePostTx(sender, content, now) => CreatePostExtends(l, sender, content, now);
    case LikePostTx(sender, postId) => LikePostExtends(l, sender, postId);
    case AddCommentTx(sender, postId, content, now) => AddCommentExtends(l, sender, postId, content, now);
  }

  /**
   * Along any run from a valid ledger, user records are immutable, posts are
   * only appended and their author, content and time never change while their
   * counters never fall, stored comments are never overwritten, and the event
   * log only grows.
   */
  lemma {:induction false} RunExtends(l: Ledger, txs: seq<Tx>)
    requires Valid(l)
    ensures Extends(l, Run(l, txs))
    decreases |txs|
  {
    if txs != [] {
      var n := Execute(l, txs[0]).next;
      ExecuteExtends(l, txs[0]);
      ExecuteKeepsValid(l, txs[0]);
      RunExtends(n, txs[1..]);
      ExtendsTransitive(l, n, Run(n, txs[1..]));
    }
  }

  // ---------------------------------------------------------------------
  // The event log determines the ledger
  // ---------------------------------------------------------------------

  /**
   * What an indexer that sees only event `e` does to its copy of the ledger:
   * an independent reading of each event's fields.
   */
  function Apply(l: Ledger, e: Event): Ledger {
    var logged := l.events + [e];
    match e
    case UserRegistered(a, name) =>
      l.(users := l.users[a := User(name, a, true)], events := logged)
    case PostCreated(a, content, t) =>
      l.(posts := l.posts + [Post(a, content, t, 0, 0)], events := logged)
    case PostLiked(_, p) =>
      if p < |l.posts| then l.(posts := l.posts[p := l.posts[p].(likes := l.posts[p].likes + 1)], events := logged)
      else l.(events := logged)
    case CommentAdded(a, p, content, t) =>
      if p < |l.posts| then
        var count := l.posts[p].commentsCount;
        l.(postComments := l.postComments[(p, count) := Comment(a, content, t)],
           postCommentsCount := l.postCommentsCount[p := count + 1],
           posts := l.posts[p := l.posts[p].(commentsCount := count + 1)],
           events := logged)
      else l.(events := logged)
  }

  /** The ledger an indexer rebuilds from deployment by `owner` and the event log `es`. */
  function Replay(owner: Address, es: seq<Event>): Ledger
    decreases |es|
  {
    if es == [] then Deployed(owner) else Apply(Replay(owner, es[..|es| - 1]), es[|es| - 1])
  }

  /** A successful call changes the ledger exactly as replaying the event it emitted does. */
  lemma ExecuteIsApply(l: Ledger, tx: Tx)
    requires Valid(l)
    ensures var s := Execute(l, tx);
      (s.outcome.Reverted? && s.next == l)
      || (s.outcome == Done && |s.next.events| == |l.events| + 1 && s.next == Apply(l, s.next.events[|l.events|]))
  {
    match tx
    case RegisterUserTx(sender, username) =>
    case CreatePostTx(sender, content, now) =>
    case LikePostTx(sender, postId) =>
    case AddCommentTx(sender, postId, content, now) =>
      var s := Execute(l, tx);
      if s.outcome == Done {
        assert PostCommentsCount(l, postId) == l.posts[postId].commentsCount;
      }
  }

  /**
   * Along any run from a ledger that is the replay of its own log, the
   * ledger stays the replay of its log: the events carry everything the
   * storage holds.
   */
  lemma {:induction false} RunIsReplay(l: Ledger, txs: seq<Tx>)
    requires Valid(l)
    requires l == Replay(l.owner, l.events)
    ensures Run(l, txs) == Replay(l.owner, Run(l, txs).events)
    decreases |txs|
  {
    if txs != [] {
      var s := Execute(l, txs[0]);
      ExecuteIsApply(l, txs[0]);
      ExecuteKeepsValid(l, txs[0]);
      if s.outcome == Done {
        var es := s.next.events;
        assert es[..|es| - 1] == l.events;
        assert s.next == Replay(l.owner, es);
      }
      RunIsReplay(s.next, txs[1..]);
    }
  }

  /** Replaying the event log of any ledger reachable from deployment rebuilds that ledger. */
  lemma ReachableIsReplay(deployer: Address, txs: seq<Tx>)
    ensures Run(Deployed(deployer), txs) == Replay(deployer, Run(Deployed(deployer), txs).events)
  {
    RunIsReplay(Deployed(deployer), txs);
  }

  // ---------------------------------------------------------------------
  // Repeated calls
  // ---------------------------------------------------------------------

  /** All of `txs` are `createPost` calls from registered senders. */
  ghost predicate RegisteredPosts(l: Ledger, txs: seq<Tx>) {
    forall i :: 0 <= i < |txs| ==> txs[i].CreatePostTx? && IsRegistered(l, txs[i].sender)
  }

  /**
   * After `createPost` calls from registered senders, the post count has
   * grown by the number of calls, post `count + i` is the one the `i`-th call
   * created, with both counters at 0, and the earlier posts are untouched.
   */
  lemma {:induction false} CreatePostsInOrder(l: Ledger, txs: seq<Tx>)
    requires RegisteredPosts(l, txs)
    ensures var r := Run(l, txs);
      && GetPostsCount(r) == GetPostsCount(l) + |txs|
      && (forall i :: 0 <= i < GetPostsCount(l) ==> GetPost(r, i) == GetPost(l, i))
      && (forall i :: 0 <= i < |txs| ==>
            GetPost(r, GetPostsCount(l) + i) == Ok(Post(txs[i].sender, txs[i].content, txs[i].timestamp, 0, 0)))
      && r.users == l.users
    decreases |txs|
  {
    if txs != [] {
      var tx := txs[0];
      var n := Execute(l, tx).next;
      assert n.posts == l.posts + [Post(tx.sender, tx.content, tx.timestamp, 0, 0)];
      assert RegisteredPosts(n, txs[1..]) by {
        forall i | 0 <= i < |txs[1..]| ensures txs[1..][i].CreatePostTx? && IsRegistered(n, txs[1..][i].sender) {
          assert txs[1..][i] == txs[i + 1];
        }
      }
      CreatePostsInOrder(n, txs[1..]);
      var r := Run(l, txs);
      forall i | 0 <= i < |txs|
        ensures GetPost(r, GetPostsCount(l) + i) == Ok(Post(txs[i].sender, txs[i].content, txs[i].timestamp, 0, 0))
      {
        if i > 0 {
          assert txs[i] == txs[1..][i - 1];
          assert GetPostsCount(l) + i == GetPostsCount(n) + (i - 1);
        }
      }
    }
  }

  /** All of `txs` are `likePost(postId)` calls from registered senders; the same sender may repeat. */
  ghost predicate RegisteredLikes(l: Ledger, postId: nat, txs: seq<Tx>) {
    forall i :: 0 <= i < |txs| ==> txs[i].LikePostTx? && txs[i].postId == postId && IsRegistered(l, txs[i].sender)
  }

  /**
   * Likes are not deduplicated: `n` `likePost` calls on an existing post, by
   * registered senders that may repeat, raise its `likes` by exactly `n` and
   * change none of its other fields.
   */
  lemma {:induction false} LikesAccumulate(l: Ledger, postId: nat, txs: seq<Tx>)
    requires postId < GetPostsCount(l)
    requires RegisteredLikes(l, postId, txs)
    ensures var r := Run(l, txs);
      && GetPostsCount(r) == GetPostsCount(l)
      && GetPost(r, postId) == Ok(l.posts[postId].(likes := l.posts[postId].likes + |txs|))
      && r.users == l.users
    decreases |txs|
  {
    if txs != [] {
      var n := Execute(l, txs[0]).next;
      assert RegisteredLikes(n, postId, txs[1..]) by {
        forall i | 0 <= i < |txs[1..]|
          ensures txs[1..][i].LikePostTx? && txs[1..][i].postId == postId && IsRegistered(n, txs[1..][i].sender)
        {
          assert txs[1..][i] == txs[i + 1];
        }
      }
      LikesAccumulate(n, postId, txs[1..]);
    }
  }

  /** All of `txs` are `addComment(postId, ...)` calls from registered senders. */
  ghost predicate RegisteredComments(l: Ledger, postId: nat, txs: seq<Tx>) {
    forall i :: 0 <= i < |txs| ==> txs[i].AddCommentTx? && txs[i].postId == postId && IsRegistered(l, txs[i].sender)
  }

  /** The comments `addComment` calls carry, in call order. */
  function CommentsCarried(txs: seq<Tx>): seq<Comment>
    requires forall i :: 0 <= i < |txs| ==> txs[i].AddCommentTx?
    decreases |txs|
  {
    if txs == [] then []
    else [Comment(txs[0].sender, txs[0].content, txs[0].timestamp)] + CommentsCarried(txs[1..])
  }

  /** Appending one element and then a suffix is appending the element followed by the suffix. */
  lemma AppendThenConcat<T>(before: seq<T>, x: T, rest: seq<T>)
    ensures (before + [x]) + rest == before + ([x] + rest)
  {
  }

  /** One `addComment` call from a registered sender on an existing post, in the terms of a run. */
  lemma AddCommentTxStep(l: Ledger, postId: nat, tx: Tx)
    requires Valid(l)
    requires postId < GetPostsCount(l)
    requires tx.AddCommentTx? && tx.postId == postId && IsRegistered(l, tx.sender)
    ensures var n := Execute(l, tx).next;
      && Valid(n)
      && GetPostsCount(n) == GetPostsCount(l)
      && n.posts[postId].commentsCount == l.posts[postId].commentsCount + 1
      && CommentsOf(n, postId) == CommentsOf(l, postId) + [Comment(tx.sender, tx.content, tx.timestamp)]
      && n.users == l.users
  {
    AddCommentEffect(l, tx.sender, postId, tx.content, tx.timestamp);
    AddCommentKeepsValid(l, tx.sender, postId, tx.content, tx.timestamp);
  }

  /**
   * `k` `addComment` calls on an existing post by registered senders leave
   * the post with `commentsCount` raised by `k`, and its comments, read by
   * dense id, are the earlier ones followed by the new ones in call order.
   */
  lemma {:induction false} CommentsInOrder(l: Ledger, postId: nat, txs: seq<Tx>)
    requires Valid(l)
    requires postId < GetPostsCount(l)
    requires RegisteredComments(l, postId, txs)
    ensures var r := Run(l, txs);
      && GetPostsCount(r) == GetPostsCount(l)
      && r.posts[postId].commentsCount == l.posts[postId].commentsCount + |txs|
      && CommentsOf(r, postId) == CommentsOf(l, postId) + CommentsCarried(txs)
    decreases |txs|
  {
    if txs != [] {
      var tx := txs[0];
      var added := Comment(tx.sender, tx.content, tx.timestamp);
      var n := Execute(l, tx).next;
      AddCommentTxStep(l, postId, tx);
      assert RegisteredComments(n, postId, txs[1..]) by {
        forall i | 0 <= i < |txs[1..]|
          ensures txs[1..][i].AddCommentTx? && txs[1..][i].postId == postId && IsRegistered(n, txs[1..][i].sender)
        {
          assert txs[1..][i] == txs[i + 1];
        }
      }
      CommentsInOrder(n, postId, txs[1..]);
      var r := Run(n, txs[1..]);
      assert Run(l, txs) == r;
      assert CommentsCarried(txs) == [added] + CommentsCarried(txs[1..]);
      AppendThenConcat(CommentsOf(l, postId), added, CommentsCarried(txs[1..]));
    }
  }
}
