/**
 * The Social ledger as a value: its storage, its read-only queries and the
 * effect of each of its four state-changing calls.
 *
 * A call's sender and the block timestamp are explicit parameters; neither is
 * an argument of the contract's own functions. A call either completes
 * (`Done`) or reverts (`Reverted`), and a reverted call leaves the ledger as
 * it was and emits nothing.
 */
module SocialLedger {

  /** An account address: 160 bits wide. Address 0 is the zero value. */
  newtype Address = a: int | 0 <= a < 0x1_0000_0000_0000_0000_0000_0000_0000_0000_0000_0000

  datatype User = User(username: string, userAddress: Address, isRegistered: bool)

  /** What a storage read of an address that never registered yields. */
  const UnregisteredUser := User("", 0, false)

  datatype Post = Post(author: Address, content: string, timestamp: nat, likes: nat, commentsCount: nat)

  datatype Comment = Comment(commenter: Address, content: string, timestamp: nat)

  /** What a storage read of a comment slot that was never written yields. */
  const EmptyComment := Comment(0, "", 0)

  /** The four events, with the fields the contract emits. */
  datatype Event =
    | UserRegistered(userAddress: Address, username: string)
    | PostCreated(author: Address, content: string, timestamp: nat)
    | PostLiked(liker: Address, postId: nat)
    | CommentAdded(commenter: Address, postId: nat, content: string, timestamp: nat)

  datatype Error = AlreadyRegistered | NotRegistered | PostNotFound | CommentNotFound

  /** How a transaction ends. A mutator returns no value of its own. */
  datatype Outcome = Done | Reverted(error: Error)

  /** What a read-only call that may revert yields. */
  datatype Result<T> = Ok(value: T) | Err(error: Error)

  /**
   * The contract's storage: the `users` mapping (only registered addresses
   * are keys), the `posts` array, the `postComments` mapping keyed by
   * (post id, comment id), the `postCommentsCount` mapping, the `owner`, and
   * the log of emitted events.
   */
  datatype Ledger = Ledger(
    owner: Address,
    users: map<Address, User>,
    posts: seq<Post>,
    postComments: map<(nat, nat), Comment>,
    postCommentsCount: map<nat, nat>,
    events: seq<Event>)

  /** The result of one state-changing call: its outcome and the ledger after it. */
  datatype Step = Step(outcome: Outcome, next: Ledger)

  /** The ledger right after deployment by `deployer`. */
  function Deployed(deployer: Address): (l: Ledger)
    ensures l.owner == deployer && l.posts == [] && l.events == []
    ensures forall a :: !GetUserByAddress(l, a).isRegistered
  {
    Ledger(deployer, map[], [], map[], map[], [])
  }

  /** The invariant every ledger reachable from deployment keeps. */
  ghost predicate Valid(l: Ledger) {
    UsersWellFormed(l) && AuthorsRegistered(l) && CountersAgree(l) && CommentsDense(l)
  }

  /** A registered address's record names that address and is registered. */
  ghost predicate UsersWellFormed(l: Ledger) {
    forall a :: a in l.users ==> l.users[a].userAddress == a && l.users[a].isRegistered
  }

  /** Authors and commenters are registered users. */
  ghost predicate AuthorsRegistered(l: Ledger) {
    && (forall i :: 0 <= i < |l.posts| ==> l.posts[i].author in l.users)
    && (forall k :: k in l.postComments ==> l.postComments[k].commenter in l.users)
  }

  /** The `postCommentsCount` mapping and each post's own `commentsCount` agree. */
  ghost predicate CountersAgree(l: Ledger) {
    && (forall p :: p in l.postCommentsCount ==> p < |l.posts|)
    && (forall i :: 0 <= i < |l.posts| ==> PostCommentsCount(l, i) == l.posts[i].commentsCount)
  }

  /** A post's comments occupy exactly the ids 0 .. commentsCount - 1. */
  ghost predicate CommentsDense(l: Ledger) {
    && (forall k :: k in l.postComments ==> k.0 < |l.posts| && k.1 < l.posts[k.0].commentsCount)
    && (forall i, j :: 0 <= i < |l.posts| && 0 <= j < l.posts[i].commentsCount ==> (i, j) in l.postComments)
  }

  // ---------------------------------------------------------------------
  // Read-only queries and storage getters
  // ---------------------------------------------------------------------

  /** The `owner` getter: the address stored at deployment, readable by anyone. */
  function Owner(l: Ledger): (o: Address)
    ensures o == l.owner
  {
    l.owner
  }

  /** The `users(address)` getter: a mapping read, the zero record on a miss. */
  function Users(l: Ledger, a: Address): (u: User)
    ensures a in l.users ==> u == l.users[a]
    ensures a !in l.users ==> u == UnregisteredUser && !u.isRegistered
  {
    if a in l.users then l.users[a] else UnregisteredUser
  }

  /** `getUserByAddress`: the record the `users` getter returns for `a`; never reverts. */
  function GetUserByAddress(l: Ledger, a: Address): (u: User)
    ensures u == Users(l, a)
    ensures a !in l.users ==> u == UnregisteredUser && !u.isRegistered
  {
    Users(l, a)
  }

  /** `getAllPosts`: every post, in creation order. */
  function GetAllPosts(l: Ledger): (ps: seq<Post>)
    ensures |ps| == |l.posts|
    ensures forall i :: 0 <= i < |ps| ==> ps[i] == l.posts[i]
  {
    l.posts
  }

  /** `getPostsCount`: the number of posts `getAllPosts` returns. */
  function GetPostsCount(l: Ledger): (n: nat)
    ensures n == |GetAllPosts(l)|
  {
    |l.posts|
  }

  /** The `posts(uint256)` getter: an array read, which reverts out of range. */
  function Posts(l: Ledger, postId: nat): (r: Result<Post>)
    ensures r.Ok? <==> postId < GetPostsCount(l)
    ensures r.Ok? ==> r.value == GetAllPosts(l)[postId]
    ensures r.Err? ==> r.error == PostNotFound
  {
    if postId < |l.posts| then Ok(l.posts[postId]) else Err(PostNotFound)
  }

  /** `getPost`: the same five fields the `posts` getter returns. */
  function GetPost(l: Ledger, postId: nat): (r: Result<Post>)
    ensures r == Posts(l, postId)
    ensures postId < GetPostsCount(l) ==> r == Ok(GetAllPosts(l)[postId])
    ensures postId >= GetPostsCount(l) ==> r == Err(PostNotFound)
  {
    Posts(l, postId)
  }

  /** The `postComments(uint256, uint256)` getter: a mapping read, the zero comment on a miss. */
  function PostComments(l: Ledger, postId: nat, commentId: nat): (c: Comment)
    ensures (postId, commentId) in l.postComments ==> c == l.postComments[(postId, commentId)]
    ensures (postId, commentId) !in l.postComments ==> c == EmptyComment
  {
    if (postId, commentId) in l.postComments then l.postComments[(postId, commentId)] else EmptyComment
  }

  /** The `postCommentsCount(uint256)` getter: a mapping read, 0 on a miss. */
  function PostCommentsCount(l: Ledger, postId: nat): (n: nat)
    ensures postId in l.postCommentsCount ==> n == l.postCommentsCount[postId]
    ensures postId !in l.postCommentsCount ==> n == 0
  {
    if postId in l.postCommentsCount then l.postCommentsCount[postId] else 0
  }

  /** `getComment`: comment `commentId` of post `postId`, reverting when either id is out of range. */
  function GetComment(l: Ledger, postId: nat, commentId: nat): (r: Result<Comment>)
    ensures r.Ok? <==> postId < GetPostsCount(l) && commentId < PostCommentsCount(l, postId)
    ensures r.Ok? ==> r.value == PostComments(l, postId, commentId)
    ensures postId >= GetPostsCount(l) ==> r == Err(PostNotFound)
    ensures postId < GetPostsCount(l) && commentId >= PostCommentsCount(l, postId) ==> r == Err(CommentNotFound)
  {
    if postId >= |l.posts| then Err(PostNotFound)
    else if commentId >= PostCommentsCount(l, postId) then Err(CommentNotFound)
    else Ok(PostComments(l, postId, commentId))
  }

  /**
   * The comments of a post as a client reads them: ids 0, 1, ... up to the
   * post's comment count, each read through the comment getter.
   */
  function CommentsOf(l: Ledger, postId: nat): (cs: seq<Comment>)
    ensures |cs| == PostCommentsCount(l, postId)
    ensures forall j :: 0 <= j < |cs| ==> cs[j] == PostComments(l, postId, j)
  {
    seq(PostCommentsCount(l, postId), j requires 0 <= j => PostComments(l, postId, j))
  }

  // ---------------------------------------------------------------------
  // The four state-changing calls
  // ---------------------------------------------------------------------

  predicate IsRegistered(l: Ledger, a: Address) {
    a in l.users
  }

  /** `registerUser(_username)` sent by `caller`. */
  function RegisterUser(l: Ledger, caller: Address, username: string): (r: Step)
    ensures r.next.owner == l.owner
    ensures r.outcome.Reverted? ==> r.next == l
    ensures r.outcome.Done? ==> r.next.events == l.events + [UserRegistered(caller, username)]
  {
    if IsRegistered(l, caller) then Step(Reverted(AlreadyRegistered), l)
    else
      Step(Done, l.(users := l.users[caller := User(username, caller, true)],
                    events := l.events + [UserRegistered(caller, username)]))
  }

  /** `createPost(_content)` sent by `caller` in a block with timestamp `now`. */
  function CreatePost(l: Ledger, caller: Address, content: string, now: nat): (r: Step)
    ensures r.next.owner == l.owner
    ensures r.outcome.Reverted? ==> r.next == l
    ensures r.outcome.Done? ==> r.next.events == l.events + [PostCreated(caller, content, now)]
  {
    if !IsRegistered(l, caller) then Step(Reverted(NotRegistered), l)
    else
      Step(Done, l.(posts := l.posts + [Post(caller, content, now, 0, 0)],
                    events := l.events + [PostCreated(caller, content, now)]))
  }

  /** `likePost(_postId)` sent by `caller`. */
  function LikePost(l: Ledger, caller: Address, postId: nat): (r: Step)
    ensures r.next.owner == l.owner
    ensures r.outcome.Reverted? ==> r.next == l
    ensures r.outcome.Done? ==> r.next.events == l.events + [PostLiked(caller, postId)]
  {
    if !IsRegistered(l, caller) then Step(Reverted(NotRegistered), l)
    else if postId >= |l.posts| then Step(Reverted(PostNotFound), l)
    else
      var post := l.posts[postId];
      Step(Done, l.(posts := l.posts[postId := post.(likes := post.likes + 1)],
                    events := l.events + [PostLiked(caller, postId)]))
  }

  /** `addComment(_postId, _content)` sent by `caller` in a block with timestamp `now`. */
  function AddComment(l: Ledger, caller: Address, postId: nat, content: string, now: nat): (r: Step)
    ensures r.next.owner == l.owner
    ensures r.outcome.Reverted? ==> r.next == l
    ensures r.outcome.Done? ==> r.next.events == l.events + [CommentAdded(caller, postId, content, now)]
  {
    if !IsRegistered(l, caller) then Step(Reverted(NotRegistered), l)
    else if postId >= |l.posts| then Step(Reverted(PostNotFound), l)
    else
      var commentId := PostCommentsCount(l, postId);
      var post := l.posts[postId];
      Step(Done, l.(postComments := l.postComments[(postId, commentId) := Comment(caller, content, now)],
                    postCommentsCount := l.postCommentsCount[postId := commentId + 1],
                    posts := l.posts[postId := post.(commentsCount := post.commentsCount + 1)],
                    events := l.events + [CommentAdded(caller, postId, content, now)]))
  }
}
