/**
 * The deployed Social contract: its storage as fields updated in place by
 * the four state-changing calls, each proved to do exactly what the
 * corresponding step of the ledger model does.
 */
module SocialContract {
  import opened SocialLedger
  import SocialProperties

  class Social {
    const owner: Address
    var users: map<Address, User>
    var posts: seq<Post>
    var postComments: map<(nat, nat), Comment>
    var postCommentsCount: map<nat, nat>
    /** Every event emitted so far, in emission order. */
    var events: seq<Event>

    /** The storage as a ledger value; every read-only query is a function of it. */
    function Snapshot(): Ledger
      reads this
    {
      Ledger(owner, users, posts, postComments, postCommentsCount, events)
    }

    ghost predicate Valid()
      reads this
    {
      SocialLedger.Valid(Snapshot())
    }

    /** Deployment: no inputs; the deploying account becomes `owner`. */
    constructor (deployer: Address)
      ensures Valid()
      ensures Snapshot() == Deployed(deployer)
    {
      owner := deployer;
      users, posts, postComments, postCommentsCount, events := map[], [], map[], map[], [];
    }

    /** `registerUser(_username)` sent by `sender`. */
    method RegisterUser(sender: Address, username: string) returns (status: Outcome)
      requires Valid()
      modifies this
      ensures Valid()
      ensures Step(status, Snapshot()) == SocialLedger.RegisterUser(old(Snapshot()), sender, username)
      ensures status == Done <==> !old(IsRegistered(Snapshot(), sender))
      ensures status == Done ==> users[sender] == User(username, sender, true)
    {
      if sender in users {
        return Reverted(AlreadyRegistered);
      }
      users := users[sender := User(username, sender, true)];
      events := events + [UserRegistered(sender, username)];
      status := Done;
      SocialProperties.RegisterUserKeepsValid(old(Snapshot()), sender, username);
    }

    /** `createPost(_content)` sent by `sender` in a block with timestamp `now`. */
    method CreatePost(sender: Address, content: string, now: nat) returns (status: Outcome)
      requires Valid()
      modifies this
      ensures Valid()
      ensures Step(status, Snapshot()) == SocialLedger.CreatePost(old(Snapshot()), sender, content, now)
      ensures status == Done <==> old(IsRegistered(Snapshot(), sender))
      ensures status == Done ==> posts == old(posts) + [Post(sender, content, now, 0, 0)]
    {
      if sender !in users {
        return Reverted(NotRegistered);
      }
      posts := posts + [Post(sender, content, now, 0, 0)];
      events := events + [PostCreated(sender, content, now)];
      status := Done;
      SocialProperties.CreatePostKeepsValid(old(Snapshot()), sender, content, now);
    }

    /** `likePost(_postId)` sent by `sender`. */
    method LikePost(sender: Address, postId: nat) returns (status: Outcome)
      requires Valid()
      modifies this
      ensures Valid()
      ensures Step(status, Snapshot()) == SocialLedger.LikePost(old(Snapshot()), sender, postId)
      ensures status == Done <==> old(IsRegistered(Snapshot(), sender)) && postId < old(|posts|)
      ensures status == Done ==> posts[postId].likes == old(posts[postId].likes) + 1
    {
      if sender !in users {
        return Reverted(NotRegistered);
      }
      if postId >= |posts| {
        return Reverted(PostNotFound);
      }
      ghost var step := SocialLedger.LikePost(old(Snapshot()), sender, postId);
      var post := posts[postId];
      posts := posts[postId := post.(likes := post.likes + 1)];
      events := events + [PostLiked(sender, postId)];
      status := Done;
      assert Snapshot() == step.next;
      SocialProperties.LikePostKeepsValid(old(Snapshot()), sender, postId);
    }

    /** `addComment(_postId, _content)` sent by `sender` in a block with timestamp `now`. */
    method AddComment(sender: Address, postId: nat, content: string, now: nat) returns (status: Outcome)
      requires Valid()
      modifies this
      ensures Valid()
      ensures Step(status, Snapshot()) == SocialLedger.AddComment(old(Snapshot()), sender, postId, content, now)
      ensures status == Done <==> old(IsRegistered(Snapshot(), sender)) && postId < old(|posts|)
      ensures status == Done ==>
        && postComments[(postId, old(posts[postId].commentsCount))] == Comment(sender, content, now)
        && posts[postId].commentsCount == old(posts[postId].commentsCount) + 1
    {
      if sender !in users {
        return Reverted(NotRegistered);
      }
      if postId >= |posts| {
        return Reverted(PostNotFound);
      }
      ghost var step := SocialLedger.AddComment(old(Snapshot()), sender, postId, content, now);
      var commentId := if postId in postCommentsCount then postCommentsCount[postId] else 0;
      postComments := postComments[(postId, commentId) := Comment(sender, content, now)];
      postCommentsCount := postCommentsCount[postId := commentId + 1];
      var post := posts[postId];
      posts := posts[postId := post.(commentsCount := post.commentsCount + 1)];
      events := events + [CommentAdded(sender, postId, content, now)];
      status := Done;
      assert Snapshot() == step.next;
      SocialProperties.AddCommentKeepsValid(old(Snapshot()), sender, postId, content, now);
      assert commentId == old(posts[postId].commentsCount);
    }
  }

  /**
   * The scenario's last phase: `commenter` comments on post 0 and the comment
   * and the post are read back.
   */
  method CommentOnFirstPost(social: Social, commenter: Address, commentTime: nat)
    returns (comment: Result<Comment>, commented: Result<Post>)
    requires social.Valid() && commenter in social.users
    requires |social.posts| == 1 && social.posts[0].commentsCount == 0
    modifies social
    ensures social.users == old(social.users)
    ensures comment == Ok(Comment(commenter, "This is a test comment", commentTime))
    ensures commented == Ok(old(social.posts[0]).(commentsCount := old(social.posts[0].commentsCount) + 1))
  {
    var status := social.AddComment(commenter, 0, "This is a test comment", commentTime);
    comment := GetComment(social.Snapshot(), 0, 0);
    commented := GetPost(social.Snapshot(), 0);
  }

  /**
   * The hardhat scenario: `deployer` deploys, `user1` registers and posts,
   * `user2` registers, likes post 0 and comments on it; each out-parameter is
   * what one of the scenario's reads returns at that point.
   */
  method HardhatScenario(deployer: Address, user1: Address, user2: Address, postTime: nat, commentTime: nat)
    returns (registered: User, postsCount: nat, created: Result<Post>, liked: Result<Post>,
             comment: Result<Comment>, commented: Result<Post>, details: User)
    ensures registered == User("user1", user1, true)
    ensures postsCount == 1
    ensures created.Ok? && created.value.author == user1 && created.value.content == "This is a test post"
    ensures created.Ok? && created.value.likes == 0 && created.value.commentsCount == 0
    ensures liked.Ok? && liked.value.likes == 1 && liked.value.author == user1
    ensures comment.Ok? && comment.value.commenter == user2 && comment.value.content == "This is a test comment"
    ensures commented.Ok? && commented.value.commentsCount == 1
    ensures details.userAddress == user1 && details.isRegistered
  {
    var social := new Social(deployer);
    var status := social.RegisterUser(user1, "user1");
    registered := Users(social.Snapshot(), user1);

    status := social.CreatePost(user1, "This is a test post", postTime);
    postsCount := GetPostsCount(social.Snapshot());
    created := GetPost(social.Snapshot(), 0);

    status := social.RegisterUser(user2, "user2");
    status := social.LikePost(user2, 0);
    liked := GetPost(social.Snapshot(), 0);

    comment, commented := CommentOnFirstPost(social, user2, commentTime);

    details := GetUserByAddress(social.Snapshot(), user1);
  }
}
