/**
 * What one call does to the ledger: the effect each hardhat assertion
 * observes, the revert conditions, and the invariant each call keeps.
 */
module SocialProperties {
  import opened SocialLedger

  /** `getUserByAddress` on a valid ledger: the stored record or, as a soft miss, the zero record. */
  lemma GetUserByAddressSoftMiss(l: Ledger, a: Address)
    requires Valid(l)
    ensures GetUserByAddress(l, a) == Users(l, a)
    ensures GetUserByAddress(l, a).isRegistered <==> IsRegistered(l, a)
    ensures IsRegistered(l, a) ==> GetUserByAddress(l, a).userAddress == a
  {
  }

  /** Every post `getPost` returns is the post at the same index of `getAllPosts`. */
  lemma GetAllPostsAgrees(l: Ledger)
    ensures |GetAllPosts(l)| == GetPostsCount(l)
    ensures forall i :: 0 <= i < GetPostsCount(l) ==> GetPost(l, i) == Posts(l, i) == Ok(GetAllPosts(l)[i])
  {
  }

  /**
   * On a valid ledger `getComment` succeeds exactly on the ids below the
   * post's `commentsCount`, and then returns what the `postComments` getter
   * returns; reading ids 0, 1, ... stops exactly at `commentsCount`.
   */
  lemma GetCommentIsDense(l: Ledger, postId: nat)
    requires Valid(l)
    requires postId < GetPostsCount(l)
    ensures |CommentsOf(l, postId)| == l.posts[postId].commentsCount
    ensures forall j :: 0 <= j < |CommentsOf(l, postId)| ==> GetComment(l, postId, j) == Ok(CommentsOf(l, postId)[j])
    ensures GetComment(l, postId, |CommentsOf(l, postId)|) == Err(CommentNotFound)
    ensures forall j :: 0 <= j < |CommentsOf(l, postId)| ==> (postId, j) in l.postComments
  {
  }

  // ---------------------------------------------------------------------
  // registerUser
  // ---------------------------------------------------------------------

  /**
   * `registerUser` stores the caller's address, not an argument, with the
   * given name and `isRegistered` set; no other address's record changes.
   */
  lemma RegisterUserEffect(l: Ledger, caller: Address, username: string)
    requires Valid(l)
    ensures var s := RegisterUser(l, caller, username);
      && (s.outcome == Reverted(AlreadyRegistered) <==> GetUserByAddress(l, caller).isRegistered)
      && (s.outcome == Done <==> !GetUserByAddress(l, caller).isRegistered)
      && (s.outcome == Done ==>
            && Users(s.next, caller) == User(username, caller, true)
            && (forall a :: a != caller ==> Users(s.next, a) == Users(l, a))
            && s.next.posts == l.posts
            && s.next.postComments == l.postComments
            && s.next.postCommentsCount == l.postCommentsCount)
  {
  }

  /** A second registration from the same address reverts and leaves the first record in place. */
  lemma RegisterTwiceReverts(l: Ledger, caller: Address, first: string, second: string)
    requires !IsRegistered(l, caller)
    ensures var once := RegisterUser(l, caller, first);
      && once.outcome == Done
      && RegisterUser(once.next, caller, second) == Step(Reverted(AlreadyRegistered), once.next)
      && Users(once.next, caller) == User(first, caller, true)
  {
  }

  /** `registerUser` keeps the invariant. */
  lemma RegisterUserKeepsValid(l: Ledger, caller: Address, username: string)
    requires Valid(l)
    ensures Valid(RegisterUser(l, caller, username).next)
  {
    var n := RegisterUser(l, caller, username).next;
    forall i | 0 <= i < |n.posts| ensures PostCommentsCount(n, i) == n.posts[i].commentsCount {
      assert PostCommentsCount(n, i) == PostCommentsCount(l, i);
    }
  }

  // ---------------------------------------------------------------------
  // createPost
  // ---------------------------------------------------------------------

  /**
   * `createPost` by a registered caller appends one post with the caller as
   * author, the given content, the block time and both counters at 0; the
   * post count grows by one and the earlier posts are untouched. An
   * unregistered caller's call reverts.
   */
  lemma CreatePostEffect(l: Ledger, caller: Address, content: string, now: nat)
    ensures var s := CreatePost(l, caller, content, now);
      && (s.outcome == Done <==> IsRegistered(l, caller))
      && (s.outcome.Reverted? ==> s.outcome.error == NotRegistered)
      && (s.outcome == Done ==>
            && GetPostsCount(s.next) == GetPostsCount(l) + 1
            && GetPost(s.next, GetPostsCount(l)) == Ok(Post(caller, content, now, 0, 0))
            && (forall i :: 0 <= i < GetPostsCount(l) ==> GetPost(s.next, i) == GetPost(l, i))
            && s.next.users == l.users
            && s.next.postComments == l.postComments
            && s.next.postCommentsCount == l.postCommentsCount)
  {
  }

  /** `createPost` keeps the invariant. */
  lemma CreatePostKeepsValid(l: Ledger, caller: Address, content: string, now: nat)
    requires Valid(l)
    ensures Valid(CreatePost(l, caller, content, now).next)
  {
    var s := CreatePost(l, caller, content, now);
    if s.outcome == Done {
      var n := s.next;
      assert n.postCommentsCount == l.postCommentsCount;
      assert PostCommentsCount(n, |l.posts|) == 0;
      forall i | 0 <= i < |n.posts| ensures PostCommentsCount(n, i) == n.posts[i].commentsCount {
        if i < |l.posts| {
          assert n.posts[i] == l.posts[i];
        }
      }
      forall k | k in n.postComments ensures k.0 < |n.posts| && k.1 < n.posts[k.0].commentsCount {
        assert n.posts[k.0] == l.posts[k.0];
      }
      forall i, j | 0 <= i < |n.posts| && 0 <= j < n.posts[i].commentsCount ensures (i, j) in n.postComments {
        assert i < |l.posts|;
        assert n.posts[i] == l.posts[i];
      }
    }
  }

  // ---------------------------------------------------------------------
  // likePost
  // ---------------------------------------------------------------------

  /**
   * `likePost` by a registered caller on an existing post raises that post's
   * `likes` by exactly one and changes none of its other fields, nor any
   * other post. Otherwise the call reverts.
   */
  lemma LikePostEffect(l: Ledger, caller: Address, postId: nat)
    ensures var s := LikePost(l, caller, postId);
      && (s.outcome == Done <==> IsRegistered(l, caller) && postId < GetPostsCount(l))
      && (!IsRegistered(l, caller) ==> s.outcome == Reverted(NotRegistered))
      && (IsRegistered(l, caller) && postId >= GetPostsCount(l) ==> s.outcome == Reverted(PostNotFound))
      && (s.outcome == Done ==>
            && GetPostsCount(s.next) == GetPostsCount(l)
            && GetPost(s.next, postId) == Ok(l.posts[postId].(likes := l.posts[postId].likes + 1))
            && GetPost(s.next, postId).value.author == l.posts[postId].author
            && (forall i :: 0 <= i < GetPostsCount(l) && i != postId ==> GetPost(s.next, i) == GetPost(l, i))
            && s.next.users == l.users
            && s.next.postComments == l.postComments
            && s.next.postCommentsCount == l.postCommentsCount)
  {
  }

  /** `likePost` keeps the invariant. */
  lemma LikePostKeepsValid(l: Ledger, caller: Address, postId: nat)
    requires Valid(l)
    ensures Valid(LikePost(l, caller, postId).next)
  {
    var s := LikePost(l, caller, postId);
    if s.outcome == Done {
      var n := s.next;
      forall i | 0 <= i < |n.posts| ensures n.posts[i].commentsCount == l.posts[i].commentsCount && n.posts[i].author == l.posts[i].author {
      }
    }
  }

  // ---------------------------------------------------------------------
  // addComment
  // ---------------------------------------------------------------------

  /**
   * `addComment` by a registered caller on an existing post stores the new
   * comment at id `commentsCount` of that post, so the post's comments grow
   * by exactly that comment at the end; its `commentsCount` grows by one and
   * no other post's comments change. Otherwise the call reverts.
   */
  lemma AddCommentEffect(l: Ledger, caller: Address, postId: nat, content: string, now: nat)
    requires Valid(l)
    ensures var s := AddComment(l, caller, postId, content, now);
      && (s.outcome == Done <==> IsRegistered(l, caller) && postId < GetPostsCount(l))
      && (!IsRegistered(l, caller) ==> s.outcome == Reverted(NotRegistered))
      && (IsRegistered(l, caller) && postId >= GetPostsCount(l) ==> s.outcome == Reverted(PostNotFound))
      && (s.outcome == Done ==>
            && GetComment(s.next, postId, l.posts[postId].commentsCount) == Ok(Comment(caller, content, now))
            && GetPost(s.next, postId) == Ok(l.posts[postId].(commentsCount := l.posts[postId].commentsCount + 1))
            && CommentsOf(s.next, postId) == CommentsOf(l, postId) + [Comment(caller, content, now)]
            && (forall q :: q != postId ==> CommentsOf(s.next, q) == CommentsOf(l, q))
            && GetPostsCount(s.next) == GetPostsCount(l)
            && (forall i :: 0 <= i < GetPostsCount(l) && i != postId ==> GetPost(s.next, i) == GetPost(l, i))
            && s.next.users == l.users)
  {
    var s := AddComment(l, caller, postId, content, now);
    if s.outcome == Done {
      var n := s.next;
      var k := PostCommentsCount(l, postId);
      assert k == l.posts[postId].commentsCount;
      assert (postId, k) !in l.postComments;
      var before, after := CommentsOf(l, postId), CommentsOf(n, postId);
      assert |after| == |before| + 1;
      forall j | 0 <= j < |after| ensures after[j] == (before + [Comment(caller, content, now)])[j] {
        if j < k {
          assert PostComments(n, postId, j) == PostComments(l, postId, j);
        }
      }
      forall q | q != postId ensures CommentsOf(n, q) == CommentsOf(l, q) {
        assert PostCommentsCount(n, q) == PostCommentsCount(l, q);
        forall j | 0 <= j < PostCommentsCount(l, q) ensures PostComments(n, q, j) == PostComments(l, q, j) {
        }
      }
    }
  }

  /** `addComment` keeps the invariant. */
  lemma AddCommentKeepsValid(l: Ledger, caller: Address, postId: nat, content: string, now: nat)
    requires Valid(l)
    ensures Valid(AddComment(l, caller, postId, content, now).next)
  {
    var s := AddComment(l, caller, postId, content, now);
    if s.outcome == Done {
      var n := s.next;
      assert UsersWellFormed(n);
      assert AuthorsRegistered(n) by {
        forall i | 0 <= i < |n.posts| ensures n.posts[i].author in n.users {
          assert n.posts[i].author == l.posts[i].author;
        }
      }
      AddCommentKeepsCounters(l, caller, postId, content, now);
      AddCommentKeepsDense(l, caller, postId, content, now);
    }
  }

  lemma AddCommentKeepsCounters(l: Ledger, caller: Address, postId: nat, content: string, now: nat)
    requires CountersAgree(l)
    ensures CountersAgree(AddComment(l, caller, postId, content, now).next)
  {
    var s := AddComment(l, caller, postId, content, now);
    if s.outcome == Done {
      var n := s.next;
      forall i | 0 <= i < |n.posts| ensures PostCommentsCount(n, i) == n.posts[i].commentsCount {
        if i != postId {
          assert PostCommentsCount(n, i) == PostCommentsCount(l, i);
          assert n.posts[i] == l.posts[i];
        }
      }
    }
  }

  lemma AddCommentKeepsDense(l: Ledger, caller: Address, postId: nat, content: string, now: nat)
    requires CountersAgree(l) && CommentsDense(l)
    ensures CommentsDense(AddComment(l, caller, postId, content, now).next)
  {
    var s := AddComment(l, caller, postId, content, now);
    if s.outcome == Done {
      var n := s.next;
      var k := PostCommentsCount(l, postId);
      assert k == l.posts[postId].commentsCount;
      assert |n.posts| == |l.posts|;
      forall key | key in n.postComments ensures key.0 < |n.posts| && key.1 < n.posts[key.0].commentsCount {
        if key != (postId, k) {
          assert key in l.postComments;
        }
      }
      forall i, j | 0 <= i < |n.posts| && 0 <= j < n.posts[i].commentsCount ensures (i, j) in n.postComments {
        if (i, j) != (postId, k) {
          assert j < l.posts[i].commentsCount;
        }
      }
    }
  }
}
