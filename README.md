# Social ledger — a Dafny model

This project models the `Social` contract of a small social-media dApp. Users
register a name under their account address, publish posts, like posts and
comment on them. Every successful call emits one event for off-chain indexers.

The model has four modules:

- `SocialLedger` (`ledger.dfy`) holds the data model, built from the contract's ABI.
  - `User`, `Post` and `Comment` have the struct fields of the ABI.
  - There are four events.
  - The contract's storage is a `Ledger` value: the `users` mapping, the `posts` array, the `postComments` mapping keyed by (post id, comment id), the `postCommentsCount` mapping, the `owner` and the event log.
  - Every view function and storage getter is a function of a `Ledger`.
  - Each of the four state-changing calls is a function from a `Ledger` to a `Step`: the call's outcome and the ledger after it.
  - A call either completes (`Done`) or reverts (`Reverted(error)`). A reverted call changes nothing and emits nothing.
  - `Valid` is the invariant every reachable ledger keeps. It has four parts:
    - each user record names its own address;
    - authors and commenters are registered;
    - the `postCommentsCount` mapping agrees with each post's `commentsCount`;
    - a post's comments occupy exactly ids `0 .. commentsCount - 1`.
- `SocialProperties` (`properties.dfy`) holds lemmas about a single call.
  - They give what each hardhat assertion observes, each call's revert conditions, and the fact that each call keeps `Valid`.
- `SocialHistory` (`history.dfy`) looks at sequences of transactions.
  - Every reachable ledger is valid, and its owner is its deployer.
  - Nothing is taken back. User records never change once written. Posts are only appended, their author, content and time never change, and their counters never fall. Stored comments are never overwritten.
  - The event log only grows, by at most one event per call.
  - The event log alone determines the storage: replaying the events from deployment rebuilds the ledger exactly.
  - `createPost` calls produce posts in call order.
  - Likes are not deduplicated: `n` likes, from any registered senders, add exactly `n`.
  - `addComment` calls append comments to a post in call order.
- `SocialContract` (`social.dfy`) holds the deployed contract as a class, `Social`.
  - Its storage is fields that are updated in place.
  - Each mutator is proved to produce exactly the `Step` of `SocialLedger`.
  - `HardhatScenario` deploys one instance and drives it through the hardhat test's calls, in the test's order. Its postconditions are the test's expectations.

The sender of a call (`msg.sender`) and the block timestamp are explicit
parameters, since the ABI has neither as an argument. A mutator's
out-parameter `status` only says whether the transaction completed or
reverted. As the ABI says (`outputs: []`), no mutator returns a value, and in
particular neither `createPost` nor `addComment` returns the new id. A caller
might expect the new id back, but the ABI has `outputs: []` for both, and the
model follows the ABI.

## Model

| member | source | states |
|---|---|---|
| `SocialLedger.Deployed` | packages/nextjs/contracts/deployedContracts.ts:12-16 | deployment takes no inputs; the deployer becomes owner; there are no posts, no events and no registered address |
| `SocialLedger.Owner` | packages/nextjs/contracts/deployedContracts.ts:317-329 | the `owner` getter takes no inputs and returns the stored owner address |
| `SocialLedger.Users` | packages/nextjs/contracts/deployedContracts.ts:435-463 | the `users(address)` getter returns the stored record of a registered address and the zero record, with `isRegistered == false`, for any other |
| `SocialLedger.GetUserByAddress` | packages/nextjs/contracts/deployedContracts.ts:268-303 | returns the stored record of a registered address; an unregistered one gets the zero record with `isRegistered == false`, never a revert |
| `SocialLedger.GetAllPosts` | packages/nextjs/contracts/deployedContracts.ts:142-181 | `getAllPosts()` returns every stored post, in creation order: the same length and the same post at every index |
| `SocialLedger.GetPostsCount` | packages/nextjs/contracts/deployedContracts.ts:255-267 | `getPostsCount()` is the length of `getAllPosts()` |
| `SocialLedger.Posts` | packages/nextjs/contracts/deployedContracts.ts:383-421 | the `posts(i)` getter succeeds exactly when `i < getPostsCount()` and reverts otherwise |
| `SocialLedger.GetPost` | packages/nextjs/contracts/deployedContracts.ts:216-254 | `getPost(i)` equals the `posts(i)` getter; for `i < getPostsCount()` it returns `getAllPosts()[i]`, and for any larger `i` it reverts with `PostNotFound` |
| `SocialLedger.PostComments` | packages/nextjs/contracts/deployedContracts.ts:330-363 | the `postComments(postId, commentId)` getter returns the stored comment, or the zero comment for an empty slot; it never reverts |
| `SocialLedger.PostCommentsCount` | packages/nextjs/contracts/deployedContracts.ts:364-382 | the `postCommentsCount(postId)` getter returns the stored count, or 0 for a post with no entry |
| `SocialLedger.GetComment` | packages/nextjs/contracts/deployedContracts.ts:182-215 | succeeds exactly for a post id below the post count and a comment id below `postCommentsCount(postId)`, and then returns the `postComments` getter's triple; an unknown post reverts with `PostNotFound`, and a known post with `commentId >= postCommentsCount(postId)` reverts with `CommentNotFound` |
| `SocialLedger.CommentsOf` | packages/nextjs/components/SocialMedia.tsx:131-136 | a post's comments as the client reads them: `postCommentsCount(postId)` of them, the `j`-th being the `postComments(postId, j)` getter's comment |
| `SocialLedger.RegisterUser` | packages/nextjs/contracts/deployedContracts.ts:422-434 | a revert leaves the ledger unchanged; success emits exactly `UserRegistered(caller, username)`; the owner never changes |
| `SocialLedger.CreatePost` | packages/nextjs/contracts/deployedContracts.ts:129-141 | a revert leaves the ledger unchanged; success emits exactly `PostCreated(caller, content, now)` |
| `SocialLedger.LikePost` | packages/nextjs/contracts/deployedContracts.ts:304-316 | a revert leaves the ledger unchanged; success emits exactly `PostLiked(caller, postId)` |
| `SocialLedger.AddComment` | packages/nextjs/contracts/deployedContracts.ts:111-128 | a revert leaves the ledger unchanged; success emits exactly `CommentAdded(caller, postId, content, now)` |
| `SocialProperties.GetUserByAddressSoftMiss` | packages/nextjs/contracts/deployedContracts.ts:435-463 | on a valid ledger `getUserByAddress(a)` equals the `users(a)` getter; `isRegistered` holds exactly for registered addresses, whose record carries their own address |
| `SocialProperties.GetAllPostsAgrees` | packages/nextjs/contracts/deployedContracts.ts:142-181 | `getAllPosts()` has `getPostsCount()` entries, and for every `i` below it, `getPost(i) == posts(i) == getAllPosts()[i]` |
| `SocialProperties.GetCommentIsDense` | packages/nextjs/components/SocialMedia.tsx:131-136 | reading comments `0, 1, ...` of a post by `getComment` succeeds exactly up to the post's `commentsCount` and fails with `CommentNotFound` there, so the client's dense loop sees every comment |
| `SocialProperties.RegisterUserEffect` | packages/hardhat/test/YourContract.ts:23-29 | on a valid ledger, registration reverts with `AlreadyRegistered` exactly when `getUserByAddress(caller).isRegistered`, and completes exactly when it does not. On completion, `users(caller)` becomes `(username, caller, true)`, the address coming from the caller. Every other user record, the posts, the comments and the comment counters are unchanged |
| `SocialProperties.RegisterTwiceReverts` | packages/hardhat/test/YourContract.ts:20-30 | a second `registerUser` from the same address reverts with `AlreadyRegistered` and leaves the first record in place |
| `SocialProperties.RegisterUserKeepsValid` | packages/nextjs/contracts/deployedContracts.ts:422-434 | `registerUser` keeps the invariant |
| `SocialProperties.CreatePostEffect` | packages/hardhat/test/YourContract.ts:35-45 | `createPost` succeeds exactly for a registered caller and otherwise reverts with `NotRegistered`. On success the post count grows by one. The new post has author = caller, the given content, the block time and `likes == commentsCount == 0`. Earlier posts, users, comments and comment counters are unchanged |
| `SocialProperties.CreatePostKeepsValid` | packages/nextjs/contracts/deployedContracts.ts:129-141 | `createPost` keeps the invariant |
| `SocialProperties.LikePostEffect` | packages/hardhat/test/YourContract.ts:50-56 | `likePost` succeeds exactly for a registered caller and an existing post. It reverts with `NotRegistered` for an unregistered caller, and otherwise with `PostNotFound` for an unknown post. On success that post's `likes` goes up by one and its other fields stay the same. The post count, every other post, users, comments and comment counters are unchanged |
| `SocialProperties.LikePostKeepsValid` | packages/nextjs/contracts/deployedContracts.ts:304-316 | `likePost` keeps the invariant |
| `SocialProperties.AddCommentEffect` | packages/hardhat/test/YourContract.ts:63-74 | `addComment` succeeds exactly for a registered caller and an existing post. It reverts with `NotRegistered` for an unregistered caller, and otherwise with `PostNotFound` for an unknown post. On success the new comment (caller, content, time) is stored at id `commentsCount` and appended to that post's comments, and `commentsCount` goes up by one. The post count, every other post and its comments, and users are unchanged |
| `SocialProperties.AddCommentKeepsValid` | packages/nextjs/contracts/deployedContracts.ts:111-128 | `addComment` keeps the invariant |
| `SocialHistory.RunKeepsValid` | packages/nextjs/contracts/deployedContracts.ts:111-141 | over any sequence of calls the invariant holds, the owner never changes, and the event log only grows, by at most one event per call |
| `SocialHistory.ReachableIsValid` | packages/hardhat/test/YourContract.ts:12-17 | every ledger reachable from deployment is valid and is owned by its deployer |
| `SocialHistory.AddCommentExtends` | packages/nextjs/contracts/deployedContracts.ts:111-128 | on a ledger whose comment counters agree and whose comments are dense, `addComment` writes an empty slot, so it overwrites no stored comment and keeps every user and post |
| `SocialHistory.ExecuteExtends` | packages/nextjs/contracts/deployedContracts.ts:17-110 | on a valid ledger any one call, completed or reverted, keeps every user record, keeps the posts as a prefix with the same author, content and time and no fewer likes or comments, keeps every stored comment, and only extends the event log |
| `SocialHistory.RunExtends` | packages/nextjs/contracts/deployedContracts.ts:17-110 | the same holds along any sequence of calls from a valid ledger: user records are immutable, posts are only appended and only their counters grow, and comments are never overwritten |
| `SocialHistory.ExecuteIsApply` | packages/nextjs/contracts/deployedContracts.ts:17-110 | a call either reverts and changes nothing, or emits exactly one event and changes the ledger exactly as replaying that event does |
| `SocialHistory.RunIsReplay` | packages/nextjs/contracts/deployedContracts.ts:17-110 | along any run from a ledger that is the replay of its own log, the ledger stays the replay of its event log |
| `SocialHistory.ReachableIsReplay` | packages/nextjs/contracts/deployedContracts.ts:17-110 | replaying the event log of any reachable ledger from deployment rebuilds its users, posts, comments and counters exactly |
| `SocialHistory.CreatePostsInOrder` | packages/hardhat/test/YourContract.ts:35-45 | after `n` `createPost` calls by registered senders, the post count has grown by `n`, and post `count + i` is the one the `i`-th call created, with zero counters; earlier posts are unchanged |
| `SocialHistory.LikesAccumulate` | packages/nextjs/contracts/deployedContracts.ts:304-316 | `n` `likePost` calls on an existing post by registered senders, repeats allowed, raise its `likes` by exactly `n` and change nothing else in it (no deduplication) |
| `SocialHistory.CommentsInOrder` | packages/nextjs/contracts/deployedContracts.ts:330-382 | `k` `addComment` calls on an existing post raise its `commentsCount` by `k`; its comments, read by dense id, are the earlier ones followed by the new ones in call order |
| `SocialContract.Social.constructor` | packages/nextjs/contracts/deployedContracts.ts:12-16 | the fresh contract's storage is the deployed ledger, and it is valid |
| `SocialContract.Social.RegisterUser` | packages/nextjs/contracts/deployedContracts.ts:422-434 | updates the storage in place exactly as `SocialLedger.RegisterUser`; keeps the invariant; on success `users[sender] == (username, sender, true)` |
| `SocialContract.Social.CreatePost` | packages/nextjs/contracts/deployedContracts.ts:129-141 | updates the storage in place exactly as `SocialLedger.CreatePost`; keeps the invariant; on success `posts` is the old array plus the new post |
| `SocialContract.Social.LikePost` | packages/nextjs/contracts/deployedContracts.ts:304-316 | updates the storage in place exactly as `SocialLedger.LikePost`; keeps the invariant; on success the post's `likes` is one higher |
| `SocialContract.Social.AddComment` | packages/nextjs/contracts/deployedContracts.ts:111-128 | updates the storage in place exactly as `SocialLedger.AddComment`; keeps the invariant; on success the comment is stored at the old `commentsCount`, and that count goes up by one |
| `SocialContract.CommentOnFirstPost` | packages/hardhat/test/YourContract.ts:60-74 | with one post that has no comments yet and a registered commenter, `addComment(0, …)` makes `getComment(0, 0)` the commenter's comment and `getPost(0)` the old post with `commentsCount` one higher; users are unchanged |
| `SocialContract.HardhatScenario` | packages/hardhat/test/YourContract.ts:5-85 | the hardhat scenario's expectations: `users(user1) == ("user1", user1, true)`; after one post, the count is 1, and post 0 has author user1, the content, and 0 likes and 0 comments; after user2's like, likes is 1 and the author is unchanged; comment (0, 0) is user2's with the content, and `commentsCount == 1`; `getUserByAddress(user1)` is user1's registered record |

## Left out

- The contract's Solidity body is not part of this model. The state changes above are the ones that the ABI's names and fields, the test and the client's reads fix.
- The revert conditions are assumptions of this model, because the contract body is not part of it:
  - `registerUser` reverts for an already-registered caller (`AlreadyRegistered`);
  - the other three mutators revert for an unregistered caller (`NotRegistered`);
  - `likePost` and `addComment` revert for an unknown post (`PostNotFound`);
  - `getComment` reverts for an unknown post or comment id (`PostNotFound`, `CommentNotFound`).
  The hardhat test never makes a failing call.
- When both the registration check and the post check fail, the model reports `NotRegistered`. The order of the two checks is not known.
- The model does not tell an explicit revert from a Solidity array-bounds panic. Both are `PostNotFound`.
- The owner is taken to be the deploying account. The ABI only shows an input-less constructor and a read-only `owner`.
- Gas, `msg.sender` authentication, event topic indexing and ABI encoding are not modelled.
- `uint256` counters and timestamps are unbounded naturals. Overflow at 2^256 is not modelled.
- Block timestamps are arbitrary parameters. Their monotonicity is not modelled.
- Username uniqueness across addresses and one-like-per-user are not modelled. Nothing in the contract's interface or test states either rule, so the model enforces neither.
- `packages/nextjs/components/SocialMedia.tsx` is React state, wallet providers, asynchronous contract calls and popups. Only its reading pattern (lines 131-136) informs `CommentsOf`.
- `packages/nextjs/components/LatestPost.tsx` is a GraphQL query to an external indexer plus date formatting. The indexer's job is captured only abstractly, by `SocialHistory.Replay`.
- `packages/nextjs/app/blockexplorer/_components/ContractTabs.tsx` and `packages/nextjs/app/page.tsx` are block-explorer UI and page layout.
