# blog-api service layer in Dafny

A model of the service layer of a small blog backend (Express + Prisma). The
backend keeps users, refresh tokens, posts with their category links,
comments and categories in relational tables, and exposes:

- an account and session lifecycle (register, login, refresh-token rotation,
  logout, profile read/update/delete);
- posts with paginated, filtered, newest-first listing, reads that include
  the comments, and author-only update and deletion;
- comments under posts with author-only update and deletion;
- categories with a unique slug;
- request-body schemas and the middleware that lets a request through only
  when its body fits the route's schema.

Layout:

- `core.dfy` (module `Core`): records, errors (the services' own with their
  exact messages), `Result`, and the stand-ins for bcrypt and the JWT signer.
- `ordering.dfy` (`Ordering`): sorting a set of rows by a total preorder (the
  database's `orderBy`) and code-point string order.
- `store.dfy` (`Store`): the tables as one value `Tables`, the constraints
  the database keeps (`Wellformed`), and the database handle `Db`, a class
  with one map field per table.
- `user_service.dfy`, `post_service.dfy`, `comment_service.dfy`,
  `category_service.dfy`: one module per service. Each service function is
  specified by a function from the tables before to a `Step` (the tables
  after, and the answer). Each function that writes is also a module-level
  method that takes the handle `db: Db` and reassigns its map fields; its
  postcondition is that its effect equals the specification function, and
  that `Wellformed` still holds. The reads (`getUserById`,
  `fetchPostsWithPagination`, `fetchPostById`, `fetchCommentsByPostId`,
  `getCategories`, `getCategoryById`) change nothing and are specified only
  as functions of the tables.
- `validate.dfy` (`Validate`): the five schemas of the middleware and the
  login route's reduced user schema, as predicates over a JSON body; the
  pass/reject gate; and what a passing body guarantees to the services.

Randomness, the clock and generated keys are parameters:

- the refresh token string (`crypto.randomBytes`);
- bcrypt's salt;
- the id the database generates;
- `now` in milliseconds.

A parameter that collides with an existing key produces the database's
unique-constraint error. Markdown rendering and sanitising form one
parameter, `render`. Zod's `email()`, `url()` and `uuid()` checks are the
parameter `Formats`.

## Model

| member | source | states |
|---|---|---|
| Core.Sign | src/services/userService.js:15 | the access token's payload is the user's id and it lives 900 seconds (15 minutes) |
| Core.MessagesDistinguishErrors | src/controllers/commentController.js:38 | controllers dispatch on `error.message`; two errors have the same message only if they are the same error |
| Ordering.SortBy | src/services/categoryService.js:16 | the listing holds exactly the rows of the set, each once, ordered by the given total preorder |
| Ordering.StrLeTotal | src/services/categoryService.js:16 | any two names are comparable in ascending order |
| Ordering.StrLeTransitive | src/services/categoryService.js:16 | ascending name order is transitive |
| Store.Db.constructor | src/services/userService.js:4 | a handle over well-formed tables holds exactly those tables |
| UserService.FindByEmail | src/services/userService.js:7 | finds a user exactly when some row has that email, and the row it finds has it |
| UserService.FindByEmailUnique | src/services/userService.js:7 | under the unique email index, lookup by email finds the one user with that email |
| UserService.IssueRefreshToken | src/services/userService.js:30-37 | stores a token owned by `userId` expiring `now + 2592000000` ms (30 days), returns that token string, and changes no other row |
| UserService.Register | src/services/userService.js:6-18 | a taken email fails with "Email already exists" and changes nothing. Success adds exactly one user holding the bcrypt hash of the password, and one refresh token for that user. It returns the signed access token for the new id, valid 15 minutes. A colliding generated id fails with nothing changed. If the token write collides, the user row stays and nothing else changes. |
| UserService.Login | src/services/userService.js:20-28 | an unknown email or a password that does not match the stored hash fails with "Invalid credentials", and the tables are unchanged. A found user with a matching password and a fresh token always logs in. Success finds the user by email, returns the signed 15-minute access token for them and adds one refresh token for them. |
| UserService.Redeem | src/services/userService.js:39-51 | an absent token, or one with `expiresAt < now`, fails with "Invalid or expired refresh token". Success stores a new token for the same owner and deletes the presented one. Every other token is untouched. The answer carries the signed 15-minute access token for the owner, and the owner's row, if it still exists. |
| UserService.RevokeAll | src/services/userService.js:53-55 | afterwards the user owns no token, every other user's token is kept unchanged, and no other table changes |
| UserService.GetUserById | src/services/userService.js:57-66 | a missing id fails with "User not found"; otherwise the row without its password hash |
| UserService.Patched | src/services/userService.js:69-73 | the id is kept; an empty patch changes nothing; the hash is replaced by the hash of a truthy new password and kept otherwise |
| UserService.Update | src/services/userService.js:68-80 | email, password (re-hashed) and name change only when truthy; `avatarUrl` changes whenever given, `null` included; every other field and row is unchanged; a missing id fails; it succeeds exactly when the row exists and its new email is no other user's |
| UserService.Delete | src/services/userService.js:82-84 | a missing id fails; otherwise exactly that user row is gone and nothing else changes |
| UserService.RedeemedTokenIsSpent | src/services/userService.js:47-49 | after a successful redemption the same token is refused, at any later time |
| UserService.RedeemAcceptedAtExpiryInstant | src/services/userService.js:44 | the expiry comparison is strict: accepted at `expiresAt`, refused one millisecond later |
| UserService.RotationChains | src/services/userService.js:47-50 | the new token is redeemable within 30 days and yields an access token for the same user |
| UserService.RevokeAllIdempotent | src/services/userService.js:53-55 | logging out twice has the effect of logging out once |
| UserService.RevokeAllSparesOthers | src/services/userService.js:54 | logging one user out does not change whether another user's token can be redeemed |
| UserService.LoginAfterRegister | src/services/userService.js:11-27 | with a sound bcrypt, a freshly registered email and password log in, finding the registered row |
| UserService.ReadAfterUpdate | src/services/userService.js:57-80 | the profile read after an update returns what the update returned |
| UserService.IssueKeepsWellformed | src/services/userService.js:33-35 | issuing a token keeps the database constraints |
| UserService.RegisterKeepsWellformed | src/services/userService.js:12-16 | registration keeps emails unique and the other constraints |
| UserService.AddUserKeepsWellformed | src/services/userService.js:12-14 | adding a user with a fresh id and unused email keeps the constraints |
| UserService.RedeemKeepsWellformed | src/services/userService.js:47-49 | token rotation keeps the constraints |
| UserService.UpdateKeepsWellformed | src/services/userService.js:74-78 | an update keeps emails unique |
| UserService.CreateRefreshToken | src/services/userService.js:30-37 | the handle's new state and answer are those of `IssueRefreshToken` |
| UserService.RegisterUser | src/services/userService.js:6-18 | the handle's new state and answer are those of `Register`; constraints kept |
| UserService.LoginUser | src/services/userService.js:20-28 | the handle's new state and answer are those of `Login`; constraints kept |
| UserService.RefreshSession | src/services/userService.js:39-51 | the handle's new state and answer are those of `Redeem`; constraints kept |
| UserService.LogoutUser | src/services/userService.js:53-55 | the handle's new state is `RevokeAll` of the old one |
| UserService.UpdateUser | src/services/userService.js:68-80 | the handle's new state and answer are those of `Update`; constraints kept |
| UserService.DeleteUser | src/services/userService.js:82-84 | the handle's new state and answer are those of `Delete`; constraints kept |
| PostService.ResolveLinks | src/services/postService.js:130 | the linked category rows in link order, one per link when every link resolves |
| PostService.FormatPost | src/services/postService.js:127-131 | keeps id, title, author and timestamp. Content becomes `render(content)`. For resolving links, `categories[i]` is the row of the i-th link. |
| PostService.Matching | src/services/postService.js:41-54 | a post is selected iff its title or content contains a truthy `search` case-insensitively, and some linked category has a truthy `category` slug |
| PostService.Ranked | src/services/postService.js:59 | the selected posts, each once, newest first |
| PostService.Window | src/services/postService.js:40-58 | the i-th row is row `skip + i`; exactly `take` rows when that many remain, else all the rest, and none past the end |
| PostService.TotalPages | src/services/postService.js:66 | no pages exactly when there are no rows, and enough pages to hold every row |
| PostService.TotalPagesIsCeiling | src/services/postService.js:66 | `totalPages` is 0 for no rows, and otherwise `(totalPages-1)*limit < total <= totalPages*limit` |
| PostService.Page | src/services/postService.js:40-67 | the i-th formatted post is ranked post `(page-1)*limit + i`; there are `limit` of them when that many remain, else all the rest, and none past the end; newest first when the ranking is |
| PostService.FetchPostsWithPagination | src/services/postService.js:34-69 | page or limit below 1 fails with "Invalid page or limit", and the defaults are 1 and 10. Otherwise `total` is the number of selected posts and `totalPages` is its ceiling over `limit`. It lists the slice of the newest-first selection starting at `(page-1)*limit`: `limit` posts when that many remain, else all the rest, none past the end. |
| PostService.FetchPostById | src/services/postService.js:71-88 | a missing id fails with "Post not found"; otherwise the formatted post and exactly its comments, oldest first |
| PostService.LinkFailure | src/services/postService.js:20-27 | the nested link writes fail iff some id names no category or an id repeats |
| PostService.Create | src/services/postService.js:11-32 | an empty title or content fails with "Title and content are required" and creates nothing. Success adds one post linked to exactly `categoryIds`, or to none when absent or empty, and returns it formatted. |
| PostService.Modify | src/services/postService.js:90-113 | a missing post fails with "Post not found"; a non-author fails with "Unauthorized"; the tables are unchanged on every error; supplied `categoryIds`, even empty, replace the links wholesale, otherwise they are kept |
| PostService.Remove | src/services/postService.js:115-125 | missing post and non-author fail as above and change nothing. Success removes that post and its comments, and leaves every other post unchanged. |
| PostService.OnlyAuthorChangesPosts | src/services/postService.js:91-122 | update or delete through a post changes the tables only when the caller is its author |
| PostService.ReadAfterModify | src/services/postService.js:71-113 | reading a post after its update shows what the update returned |
| PostService.SecondPageOfTen | src/services/postService.js:40-66 | ten matching posts, page 2 of limit 5: the sixth to tenth newest, two pages in all |
| PostService.DefaultsArePageOneOfTen | src/services/postService.js:34 | a missing page and limit read as page 1 of 10 |
| PostService.CreateKeepsWellformed | src/services/postService.js:27 | creating a post keeps links resolving and distinct |
| PostService.ModifyKeepsWellformed | src/services/postService.js:107 | updating a post keeps the constraints |
| PostService.RemoveKeepsWellformed | src/services/postService.js:123 | deleting a post keeps the constraints |
| PostService.CreateNewPost | src/services/postService.js:11-32 | the handle's new state and answer are those of `Create`; constraints kept |
| PostService.ModifyPost | src/services/postService.js:90-113 | the handle's new state and answer are those of `Modify`; constraints kept |
| PostService.RemovePost | src/services/postService.js:115-125 | the handle's new state and answer are those of `Remove`; constraints kept |
| CommentService.CommentsOn | src/services/commentService.js:25 | exactly the comments whose `postId` is the post |
| CommentService.Create | src/services/commentService.js:4-17 | empty content fails with "Content is required" before any lookup. A missing post then fails with "Post not found". Nothing is created on error. Success adds one comment with the given content, post and author, and changes nothing else. |
| CommentService.FetchCommentsByPostId | src/services/commentService.js:19-30 | a missing post fails; otherwise exactly the post's comments, newest first |
| CommentService.Modify | src/services/commentService.js:32-49 | checks empty content, then "Comment not found", then "Unauthorized", in that order, with the tables unchanged on each; success changes only that comment's content |
| CommentService.Remove | src/services/commentService.js:51-61 | missing and non-author fail, and change nothing. Success leaves the comment absent and every other comment unchanged. |
| CommentService.OnlyAuthorChangesComments | src/services/commentService.js:40-58 | update or delete through a comment changes the tables only when the caller is its author |
| CommentService.CreatedCommentIsListed | src/services/commentService.js:12-29 | a created comment appears in its post's listing |
| CommentService.RemovedCommentIsNotListed | src/services/commentService.js:19-59 | a deleted comment no longer appears in its post's listing |
| CommentService.CreateKeepsWellformed | src/services/commentService.js:12 | creating a comment keeps the constraints |
| CommentService.ModifyKeepsWellformed | src/services/commentService.js:43 | updating a comment keeps the constraints |
| CommentService.RemoveKeepsWellformed | src/services/commentService.js:59 | deleting a comment keeps the constraints |
| CommentService.CreateNewComment | src/services/commentService.js:4-17 | the handle's new state and answer are those of `Create`; constraints kept |
| CommentService.ModifyComment | src/services/commentService.js:32-49 | the handle's new state and answer are those of `Modify`; constraints kept |
| CommentService.RemoveComment | src/services/commentService.js:51-61 | the handle's new state and answer are those of `Remove`; constraints kept |
| CategoryService.ByNameIsPreorder | src/services/categoryService.js:16 | ascending name order is a total preorder on categories |
| CategoryService.LinkedPosts | src/services/categoryService.js:23 | exactly the posts linked to the category |
| CategoryService.Without | src/services/categoryService.js:43 | the links other than the deleted category, none added |
| CategoryService.WithoutKeepsDistinct | src/services/categoryService.js:43 | dropping a category from distinct links leaves them distinct |
| CategoryService.Create | src/services/categoryService.js:4-12 | a slug any category already has fails with "Category slug already exists" and creates nothing; otherwise exactly one category with that name and slug is added |
| CategoryService.GetCategories | src/services/categoryService.js:14-18 | every category once, by name ascending |
| CategoryService.GetCategoryById | src/services/categoryService.js:20-29 | a missing id fails with "Category not found"; otherwise the row and exactly the posts linked to it |
| CategoryService.Update | src/services/categoryService.js:31-40 | a slug held by a different category fails before the row is looked up, while keeping one's own slug is allowed; a missing row then fails; success sets name and slug of that category only |
| CategoryService.Unlinked | src/services/categoryService.js:43 | every post kept, with its links to the category dropped |
| CategoryService.Delete | src/services/categoryService.js:42-45 | a missing id fails; otherwise the category is gone, its links with it, and nothing else changes |
| CategoryService.SlugCreatedOnce | src/services/categoryService.js:5-8 | once a slug is created, creating it again fails with "Category slug already exists" |
| CategoryService.ReadAfterUpdate | src/services/categoryService.js:20-40 | reading a category after its update shows the new name and slug |
| CategoryService.DeleteLeavesNoLinks | src/services/categoryService.js:25-43 | after deletion the id reads as "Category not found" and no post links to it |
| CategoryService.CreateKeepsWellformed | src/services/categoryService.js:5-11 | creation keeps slugs unique |
| CategoryService.UpdateKeepsWellformed | src/services/categoryService.js:32-39 | update keeps slugs unique |
| CategoryService.DeleteKeepsWellformed | src/services/categoryService.js:43 | deletion keeps every post's links resolving and distinct |
| CategoryService.CreateCategory | src/services/categoryService.js:4-12 | the handle's new state and answer are those of `Create`; constraints kept |
| CategoryService.UpdateCategory | src/services/categoryService.js:31-40 | the handle's new state and answer are those of `Update`; constraints kept |
| CategoryService.DeleteCategory | src/services/categoryService.js:42-45 | the handle's new state and answer are those of `Delete`; constraints kept |
| Validate.SlugPatternIsAlphabet | src/middleware/validate.js:30 | a slug matches `^[a-z0-9-]+$` iff it is non-empty and every character is in `a-z`, `0-9` or `-` |
| Validate.Accepts | src/middleware/validate.js:4-31 | a body any schema accepts is an object in which every key that schema requires holds a string |
| Validate.LoginSchemaIsOmission | src/controllers/userController.js:24 | the login schema accepts a body exactly when the user schema accepts it with `avatarUrl` dropped and any valid name |
| Validate.UnknownKeysIgnored | src/middleware/validate.js:4-31 | adding a key no schema names never changes whether a body is accepted |
| Validate.Gatekeep | src/middleware/validate.js:34-41 | `next` iff the body satisfies the schema; otherwise a 400 answer with "Validation failed" |
| Validate.UserBodyFields | src/middleware/validate.js:4-9 | a registration body has a password of length at least 8 and a non-empty name; a present `avatarUrl` is a URL string, and the body is still accepted without it |
| Validate.CategoryBodySlug | src/middleware/validate.js:28-31 | a category body's slug is non-empty and drawn from `a-z`, `0-9`, `-` |
| Validate.PostBodyPassesServiceCheck | src/middleware/validate.js:18-22 | a body the post schema accepts never meets "Title and content are required" |
| Validate.CommentBodyPassesServiceCheck | src/middleware/validate.js:24-26 | a body the comment schema accepts never meets "Content is required" |
| Validate.UpdateBodyFields | src/middleware/validate.js:11-16 | every field an accepted update body carries meets its bound: password of at least 8 characters, non-empty name, an email, and an avatar that is a URL or null |
| Validate.UpdateBodyMayClearAvatar | src/middleware/validate.js:11-16 | an update body may be empty or set `avatarUrl` to null; a body holding only a password is accepted exactly when the password has at least 8 characters |

## Left out

- Concurrency: every service is a read followed by writes, and the model runs them one at a time. Interleavings between the check and the write are not modelled.
- Atomicity: registration and refresh are several writes. The model keeps the earlier writes when a later one fails. In the model only a key collision can make a later write fail.
- Database failures: every database call can reject (a lost connection, a foreign-key violation). The controllers answer such a rejection with the status their catch uses for every error (400, 401 or 404), and commentController.js with 500. `Core.Error` has no case for it; the model's database calls fail only on the conditions it states.
- UserService.Redeem: in the source the delete of the presented token can fail after the new token is created, which leaves both tokens valid. The model's rotation cannot fail between the two writes.
- UserService.Redeem: the source reads the clock twice, once for the expiry comparison and once for the new token's expiry. The model uses one `now` for both.
- Controllers, routes, the authentication middleware and the HTTP status mapping are not part of this model.
- bcrypt is a pair of functions with one property: a password matches its own hash. The JWT signer produces only the payload and lifetime; the secret, the signature and expiry checking are left out. Random tokens, salts and generated ids are parameters.
- Markdown rendering and HTML sanitising are one uninterpreted parameter `render`.
- The `email()`, `url()` and `uuid()` format checks are uninterpreted predicates.
- `parseInt` on page, limit and comment ids: ids and page/limit arrive already typed, so a `NaN` page slipping past the `< 1` check is not modelled.
- Timestamps other than the posts' and comments' `createdAt`, including `updatedAt` and the users' `createdAt`, are not modelled. Neither is the author's name (and avatar) that the reads include and that comment creation and comment update return.
- The database schema is not part of this model. These are assumed:
  - deleting a post deletes its links and comments;
  - deleting a category deletes its links;
  - a link to a missing category fails as "Record not found";
  - a repeated link fails as a unique-constraint error.
- UserService.Delete: removes only the user row. What the schema's referential actions do to that user's tokens, posts and comments is not modelled.
- Comments are not checked against the users table. Nor is a post's author: an author id is taken as given.
- PostService.FormatPost: the reads select only each category's name and slug; the model returns the whole category row, id included.
- PostService.FormatPost: the model lists a post's linked categories in the order the links were written; the database's include has no `orderBy`, so its order is unspecified.
- Core.Message: the two database errors carry stand-in texts; the database client's own messages are not modelled.
- PostService.Matching: case-insensitive search folds ASCII letters only; the database folds by its own collation.
- CategoryService.GetCategories: names are ordered by code point; the database orders them by its collation.
- Validate.Accepts: `min(n)` counts Unicode scalar values, whereas JavaScript counts UTF-16 code units. The failure details Zod attaches to the 400 answer are not modelled.
- PostService.Modify: title and content are written as given. The service itself does not check them for emptiness; the route's post schema does.
