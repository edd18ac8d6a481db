# Blog platform backend, modelled in Dafny

The model covers the core of an Express/MySQL blog backend:

- the post handlers (create, list, fetch, delete, update) with their Joi payload schema, tag check and ownership check;
- the SQL statements those handlers issue;
- the transaction helper `runWithTransaction`;
- user registration and login, with the statements behind them.

The database is one in-memory `Db.Store` object. It holds four tables as sequences of rows:

- `users`;
- `posts`;
- `tags`;
- `post_tags`, the junction table between posts and tags.

It also holds the two AUTO_INCREMENT counters, the snapshot taken when a transaction begins, and counters of pooled connections taken and given back.

Each statement is one of two things:

- a read is a function over the tables;
- an INSERT, UPDATE or DELETE is a method. It changes the store and returns `affectedRows` / `insertId`. Its new table is stated through a function of the old table (`PostsWithout`, `PostTagsWithout`, `Retitled`, `PostTagRows`).

`runWithTransaction` is split into `TransactionBegin` and `TransactionEnd`. The callback's statements run between the two calls:

- on success the transaction commits;
- on a thrown `{ status, message }` the store goes back to the snapshot and the error is rethrown;
- in both cases the connection is released.

Handlers that only read (`GetAllPost`, `GetPostById`, `LoginUser`) are functions that return a `Response`. Handlers that write (`CreatePost`, `DeletePost`, `UpdatePost`, `RegisterUser`) are methods.

What is proved:

- **Validation.** A Joi body is accepted exactly when every key meets its bounds, with string lengths counted in UTF-16 units as JavaScript does. A rejected body is reported at the first failing key, in schema order, with status 400.
- **Tag check.** With unique tag ids, the tag check passes exactly when the requested ids are distinct and all exist. An empty list makes the query fail.
- **Error order.** Update checks the body (400), then ownership (404), then tags (400). A rejected request leaves every table unchanged and takes no connection.
- **Ownership.** A missing post and a post owned by someone else get the same 404.
- **Create.** A successful create adds exactly one post, plus one `post_tags` row per requested id in order. The post's tags read back as exactly the requested list. That read-back rests on the invariant that every `post_tags` row refers to an existing post. The store's constructor establishes the invariant and every handler keeps it (see **No dangling rows**); `Db.Store.Valid` does not include it.
- **Update.** A successful update changes only the title and content of that post. It replaces the post's tag rows, so they read back as exactly the submitted `tagIds`.
- **Delete.** Delete removes the post and its tag rows. Deleting a post that has no tag rows fails with 500 and is rolled back, as the code does.
- **No dangling rows.** Create, delete and update all preserve the invariant that every `post_tags` row refers to an existing post.
- **Listing.** With unique post ids the join gives one row per owned post. The joined rows are sorted newest first, as a permutation, and page `p` is the `limit` rows starting at row `(p - 1) * limit` of that order, fewer only at the end.
- **Registration.** The stored password is the bcrypt digest of the input, and the response carries only username and email. A taken email is refused and nothing is inserted.
- **Register then log in.** Right after registering, logging in with the same email and password returns a token whose payload is the new row's `{ id, email, username }`. bcrypt reads a password as a 72-byte key stream: the UTF-8 encoding capped at 72 bytes, then a NUL byte, repeated. A password with a different stream gets the same 401 as an unknown email. For passwords that fit in 72 bytes and hold no U+0000, that is any other password. A password with the same stream logs in. Two kinds do:
  - one that shares the first 72 bytes, which the 30-character schema allows with three-byte characters;
  - one that repeats the password after a U+0000, such as `abcdef` and `abcdef\0abcdef`.

## Model

| member | source | states |
|---|---|---|
| Db.Store.TransactionBegin | src/utils/db.utils.js:3-5 | takes one pooled connection and records the current rows as the rollback point |
| Db.Store.TransactionEnd | src/utils/db.utils.js:6-13 | on success keeps the callback's rows (commit); on failure restores the rows of `beginTransaction` (rollback) and rethrows the same error; releases the connection either way |
| UserService.GetUserQuery | src/services/user.service.js:3-6 | nothing exactly when no row has the id; otherwise a row with that id, namely the first one |
| UserService.GetUserByEmailQuery | src/services/user.service.js:8-11 | nothing exactly when no row has the email; otherwise a row with that email, namely the first one |
| UserService.CreateUserQuery | src/services/user.service.js:13-19 | appends exactly one row with the given username, email and password under the next id; earlier rows are kept; `affectedRows` is 1 |
| UserService.CreatedUserFoundByEmail | src/services/user.service.js:8-19 | after an insert, a lookup by that email finds a user with that email, and finds the new row itself when no earlier row had the email |
| PostService.GetTagsByIdQuery | src/services/post.service.js:3-6 | the statement fails exactly when `tagIds` is empty (`IN ()`); otherwise it returns the rows `TagsWithId` selects |
| PostService.TagNames | src/services/post.service.js:29-33 | with unique tag ids, at most one name per junction row; when every id names a tag, exactly one, and name `i` belongs to the tag with id `tagIds[i]` |
| PostService.TagsWithId | src/services/post.service.js:3-6 | the selected rows are exactly the tag rows whose id is requested, each at most once; unique tag ids stay unique |
| PostService.MatchedTagCount | src/services/post.service.js:3-6 | with unique tag ids, the number of selected rows is the number of distinct requested ids that name a tag |
| PostService.TagCountMatchesIff | src/controllers/post.controller.js:31-36 | the row count equals `tagIds.length` exactly when the ids are distinct and all exist |
| PostService.JoinedViews | src/services/post.service.js:29-34 | the inner join keeps exactly the posts whose owner row exists, each with the owner's username and its tag names |
| PostService.JoinedViewsDistinct | src/services/post.service.js:34 | `GROUP BY p.id`: with unique post ids, no two joined rows share a post id |
| PostService.JoinedViewsCount | src/services/post.service.js:29-34 | with unique post ids, there are exactly as many joined rows as owned posts |
| PostService.PostsWithId | src/services/post.service.js:41-53 | `WHERE p.id = ?` keeps exactly the rows with that id |
| PostService.GetPostByIdQuery | src/services/post.service.js:41-53 | nothing exactly when no post with that id has an existing owner; otherwise the joined row of such a post |
| PostService.InsertNewestFirst | src/services/post.service.js:35 | inserting into a newest-first list keeps it newest first and adds exactly that element |
| PostService.SortNewestFirst | src/services/post.service.js:35 | `ORDER BY p.created_at DESC` yields a newest-first permutation of its input |
| PostService.Window | src/services/post.service.js:35-36 | `LIMIT ? OFFSET ?`: row `i` of the window is input row `offset + i`; the window holds `limit` rows, or all rows after the offset when fewer remain, and none when the offset is past the end; a newest-first input gives a newest-first window |
| PostService.GetAllPostsQuery | src/services/post.service.js:26-39 | fails exactly when LIMIT or the computed OFFSET `(page - 1) * limit` is negative or above the unsigned 64-bit maximum MySQL accepts; otherwise the page is the window at that offset of the joined rows sorted newest first, so at most `limit` rows, newest first, and exactly `limit` when at least offset + `limit` posts are owned (with unique post ids) |
| PostService.CheckUserPostExistsQuery | src/services/post.service.js:55-61 | non-empty exactly when a post has both that id and that owner, and holds only such rows |
| PostService.PostsWithout | src/services/post.service.js:63-69 | `DELETE FROM posts WHERE id = ?` keeps exactly the rows with another id, and removes as many rows as the id matched |
| PostService.PostsWithoutUnique | src/services/post.service.js:63-69 | deleting posts keeps the remaining primary keys unique |
| PostService.PostTagsWithout | src/services/post.service.js:71-78 | `DELETE FROM post_tags WHERE post_id = ?` keeps exactly the rows of other posts, and removes one row per tag of that post |
| PostService.Retitled | src/services/post.service.js:80-87 | `UPDATE posts SET title, content WHERE id = ?` changes only title and content of the rows with that id; every other field and row is unchanged |
| PostService.CreatePostQuery | src/services/post.service.js:8-15 | appends one post under a fresh id, returned as `insertId`, with `affectedRows` 1 |
| PostService.CreatePostTagQuery | src/services/post.service.js:17-24 | appends exactly the row `(postId, tagId)` |
| PostService.DeletePostQuery | src/services/post.service.js:63-69 | the posts table becomes `PostsWithout`; `affectedRows` is the number of rows with that id |
| PostService.DeletePostTagsQuery | src/services/post.service.js:71-78 | the junction table becomes `PostTagsWithout`; `affectedRows` is the number of tag rows the post had |
| PostService.UpdatePostQuery | src/services/post.service.js:80-87 | the posts table becomes `Retitled`; `affectedRows` is the number of rows with that id; the owner argument is not used by the statement |
| PostService.DeletedPostNotFound | src/services/post.service.js:41-69 | after a post is deleted, looking it up by id finds nothing |
| PostService.CreatedPostFound | src/services/post.service.js:41-53 | a newly inserted post whose owner exists is exactly what a lookup by its id returns |
| Schema.PostTagRows | src/controllers/post.controller.js:73-76 | one `(postId, t)` row per requested tag id, in order |
| Schema.TagIdsOfPostTagRows | src/controllers/post.controller.js:73-76 | the rows inserted for `tagIds` read back as exactly `tagIds` |
| Common.Utf16Length | src/controllers/post.controller.js:16-17 | the JavaScript `length` Joi measures: between one and two units per character, and one per character when all lie in the Basic Multilingual Plane |
| PostController.ValidatePostPayload | src/controllers/post.controller.js:15-28 | accepted exactly when title is a string of 3..60 UTF-16 units, content one of 3..250 and tagIds a list of safe integers with no unknown key; the payload echoes those values; otherwise 400 naming the first failing key in schema order |
| PostController.CheckTagsExist | src/controllers/post.controller.js:31-36 | an empty list fails the query (500); otherwise, with unique tag ids, the check passes exactly when the ids are distinct and all exist, and a refusal is the 400 "Tags mismatch" |
| PostController.AssertUserOwnsPost | src/controllers/post.controller.js:38-46 | passes exactly when a post has both that id and that owner; a missing post and someone else's post get the same 404 |
| PostController.InsertPostTags | src/controllers/post.controller.js:73-76 | the junction table gains exactly the rows `(postId, t)` for the requested ids, in order |
| PostController.CreatePost | src/controllers/post.controller.js:48-91 | a refused body or tag list answers 400 (500 for an empty list) and changes nothing; otherwise 201 echoing the new id and payload, exactly one new post and its tag rows, whose tags read back as `tagIds`; the post counter advances by one and the user counter is kept; the no-dangling-rows invariant is kept |
| PostController.GetAllPost | src/controllers/post.controller.js:93-115 | page 1 and limit 10 by default; 200 exactly when LIMIT and OFFSET lie in 0..2^64-1, with the window at offset `(page - 1) * limit` of the joined rows sorted newest first: at most `limit` rows, exactly `limit` when at least offset + `limit` posts are owned; 500 otherwise |
| PostController.GetPostById | src/controllers/post.controller.js:117-138 | 200 exactly when a post with that id has an existing owner, and the row returned is that post's joined row with the owner's username and its tag names; 404 "Post not found" otherwise |
| PostController.DeletePost | src/controllers/post.controller.js:140-175 | 404 and no change unless the caller owns the post; a post without tag rows gets 500 "Failed to delete post tags" with every table rolled back; otherwise 200 with the post and its tag rows gone; users, tags and both AUTO_INCREMENT counters never change; a connection is released whenever one was taken |
| PostController.DeleteInTransaction | src/controllers/post.controller.js:149-161 | the transactional part of delete: zero deleted tag rows rolls back with the 500; otherwise both deletes are committed; neither AUTO_INCREMENT counter moves |
| PostController.UpdatePost | src/controllers/post.controller.js:177-220 | checks in the order body (400), ownership (404), tags (400, or 500 for an empty list), each refusal leaving the store unchanged; otherwise 200, only that post's title and content change, and its tag rows become exactly `tagIds`; users, tags and both AUTO_INCREMENT counters never change |
| PostController.UpdateInTransaction | src/controllers/post.controller.js:191-205 | the transactional part of update: retitle, delete the tag rows whatever their count, insert the new ones, commit; neither AUTO_INCREMENT counter moves |
| PostController.NoTagIdsAfterDelete | src/services/post.service.js:71-78 | after the junction delete, the post has no tag rows left |
| PostController.ReplacedTagIds | src/controllers/post.controller.js:199-204 | delete-then-insert leaves the post's tags equal to the submitted list |
| PostController.CreatedTagIds | src/controllers/post.controller.js:62-77 | under a fresh post id, the inserted rows are the post's only tag rows |
| PostController.CreateKeepsNoDangling | src/controllers/post.controller.js:62-77 | inserting a post with its tag rows keeps every junction row pointing at an existing post |
| PostController.DeleteKeepsNoDangling | src/controllers/post.controller.js:149-161 | deleting a post with its tag rows keeps every junction row pointing at an existing post |
| PostController.UpdateKeepsNoDangling | src/controllers/post.controller.js:191-205 | retitling keeps the set of post ids, so replacing the tag rows keeps every junction row pointing at an existing post |
| UserController.ValidateRegisterUser | src/controllers/user.controller.js:10-31 | accepted exactly when username has 3..30 UTF-16 units, email is a valid address and password has 6..30 units, with no unknown key; otherwise 400 naming the first failing key in schema order |
| UserController.ValidateLoginUser | src/controllers/user.controller.js:17-20 | accepted exactly when email is a valid address and password has 6..30 UTF-16 units, with no unknown key; otherwise 400 naming the first failing key |
| UserController.RegisterBodyPassesLogin | src/controllers/user.controller.js:10-20 | the email and password of an accepted registration pass the login schema |
| UserController.RegisterUser | src/controllers/user.controller.js:22-74 | 400 with no insert for a refused body or a taken email; otherwise 201 carrying only username and email, and exactly one new row whose password is the bcrypt digest of the input at cost 10 |
| UserController.LoginUser | src/controllers/user.controller.js:76-123 | 400 under the key `status` for a refused body, before any lookup; the same 401 for an unknown email and for a wrong password; otherwise 200 with a token whose payload is the returned user `{ id, email, username }` of a stored row the password matches |
| UserController.RegisteredUserCanLogIn | src/controllers/user.controller.js:45-114 | right after a registration, logging in with the same email and password returns the new row's claims and a token for them |
| UserController.OtherPasswordRefused | src/controllers/user.controller.js:89-95 | after a registration, a password whose 72-byte key stream differs from the registered one's gets the same 401 as an email nobody registered |
| UserController.SharedKeyPasswordLogsIn | src/controllers/user.controller.js:89-114 | after a registration, a schema-valid password with the registered one's key stream logs in as the new user |
| Crypto.Hash | src/controllers/user.controller.js:45 | the digest records the cost factor and the salt it was made with |
| Crypto.BcryptKey | src/controllers/user.controller.js:45 | the 72 bytes the `$2b$` key schedule reads: the UTF-8 encoding when it reaches 72 bytes, otherwise the encoding followed by a NUL byte, repeated |
| Crypto.CompareHash | src/controllers/user.controller.js:90 | comparing a password with a digest succeeds exactly when the two passwords have the same `BcryptKey` stream |
| Crypto.ShortPasswordsCompareExactly | src/controllers/user.controller.js:90 | for passwords that fit in 72 UTF-8 bytes and hold no U+0000, the comparison succeeds exactly for the hashed password itself |
| Crypto.NulRepeatCompares | src/controllers/user.controller.js:90 | a password followed by U+0000 and itself again matches the digest of the password alone, while the result fits in the 72 bytes |
| Crypto.SharedPrefixCompares | src/controllers/user.controller.js:90 | any two passwords that begin with the same 24 three-byte characters compare equal, whatever follows |
| Crypto.Utf8Injective | src/controllers/user.controller.js:90 | the UTF-8 encoding handed to bcrypt is injective: equal bytes mean equal strings |
| Crypto.Sign | src/controllers/user.controller.js:104-106 | the token carries exactly the payload it was signed with |

## Left out

- Express routing, the authentication middleware, the server, environment loading and logging are not modelled. The caller's id (`req.user.id`) is a parameter.
- The email grammar of Joi's `string().email()` is the parameter `isEmail`.
- PostController.ValidatePostPayload: a `tagIds` entry is an integer. Joi's conversion of numeric strings and its acceptance of fractional numbers are not modelled; its refusal of numbers beyond `Number.MAX_SAFE_INTEGER` is.
- Common.Utf16Length: a string is a sequence of Unicode scalar values, so a lone surrogate, which a JavaScript string can hold, cannot be written.
- Joi reports its own message texts. Here a rejection carries only the failing key (`InvalidKey`).
- bcrypt and jsonwebtoken are stand-ins:
  - a digest is collision-free on the 72-byte key stream and records cost, salt and that stream;
  - a token records payload, secret and lifetime;
  - the random salt, the secret and the lifetime are parameters;
  - no cryptography is modelled, and neither is token expiry.
- `JSON_ARRAYAGG` output is simplified to the list of tag names in junction-row order. It does not produce the `[null]` that MySQL gives a post without tags.
- `created_at` is supplied by the caller. MySQL leaves the order of equal timestamps open; the model fixes one order.
- `parseInt` returning NaN for a non-numeric `page` or `limit` is not modelled; query parameters are integers or absent.
- PostService.GetAllPostsQuery: `page`, `limit` and the OFFSET are exact integers. JavaScript's rounding of numbers above 2^53 is not modelled, both in `parseInt` and in `(page - 1) * limit`. The unsigned 64-bit bound MySQL puts on LIMIT and OFFSET is modelled.
- `req.params.id` is a string that MySQL converts for comparison. The model uses integer ids, and the echoed `postId` of an update is that integer.
- MySQL's case-insensitive string comparison in the `email` lookup is not modelled: emails are compared exactly.
- The catch-all 500 paths for a lost connection or a failing driver are not modelled. The exception is the statements the model does fail: an empty `IN ()` list, and a LIMIT or OFFSET that is negative or beyond 2^64 - 1.
- The `affectedRows === 0` checks after the inserts and the update cannot fire in this model, because those statements always affect one row. In a real database they could fail under concurrent deletes.
- `Promise.all` runs the tag inserts concurrently. Here they run in order, which is harmless because the inserts are independent rows. Concurrency between requests and isolation levels are left out too.
- A rollback does not reset the AUTO_INCREMENT counters, as in InnoDB, so a failed create still uses up an id.
- The tag controller forwards a query whose service file is not part of this model.
- Crypto.Hash: its contract states only the cost and salt. Which passwords a digest matches is stated by `Crypto.CompareHash`.
- Two behaviours of the code are kept as written:
  - `updatePost` ignores the row count of its tag delete (src/controllers/post.controller.js:200), while `deletePost` refuses a zero count (151-154). So a post without tags can be updated but not deleted.
  - An empty `tagIds` list is not accepted as "no tags": the driver writes it as `IN ()`, MySQL rejects that statement, and create and update answer 500.
