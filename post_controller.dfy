/** The handlers of `src/controllers/post.controller.js` and the helpers they
    share. Validation and the two existence checks are functions; the
    handlers that write run their statements between the two halves of the
    transaction helper. */
module PostController {
  import opened Common
  import opened Schema
  import opened Http
  import opened PostService
  import Db

  /** The body of POST /posts and PUT /posts/:id: the three schema keys and
      the names of any other keys, in order. */
  datatype PostBody = PostBody(title: Field, content: Field, tagIds: Field, unknownKeys: seq<string>)

  /** The validated `{ title, content, tagIds }`. */
  datatype PostPayload = PostPayload(title: string, content: string, tagIds: seq<int>)

  const TagsMismatch := Failure(400, Text("Tags mismatch, Please check tags"))
  const NotFoundOrForbidden := Failure(404, Text("Post not found or you do not have permission"))
  /** A rejected statement: the catch blocks answer `error.status || 500` and the driver's message. */
  const QueryFailed := Failure(500, DriverError)

  /** What `postSchema` admits, independent of the order Joi checks keys in. */
  predicate PostSchemaAccepts(body: PostBody)
  {
    && StringOfLength(body.title, 3, 60)
    && StringOfLength(body.content, 3, 250)
    && NumberArray(body.tagIds)
    && body.unknownKeys == []
  }

  /** `validatePostPayload(postSchema, body)`: Joi checks the keys in schema
      order, then rejects unknown keys, and reports the first failure as 400. */
  function ValidatePostPayload(body: PostBody): (r: Result<PostPayload>)
    ensures r.Ok? <==> PostSchemaAccepts(body)
    ensures r.Ok? ==> && r.value.title == body.title.s && r.value.content == body.content.s
                      && |r.value.tagIds| == |body.tagIds.items|
                      && forall i :: 0 <= i < |r.value.tagIds| ==> body.tagIds.items[i] == Num(r.value.tagIds[i])
    ensures r.Err? ==> r.failure.status == 400
    ensures !StringOfLength(body.title, 3, 60) ==> r == Err(Failure(400, InvalidKey("title")))
    ensures StringOfLength(body.title, 3, 60) && !StringOfLength(body.content, 3, 250) ==>
              r == Err(Failure(400, InvalidKey("content")))
    ensures StringOfLength(body.title, 3, 60) && StringOfLength(body.content, 3, 250) && !NumberArray(body.tagIds) ==>
              r == Err(Failure(400, InvalidKey("tagIds")))
  {
    if !StringOfLength(body.title, 3, 60) then Err(Failure(400, InvalidKey("title")))
    else if !StringOfLength(body.content, 3, 250) then Err(Failure(400, InvalidKey("content")))
    else if !NumberArray(body.tagIds) then Err(Failure(400, InvalidKey("tagIds")))
    else if body.unknownKeys != [] then Err(Failure(400, InvalidKey(body.unknownKeys[0])))
    else Ok(PostPayload(body.title.s, body.content.s, Numbers(body.tagIds.items)))
  }

  /** `checkTagsExist`: 400 when the number of matching tag rows differs from
      the number of requested ids, so an unknown or a repeated id is refused;
      an empty list makes the query itself fail, which the handlers answer with 500. */
  function CheckTagsExist(t: Tables, tagIds: seq<int>): (r: Option<Failure>)
    ensures tagIds == [] ==> r == Some(QueryFailed)
    ensures tagIds != [] && r.Some? ==> r.value == TagsMismatch
    ensures tagIds != [] && UniqueTagIds(t.tags) ==>
              (r.None? <==> NoDuplicates(tagIds) && forall id :: id in tagIds ==> id in TagIds(t.tags))
  {
    assert UniqueTagIds(t.tags) ==>
             (|TagsWithId(t.tags, tagIds)| == |tagIds| <==>
                NoDuplicates(tagIds) && forall id :: id in tagIds ==> id in TagIds(t.tags)) by {
      if UniqueTagIds(t.tags) {
        TagCountMatchesIff(t.tags, tagIds);
      }
    }
    match GetTagsByIdQuery(t.tags, tagIds)
    case None => Some(QueryFailed)
    case Some(tags) => if |tags| != |tagIds| then Some(TagsMismatch) else None
  }

  /** `assertUserOwnsPost`: 404 unless a post has both that id and that owner;
      a missing post and someone else's post get the same answer. */
  function AssertUserOwnsPost(t: Tables, postId: int, userId: int): (r: Option<Failure>)
    ensures r.None? <==> exists p :: p in t.posts && p.id == postId && p.userId == userId
    ensures r.Some? ==> r.value == NotFoundOrForbidden
  {
    if CheckUserPostExistsQuery(t, postId, userId) == [] then Some(NotFoundOrForbidden) else None
  }

  /** `tagIds.map(tagId => createPostTagQuery(postId, tagId, connection))`,
      awaited together; the inserts are independent, so they run in order here. */
  method InsertPostTags(db: Db.Store, postId: int, tagIds: seq<int>)
    requires db.Valid()
    modifies db`postTags
    ensures db.Valid()
    ensures db.postTags == old(db.postTags) + PostTagRows(postId, tagIds)
  {
    var i := 0;
    while i < |tagIds|
      invariant 0 <= i <= |tagIds|
      invariant db.Valid()
      invariant db.postTags == old(db.postTags) + PostTagRows(postId, tagIds[..i])
    {
      var inserted := CreatePostTagQuery(db, postId, tagIds[i]);
      assert tagIds[..i + 1][..i] == tagIds[..i];
      i := i + 1;
    }
    assert tagIds[..i] == tagIds;
  }

  /** POST /posts */
  method CreatePost(db: Db.Store, userId: int, body: PostBody, now: int) returns (resp: Response)
    requires db.Valid() && db.snapshot.None?
    modifies db
    ensures db.Valid() && db.snapshot.None?
    ensures db.users == old(db.users) && db.tags == old(db.tags)
    ensures db.nextUserId == old(db.nextUserId)
    ensures old(NoDanglingPostTags(db.Rows())) ==> NoDanglingPostTags(db.Rows())
    ensures ValidatePostPayload(body).Err? ==>
              && resp == Rejection(ValidatePostPayload(body).failure)
              && unchanged(db)
    ensures ValidatePostPayload(body).Ok? &&
            CheckTagsExist(old(db.Rows()), ValidatePostPayload(body).value.tagIds).Some? ==>
              && resp == Rejection(CheckTagsExist(old(db.Rows()), ValidatePostPayload(body).value.tagIds).value)
              && unchanged(db)
    ensures ValidatePostPayload(body).Ok? &&
            CheckTagsExist(old(db.Rows()), ValidatePostPayload(body).value.tagIds).None? ==>
              var p, id := ValidatePostPayload(body).value, old(db.nextPostId);
              && resp == Response(201, SuccessKey(true), Text("Post created successfully"),
                                  PostSummary(id, p.title, p.content, p.tagIds))
              && db.posts == old(db.posts) + [Post(id, p.title, p.content, userId, now)]
              && db.postTags == old(db.postTags) + PostTagRows(id, p.tagIds)
              && (old(NoDanglingPostTags(db.Rows())) ==> TagIdsOf(db.postTags, id) == p.tagIds)
              && db.nextPostId == old(db.nextPostId) + 1
              && db.released == old(db.released) + 1
  {
    var validated := ValidatePostPayload(body);
    if validated.Err? {
      return Rejection(validated.failure);
    }
    var payload := validated.value;
    var tagsRefused := CheckTagsExist(db.Rows(), payload.tagIds);
    if tagsRefused.Some? {
      return Rejection(tagsRefused.value);
    }
    ghost var before := db.Rows();
    var postId := 0;
    db.TransactionBegin();
    var failure: Option<Failure> := None;
    var result := CreatePostQuery(db, payload.title, payload.content, userId, now);
    if result.affectedRows == 0 {
      failure := Some(Failure(500, Text("Failed to create post")));
    } else {
      postId := result.insertId;
      InsertPostTags(db, postId, payload.tagIds);
    }
    failure := db.TransactionEnd(failure);
    match failure {
      case Some(f) =>
        resp := Rejection(f);
      case None =>
        resp := Response(201, SuccessKey(true), Text("Post created successfully"),
                         PostSummary(postId, payload.title, payload.content, payload.tagIds));
    }
    if NoDanglingPostTags(before) {
      CreateKeepsNoDangling(before, Post(postId, payload.title, payload.content, userId, now), payload.tagIds);
      CreatedTagIds(before, postId, payload.tagIds);
    }
  }

  /** The value of a query parameter, or its default when absent. */
  function QueryOr(param: Option<int>, default: int): int
  {
    if param.Some? then param.value else default
  }

  /** GET /posts?page&limit, with `page` 1 and `limit` 10 when absent. */
  function GetAllPost(t: Tables, page: Option<int>, limit: Option<int>): (resp: Response)
    ensures var p, l := QueryOr(page, 1), QueryOr(limit, 10);
            && (resp.status == 200 <==> 0 <= l <= MaxRowCount && 0 <= Offset(p, l) <= MaxRowCount)
            && (resp.status == 200 ==>
                  && resp.flag == SuccessKey(true) && resp.data.PostList?
                  && |resp.data.views| <= l && NewestFirst(resp.data.views)
                  && (forall v :: v in resp.data.views ==> v in JoinedViews(t, t.posts))
                  && (Offset(p, l) + l <= |JoinedViews(t, t.posts)| ==> |resp.data.views| == l)
                  && (UniquePostIds(t.posts) && Offset(p, l) + l <= |OwnedIds(t, t.posts)| ==> |resp.data.views| == l)
                  && resp.data.views == Window(SortNewestFirst(JoinedViews(t, t.posts)), Offset(p, l), l))
            && (resp.status != 200 ==>
                  resp == Response(500, SuccessKey(false), Text("Internal Server Error in Get All Post"), NoData))
  {
    match GetAllPostsQuery(t, QueryOr(page, 1), QueryOr(limit, 10))
    case Some(views) => Response(200, SuccessKey(true), Text("Successfully fetched Posts"), PostList(views))
    case None => Response(500, SuccessKey(false), Text("Internal Server Error in Get All Post"), NoData)
  }

  /** GET /posts/:id */
  function GetPostById(t: Tables, postId: int): (resp: Response)
    ensures resp.status == 200 <==> exists p :: p in t.posts && p.id == postId && Owned(t, p)
    ensures resp.status != 200 ==> resp == Rejection(Failure(404, Text("Post not found")))
    ensures resp.status == 200 ==> && resp.data.OnePost? && resp.data.view.post in t.posts
                                    && resp.data.view.post.id == postId
                                    && Owned(t, resp.data.view.post)
                                    && resp.data.view == View(t, resp.data.view.post)
  {
    match GetPostByIdQuery(t, postId)
    case None => Rejection(Failure(404, Text("Post not found")))
    case Some(view) => Response(200, SuccessKey(true), Text("Successfully fetched Post"), OnePost(view))
  }

  /** DELETE /posts/:id. A post without tag rows cannot be deleted: removing
      its zero `post_tags` rows counts as a failure and is rolled back. */
  method DeletePost(db: Db.Store, userId: int, postId: int) returns (resp: Response)
    requires db.Valid() && db.snapshot.None?
    modifies db
    ensures db.Valid() && db.snapshot.None?
    ensures db.users == old(db.users) && db.tags == old(db.tags)
    ensures db.nextUserId == old(db.nextUserId)
    ensures db.nextPostId == old(db.nextPostId)
    ensures old(NoDanglingPostTags(db.Rows())) ==> NoDanglingPostTags(db.Rows())
    ensures AssertUserOwnsPost(old(db.Rows()), postId, userId).Some? ==>
              && resp == Rejection(NotFoundOrForbidden)
              && unchanged(db)
    ensures AssertUserOwnsPost(old(db.Rows()), postId, userId).None? && TagIdsOf(old(db.postTags), postId) == [] ==>
              && resp == Rejection(Failure(500, Text("Failed to delete post tags")))
              && db.Rows() == old(db.Rows()) && db.released == old(db.released) + 1
    ensures AssertUserOwnsPost(old(db.Rows()), postId, userId).None? && TagIdsOf(old(db.postTags), postId) != [] ==>
              && resp == Response(200, SuccessKey(true), Text("Post deleted successfully"), NoData)
              && db.posts == PostsWithout(old(db.posts), postId)
              && db.postTags == PostTagsWithout(old(db.postTags), postId)
              && db.released == old(db.released) + 1
  {
    var denied := AssertUserOwnsPost(db.Rows(), postId, userId);
    if denied.Some? {
      return Rejection(denied.value);
    }
    assert postId in PostIds(db.posts) by {
      var p :| p in db.posts && p.id == postId && p.userId == userId;
    }
    ghost var before := db.Rows();
    var failure := DeleteInTransaction(db, postId);
    match failure {
      case Some(f) =>
        resp := Rejection(f);
      case None =>
        resp := Response(200, SuccessKey(true), Text("Post deleted successfully"), NoData);
    }
    if NoDanglingPostTags(before) && failure.None? {
      DeleteKeepsNoDangling(before, postId);
    }
  }

  /** `runWithTransaction` around the callback of `deletePost`: delete the tag
      rows (500 when there were none), then the post (500 when it is gone). */
  method DeleteInTransaction(db: Db.Store, postId: int) returns (failure: Option<Failure>)
    requires db.Valid() && db.snapshot.None?
    requires postId in PostIds(db.posts)
    modifies db
    ensures db.Valid() && db.snapshot.None?
    ensures db.users == old(db.users) && db.tags == old(db.tags)
    ensures db.nextUserId == old(db.nextUserId)
    ensures db.nextPostId == old(db.nextPostId)
    ensures db.released == old(db.released) + 1
    ensures TagIdsOf(old(db.postTags), postId) == [] ==>
              failure == Some(Failure(500, Text("Failed to delete post tags"))) && db.Rows() == old(db.Rows())
    ensures TagIdsOf(old(db.postTags), postId) != [] ==>
              && failure.None?
              && db.posts == PostsWithout(old(db.posts), postId)
              && db.postTags == PostTagsWithout(old(db.postTags), postId)
  {
    assert PostsWithId(db.posts, postId) != [] by {
      var p :| p in db.posts && p.id == postId;
      assert p in PostsWithId(db.posts, postId);
    }
    db.TransactionBegin();
    failure := None;
    var tagsDeleted := DeletePostTagsQuery(db, postId);
    if tagsDeleted.affectedRows == 0 {
      failure := Some(Failure(500, Text("Failed to delete post tags")));
    } else {
      var postDeleted := DeletePostQuery(db, postId);
      if postDeleted.affectedRows == 0 {
        failure := Some(Failure(500, Text("Failed to delete post")));
      }
    }
    failure := db.TransactionEnd(failure);
  }

  /** PUT /posts/:id. Checks run in the order validation (400), ownership
      (404), tags (400); the tag rows are replaced whatever the delete count. */
  method UpdatePost(db: Db.Store, userId: int, postId: int, body: PostBody) returns (resp: Response)
    requires db.Valid() && db.snapshot.None?
    modifies db
    ensures db.Valid() && db.snapshot.None?
    ensures db.users == old(db.users) && db.tags == old(db.tags)
    ensures db.nextUserId == old(db.nextUserId)
    ensures db.nextPostId == old(db.nextPostId)
    ensures old(NoDanglingPostTags(db.Rows())) ==> NoDanglingPostTags(db.Rows())
    ensures ValidatePostPayload(body).Err? ==>
              && resp == Rejection(ValidatePostPayload(body).failure)
              && unchanged(db)
    ensures ValidatePostPayload(body).Ok? && AssertUserOwnsPost(old(db.Rows()), postId, userId).Some? ==>
              && resp == Rejection(NotFoundOrForbidden)
              && unchanged(db)
    ensures ValidatePostPayload(body).Ok? && AssertUserOwnsPost(old(db.Rows()), postId, userId).None? &&
            CheckTagsExist(old(db.Rows()), ValidatePostPayload(body).value.tagIds).Some? ==>
              && resp == Rejection(CheckTagsExist(old(db.Rows()), ValidatePostPayload(body).value.tagIds).value)
              && unchanged(db)
    ensures ValidatePostPayload(body).Ok? && AssertUserOwnsPost(old(db.Rows()), postId, userId).None? &&
            CheckTagsExist(old(db.Rows()), ValidatePostPayload(body).value.tagIds).None? ==>
              var p := ValidatePostPayload(body).value;
              && resp == Response(200, SuccessKey(true), Text("Post updated successfully"),
                                  PostSummary(postId, p.title, p.content, p.tagIds))
              && db.posts == Retitled(old(db.posts), postId, p.title, p.content)
              && db.postTags == PostTagsWithout(old(db.postTags), postId) + PostTagRows(postId, p.tagIds)
              && TagIdsOf(db.postTags, postId) == p.tagIds
              && db.released == old(db.released) + 1
  {
    var validated := ValidatePostPayload(body);
    if validated.Err? {
      return Rejection(validated.failure);
    }
    var payload := validated.value;
    var denied := AssertUserOwnsPost(db.Rows(), postId, userId);
    if denied.Some? {
      return Rejection(denied.value);
    }
    var tagsRefused := CheckTagsExist(db.Rows(), payload.tagIds);
    if tagsRefused.Some? {
      return Rejection(tagsRefused.value);
    }
    assert postId in PostIds(db.posts) by {
      var p :| p in db.posts && p.id == postId && p.userId == userId;
    }
    ghost var before := db.Rows();
    var failure := UpdateInTransaction(db, postId, payload, userId);
    match failure {
      case Some(f) =>
        resp := Rejection(f);
      case None =>
        resp := Response(200, SuccessKey(true), Text("Post updated successfully"),
                         PostSummary(postId, payload.title, payload.content, payload.tagIds));
    }
    ReplacedTagIds(before.postTags, postId, payload.tagIds);
    if NoDanglingPostTags(before) {
      UpdateKeepsNoDangling(before, postId, payload.title, payload.content, payload.tagIds);
    }
  }

  /** `runWithTransaction` around the callback of `updatePost`: retitle the
      post (500 when no row matched), delete its tag rows without looking at
      the count, and insert the submitted ones. */
  method UpdateInTransaction(db: Db.Store, postId: int, payload: PostPayload, userId: int)
    returns (failure: Option<Failure>)
    requires db.Valid() && db.snapshot.None?
    requires postId in PostIds(db.posts)
    modifies db
    ensures db.Valid() && db.snapshot.None?
    ensures db.users == old(db.users) && db.tags == old(db.tags)
    ensures db.nextUserId == old(db.nextUserId)
    ensures db.nextPostId == old(db.nextPostId)
    ensures db.released == old(db.released) + 1
    ensures failure.None?
    ensures db.posts == Retitled(old(db.posts), postId, payload.title, payload.content)
    ensures db.postTags == PostTagsWithout(old(db.postTags), postId) + PostTagRows(postId, payload.tagIds)
  {
    assert PostsWithId(db.posts, postId) != [] by {
      var p :| p in db.posts && p.id == postId;
      assert p in PostsWithId(db.posts, postId);
    }
    db.TransactionBegin();
    failure := None;
    var result := UpdatePostQuery(db, postId, payload.title, payload.content, userId);
    if result.affectedRows == 0 {
      failure := Some(Failure(500, Text("Failed to update post")));
    } else {
      var tagsDeleted := DeletePostTagsQuery(db, postId);
      InsertPostTags(db, postId, payload.tagIds);
    }
    failure := db.TransactionEnd(failure);
  }

  // ---------------------------------------------------------------- lemmas

  /** After the delete-then-insert of `updatePost`, the post's tags are exactly the submitted ids. */
  lemma ReplacedTagIds(rows: seq<PostTag>, postId: int, tagIds: seq<int>)
    ensures TagIdsOf(PostTagsWithout(rows, postId) + PostTagRows(postId, tagIds), postId) == tagIds
  {
    var kept := PostTagsWithout(rows, postId);
    TagIdsOfAppend(kept, PostTagRows(postId, tagIds), postId);
    TagIdsOfPostTagRows(postId, tagIds);
    NoTagIdsAfterDelete(rows, postId);
  }

  lemma NoTagIdsAfterDelete(rows: seq<PostTag>, postId: int)
    ensures TagIdsOf(PostTagsWithout(rows, postId), postId) == []
  {
  }

  /** Under a fresh post id, the inserted rows are the post's only tag rows. */
  lemma CreatedTagIds(t: Tables, postId: int, tagIds: seq<int>)
    requires NoDanglingPostTags(t)
    requires postId !in PostIds(t.posts)
    ensures TagIdsOf(t.postTags + PostTagRows(postId, tagIds), postId) == tagIds
  {
    TagIdsOfAppend(t.postTags, PostTagRows(postId, tagIds), postId);
    TagIdsOfPostTagRows(postId, tagIds);
    TagIdsOfAbsent(t.postTags, postId);
  }

  /** Inserting a post together with its tag rows keeps every tag row pointing at a post. */
  lemma CreateKeepsNoDangling(t: Tables, p: Post, tagIds: seq<int>)
    requires NoDanglingPostTags(t)
    ensures NoDanglingPostTags(t.(posts := t.posts + [p], postTags := t.postTags + PostTagRows(p.id, tagIds)))
  {
    var posts := t.posts + [p];
    assert p in posts;
    forall r | r in t.postTags + PostTagRows(p.id, tagIds) ensures r.postId in PostIds(posts) {
      if r in t.postTags {
        var q :| q in t.posts && q.id == r.postId;
        assert q in posts;
      }
    }
  }

  /** Deleting a post with its tag rows keeps every tag row pointing at a post. */
  lemma DeleteKeepsNoDangling(t: Tables, postId: int)
    requires NoDanglingPostTags(t)
    ensures NoDanglingPostTags(t.(posts := PostsWithout(t.posts, postId),
                                  postTags := PostTagsWithout(t.postTags, postId)))
  {
    var posts := PostsWithout(t.posts, postId);
    forall r | r in PostTagsWithout(t.postTags, postId) ensures r.postId in PostIds(posts) {
      var q :| q in t.posts && q.id == r.postId;
      assert q in posts;
    }
  }

  /** Retitling a post and replacing its tag rows keeps every tag row pointing at a post. */
  lemma UpdateKeepsNoDangling(t: Tables, postId: int, title: string, content: string, tagIds: seq<int>)
    requires NoDanglingPostTags(t)
    requires postId in PostIds(t.posts)
    ensures NoDanglingPostTags(t.(posts := Retitled(t.posts, postId, title, content),
                                  postTags := PostTagsWithout(t.postTags, postId) + PostTagRows(postId, tagIds)))
  {
    var posts := Retitled(t.posts, postId, title, content);
    assert PostIds(posts) == PostIds(t.posts) by {
      forall id | id in PostIds(t.posts) ensures id in PostIds(posts) {
        var q :| q in t.posts && q.id == id;
        var k :| 0 <= k < |t.posts| && t.posts[k] == q;
        assert posts[k] in posts;
      }
      forall id | id in PostIds(posts) ensures id in PostIds(t.posts) {
        var q :| q in posts && q.id == id;
        var k :| 0 <= k < |posts| && posts[k] == q;
        assert t.posts[k] in t.posts;
      }
    }
  }
}
