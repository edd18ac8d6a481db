/** The four tables of the relational store, `users`, `posts`, `tags` and
    `post_tags`, as sequences of rows in insertion order, and the integrity
    facts the rest of the model keeps. */
module Schema {
  import opened Common
  import opened Crypto

  /** A `users` row; `password` holds the bcrypt digest. */
  datatype User = User(id: int, username: string, email: string, password: Digest)

  /** A `posts` row; `createdAt` is the `created_at` column. */
  datatype Post = Post(id: int, title: string, content: string, userId: int, createdAt: int)

  datatype Tag = Tag(id: int, name: string)

  /** A `post_tags` row: the pair (post_id, tag_id), with no identity of its own. */
  datatype PostTag = PostTag(postId: int, tagId: int)

  datatype Tables = Tables(users: seq<User>, posts: seq<Post>, tags: seq<Tag>, postTags: seq<PostTag>)

  /** One row of the post queries: `p.*`, the owner's `username` and the aggregated tag names. */
  datatype PostView = PostView(post: Post, username: string, tags: seq<string>)

  predicate UniqueUserIds(users: seq<User>)
  {
    forall i, j :: 0 <= i < j < |users| ==> users[i].id != users[j].id
  }

  predicate UniquePostIds(posts: seq<Post>)
  {
    forall i, j :: 0 <= i < j < |posts| ==> posts[i].id != posts[j].id
  }

  predicate UniqueTagIds(tags: seq<Tag>)
  {
    forall i, j :: 0 <= i < j < |tags| ==> tags[i].id != tags[j].id
  }

  function PostIds(posts: seq<Post>): set<int>
  {
    set p | p in posts :: p.id
  }

  function TagIds(tags: seq<Tag>): set<int>
  {
    set t | t in tags :: t.id
  }

  /** Primary keys are unique and below the next AUTO_INCREMENT value. */
  ghost predicate WellFormed(t: Tables, nextUserId: int, nextPostId: int)
  {
    && UniqueUserIds(t.users)
    && UniquePostIds(t.posts)
    && UniqueTagIds(t.tags)
    && (forall u :: u in t.users ==> u.id < nextUserId)
    && (forall p :: p in t.posts ==> p.id < nextPostId)
  }

  /** No `post_tags` row refers to a post that is not in `posts`. */
  ghost predicate NoDanglingPostTags(t: Tables)
  {
    forall r :: r in t.postTags ==> r.postId in PostIds(t.posts)
  }

  /** The tag ids of the `post_tags` rows of one post, in row order. */
  function TagIdsOf(rows: seq<PostTag>, postId: int): (ids: seq<int>)
    ensures |ids| <= |rows|
    ensures forall id :: id in ids <==> PostTag(postId, id) in rows
  {
    if rows == [] then []
    else (if rows[0].postId == postId then [rows[0].tagId] else []) + TagIdsOf(rows[1..], postId)
  }

  /** The rows `(postId, t)` for each `t` in `tagIds`, in order. */
  function PostTagRows(postId: int, tagIds: seq<int>): (rows: seq<PostTag>)
    ensures |rows| == |tagIds|
    ensures forall i :: 0 <= i < |tagIds| ==> rows[i] == PostTag(postId, tagIds[i])
  {
    if tagIds == [] then []
    else PostTagRows(postId, tagIds[..|tagIds| - 1]) + [PostTag(postId, tagIds[|tagIds| - 1])]
  }

  lemma {:induction false} TagIdsOfAppend(a: seq<PostTag>, b: seq<PostTag>, postId: int)
    ensures TagIdsOf(a + b, postId) == TagIdsOf(a, postId) + TagIdsOf(b, postId)
  {
    if a == [] {
      assert a + b == b;
    } else {
      assert (a + b)[1..] == a[1..] + b;
      TagIdsOfAppend(a[1..], b, postId);
    }
  }

  /** A post with no rows has no tags. */
  lemma {:induction false} TagIdsOfAbsent(rows: seq<PostTag>, postId: int)
    requires forall r :: r in rows ==> r.postId != postId
    ensures TagIdsOf(rows, postId) == []
  {
    if rows != [] {
      TagIdsOfAbsent(rows[1..], postId);
    }
  }

  /** The rows inserted for `tagIds` give back exactly `tagIds` as the post's tags. */
  lemma {:induction false} TagIdsOfPostTagRows(postId: int, tagIds: seq<int>)
    ensures TagIdsOf(PostTagRows(postId, tagIds), postId) == tagIds
  {
    if tagIds != [] {
      var init, last := tagIds[..|tagIds| - 1], tagIds[|tagIds| - 1];
      TagIdsOfPostTagRows(postId, init);
      TagIdsOfAppend(PostTagRows(postId, init), [PostTag(postId, last)], postId);
      assert TagIdsOf([PostTag(postId, last)], postId) == [last] by {
        assert [PostTag(postId, last)][1..] == [];
      }
      assert init + [last] == tagIds;
    }
  }
}
