/** The queries of `src/services/post.service.js`. The four SELECTs are
    functions over the tables; the INSERT, UPDATE and DELETE statements are
    methods that change the store and return `affectedRows` / `insertId`,
    each specified by a function of the old table. */
module PostService {
  import opened Common
  import opened Schema
  import UserService
  import Db

  // ---------------------------------------------------------------- tags

  /** `SELECT * FROM tags WHERE Id IN (?)`. The driver writes an empty list
      as `IN ()`, which MySQL rejects, so an empty `tagIds` fails. */
  function GetTagsByIdQuery(tags: seq<Tag>, tagIds: seq<int>): (r: Option<seq<Tag>>)
    ensures r.None? <==> tagIds == []
    ensures r.Some? ==> r.value == TagsWithId(tags, tagIds)
  {
    if tagIds == [] then None else Some(TagsWithId(tags, tagIds))
  }

  /** The rows `WHERE Id IN (tagIds)` selects: the tag rows whose id is in
      `tagIds`, in table order, each row at most once. */
  function TagsWithId(tags: seq<Tag>, tagIds: seq<int>): (r: seq<Tag>)
    ensures |r| <= |tags|
    ensures forall tag :: tag in r <==> tag in tags && tag.id in tagIds
    ensures UniqueTagIds(tags) ==> UniqueTagIds(r)
  {
    if tags == [] then []
    else if tags[0].id in tagIds then [tags[0]] + TagsWithId(tags[1..], tagIds)
    else TagsWithId(tags[1..], tagIds)
  }

  /** With unique tag ids, the number of matched rows is the number of
      distinct requested ids that exist. */
  lemma {:induction false} MatchedTagCount(tags: seq<Tag>, tagIds: seq<int>)
    requires UniqueTagIds(tags)
    ensures |TagsWithId(tags, tagIds)| == |TagIds(tags) * Elems(tagIds)|
  {
    if tags != [] {
      var head, tail := tags[0], tags[1..];
      TagIdsCons(tags);
      MatchedTagCount(tail, tagIds);
      IntersectionCount(TagIds(tags), TagIds(tail), head.id, Elems(tagIds));
      if head.id in tagIds {
        assert head.id in Elems(tagIds);
        assert TagsWithId(tags, tagIds) == [head] + TagsWithId(tail, tagIds);
      } else {
        assert head.id !in Elems(tagIds);
      }
    }
  }

  /** Adding one element to a set adds one to its intersection with `wanted`
      exactly when `wanted` contains it. */
  lemma IntersectionCount(known: set<int>, rest: set<int>, id: int, wanted: set<int>)
    requires known == {id} + rest && id !in rest
    ensures |known * wanted| == |rest * wanted| + (if id in wanted then 1 else 0)
  {
    if id in wanted {
      assert known * wanted == {id} + rest * wanted;
    } else {
      assert known * wanted == rest * wanted;
    }
  }

  /** Splitting off the first row of a tag table with unique ids. */
  lemma TagIdsCons(tags: seq<Tag>)
    requires tags != [] && UniqueTagIds(tags)
    ensures UniqueTagIds(tags[1..])
    ensures TagIds(tags) == {tags[0].id} + TagIds(tags[1..])
    ensures tags[0].id !in TagIds(tags[1..])
  {
    var head, tail := tags[0], tags[1..];
    assert tags == [head] + tail;
    forall x | x in tail ensures x.id != head.id {
      var k :| 0 <= k < |tail| && tail[k] == x;
      assert tags[k + 1] == x;
    }
  }

  /** The row count matches the number of requested ids exactly when every
      requested id names a tag and no id is requested twice. */
  lemma TagCountMatchesIff(tags: seq<Tag>, tagIds: seq<int>)
    requires UniqueTagIds(tags)
    ensures |TagsWithId(tags, tagIds)| == |tagIds| <==>
              NoDuplicates(tagIds) && forall id :: id in tagIds ==> id in TagIds(tags)
  {
    MatchedTagCount(tags, tagIds);
    ElemsCount(tagIds);
    var known, wanted := TagIds(tags), Elems(tagIds);
    SubsetCount(known * wanted, wanted);
    if forall id :: id in tagIds ==> id in known {
      assert known * wanted == wanted;
    }
    if |known * wanted| == |tagIds| {
      assert known * wanted == wanted;
      forall id | id in tagIds ensures id in known {
        assert id in wanted;
      }
    }
  }

  // ---------------------------------------------------------------- post reads

  /** The inner `JOIN users u ON p.user_id = u.id` keeps a post only when its owner row exists. */
  predicate Owned(t: Tables, p: Post)
  {
    UserService.GetUserQuery(t.users, p.userId).Some?
  }

  function Names(tags: seq<Tag>): (names: seq<string>)
    ensures |names| == |tags|
  {
    seq(|tags|, i requires 0 <= i < |tags| => tags[i].name)
  }

  /** `LEFT JOIN tags t ON pt.tag_id = t.id` aggregated by `JSON_ARRAYAGG(t.name)`:
      the names of the tags each `post_tags` row points at, in row order. */
  function TagNames(tags: seq<Tag>, tagIds: seq<int>): (names: seq<string>)
    ensures UniqueTagIds(tags) ==> |names| <= |tagIds|
    ensures UniqueTagIds(tags) && (forall id :: id in tagIds ==> id in TagIds(tags)) ==>
              && |names| == |tagIds|
              && forall i :: 0 <= i < |tagIds| ==> Tag(tagIds[i], names[i]) in tags
  {
    if tagIds == [] then []
    else
      SingleTag(tags, tagIds[0]);
      var rest := TagNames(tags, tagIds[1..]);
      assert forall id :: id in tagIds[1..] ==> id in tagIds;
      Names(TagsWithId(tags, [tagIds[0]])) + rest
  }

  /** With unique tag ids, `WHERE Id IN (id)` selects the one row with that id, or none. */
  lemma SingleTag(tags: seq<Tag>, id: int)
    ensures UniqueTagIds(tags) && id in TagIds(tags) ==>
              |TagsWithId(tags, [id])| == 1 && TagsWithId(tags, [id])[0] in tags && TagsWithId(tags, [id])[0].id == id
    ensures UniqueTagIds(tags) && id !in TagIds(tags) ==> TagsWithId(tags, [id]) == []
  {
    if UniqueTagIds(tags) {
      MatchedTagCount(tags, [id]);
      assert Elems([id]) == {id};
      var r := TagsWithId(tags, [id]);
      if id in TagIds(tags) {
        assert TagIds(tags) * {id} == {id};
        assert r[0] in r;
      } else {
        assert TagIds(tags) * {id} == {};
      }
    }
  }

  /** The row the post queries produce for an owned post. */
  function View(t: Tables, p: Post): PostView
    requires Owned(t, p)
  {
    PostView(p, UserService.GetUserQuery(t.users, p.userId).value.username,
             TagNames(t.tags, TagIdsOf(t.postTags, p.id)))
  }

  /** The `GROUP BY p.id` rows of the join, one per owned post, in table order. */
  function JoinedViews(t: Tables, posts: seq<Post>): (vs: seq<PostView>)
    ensures |vs| <= |posts|
    ensures forall v :: v in vs ==> v.post in posts && Owned(t, v.post) && v == View(t, v.post)
    ensures forall p :: p in posts && Owned(t, p) ==> View(t, p) in vs
  {
    if posts == [] then []
    else (if Owned(t, posts[0]) then [View(t, posts[0])] else []) + JoinedViews(t, posts[1..])
  }

  /** The ids of the posts the inner join keeps. */
  ghost function OwnedIds(t: Tables, posts: seq<Post>): set<int>
  {
    set p | p in posts && Owned(t, p) :: p.id
  }

  lemma OwnedIdsCons(t: Tables, posts: seq<Post>)
    requires posts != []
    ensures OwnedIds(t, posts) == (if Owned(t, posts[0]) then {posts[0].id} else {}) + OwnedIds(t, posts[1..])
  {
    var tail := posts[1..];
    forall x | x in OwnedIds(t, posts) ensures x in (if Owned(t, posts[0]) then {posts[0].id} else {}) + OwnedIds(t, tail) {
      var p :| p in posts && Owned(t, p) && p.id == x;
      if p != posts[0] {
        assert p in tail;
      }
    }
    forall x | x in OwnedIds(t, tail) ensures x in OwnedIds(t, posts) {
      var p :| p in tail && Owned(t, p) && p.id == x;
      assert p in posts;
    }
    if Owned(t, posts[0]) {
      assert posts[0] in posts;
    }
  }

  /** With unique post ids, `GROUP BY p.id` gives each owned post one row:
      no two rows share a post id. */
  lemma {:induction false} JoinedViewsDistinct(t: Tables, posts: seq<Post>)
    requires UniquePostIds(posts)
    ensures UniqueViewIds(JoinedViews(t, posts))
  {
    if posts != [] {
      var tail := posts[1..];
      UniquePostIdsTail(posts);
      JoinedViewsDistinct(t, tail);
      var rest := JoinedViews(t, tail);
      if Owned(t, posts[0]) {
        forall v | v in rest ensures v.post.id != posts[0].id {
          assert v.post in tail;
        }
        UniqueViewIdsCons(View(t, posts[0]), rest);
      }
    }
  }

  /** No two rows of a post query share a post id. */
  predicate UniqueViewIds(vs: seq<PostView>)
  {
    forall i, j :: 0 <= i < j < |vs| ==> vs[i].post.id != vs[j].post.id
  }

  lemma UniqueViewIdsCons(head: PostView, rest: seq<PostView>)
    requires UniqueViewIds(rest)
    requires forall v :: v in rest ==> v.post.id != head.post.id
    ensures UniqueViewIds([head] + rest)
  {
    var vs := [head] + rest;
    forall i, j | 0 <= i < j < |vs| ensures vs[i].post.id != vs[j].post.id {
      assert vs[j] == rest[j - 1];
      if i > 0 {
        assert vs[i] == rest[i - 1];
      }
    }
  }

  /** With unique post ids, there are as many joined rows as owned posts. */
  lemma {:induction false} JoinedViewsCount(t: Tables, posts: seq<Post>)
    requires UniquePostIds(posts)
    ensures |JoinedViews(t, posts)| == |OwnedIds(t, posts)|
  {
    if posts != [] {
      var tail := posts[1..];
      UniquePostIdsTail(posts);
      JoinedViewsCount(t, tail);
      OwnedIdsCons(t, posts);
      if Owned(t, posts[0]) {
        assert posts[0].id !in OwnedIds(t, tail);
      }
    }
  }

  /** `WHERE p.id = ?` */
  function PostsWithId(posts: seq<Post>, postId: int): (r: seq<Post>)
    ensures |r| <= |posts|
    ensures forall p :: p in r <==> p in posts && p.id == postId
  {
    if posts == [] then []
    else (if posts[0].id == postId then [posts[0]] else []) + PostsWithId(posts[1..], postId)
  }

  /** `getPostByIdQuery`: `rows[0]` of the join restricted to `p.id = postId`,
      or nothing when no owned post has that id. */
  function GetPostByIdQuery(t: Tables, postId: int): (r: Option<PostView>)
    ensures r.None? <==> forall p :: p in t.posts && p.id == postId ==> !Owned(t, p)
    ensures r.Some? ==> && r.value.post in t.posts && r.value.post.id == postId
                        && Owned(t, r.value.post) && r.value == View(t, r.value.post)
  {
    var rows := JoinedViews(t, PostsWithId(t.posts, postId));
    if rows == [] then None
    else
      assert rows[0] in rows;
      Some(rows[0])
  }

  /** `ORDER BY p.created_at DESC`. */
  predicate NewestFirst(vs: seq<PostView>)
  {
    forall i, j :: 0 <= i < j < |vs| ==> vs[i].post.createdAt >= vs[j].post.createdAt
  }

  lemma NewestFirstCons(head: PostView, rest: seq<PostView>)
    requires NewestFirst(rest)
    requires forall x :: x in rest ==> x.post.createdAt <= head.post.createdAt
    ensures NewestFirst([head] + rest)
  {
    var all := [head] + rest;
    forall i, j | 0 <= i < j < |all| ensures all[i].post.createdAt >= all[j].post.createdAt {
      assert all[j] == rest[j - 1];
      if i > 0 {
        assert all[i] == rest[i - 1];
      } else {
        assert rest[j - 1] in rest;
      }
    }
  }

  lemma NewestFirstHead(vs: seq<PostView>)
    requires NewestFirst(vs) && vs != []
    ensures forall x :: x in vs[1..] ==> x.post.createdAt <= vs[0].post.createdAt
  {
    forall x | x in vs[1..] ensures x.post.createdAt <= vs[0].post.createdAt {
      var k :| 0 <= k < |vs[1..]| && vs[1..][k] == x;
      assert vs[k + 1] == x;
    }
  }

  function InsertNewestFirst(v: PostView, vs: seq<PostView>): (r: seq<PostView>)
    requires NewestFirst(vs)
    ensures NewestFirst(r)
    ensures |r| == |vs| + 1
    ensures multiset(r) == multiset(vs) + multiset{v}
  {
    if vs == [] || vs[0].post.createdAt <= v.post.createdAt then
      NewestFirstCons(v, vs);
      [v] + vs
    else
      var rest := InsertNewestFirst(v, vs[1..]);
      MembersOfMultiset(rest, vs[1..], v);
      NewestFirstHead(vs);
      NewestFirstCons(vs[0], rest);
      assert vs == [vs[0]] + vs[1..];
      [vs[0]] + rest
  }

  /** Elements of `b` plus one occurrence of `v` are exactly the elements of `a`. */
  lemma MembersOfMultiset<T>(a: seq<T>, b: seq<T>, v: T)
    requires multiset(a) == multiset(b) + multiset{v}
    ensures forall x :: x in a <==> x == v || x in b
  {
    forall x ensures x in a <==> x == v || x in b {
      assert x in a <==> x in multiset(a);
      assert x in b <==> x in multiset(b);
    }
  }

  /** MySQL leaves the order of equal `created_at` values open; this picks one. */
  function SortNewestFirst(vs: seq<PostView>): (r: seq<PostView>)
    ensures NewestFirst(r)
    ensures |r| == |vs|
    ensures forall x :: x in r <==> x in vs
    ensures multiset(r) == multiset(vs)
  {
    if vs == [] then []
    else
      assert vs == [vs[0]] + vs[1..];
      var r := InsertNewestFirst(vs[0], SortNewestFirst(vs[1..]));
      MembersOfMultiset(r, SortNewestFirst(vs[1..]), vs[0]);
      r
  }

  /** `LIMIT limit OFFSET offset` over an ordered row list. */
  function Window(vs: seq<PostView>, offset: nat, limit: nat): (w: seq<PostView>)
    ensures |w| <= limit
    ensures offset + limit <= |vs| ==> |w| == limit
    ensures |w| == if offset >= |vs| then 0 else if limit < |vs| - offset then limit else |vs| - offset
    ensures forall i :: 0 <= i < |w| ==> offset + i < |vs| && w[i] == vs[offset + i]
    ensures forall v :: v in w ==> v in vs
    ensures NewestFirst(vs) ==> NewestFirst(w)
  {
    var lo := if offset < |vs| then offset else |vs|;
    var hi := if offset + limit < |vs| then offset + limit else |vs|;
    vs[lo..hi]
  }

  /** The OFFSET of `getAllPostsQuery`. */
  function Offset(page: int, limit: int): int
  {
    (page - 1) * limit
  }

  /** The largest number MySQL accepts after LIMIT or OFFSET: an unsigned 64-bit integer. */
  const MaxRowCount: int := 0xFFFF_FFFF_FFFF_FFFF

  /** `getAllPostsQuery(page, limit)`: the joined rows, newest first, skipping
      `(page - 1) * limit` rows and keeping at most `limit`. A LIMIT or OFFSET
      that is negative or beyond an unsigned 64-bit integer makes the statement fail. */
  function GetAllPostsQuery(t: Tables, page: int, limit: int): (r: Option<seq<PostView>>)
    ensures r.Some? <==> 0 <= limit <= MaxRowCount && 0 <= Offset(page, limit) <= MaxRowCount
    ensures r.Some? ==> |r.value| <= limit && NewestFirst(r.value)
    ensures r.Some? ==> forall v :: v in r.value ==> v in JoinedViews(t, t.posts)
    ensures r.Some? && Offset(page, limit) + limit <= |JoinedViews(t, t.posts)| ==> |r.value| == limit
    ensures r.Some? && UniquePostIds(t.posts) && Offset(page, limit) + limit <= |OwnedIds(t, t.posts)| ==>
              |r.value| == limit
    ensures r.Some? ==> r.value == Window(SortNewestFirst(JoinedViews(t, t.posts)), Offset(page, limit), limit)
  {
    assert UniquePostIds(t.posts) ==> |JoinedViews(t, t.posts)| == |OwnedIds(t, t.posts)| by {
      if UniquePostIds(t.posts) {
        JoinedViewsCount(t, t.posts);
      }
    }
    var offset := Offset(page, limit);
    if limit < 0 || limit > MaxRowCount || offset < 0 || offset > MaxRowCount then None
    else Some(Window(SortNewestFirst(JoinedViews(t, t.posts)), offset, limit))
  }

  /** `SELECT * FROM posts WHERE id = ? AND user_id = ?` */
  function CheckUserPostExistsQuery(t: Tables, postId: int, userId: int): (r: seq<Post>)
    ensures r != [] <==> exists p :: p in t.posts && p.id == postId && p.userId == userId
    ensures forall p :: p in r ==> p in t.posts && p.id == postId && p.userId == userId
  {
    var rows := OwnedBy(PostsWithId(t.posts, postId), userId);
    assert rows != [] ==> rows[0] in rows;
    rows
  }

  function OwnedBy(posts: seq<Post>, userId: int): (r: seq<Post>)
    ensures forall p :: p in r <==> p in posts && p.userId == userId
  {
    if posts == [] then []
    else (if posts[0].userId == userId then [posts[0]] else []) + OwnedBy(posts[1..], userId)
  }

  // ---------------------------------------------------------------- writes

  /** The `posts` table after `DELETE FROM posts WHERE id = ?`. */
  function PostsWithout(posts: seq<Post>, postId: int): (r: seq<Post>)
    ensures forall p :: p in r <==> p in posts && p.id != postId
    ensures |r| + |PostsWithId(posts, postId)| == |posts|
  {
    if posts == [] then []
    else if posts[0].id == postId then PostsWithout(posts[1..], postId)
    else [posts[0]] + PostsWithout(posts[1..], postId)
  }

  /** Deleting rows keeps the remaining primary keys unique. */
  lemma {:induction false} PostsWithoutUnique(posts: seq<Post>, postId: int)
    requires UniquePostIds(posts)
    ensures UniquePostIds(PostsWithout(posts, postId))
  {
    if posts != [] {
      var tail := posts[1..];
      UniquePostIdsTail(posts);
      PostsWithoutUnique(tail, postId);
      if posts[0].id != postId {
        UniquePostIdsCons(posts[0], PostsWithout(tail, postId));
      }
    }
  }

  lemma UniquePostIdsTail(posts: seq<Post>)
    requires posts != [] && UniquePostIds(posts)
    ensures UniquePostIds(posts[1..])
    ensures forall q :: q in posts[1..] ==> q.id != posts[0].id
  {
    var tail := posts[1..];
    forall i, j | 0 <= i < j < |tail| ensures tail[i].id != tail[j].id {
      assert tail[i] == posts[i + 1] && tail[j] == posts[j + 1];
    }
    forall q | q in tail ensures q.id != posts[0].id {
      var k :| 0 <= k < |tail| && tail[k] == q;
      assert posts[k + 1] == q;
    }
  }

  lemma UniquePostIdsCons(head: Post, rest: seq<Post>)
    requires UniquePostIds(rest)
    requires forall q :: q in rest ==> q.id != head.id
    ensures UniquePostIds([head] + rest)
  {
    var r := [head] + rest;
    forall i, j | 0 <= i < j < |r| ensures r[i].id != r[j].id {
      assert r[j] == rest[j - 1];
      if i > 0 {
        assert r[i] == rest[i - 1];
      }
    }
  }

  /** The `post_tags` table after `DELETE FROM post_tags WHERE post_id = ?`. */
  function PostTagsWithout(rows: seq<PostTag>, postId: int): (r: seq<PostTag>)
    ensures forall x :: x in r <==> x in rows && x.postId != postId
    ensures |r| + |TagIdsOf(rows, postId)| == |rows|
  {
    if rows == [] then []
    else if rows[0].postId == postId then PostTagsWithout(rows[1..], postId)
    else [rows[0]] + PostTagsWithout(rows[1..], postId)
  }

  /** The `posts` table after `UPDATE posts SET title = ?, content = ? WHERE id = ?`:
      only title and content of the rows with that id change. */
  function Retitled(posts: seq<Post>, postId: int, title: string, content: string): (r: seq<Post>)
    ensures |r| == |posts|
    ensures forall i :: 0 <= i < |posts| ==>
              && r[i].id == posts[i].id && r[i].userId == posts[i].userId
              && r[i].createdAt == posts[i].createdAt
              && (posts[i].id == postId ==> r[i].title == title && r[i].content == content)
              && (posts[i].id != postId ==> r[i] == posts[i])
  {
    seq(|posts|, i requires 0 <= i < |posts| =>
      if posts[i].id == postId then posts[i].(title := title, content := content) else posts[i])
  }

  /** `INSERT INTO posts (title, content, user_id) VALUES (?, ?, ?)`: one new
      row under a fresh id, returned as `insertId`. */
  method CreatePostQuery(db: Db.Store, title: string, content: string, userId: int, now: int)
    returns (r: WriteResult)
    requires db.Valid()
    modifies db`posts, db`nextPostId
    ensures db.Valid()
    ensures r == WriteResult(1, old(db.nextPostId))
    ensures r.insertId !in PostIds(old(db.posts))
    ensures db.posts == old(db.posts) + [Post(r.insertId, title, content, userId, now)]
    ensures db.nextPostId == old(db.nextPostId) + 1
  {
    var post := Post(db.nextPostId, title, content, userId, now);
    db.posts := db.posts + [post];
    db.nextPostId := db.nextPostId + 1;
    r := WriteResult(1, post.id);
  }

  /** `INSERT INTO post_tags (post_id, tag_id) VALUES (?, ?)` */
  method CreatePostTagQuery(db: Db.Store, postId: int, tagId: int) returns (r: WriteResult)
    requires db.Valid()
    modifies db`postTags
    ensures db.Valid()
    ensures r == WriteResult(1, 0)
    ensures db.postTags == old(db.postTags) + [PostTag(postId, tagId)]
  {
    db.postTags := db.postTags + [PostTag(postId, tagId)];
    r := WriteResult(1, 0);
  }

  /** `DELETE FROM posts WHERE id = ?` */
  method DeletePostQuery(db: Db.Store, postId: int) returns (r: WriteResult)
    requires db.Valid()
    modifies db`posts
    ensures db.Valid()
    ensures db.posts == PostsWithout(old(db.posts), postId)
    ensures r == WriteResult(|PostsWithId(old(db.posts), postId)|, 0)
  {
    var remaining := PostsWithout(db.posts, postId);
    PostsWithoutUnique(db.posts, postId);
    r := WriteResult(|db.posts| - |remaining|, 0);
    db.posts := remaining;
  }

  /** `DELETE FROM post_tags WHERE post_id = ?` */
  method DeletePostTagsQuery(db: Db.Store, postId: int) returns (r: WriteResult)
    requires db.Valid()
    modifies db`postTags
    ensures db.Valid()
    ensures db.postTags == PostTagsWithout(old(db.postTags), postId)
    ensures r == WriteResult(|TagIdsOf(old(db.postTags), postId)|, 0)
  {
    var remaining := PostTagsWithout(db.postTags, postId);
    r := WriteResult(|db.postTags| - |remaining|, 0);
    db.postTags := remaining;
  }

  /** `UPDATE posts SET title = ?, content = ? WHERE id = ?`. The caller's
      `userId` is passed along but never written. */
  method UpdatePostQuery(db: Db.Store, postId: int, title: string, content: string, userId: int)
    returns (r: WriteResult)
    requires db.Valid()
    modifies db`posts
    ensures db.Valid()
    ensures db.posts == Retitled(old(db.posts), postId, title, content)
    ensures r == WriteResult(|PostsWithId(old(db.posts), postId)|, 0)
  {
    var matched := PostsWithId(db.posts, postId);
    db.posts := Retitled(db.posts, postId, title, content);
    r := WriteResult(|matched|, 0);
  }

  // ---------------------------------------------------------------- lemmas

  /** Once a post is deleted, looking it up by id finds nothing. */
  lemma DeletedPostNotFound(t: Tables, postId: int)
    ensures GetPostByIdQuery(t.(posts := PostsWithout(t.posts, postId)), postId).None?
  {
  }

  /** A freshly inserted post with an existing owner is what a lookup by its id returns. */
  lemma {:induction false} CreatedPostFound(t: Tables, p: Post)
    requires p.id !in PostIds(t.posts)
    requires Owned(t, p)
    ensures GetPostByIdQuery(t.(posts := t.posts + [p]), p.id) == Some(View(t, p))
  {
    var after := t.(posts := t.posts + [p]);
    PostsWithIdAbsent(t.posts, p.id);
    PostsWithIdAppend(t.posts, [p], p.id);
    assert PostsWithId([p], p.id) == [p] by {
      assert [p][1..] == [];
    }
    assert PostsWithId(after.posts, p.id) == [p];
    assert JoinedViews(after, [p]) == [View(after, p)] by {
      assert [p][1..] == [];
    }
  }

  lemma {:induction false} PostsWithIdAbsent(posts: seq<Post>, postId: int)
    requires postId !in PostIds(posts)
    ensures PostsWithId(posts, postId) == []
  {
    if posts != [] {
      assert posts[0].id in PostIds(posts);
      assert PostIds(posts[1..]) <= PostIds(posts) by {
        forall q | q in posts[1..] ensures q in posts {
        }
      }
      PostsWithIdAbsent(posts[1..], postId);
    }
  }

  lemma {:induction false} PostsWithIdAppend(a: seq<Post>, b: seq<Post>, postId: int)
    ensures PostsWithId(a + b, postId) == PostsWithId(a, postId) + PostsWithId(b, postId)
  {
    if a == [] {
      assert a + b == b;
    } else {
      var head := if a[0].id == postId then [a[0]] else [];
      assert (a + b)[0] == a[0] && (a + b)[1..] == a[1..] + b;
      calc {
        PostsWithId(a + b, postId);
        head + PostsWithId(a[1..] + b, postId);
        { PostsWithIdAppend(a[1..], b, postId); }
        head + (PostsWithId(a[1..], postId) + PostsWithId(b, postId));
        (head + PostsWithId(a[1..], postId)) + PostsWithId(b, postId);
      }
    }
  }
}
