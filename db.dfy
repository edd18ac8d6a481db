/** The MySQL pool of `src/config/db.config.js` and the transaction helper of
    `src/utils/db.utils.js`, modelled as one in-memory store. */
module Db {
  import opened Common
  import opened Schema

  class Store {
    var users: seq<User>
    var posts: seq<Post>
    var tags: seq<Tag>
    var postTags: seq<PostTag>
    /** The AUTO_INCREMENT counters of `users` and `posts`; a rollback does not reset them. */
    var nextUserId: int
    var nextPostId: int
    /** The rows as they were at `beginTransaction`, while a transaction is open. */
    var snapshot: Option<Tables>
    /** How many pooled connections have been taken and given back. */
    var acquired: nat
    var released: nat

    function Rows(): Tables
      reads this
    {
      Tables(users, posts, tags, postTags)
    }

    ghost predicate Valid()
      reads this
    {
      && WellFormed(Rows(), nextUserId, nextPostId)
      && (snapshot.Some? ==> WellFormed(snapshot.value, nextUserId, nextPostId))
      && acquired == released + (if snapshot.Some? then 1 else 0)
    }

    /** A store whose only rows are the given tags. */
    constructor (initialTags: seq<Tag>)
      requires UniqueTagIds(initialTags)
      ensures Valid()
      ensures Rows() == Tables([], [], initialTags, [])
      ensures nextUserId == 1 && nextPostId == 1
      ensures NoDanglingPostTags(Rows())
      ensures snapshot.None? && acquired == 0 && released == 0
    {
      users, posts, tags, postTags := [], [], initialTags, [];
      nextUserId, nextPostId := 1, 1;
      snapshot := None;
      acquired, released := 0, 0;
    }

    /** `db.getConnection()` then `connection.beginTransaction()`. */
    method TransactionBegin()
      requires Valid() && snapshot.None?
      modifies this`snapshot, this`acquired
      ensures Valid()
      ensures snapshot == Some(Rows())
      ensures acquired == old(acquired) + 1
    {
      acquired := acquired + 1;
      snapshot := Some(Rows());
    }

    /** The end of `runWithTransaction` once the callback has run: `commit` when
        it completed (`failure` is None), otherwise `rollback` and rethrow the
        same error; the connection is released on both paths. */
    method TransactionEnd(failure: Option<Failure>) returns (rethrown: Option<Failure>)
      requires Valid() && snapshot.Some?
      modifies this`users, this`posts, this`tags, this`postTags, this`snapshot, this`released
      ensures Valid() && snapshot.None?
      ensures released == old(released) + 1
      ensures rethrown == failure
      ensures failure.None? ==> Rows() == old(Rows())
      ensures failure.Some? ==> Rows() == old(snapshot.value)
    {
      if failure.Some? {
        var saved := snapshot.value;
        users, posts, tags, postTags := saved.users, saved.posts, saved.tags, saved.postTags;
      }
      snapshot := None;
      released := released + 1;
      rethrown := failure;
    }
  }
}
