/** The queries of `src/services/user.service.js` over the `users` table. */
module UserService {
  import opened Common
  import opened Schema
  import opened Crypto
  import Db

  /** Row `i` is the first row with that id. */
  predicate FirstWithId(users: seq<User>, i: int, userId: int)
  {
    0 <= i < |users| && users[i].id == userId && forall j :: 0 <= j < i ==> users[j].id != userId
  }

  /** Row `i` is the first row with that email. */
  predicate FirstWithEmail(users: seq<User>, i: int, email: string)
  {
    0 <= i < |users| && users[i].email == email && forall j :: 0 <= j < i ==> users[j].email != email
  }

  /** `SELECT * FROM users WHERE ID = ?` and `rows[0]`: the first user with
      that id, or nothing. */
  function GetUserQuery(users: seq<User>, userId: int): (r: Option<User>)
    ensures r.None? <==> forall u :: u in users ==> u.id != userId
    ensures r.Some? ==> r.value in users && r.value.id == userId
    ensures forall i :: FirstWithId(users, i, userId) ==> r == Some(users[i])
  {
    if users == [] then None
    else if users[0].id == userId then Some(users[0])
    else GetUserQuery(users[1..], userId)
  }

  /** `SELECT * FROM users WHERE email = ?` and `rows[0]`: the first user with
      that email, or nothing. */
  function GetUserByEmailQuery(users: seq<User>, email: string): (r: Option<User>)
    ensures r.None? <==> forall u :: u in users ==> u.email != email
    ensures r.Some? ==> r.value in users && r.value.email == email
    ensures forall i :: FirstWithEmail(users, i, email) ==> r == Some(users[i])
  {
    if users == [] then None
    else if users[0].email == email then Some(users[0])
    else GetUserByEmailQuery(users[1..], email)
  }

  /** `INSERT INTO users (username, email, password) VALUES (?, ?, ?)`: one new
      row under the next AUTO_INCREMENT id; existing rows are kept. */
  method CreateUserQuery(db: Db.Store, username: string, email: string, password: Digest)
    returns (r: WriteResult)
    requires db.Valid()
    modifies db`users, db`nextUserId
    ensures db.Valid()
    ensures r == WriteResult(1, old(db.nextUserId))
    ensures db.users == old(db.users) + [User(r.insertId, username, email, password)]
    ensures db.nextUserId == old(db.nextUserId) + 1
  {
    var user := User(db.nextUserId, username, email, password);
    db.users := db.users + [user];
    db.nextUserId := db.nextUserId + 1;
    r := WriteResult(1, user.id);
  }

  /** After a user row is appended, a lookup by its email finds a user with
      that email, and finds exactly the new row when no earlier row had it. */
  lemma {:induction false} CreatedUserFoundByEmail(users: seq<User>, u: User)
    ensures GetUserByEmailQuery(users + [u], u.email).Some?
    ensures GetUserByEmailQuery(users + [u], u.email).value.email == u.email
    ensures GetUserByEmailQuery(users, u.email).None? ==>
              GetUserByEmailQuery(users + [u], u.email) == Some(u)
  {
    var all := users + [u];
    assert all[|users|] == u;
    if GetUserByEmailQuery(users, u.email).None? {
      forall j | 0 <= j < |users| ensures all[j].email != u.email {
        assert all[j] == users[j];
      }
    }
  }
}
