/** The User documents that the registration handler creates and that login
    and the authentication middleware look up. The User schema itself lives
    in `server/models/user.js`, which is not part of this model; the fields
    here are the ones the handlers write. A collection is kept in its
    natural (insertion) order, and a lookup returns the first match. */
module UserModel {
  import opened Text
  import opened Bcrypt
  import opened Jwt

  datatype User = User(id: ObjectId, name: string, email: string, password: PasswordHash)

  /** `User.findOne({ email })`: the first user whose email is exactly
      `email` (case-sensitive), or None. */
  function FindByEmail(users: seq<User>, email: string): (r: Option<User>)
    ensures r.None? <==> forall i :: 0 <= i < |users| ==> users[i].email != email
    ensures r.Some? ==> exists i ::
      (0 <= i < |users| && users[i] == r.value && r.value.email == email &&
       forall j :: 0 <= j < i ==> users[j].email != email)
  {
    if users == [] then None
    else if users[0].email == email then Some(users[0])
    else
      var r := FindByEmail(users[1..], email);
      assert r.Some? ==> exists i ::
        (0 <= i < |users| && users[i] == r.value &&
         forall j :: 0 <= j < i ==> users[j].email != email) by {
        if r.Some? {
          var i :| 0 <= i < |users| - 1 && users[1..][i] == r.value
            && forall j :: 0 <= j < i ==> users[1..][j].email != email;
          assert users[i + 1] == r.value;
          forall j | 0 <= j < i + 1 ensures users[j].email != email {
            if j > 0 { assert users[j] == users[1..][j - 1]; }
          }
        }
      }
      r
  }

  /** `User.findById(id)`: the first user whose `_id` is `id`, or None. */
  function FindById(users: seq<User>, id: ObjectId): (r: Option<User>)
    ensures r.None? <==> forall i :: 0 <= i < |users| ==> users[i].id != id
    ensures r.Some? ==> r.value in users && r.value.id == id
  {
    if users == [] then None
    else if users[0].id == id then Some(users[0])
    else FindById(users[1..], id)
  }

  /** No two users share an email: registration refuses a second one. */
  ghost predicate EmailsUnique(users: seq<User>) {
    forall i, j :: 0 <= i < j < |users| ==> users[i].email != users[j].email
  }

  /** No two users share an `_id`: the collection's primary key. */
  ghost predicate IdsUnique(users: seq<User>) {
    forall i, j :: 0 <= i < j < |users| ==> users[i].id != users[j].id
  }

  /** With unique emails, looking a user up by email finds that user. */
  lemma {:induction false} FindByOwnEmail(users: seq<User>, u: User)
    requires EmailsUnique(users)
    requires u in users
    ensures FindByEmail(users, u.email) == Some(u)
  {
    var k :| 0 <= k < |users| && users[k] == u;
    var r := FindByEmail(users, u.email);
    var i :| 0 <= i < |users| && users[i] == r.value
      && r.value.email == u.email && forall j :: 0 <= j < i ==> users[j].email != u.email;
    if i < k {
      assert users[i].email == users[k].email;
    }
  }

  /** With unique ids, looking a user up by id finds that user. */
  lemma {:induction false} FindByOwnId(users: seq<User>, u: User)
    requires IdsUnique(users)
    requires u in users
    ensures FindById(users, u.id) == Some(u)
  {
    if users[0] != u {
      assert u in users[1..];
      FindByOwnId(users[1..], u);
      assert users[0].id != u.id by {
        var k :| 0 <= k < |users| && users[k] == u;
        assert k != 0;
      }
    }
  }
}
