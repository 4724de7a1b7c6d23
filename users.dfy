/**
 * The user side of server/routes/userRoutes.js: the stored user, the
 * field-merge rules of `PUT /profile`, and the admin/non-admin split that the
 * `/admin` dashboard counts.
 */
module Users {
  import opened Base

  /** A stored user; `password` holds the bcrypt hash, never the password itself. */
  datatype User = User(id: UserId, name: string, email: string, password: string, isAdmin: bool)

  /**
   * The profile request: each field is the empty string when missing. A missing
   * or empty name or email keeps the stored one; the password is replaced by
   * `hashed` (the bcrypt hash of the new password) only when one is supplied.
   */
  datatype ProfileRequest = ProfileRequest(name: string, email: string, password: string, hashed: string)

  /** `user.name = req.body.name || user.name` and its siblings. */
  function MergeProfile(u: User, req: ProfileRequest): (r: User)
    ensures r.id == u.id && r.isAdmin == u.isAdmin
    ensures req.name == "" ==> r.name == u.name
    ensures req.name != "" ==> r.name == req.name
    ensures req.email == "" ==> r.email == u.email
    ensures req.email != "" ==> r.email == req.email
    ensures req.password == "" ==> r.password == u.password
    ensures req.password != "" ==> r.password == req.hashed
  {
    u.(name := if req.name != "" then req.name else u.name,
       email := if req.email != "" then req.email else u.email,
       password := if req.password != "" then req.hashed else u.password)
  }

  /**
   * An empty request leaves the user as it was. Repeating a request without a
   * password changes nothing more; repeating one with a password keeps the
   * name and email but stores the new hash, since every request salts afresh.
   */
  lemma MergeProfileStable(u: User, req: ProfileRequest, rehashed: string)
    ensures MergeProfile(u, ProfileRequest("", "", "", req.hashed)) == u
    ensures req.password == "" ==> MergeProfile(MergeProfile(u, req), req) == MergeProfile(u, req)
    ensures req.password != "" ==>
      MergeProfile(MergeProfile(u, req), req.(hashed := rehashed)) == MergeProfile(u, req).(password := rehashed)
  {
  }

  /** The users with `isAdmin` equal to `admin`. */
  function WithRole(users: map<UserId, User>, admin: bool): (r: set<UserId>)
    ensures forall id :: id in r <==> id in users && users[id].isAdmin == admin
  {
    set id | id in users && users[id].isAdmin == admin
  }

  /** Admins and non-admins split the users: `count_admin + count_user` is the number of users. */
  lemma RolesPartition(users: map<UserId, User>)
    ensures WithRole(users, true) !! WithRole(users, false)
    ensures |WithRole(users, true)| + |WithRole(users, false)| == |users|
  {
    var a, n := WithRole(users, true), WithRole(users, false);
    assert a + n == users.Keys;
    assert |a + n| == |a| + |n|;
  }
}
