/** The user accounts: sign-in by e-mail, sign-up, profile update and the
    session's current user. */
module Accounts {
  import opened Types
  import opened Text
  import opened Seqs

  /** The generated user id `user{n}`. */
  function UserId(n: nat): (r: string)
    ensures |r| > 4 && r[..4] == "user" && DecimalValue(r[4..]) == n
  {
    Prefixed("user", n)
  }

  function HasEmail(email: string): User -> bool { (u: User) => u.email == email }
  function HasUserId(id: string): User -> bool { (u: User) => u.id == id }

  /** The session's user: the first stored user whenever the session flag is set,
      whoever signed in. */
  function Current(users: seq<User>, loggedIn: bool): (r: Option<User>)
    ensures r.Some? <==> loggedIn && |users| > 0
    ensures r.Some? ==> r.value == users[0]
  {
    if loggedIn && |users| > 0 then Some(users[0]) else None
  }

  /** Sign-in: the first user with that e-mail (the password is ignored). */
  function Login(users: seq<User>, email: string): (r: Result<User>)
    ensures r.Err? <==> FindIndex(users, HasEmail(email)) == -1
    ensures r.Err? ==> r.error == InvalidCredentials
    ensures r.Ok? ==>
      var k := FindIndex(users, HasEmail(email));
      && 0 <= k < |users| && r.value == users[k] && r.value.email == email
      && (forall j :: 0 <= j < k ==> users[j].email != email)
  {
    match Find(users, HasEmail(email))
    case None => Err(InvalidCredentials)
    case Some(u) => Ok(u)
  }

  /** Sign-up always succeeds and appends a user numbered after the current count. */
  function SignUp(users: seq<User>, email: string, username: string): (st: Step<User, User>)
    ensures st.result.Ok?
    ensures st.after == users + [st.result.value]
    ensures st.result.value.id == UserId(|users| + 1)
    ensures st.result.value.email == email && st.result.value.username == username
    ensures st.result.value.avatarUrl.None?
  {
    var u := User(UserId(|users| + 1), email, username, None);
    Step(Ok(u), users + [u])
  }

  /** Profile update: the first user with that id is overridden with the patch. */
  function UpdateProfile(users: seq<User>, id: string, patch: UserPatch): (st: Step<User, User>)
    ensures st.result.Err? <==> FindIndex(users, HasUserId(id)) == -1
    ensures st.result.Err? ==> st.result.error == UserNotFound && st.after == users
    ensures st.result.Ok? ==>
      var k := FindIndex(users, HasUserId(id));
      && 0 <= k < |users| && users[k].id == id
      && (forall j :: 0 <= j < k ==> users[j].id != id)
      && |st.after| == |users|
      && st.after[k] == MergeUser(users[k], patch)
      && st.result.value == st.after[k]
      && (forall j :: 0 <= j < |users| && j != k ==> st.after[j] == users[j])
  {
    var k := FindIndex(users, HasUserId(id));
    if k == -1 then Step(Err(UserNotFound), users)
    else
      var u := MergeUser(users[k], patch);
      Step(Ok(u), users[k := u])
  }

  /** A profile update is idempotent when the patch leaves the id alone, and an
      empty patch leaves the users as they were. */
  lemma UpdateProfileIdempotent(users: seq<User>, id: string, patch: UserPatch)
    requires patch.id.None? || patch.id == Some(id)
    ensures var once := UpdateProfile(users, id, patch).after;
      UpdateProfile(once, id, patch) == Step(UpdateProfile(users, id, patch).result, once)
    ensures UpdateProfile(users, id, NoUserChange).after == users
  {
    var once := UpdateProfile(users, id, patch).after;
    FindIndexAgrees(users, once, HasUserId(id));
  }

  /** After signing up, signing in with the same e-mail finds the new user only if
      no earlier user has that e-mail; otherwise it finds the earlier one. */
  lemma SignUpThenLogin(users: seq<User>, email: string, username: string)
    ensures var st := SignUp(users, email, username);
      Login(st.after, email) == if Login(users, email).Ok? then Login(users, email) else st.result
  {
    var st := SignUp(users, email, username);
    FindIndexAppend(users, st.result.value, HasEmail(email));
  }

  /** Generated user ids are equal exactly when the numbers are. */
  lemma UserIdInjective(a: nat, b: nat)
    ensures UserId(a) == UserId(b) <==> a == b
  {
    PrefixedInjective("user", a, b);
  }

  /** After a sign-up the session reports the first stored user, which is the
      newcomer only when there was nobody before. */
  lemma SignUpSessionUser(users: seq<User>, email: string, username: string)
    ensures var st := SignUp(users, email, username);
      Current(st.after, true) == Some(if |users| > 0 then users[0] else st.result.value)
  {
  }
}
