/** The account store (the auth provider): the user list, seeded with an
    administrator when none exists, and a session that points at one user.
    New user ids and the clock are parameters. */
module Auth {
  import opened Seqs
  import opened Text
  import opened Records

  const ADMIN_NAME := "Campus Admin"
  const ADMIN_EMAIL := "admin@campus.edu"
  const ADMIN_PASSWORD := "admin123"

  const EMAIL_REQUIRED := "Email is required."
  const PASSWORD_TOO_SHORT := "Password must be at least 4 characters."
  const EMAIL_TAKEN := "An account with this email already exists."
  const INVALID_LOGIN := "Invalid email or password."
  const NOT_LOGGED_IN := "Not logged in."

  /** The stored session `{ userId }`; a missing session is None. */
  datatype Session = Session(userId: string)

  /** What signup, login and updateProfile report: `{ ok: true }` or
      `{ ok: false, error }`. */
  datatype Outcome = Ok | Failed(error: string)

  predicate HasAdmin(users: seq<User>) {
    exists i :: 0 <= i < |users| && users[i].role == ADMIN
  }

  /** ensureSeedUsers: a list that has an administrator is kept; otherwise
      the demo administrator is put in front of it. */
  function EnsureSeedUsers(users: seq<User>, adminId: string, now: int): (r: seq<User>)
    ensures HasAdmin(r)
    ensures HasAdmin(users) ==> r == users
    ensures !HasAdmin(users) ==>
      && |r| == |users| + 1 && r[1..] == users
      && r[0] == User(adminId, ADMIN_NAME, ADMIN_EMAIL, ADMIN_PASSWORD, ADMIN, "", now)
  {
    if HasAdmin(users) then users
    else
      var r := [User(adminId, ADMIN_NAME, ADMIN_EMAIL, ADMIN_PASSWORD, ADMIN, "", now)] + users;
      assert r[0].role == ADMIN;
      r
  }

  /** Seeding twice is seeding once, so the provider's mount-time re-seed
      never changes the already seeded list. */
  lemma EnsureSeedUsersIdempotent(users: seq<User>, adminId: string, adminId2: string, now: int, now2: int)
    ensures var once := EnsureSeedUsers(users, adminId, now);
            EnsureSeedUsers(once, adminId2, now2) == once
  {
  }

  /** The position of the first user with the id, |users| when none has it. */
  function IndexOfId(users: seq<User>, id: string): (k: nat)
    ensures k <= |users|
    ensures k < |users| ==> users[k].id == id
    ensures forall j :: 0 <= j < k ==> users[j].id != id
  {
    if users == [] then 0
    else if users[0].id == id then 0
    else 1 + IndexOfId(users[1..], id)
  }

  /** currentUser: none without a session or with an empty user id,
      otherwise the first user with the session's id, if there is one. */
  function CurrentUser(users: seq<User>, session: Option<Session>): (r: Option<User>)
    ensures r.Some? ==> session.Some? && r.value in users && r.value.id == session.value.userId
    ensures r.None? <==>
      || session.None?
      || session.value.userId == ""
      || forall i :: 0 <= i < |users| ==> users[i].id != session.value.userId
  {
    if session.None? || session.value.userId == "" then None
    else
      var k := IndexOfId(users, session.value.userId);
      if k < |users| then Some(users[k]) else None
  }

  /** `String(email || '').trim().toLowerCase()` */
  function NormalizeEmail(email: string): (r: string)
    ensures IsLower(r) && IsTrimmed(r)
    ensures r == [] <==> IsBlank(email)
  {
    var t := Trim(email);
    var r := ToLower(t);
    assert forall i :: 0 <= i < |t| ==> (IsSpace(r[i]) <==> IsSpace(t[i]));
    r
  }

  /** The position of the first user whose lower-cased email is `norm`. */
  function IndexOfEmail(users: seq<User>, norm: string): (k: nat)
    ensures k <= |users|
    ensures k < |users| ==> ToLower(users[k].email) == norm
    ensures forall j :: 0 <= j < k ==> ToLower(users[j].email) != norm
  {
    if users == [] then 0
    else if ToLower(users[0].email) == norm then 0
    else 1 + IndexOfEmail(users[1..], norm)
  }

  predicate EmailTaken(users: seq<User>, norm: string) {
    exists i :: 0 <= i < |users| && ToLower(users[i].email) == norm
  }

  /** Why signup refuses, checked in the source's order, or None when it
      accepts. */
  function SignupError(users: seq<User>, email: string, password: string): (r: Option<string>)
    ensures r == Some(EMAIL_REQUIRED) <==> IsBlank(email)
    ensures r == Some(PASSWORD_TOO_SHORT) <==> !IsBlank(email) && |password| < 4
    ensures r == Some(EMAIL_TAKEN) <==> !IsBlank(email) && |password| >= 4 && EmailTaken(users, NormalizeEmail(email))
    ensures r == None <==> !IsBlank(email) && |password| >= 4 && !EmailTaken(users, NormalizeEmail(email))
  {
    var norm := NormalizeEmail(email);
    if norm == [] then Some(EMAIL_REQUIRED)
    else if |password| < 4 then Some(PASSWORD_TOO_SHORT)
    else if IndexOfEmail(users, norm) < |users| then Some(EMAIL_TAKEN)
    else None
  }

  /** The account signup creates: normalized email, a blank name replaced
      by "Student", the student role and no phone. */
  function NewUser(name: string, email: string, password: string, id: string, now: int): (u: User)
    ensures u.id == id && u.createdAt == now && u.password == password
    ensures u.email == NormalizeEmail(email)
    ensures u.role == STUDENT && u.phone == ""
    ensures u.name == if IsBlank(name) then "Student" else Trim(name)
  {
    var n := Trim(name);
    User(id, if n == [] then "Student" else n, NormalizeEmail(email), password, STUDENT, "", now)
  }

  /** No two accounts share an email, ignoring case. */
  predicate EmailsDistinct(users: seq<User>) {
    forall i, j :: 0 <= i < j < |users| ==> ToLower(users[i].email) != ToLower(users[j].email)
  }

  /** Prepending an account whose email clashes with none keeps emails
      distinct. */
  lemma PrependKeepsEmailsDistinct(users: seq<User>, u: User)
    requires EmailsDistinct(users)
    requires forall j :: 0 <= j < |users| ==> ToLower(users[j].email) != ToLower(u.email)
    ensures EmailsDistinct([u] + users)
  {
    var r := [u] + users;
    assert forall j :: 1 <= j < |r| ==> r[j] == users[j - 1];
  }

  /** A successful signup keeps emails distinct: the new email is already
      lower case and no existing email matches it. */
  lemma SignupKeepsEmailsDistinct(users: seq<User>, name: string, email: string, password: string, id: string, now: int)
    requires EmailsDistinct(users)
    requires SignupError(users, email, password).None?
    ensures EmailsDistinct([NewUser(name, email, password, id, now)] + users)
  {
    var u := NewUser(name, email, password, id, now);
    var norm := NormalizeEmail(email);
    assert ToLower(u.email) == norm;
    assert !EmailTaken(users, norm);
    PrependKeepsEmailsDistinct(users, u);
  }

  /** The account a login matches: the first user with the normalized email,
      provided its password is exactly the one given. */
  function LoginMatch(users: seq<User>, email: string, password: string): (r: Option<User>)
    ensures r.Some? ==> r.value in users && r.value.password == password
                        && ToLower(r.value.email) == NormalizeEmail(email)
    ensures r.None? <==>
      var k := IndexOfEmail(users, NormalizeEmail(email));
      k == |users| || users[k].password != password
  {
    var k := IndexOfEmail(users, NormalizeEmail(email));
    if k < |users| && users[k].password == password then Some(users[k]) else None
  }

  /** With distinct emails, a login succeeds exactly when some account has
      the email and the password. */
  lemma LoginSucceedsIff(users: seq<User>, email: string, password: string)
    requires EmailsDistinct(users)
    ensures LoginMatch(users, email, password).Some? <==>
      exists i :: 0 <= i < |users| && ToLower(users[i].email) == NormalizeEmail(email) && users[i].password == password
  {
    var norm := NormalizeEmail(email);
    var k := IndexOfEmail(users, norm);
    if i :| 0 <= i < |users| && ToLower(users[i].email) == norm && users[i].password == password {
      assert k <= i;
      assert k == i;
    }
  }

  /** The profile update of one account: a blank name keeps the old name,
      the phone is trimmed. */
  function WithProfile(users: seq<User>, id: string, name: string, phone: string): (r: seq<User>)
    ensures |r| == |users|
    ensures forall i :: 0 <= i < |users| && users[i].id != id ==> r[i] == users[i]
    ensures forall i :: 0 <= i < |users| && users[i].id == id ==>
      && r[i].name == (if IsBlank(name) then users[i].name else Trim(name))
      && r[i].phone == Trim(phone)
      && r[i].(name := users[i].name, phone := users[i].phone) == users[i]
  {
    Map(users, (u: User) =>
      if u.id == id then
        var n := Trim(name);
        u.(name := if n == [] then u.name else n, phone := Trim(phone))
      else u)
  }

  /** A profile update never changes an email, so emails stay distinct. */
  lemma ProfileKeepsEmailsDistinct(users: seq<User>, id: string, name: string, phone: string)
    requires EmailsDistinct(users)
    ensures EmailsDistinct(WithProfile(users, id, name, phone))
  {
    var r := WithProfile(users, id, name, phone);
    assert forall i :: 0 <= i < |r| ==> r[i].email == users[i].email;
  }

  /** The provider's state. The effects that save `users` and `session`
      after each change are not modelled. */
  class AuthStore {
    var users: seq<User>
    var session: Option<Session>

    /** Initial state: the stored users seeded with an administrator. */
    constructor (storedUsers: seq<User>, storedSession: Option<Session>, adminId: string, now: int)
      ensures users == EnsureSeedUsers(storedUsers, adminId, now)
      ensures HasAdmin(users)
      ensures session == storedSession
    {
      users := EnsureSeedUsers(storedUsers, adminId, now);
      session := storedSession;
    }

    /** signup: on any refusal nothing changes; on success the new student
        is prepended and becomes the session's user. */
    method Signup(name: string, email: string, password: string, id: string, now: int) returns (res: Outcome)
      modifies this
      ensures SignupError(old(users), email, password).Some? ==>
        && res == Failed(SignupError(old(users), email, password).value)
        && users == old(users) && session == old(session)
      ensures SignupError(old(users), email, password).None? ==>
        && res == Ok
        && users == [NewUser(name, email, password, id, now)] + old(users)
        && session == Some(Session(id))
    {
      var error := SignupError(users, email, password);
      if error.Some? {
        return Failed(error.value);
      }
      users := [NewUser(name, email, password, id, now)] + users;
      session := Some(Session(id));
      res := Ok;
    }

    /** login: the session moves to the matched account, or stays as it was
        with one error for both an unknown email and a wrong password. */
    method Login(email: string, password: string) returns (res: Outcome)
      modifies this
      ensures users == old(users)
      ensures LoginMatch(users, email, password).Some? ==>
        res == Ok && session == Some(Session(LoginMatch(users, email, password).value.id))
      ensures LoginMatch(users, email, password).None? ==>
        res == Failed(INVALID_LOGIN) && session == old(session)
    {
      var m := LoginMatch(users, email, password);
      if m.None? {
        return Failed(INVALID_LOGIN);
      }
      session := Some(Session(m.value.id));
      res := Ok;
    }

    method Logout()
      modifies this
      ensures session == None && users == old(users)
    {
      session := None;
    }

    /** updateProfile: refused without a current user; otherwise only the
        current user's name and phone change. */
    method UpdateProfile(name: string, phone: string) returns (res: Outcome)
      modifies this
      ensures session == old(session)
      ensures CurrentUser(old(users), old(session)).None? ==>
        res == Failed(NOT_LOGGED_IN) && users == old(users)
      ensures CurrentUser(old(users), old(session)).Some? ==>
        res == Ok && users == WithProfile(old(users), CurrentUser(old(users), old(session)).value.id, name, phone)
    {
      var current := CurrentUser(users, session);
      if current.None? {
        return Failed(NOT_LOGGED_IN);
      }
      users := WithProfile(users, current.value.id, name, phone);
      res := Ok;
    }
  }
}
