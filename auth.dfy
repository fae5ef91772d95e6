/**
 * The credential store and session slot of
 * server/src/Controllers/AuthController.php, with the `users` table held in
 * memory. `password_hash` and `password_verify` are foreign code; they are
 * given to the controller as two opaque functions.
 */
module Auth {
  import opened Wrappers
  import opened Json
  import opened Records
  import opened PhpSession

  /** Some row already holds this username. */
  predicate Taken(users: seq<User>, name: Value)
  {
    exists i :: 0 <= i < |users| && users[i].username == name
  }

  /**
   * The INSERT of `register` goes through: the username is not null and the
   * unique constraint on `username` holds.
   */
  predicate Insertable(users: seq<User>, name: Value)
  {
    name != Null && !Taken(users, name)
  }

  ghost predicate UniqueNames(users: seq<User>)
  {
    forall i, j :: 0 <= i < j < |users| ==> users[i].username != users[j].username
  }

  ghost predicate UniqueIds(users: seq<User>)
  {
    forall i, j :: 0 <= i < j < |users| ==> users[i].id != users[j].id
  }

  /**
   * `SELECT * FROM users WHERE username = ?` followed by one `fetch`: the
   * first row with that name. A null name matches no row.
   */
  function FindByName(users: seq<User>, name: Value): (r: Option<User>)
    ensures r.Some? ==> r.value in users && r.value.username == name && name != Null
    ensures r.None? ==> name == Null || !Taken(users, name)
  {
    if name == Null || users == [] then None
    else if users[0].username == name then Some(users[0])
    else
      var r := FindByName(users[1..], name);
      assert Taken(users, name) ==> Taken(users[1..], name) by {
        if Taken(users, name) {
          var i :| 0 <= i < |users| && users[i].username == name;
          assert users[1..][i - 1] == users[i];
        }
      }
      r
  }

  /** `SELECT id, username FROM users WHERE id = ?` followed by one `fetch`. */
  function FindById(users: seq<User>, id: int): (r: Option<User>)
    ensures r.Some? ==> r.value in users && r.value.id == id
    ensures r.None? ==> forall u :: u in users ==> u.id != id
  {
    if users == [] then None
    else if users[0].id == id then Some(users[0])
    else FindById(users[1..], id)
  }

  /**
   * The test in `login`: the user id when a row with that username exists and
   * the password verifies against its stored hash, otherwise nothing.
   */
  function Authenticate(users: seq<User>, name: Value, password: Value, verify: (Value, string) -> bool): (r: Option<int>)
    ensures r.Some? ==>
      && name != Null
      && exists u :: u in users && u.username == name && u.id == r.value && verify(password, u.passwordHash)
    ensures r.None? ==>
      || name == Null
      || !Taken(users, name)
      || exists u :: u in users && u.username == name && !verify(password, u.passwordHash)
  {
    match FindByName(users, name)
    case Some(u) => if verify(password, u.passwordHash) then Some(u.id) else None
    case None => None
  }

  /** With unique usernames, `login` accepts exactly the stored user whose hash verifies. */
  lemma AuthenticateIff(users: seq<User>, name: Value, password: Value, verify: (Value, string) -> bool, id: int)
    requires UniqueNames(users)
    ensures Authenticate(users, name, password, verify) == Some(id) <==>
      exists i :: 0 <= i < |users| && users[i].username == name && name != Null
               && verify(password, users[i].passwordHash) && users[i].id == id
  {
    var found := FindByName(users, name);
    if found.Some? {
      var k :| 0 <= k < |users| && users[k] == found.value;
      forall i | 0 <= i < |users| && users[i].username == name
        ensures i == k
      {
      }
    }
  }

  /** A name that no earlier row holds is found in the row appended for it. */
  lemma {:induction false} FindAppended(users: seq<User>, u: User)
    requires Insertable(users, u.username)
    ensures FindByName(users + [u], u.username) == Some(u)
  {
    if users != [] {
      assert (users + [u])[1..] == users[1..] + [u];
      assert users[0].username != u.username;
      FindAppended(users[1..], u);
    }
  }

  /**
   * Registering a fresh username and then logging in with the same password
   * succeeds and yields the new user's id, given only that `verify` accepts
   * every password against its own hash.
   */
  lemma RegisterThenLogin(users: seq<User>, id: int, name: Value, password: Value,
                          hash: Value -> string, verify: (Value, string) -> bool)
    requires forall q :: verify(q, hash(q))
    requires Insertable(users, name)
    ensures Authenticate(users + [User(id, name, hash(password))], name, password, verify) == Some(id)
    ensures !Insertable(users + [User(id, name, hash(password))], name)
  {
    FindAppended(users, User(id, name, hash(password)));
    assert (users + [User(id, name, hash(password))])[|users|].username == name;
  }

  class AuthController {
    var users: seq<User>
    var nextUserId: int
    const session: Session
    /** `password_hash($password, PASSWORD_DEFAULT)` */
    const hash: Value -> string
    /** `password_verify($password, $hash)` */
    const verify: (Value, string) -> bool

    /** Usernames are unique; ids are unique and below the auto-increment counter. */
    ghost predicate Valid()
      reads this
    {
      && nextUserId >= 1
      && UniqueNames(users)
      && UniqueIds(users)
      && forall i :: 0 <= i < |users| ==> users[i].id < nextUserId
    }

    constructor (s: Session, hash: Value -> string, verify: (Value, string) -> bool)
      ensures Valid() && users == [] && nextUserId == 1
      ensures session == s && this.hash == hash && this.verify == verify
    {
      users := [];
      nextUserId := 1;
      session := s;
      this.hash := hash;
      this.verify := verify;
    }

    /**
     * `getCurrentUserInfo`: nothing when the session slot is empty; otherwise
     * the id and username of the user with that id, if there is one.
     */
    function GetCurrentUserInfo(): (r: Option<UserInfo>)
      reads this, session
      ensures session.userId.None? ==> r.None?
      ensures r.Some? ==> exists u :: u in users && u.id == session.userId.value && r.value == UserInfo(u.id, u.username)
      ensures session.userId.Some? && (exists u :: u in users && u.id == session.userId.value) ==> r.Some?
    {
      match session.userId
      case None => None
      case Some(id) =>
        match FindById(users, id)
        case Some(u) => Some(UserInfo(u.id, u.username))
        case None => None
    }

    /**
     * `register`: stores the username with the hash of the password and
     * answers success, or answers "Username already exists" and leaves the
     * table as it was when the INSERT fails.
     */
    method Register(username: Value, password: Value) returns (r: Envelope)
      requires Valid()
      modifies this
      ensures Valid()
      ensures Insertable(old(users), username) ==>
        && r == Success
        && users == old(users) + [User(old(nextUserId), username, hash(password))]
        && nextUserId == old(nextUserId) + 1
      ensures !Insertable(old(users), username) ==>
        r == Failure("Username already exists") && users == old(users) && nextUserId == old(nextUserId)
    {
      var digest := hash(password);
      if !Insertable(users, username) {
        return Failure("Username already exists");
      }
      users := users + [User(nextUserId, username, digest)];
      nextUserId := nextUserId + 1;
      r := Success;
    }

    /**
     * `login`: on a known username whose hash verifies, the session slot
     * becomes that user's id; otherwise one "Invalid credentials" answer for
     * both causes, and the slot is left as it was.
     */
    method Login(username: Value, password: Value) returns (r: Envelope)
      requires Valid()
      modifies session
      ensures Authenticate(users, username, password, verify).Some? ==>
        r == Success && session.userId == Authenticate(users, username, password, verify)
      ensures Authenticate(users, username, password, verify).None? ==>
        r == Failure("Invalid credentials") && session.userId == old(session.userId)
    {
      var user := FindByName(users, username);
      if user.Some? && verify(password, user.value.passwordHash) {
        session.userId := Some(user.value.id);
        return Success;
      }
      r := Failure("Invalid credentials");
    }

    /** `logout`: always success, and the session slot is empty afterwards. */
    method Logout() returns (r: Envelope)
      modifies session
      ensures r == Success && session.userId == None && GetCurrentUserId() == None
      ensures GetCurrentUserInfo() == None
    {
      session.userId := None;
      r := Success;
    }

    /** `getCurrentUserId`: the session slot, null when no user is logged in. */
    function GetCurrentUserId(): (r: Option<int>)
      reads session
      ensures r.Some? <==> session.userId.Some?
      ensures r.Some? ==> r.value == session.userId.value
    {
      session.userId
    }
  }
}
