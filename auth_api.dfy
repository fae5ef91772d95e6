/**
 * The auth endpoint public/auth.php: a POST body's `action` picks at most
 * one call on the auth controller, whose answer is echoed as it is; `me`
 * shapes the current user into an envelope.
 */
module AuthApi {
  import opened Wrappers
  import opened Json
  import opened Records
  import opened PhpSession
  import opened Auth

  /** The one controller call a request makes, or the envelope it answers with instead. */
  datatype Route =
    | CallRegister(username: Value, password: Value)
    | CallLogin(username: Value, password: Value)
    | CallLogout
    | CallMe
    | Answer(reply: Envelope)

  const Refusal: Envelope := Failure("Unsupported method or missing action")

  /** The action a POST body names, when it is one of the four the endpoint knows. */
  predicate KnownAction(body: Payload)
  {
    Isset(body, "action")
    && body["action"] in {Str("register"), Str("login"), Str("logout"), Str("me")}
  }

  /**
   * The chain of `if`s on `$payload['action']` (compared with `===`); the
   * credentials are read as `$payload['username']` and `$payload['password']`,
   * which are null when absent.
   */
  function Dispatch(verb: string, body: Payload): (r: Route)
    ensures verb == "POST" && Isset(body, "action") && body["action"] == Str("register") ==>
      r == CallRegister(Field(body, "username"), Field(body, "password"))
    ensures verb == "POST" && Isset(body, "action") && body["action"] == Str("login") ==>
      r == CallLogin(Field(body, "username"), Field(body, "password"))
    ensures r.CallLogout? <==> verb == "POST" && Isset(body, "action") && body["action"] == Str("logout")
    ensures r.CallMe? <==> verb == "POST" && Isset(body, "action") && body["action"] == Str("me")
    ensures r.Answer? ==> r.reply == Refusal
  {
    if verb == "POST" && Isset(body, "action") then
      if body["action"] == Str("register") then CallRegister(Field(body, "username"), Field(body, "password"))
      else if body["action"] == Str("login") then CallLogin(Field(body, "username"), Field(body, "password"))
      else if body["action"] == Str("logout") then CallLogout
      else if body["action"] == Str("me") then CallMe
      else Answer(Refusal)
    else Answer(Refusal)
  }

  /**
   * A request is refused exactly when it is not a POST, has no action, or
   * names an action other than register, login, logout and me.
   */
  lemma RefusedIff(verb: string, body: Payload)
    ensures Dispatch(verb, body).Answer? <==> !(verb == "POST" && KnownAction(body))
  {
  }

  /** The `me` envelope: `{success: true, user: info}` or a bare `{success: false}`. */
  function MeReply(info: Option<UserInfo>): (r: Envelope)
    ensures r.success <==> info.Some?
    ensures r.user == info && r.message.None? && r.data.None?
  {
    match info
    case Some(u) => Envelope(true, None, None, Some(u))
    case None => Envelope(false, None, None, None)
  }

  /** One request to public/auth.php. */
  method Serve(ctrl: AuthController, verb: string, body: Payload) returns (r: Envelope)
    requires ctrl.Valid()
    modifies ctrl, ctrl.session
    ensures ctrl.Valid()
    ensures !Dispatch(verb, body).CallRegister? ==> ctrl.nextUserId == old(ctrl.nextUserId)
    ensures Dispatch(verb, body).Answer? ==>
      r == Refusal && ctrl.users == old(ctrl.users) && ctrl.session.userId == old(ctrl.session.userId)
    ensures Dispatch(verb, body).CallRegister? ==>
      var u := Field(body, "username");
      && (r == Success <==> Insertable(old(ctrl.users), u))
      && (r == Success ==>
            && ctrl.users == old(ctrl.users) + [User(old(ctrl.nextUserId), u, ctrl.hash(Field(body, "password")))]
            && ctrl.nextUserId == old(ctrl.nextUserId) + 1)
      && (r != Success ==>
            && r == Failure("Username already exists")
            && ctrl.users == old(ctrl.users)
            && ctrl.nextUserId == old(ctrl.nextUserId))
      && ctrl.session.userId == old(ctrl.session.userId)
    ensures Dispatch(verb, body).CallLogin? ==>
      var a := Authenticate(ctrl.users, Field(body, "username"), Field(body, "password"), ctrl.verify);
      && ctrl.users == old(ctrl.users)
      && (a.Some? ==> r == Success && ctrl.session.userId == a)
      && (a.None? ==> r == Failure("Invalid credentials") && ctrl.session.userId == old(ctrl.session.userId))
    ensures Dispatch(verb, body).CallLogout? ==>
      r == Success && ctrl.session.userId == None && ctrl.users == old(ctrl.users)
    ensures Dispatch(verb, body).CallMe? ==>
      r == MeReply(ctrl.GetCurrentUserInfo()) && ctrl.users == old(ctrl.users)
      && ctrl.session.userId == old(ctrl.session.userId)
  {
    match Dispatch(verb, body)
    case CallRegister(u, p) =>
      r := ctrl.Register(u, p);
    case CallLogin(u, p) =>
      r := ctrl.Login(u, p);
    case CallLogout =>
      r := ctrl.Logout();
    case CallMe =>
      r := MeReply(ctrl.GetCurrentUserInfo());
    case Answer(reply) =>
      r := reply;
  }

  /** The password "hash" of the walk-through below: the text itself. */
  function KeepText(q: Value): string
  {
    if q.Str? then q.s else ""
  }

  /** Its `verify`: the password's text equals the stored one. */
  function SameText(q: Value, h: string): bool
  {
    KeepText(q) == h
  }

  /** The controller's state once alice has registered. */
  ghost predicate AliceOnly(ctrl: AuthController)
    reads ctrl
  {
    ctrl.Valid() && ctrl.users == [User(1, Str("alice"), "secret123")] && ctrl.verify == SameText
  }

  /** Against the one stored row, only the right password signs in. */
  lemma CredentialsChecked()
    ensures Authenticate([User(1, Str("alice"), "secret123")], Str("alice"), Str("wrongpass"), SameText) == None
    ensures Authenticate([User(1, Str("alice"), "secret123")], Str("alice"), Str("secret123"), SameText) == Some(1)
  {
    assert FindByName([User(1, Str("alice"), "secret123")], Str("alice")) == Some(User(1, Str("alice"), "secret123"));
    assert KeepText(Str("wrongpass")) != "secret123";
  }

  /** Registering alice on an empty table stores her with id 1 and the kept password. */
  method SignUp(ctrl: AuthController) returns (r: Envelope)
    requires ctrl.Valid() && ctrl.users == [] && ctrl.nextUserId == 1
    requires ctrl.hash == KeepText && ctrl.verify == SameText
    modifies ctrl, ctrl.session
    ensures r == Success && AliceOnly(ctrl)
  {
    var join: Payload := map["action" := Str("register"), "username" := Str("alice"), "password" := Str("secret123")];
    assert Field(join, "username") == Str("alice") && Field(join, "password") == Str("secret123");
    assert Dispatch("POST", join) == CallRegister(Str("alice"), Str("secret123"));
    assert Insertable([], Str("alice"));
    r := Serve(ctrl, "POST", join);
  }

  /** A wrong password is refused; the right one signs alice in. */
  method SignIn(ctrl: AuthController) returns (wrong: Envelope, right: Envelope)
    requires AliceOnly(ctrl)
    modifies ctrl, ctrl.session
    ensures wrong == Failure("Invalid credentials") && right == Success
    ensures AliceOnly(ctrl) && ctrl.session.userId == Some(1)
  {
    CredentialsChecked();
    var guess: Payload := map["action" := Str("login"), "username" := Str("alice"), "password" := Str("wrongpass")];
    assert Field(guess, "username") == Str("alice") && Field(guess, "password") == Str("wrongpass");
    assert Dispatch("POST", guess) == CallLogin(Str("alice"), Str("wrongpass"));
    wrong := Serve(ctrl, "POST", guess);
    var login: Payload := map["action" := Str("login"), "username" := Str("alice"), "password" := Str("secret123")];
    assert Field(login, "username") == Str("alice") && Field(login, "password") == Str("secret123");
    assert Dispatch("POST", login) == CallLogin(Str("alice"), Str("secret123"));
    right := Serve(ctrl, "POST", login);
  }

  /** `me` for the signed-in alice. */
  method AskMe(ctrl: AuthController) returns (me: Envelope)
    requires AliceOnly(ctrl) && ctrl.session.userId == Some(1)
    modifies ctrl, ctrl.session
    ensures me == Envelope(true, None, None, Some(UserInfo(1, Str("alice"))))
  {
    assert FindById(ctrl.users, 1) == Some(User(1, Str("alice"), "secret123"));
    var ask: Payload := map["action" := Str("me")];
    assert Dispatch("POST", ask) == CallMe;
    me := Serve(ctrl, "POST", ask);
  }

  /**
   * The walk-through of registering, a wrong and a right password, and `me`,
   * with a hash that keeps the password and an exact comparison as `verify`.
   */
  method RegisterLoginMe() returns (registered: Envelope, wrong: Envelope, right: Envelope, me: Envelope)
    ensures registered == Success
    ensures wrong == Failure("Invalid credentials")
    ensures right == Success
    ensures me == Envelope(true, None, None, Some(UserInfo(1, Str("alice"))))
  {
    var session := new Session();
    var ctrl := new AuthController(session, KeepText, SameText);
    registered := SignUp(ctrl);
    wrong, right := SignIn(ctrl);
    me := AskMe(ctrl);
  }
}
