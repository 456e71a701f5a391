/**
 * The auth controller: `login` checks that the user exists, then the
 * password, then signs a token; `register` as written always fails before
 * saving, and `RegisterCorrected` is the handler with that defect removed.
 */
module AuthController {
  import opened Common
  import opened Jwt

  /** A user document; `password` holds the stored hash, `None` once redacted (`undefined`). */
  datatype User = User(
    id: UserId,
    firstName: string,
    lastName: string,
    email: string,
    password: Option<string>,
    picturePath: string,
    friends: seq<UserId>,
    location: string,
    occupation: string,
    viewedProfile: int,
    impressions: int)

  /** `bcrypt.compare(password, hash)`: true, false, or a thrown error. */
  datatype CompareResult = Match | Mismatch | CompareThrew(message: string)

  type Comparer = (string, Option<string>) -> CompareResult

  /** `bcrypt.genSalt()` followed by `bcrypt.hash(password, salt)`. */
  datatype HashResult = Hashed(hash: string) | HashThrew(message: string)

  type Hasher = string -> HashResult

  /** The reply of `login`: `{ msg, token, data }`, or an error reply. */
  datatype LoginReply = LoggedIn(msg: string, token: string, data: User) | LoginFailed(reply: Reply)

  /** The profile fields of a registration request. */
  datatype RegisterBody = RegisterBody(
    firstName: string,
    lastName: string,
    email: string,
    password: string,
    picturePath: string,
    friends: seq<UserId>,
    location: string,
    occupation: string)

  /** The reply of `register`: `{ msg, data }` with status 201, or an error reply. */
  datatype RegisterReply = Created(msg: string, data: User) | RegisterFailed(reply: Reply)

  /** The TypeError raised by assigning to a `const` binding. */
  const ConstAssignmentMessage := "Assignment to constant variable."

  /** The error raised by the store's unique index on `email`. */
  const DuplicateEmailMessage := "E11000 duplicate key error"

  /** `User.findOne({ email })`. */
  function FindByEmail(users: seq<User>, email: string): (r: Option<nat>) {
    FirstMatch(users, (u: User) => u.email == email)
  }

  /** What `login` answers, given the stored users and the three library calls. */
  function LoginOutcome(users: seq<User>, email: string, password: string, secret: string, ttl: string,
                        compare: Comparer, sign: Signer): (r: LoginReply)
  {
    match FindByEmail(users, email)
    case None => LoginFailed(Reply(400, "User does not exist"))
    case Some(i) =>
      var user := users[i];
      match compare(password, user.password)
      case CompareThrew(m) => LoginFailed(Reply(500, m))
      case Mismatch => LoginFailed(Reply(400, "Invalid credentials"))
      case Match =>
        match sign(Payload(user.id), secret, ttl)
        case SignThrew(m) => LoginFailed(Reply(500, m))
        case Signed(token) => LoggedIn("Login successfully", token, user.(password := None))
  }

  // ---------------------------------------------------------------------------
  // Properties of login

  /** An unknown email is answered 400 before the password is compared or a token signed. */
  lemma LoginUnknownEmail(users: seq<User>, email: string, password: string, secret: string, ttl: string,
                          c1: Comparer, s1: Signer, c2: Comparer, s2: Signer)
    requires FindByEmail(users, email).None?
    ensures LoginOutcome(users, email, password, secret, ttl, c1, s1) == LoginFailed(Reply(400, "User does not exist"))
    ensures LoginOutcome(users, email, password, secret, ttl, c1, s1) == LoginOutcome(users, email, password, secret, ttl, c2, s2)
  {
  }

  /** A wrong password is answered 400 before any token is signed. */
  lemma LoginWrongPassword(users: seq<User>, email: string, password: string, secret: string, ttl: string,
                           compare: Comparer, s1: Signer, s2: Signer)
    requires FindByEmail(users, email).Some?
    requires compare(password, users[FindByEmail(users, email).value].password) == Mismatch
    ensures LoginOutcome(users, email, password, secret, ttl, compare, s1) == LoginFailed(Reply(400, "Invalid credentials"))
    ensures LoginOutcome(users, email, password, secret, ttl, compare, s1) == LoginOutcome(users, email, password, secret, ttl, compare, s2)
  {
  }

  /**
   * A token is handed out exactly when the user exists, the password
   * matches and signing succeeds, and it is the token signed for that
   * user's id with the configured secret and lifetime.
   */
  lemma LoginTokenIff(users: seq<User>, email: string, password: string, secret: string, ttl: string,
                      compare: Comparer, sign: Signer)
    ensures var r := LoginOutcome(users, email, password, secret, ttl, compare, sign);
      r.LoggedIn? <==>
        && FindByEmail(users, email).Some?
        && compare(password, users[FindByEmail(users, email).value].password) == Match
        && sign(Payload(users[FindByEmail(users, email).value].id), secret, ttl).Signed?
    ensures var r := LoginOutcome(users, email, password, secret, ttl, compare, sign);
      r.LoggedIn? ==>
        && r.msg == "Login successfully"
        && r.token == sign(Payload(users[FindByEmail(users, email).value].id), secret, ttl).token
  {
  }

  /** The user returned on success has the given email, no password, and every other field as stored. */
  lemma LoginRedactsPassword(users: seq<User>, email: string, password: string, secret: string, ttl: string,
                             compare: Comparer, sign: Signer)
    requires LoginOutcome(users, email, password, secret, ttl, compare, sign).LoggedIn?
    ensures var r := LoginOutcome(users, email, password, secret, ttl, compare, sign);
      && r.data.password == None
      && r.data.email == email
      && r.data.(password := users[FindByEmail(users, email).value].password) == users[FindByEmail(users, email).value]
  {
  }

  /** Status 500 arises exactly when a library call throws, and carries its message. */
  lemma LoginServerFaultIff(users: seq<User>, email: string, password: string, secret: string, ttl: string,
                            compare: Comparer, sign: Signer)
    ensures var r := LoginOutcome(users, email, password, secret, ttl, compare, sign);
      (r.LoginFailed? && r.reply.status == 500) <==>
        && FindByEmail(users, email).Some?
        && var user := users[FindByEmail(users, email).value];
           || compare(password, user.password).CompareThrew?
           || (compare(password, user.password) == Match && sign(Payload(user.id), secret, ttl).SignThrew?)
    ensures var r := LoginOutcome(users, email, password, secret, ttl, compare, sign);
      FindByEmail(users, email).Some? ==>
        var user := users[FindByEmail(users, email).value];
        && (compare(password, user.password).CompareThrew? ==>
              r == LoginFailed(Reply(500, compare(password, user.password).message)))
        && (compare(password, user.password) == Match && sign(Payload(user.id), secret, ttl).SignThrew? ==>
              r == LoginFailed(Reply(500, sign(Payload(user.id), secret, ttl).message)))
  {
  }

  /** A user appended with a fresh email is the one `findOne` returns for it. */
  lemma FindAppended(users: seq<User>, user: User)
    requires forall k :: 0 <= k < |users| ==> users[k].email != user.email
    ensures FindByEmail(users + [user], user.email) == Some(|users|)
  {
    assert (users + [user])[|users|].email == user.email;
  }

  /** After a corrected registration, logging in with a matching password returns the new user, redacted. */
  lemma LoginAfterRegister(users: seq<User>, user: User, password: string, secret: string, ttl: string,
                           compare: Comparer, sign: Signer)
    requires forall k :: 0 <= k < |users| ==> users[k].email != user.email
    requires compare(password, user.password) == Match
    requires sign(Payload(user.id), secret, ttl).Signed?
    ensures LoginOutcome(users + [user], user.email, password, secret, ttl, compare, sign)
         == LoggedIn("Login successfully", sign(Payload(user.id), secret, ttl).token, user.(password := None))
  {
    FindAppended(users, user);
    assert (users + [user])[|users|] == user;
  }

  // ---------------------------------------------------------------------------
  // The user store and the handlers

  /** The unique indexes on `email` and `_id`: no two stored users share either. */
  predicate UniqueUsers(users: seq<User>) {
    forall i, j :: 0 <= i < j < |users| ==> users[i].email != users[j].email && users[i].id != users[j].id
  }

  /** With unique emails, `findOne({ email })` finds the one stored user that has the email. */
  lemma FindByEmailUnique(users: seq<User>, email: string, k: nat)
    requires UniqueUsers(users)
    requires k < |users| && users[k].email == email
    ensures FindByEmail(users, email) == Some(k)
  {
    var r := FindByEmail(users, email);
    assert r.Some?;
    assert users[r.value].email == email;
  }

  class UserStore {
    var users: seq<User>

    ghost predicate Valid()
      reads this
    {
      UniqueUsers(users)
    }

    constructor (initial: seq<User>)
      requires UniqueUsers(initial)
      ensures Valid() && users == initial
    {
      users := initial;
    }

    /** `login`: the ordered checks, then `user.password = undefined` on the fetched copy. */
    method Login(email: string, password: string, secret: string, ttl: string,
                 compare: Comparer, sign: Signer) returns (reply: LoginReply)
      ensures reply == LoginOutcome(users, email, password, secret, ttl, compare, sign)
    {
      var found := FindByEmail(users, email);
      if found.None? {
        reply := LoginFailed(Reply(400, "User does not exist"));
        return;
      }
      var user := users[found.value];
      var isValidPassword := compare(password, user.password);
      if isValidPassword.CompareThrew? {
        reply := LoginFailed(Reply(500, isValidPassword.message));
        return;
      }
      if isValidPassword.Mismatch? {
        reply := LoginFailed(Reply(400, "Invalid credentials"));
        return;
      }
      var signed := sign(Payload(user.id), secret, ttl);
      if signed.SignThrew? {
        reply := LoginFailed(Reply(500, signed.message));
        return;
      }
      user := user.(password := None);
      reply := LoggedIn("Login successfully", signed.token, user);
    }

    /**
     * `register` as written: it hashes the password and then assigns the
     * hash to the `const` binding `password`, which throws. Every request is
     * answered 500 and, the method having no write access, no user is saved.
     */
    method Register(body: RegisterBody, hash: Hasher) returns (reply: RegisterReply)
      ensures reply.RegisterFailed? && reply.reply.status == 500
      ensures hash(body.password).HashThrew? ==> reply.reply.msg == hash(body.password).message
      ensures hash(body.password).Hashed? ==> reply.reply.msg == ConstAssignmentMessage
    {
      var hashed := hash(body.password);
      if hashed.HashThrew? {
        reply := RegisterFailed(Reply(500, hashed.message));
        return;
      }
      // `password = passwordHash` on a `const` binding: a TypeError
      reply := RegisterFailed(Reply(500, ConstAssignmentMessage));
    }

    /**
     * `register` with the hash bound to a fresh variable: the new user, with
     * the hashed password and the two random counters, is saved unless the
     * email is taken, and the saved user is returned with status 201.
     */
    method RegisterCorrected(body: RegisterBody, hash: Hasher, newId: UserId, viewedProfile: int, impressions: int)
      returns (reply: RegisterReply)
      requires Valid()
      requires forall k :: 0 <= k < |users| ==> users[k].id != newId
      requires 0 <= viewedProfile < 10000 && 0 <= impressions < 10000
      modifies this
      ensures Valid()
      ensures hash(body.password).HashThrew? ==>
        reply == RegisterFailed(Reply(500, hash(body.password).message)) && users == old(users)
      ensures hash(body.password).Hashed? && FindByEmail(old(users), body.email).Some? ==>
        reply == RegisterFailed(Reply(500, DuplicateEmailMessage)) && users == old(users)
      ensures hash(body.password).Hashed? && FindByEmail(old(users), body.email).None? ==>
        var saved := User(newId, body.firstName, body.lastName, body.email, Some(hash(body.password).hash),
                          body.picturePath, body.friends, body.location, body.occupation, viewedProfile, impressions);
        && users == old(users) + [saved]
        && reply == Created("User created successfully", saved)
    {
      var hashed := hash(body.password);
      if hashed.HashThrew? {
        reply := RegisterFailed(Reply(500, hashed.message));
        return;
      }
      var newUser := User(newId, body.firstName, body.lastName, body.email, Some(hashed.hash),
                          body.picturePath, body.friends, body.location, body.occupation, viewedProfile, impressions);
      // `newUser.save()`: the unique index on `email` rejects a second user with the same email
      if FindByEmail(users, body.email).Some? {
        reply := RegisterFailed(Reply(500, DuplicateEmailMessage));
        return;
      }
      users := users + [newUser];
      reply := Created("User created successfully", newUser);
    }
  }

  /** The same request to both handlers: as written it is refused, corrected it creates the user. */
  method RegisterExample(hash: Hasher) returns (asWritten: RegisterReply, corrected: RegisterReply)
    requires hash("secret").Hashed?
    ensures asWritten == RegisterFailed(Reply(500, ConstAssignmentMessage))
    ensures corrected.Created? && corrected.data.email == "a@x.com"
    ensures corrected.data.password == Some(hash("secret").hash)
  {
    var store := new UserStore([]);
    var body := RegisterBody("Ada", "Lovelace", "a@x.com", "secret", "", [], "", "");
    asWritten := store.Register(body, hash);
    corrected := store.RegisterCorrected(body, hash, "u1", 0, 0);
  }
}
