/**
 * User accounts and token revocation.  The users file becomes a sequence
 * of records, the revoked-tokens file a sequence of tokens; password
 * hashing, hash verification, JWT decoding and the clock become parameters.
 */
module Users {

  import opened Wrappers
  import opened Strings

  type Hash = string

  /** A record of the users file. */
  datatype User = User(
    username: string,
    passwordHash: Hash,
    role: string,
    email: string,
    createdAt: string,
    lastLogin: Option<string>)

  /** A record as the manager hands it out: everything but the password hash. */
  datatype PublicUser = PublicUser(
    username: string,
    role: string,
    email: string,
    createdAt: string,
    lastLogin: Option<string>)

  /** The claims `verify_token` returns. */
  datatype TokenUser = TokenUser(username: string, role: Option<string>)

  /** A decoded token's payload: its "sub" and "role" claims. */
  datatype Payload = Payload(sub: Option<string>, role: Option<string>)

  datatype UserError =
    | InvalidRole
    | UserExists
    | UsernameTooShort
    | PasswordTooShort
    | NoUppercase
    | NoLowercase
    | NoDigit
    | UserNotFound
    | IncorrectPassword
    | CannotDeleteAdmin

  /** The three roles an account may have. */
  predicate ValidRole(role: string) {
    role == "admin" || role == "analyst" || role == "investigator"
  }

  /** The most tokens the revocation list keeps. */
  const MaxRevoked: nat := 1000

  function Public(u: User): (p: PublicUser)
    ensures p.username == u.username && p.role == u.role && p.email == u.email
    ensures p.createdAt == u.createdAt && p.lastLogin == u.lastLogin
  {
    PublicUser(u.username, u.role, u.email, u.createdAt, u.lastLogin)
  }

  /** The position of the first record named `username`. */
  function FindUser(users: seq<User>, username: string): (r: Option<nat>)
    ensures r.Some? ==> r.value < |users| && users[r.value].username == username
    ensures r.Some? ==> forall j :: 0 <= j < r.value ==> users[j].username != username
    ensures r.None? <==> forall j :: 0 <= j < |users| ==> users[j].username != username
  {
    if users == [] then None
    else if users[0].username == username then Some(0)
    else match FindUser(users[1..], username)
      case None => None
      case Some(k) => Some(k + 1)
  }

  /**
   * The first rule of the password policy a password breaks, in the order
   * they are checked: at least 8 characters, an upper-case letter, a
   * lower-case letter, a digit (ASCII classes).
   */
  function PasswordProblem(pw: string): (r: Option<UserError>)
    ensures r.None? <==> |pw| >= 8 && (exists i :: 0 <= i < |pw| && IsUpper(pw[i])) &&
                         (exists i :: 0 <= i < |pw| && IsLower(pw[i])) && (exists i :: 0 <= i < |pw| && IsDigit(pw[i]))
    ensures r == Some(PasswordTooShort) <==> |pw| < 8
    ensures r == Some(NoUppercase) <==> |pw| >= 8 && forall i :: 0 <= i < |pw| ==> !IsUpper(pw[i])
  {
    if |pw| < 8 then Some(PasswordTooShort)
    else if !AnyChar(pw, IsUpper) then Some(NoUppercase)
    else if !AnyChar(pw, IsLower) then Some(NoLowercase)
    else if !AnyChar(pw, IsDigit) then Some(NoDigit)
    else None
  }

  /** `any(p(c) for c in s)`. */
  function AnyChar(s: string, p: char -> bool): (b: bool)
    ensures b <==> exists i :: 0 <= i < |s| && p(s[i])
  {
    if s == [] then false
    else if p(s[0]) then true
    else
      var b := AnyChar(s[1..], p);
      assert forall i :: 0 <= i < |s| - 1 ==> s[1..][i] == s[i + 1];
      b
  }

  /**
   * Why `create_user` refuses, checked in the source's order: the role, an
   * existing name, a name shorter than 3, then the password policy.
   */
  function CreateProblem(users: seq<User>, username: string, password: string, role: string): (r: Option<UserError>)
    ensures !ValidRole(role) ==> r == Some(InvalidRole)
    ensures ValidRole(role) && FindUser(users, username).Some? ==> r == Some(UserExists)
    ensures ValidRole(role) && FindUser(users, username).None? && |username| < 3 ==> r == Some(UsernameTooShort)
    ensures ValidRole(role) && FindUser(users, username).None? && |username| >= 3 ==> r == PasswordProblem(password)
  {
    if !ValidRole(role) then Some(InvalidRole)
    else if FindUser(users, username).Some? then Some(UserExists)
    else if |username| < 3 then Some(UsernameTooShort)
    else PasswordProblem(password)
  }

  /**
   * The keyword arguments of `update_user` applied in order: "email" and
   * "role" are copied, every other key ignored, an invalid role refused.
   */
  function ApplyUpdates(u: User, kwargs: seq<(string, string)>): (r: Result<User, UserError>)
    ensures r.Err? <==> exists k :: 0 <= k < |kwargs| && kwargs[k].0 == "role" && !ValidRole(kwargs[k].1)
    ensures r.Err? ==> r.error == InvalidRole
    ensures r.Ok? ==> r.value.username == u.username && r.value.passwordHash == u.passwordHash &&
                      r.value.createdAt == u.createdAt && r.value.lastLogin == u.lastLogin
    decreases |kwargs|
  {
    if kwargs == [] then Ok(u)
    else
      var (key, value) := kwargs[|kwargs| - 1];
      var front := kwargs[..|kwargs| - 1];
      assert forall k :: 0 <= k < |front| ==> front[k] == kwargs[k];
      match ApplyUpdates(u, front)
      case Err(e) => Err(e)
      case Ok(v) =>
        if key == "role" && !ValidRole(value) then Err(InvalidRole)
        else if key == "role" then Ok(v.(role := value))
        else if key == "email" then Ok(v.(email := value))
        else Ok(v)
  }

  /** The last "role" (or "email") argument decides the new role (email); none leaves it. */
  lemma {:induction false} LastUpdateWins(u: User, kwargs: seq<(string, string)>, key: string)
    requires ApplyUpdates(u, kwargs).Ok? && (key == "role" || key == "email")
    ensures (forall k :: 0 <= k < |kwargs| ==> kwargs[k].0 != key) ==>
              (key == "role" ==> ApplyUpdates(u, kwargs).value.role == u.role) &&
              (key == "email" ==> ApplyUpdates(u, kwargs).value.email == u.email)
    ensures |kwargs| > 0 && kwargs[|kwargs| - 1].0 == key ==>
              (key == "role" ==> ApplyUpdates(u, kwargs).value.role == kwargs[|kwargs| - 1].1) &&
              (key == "email" ==> ApplyUpdates(u, kwargs).value.email == kwargs[|kwargs| - 1].1)
    decreases |kwargs|
  {
    if kwargs != [] {
      var front := kwargs[..|kwargs| - 1];
      assert forall k :: 0 <= k < |front| ==> front[k] == kwargs[k];
      LastUpdateWins(u, front, key);
    }
  }

  /** The records not named `username`, in order. */
  function Without(users: seq<User>, username: string): (r: seq<User>)
    ensures |r| <= |users|
    ensures forall k :: 0 <= k < |r| ==> r[k].username != username && r[k] in users
    ensures forall k :: 0 <= k < |users| && users[k].username != username ==> users[k] in r
    ensures |r| == |users| <==> FindUser(users, username).None?
  {
    if users == [] then []
    else
      var rest := Without(users[1..], username);
      assert forall k :: 0 <= k < |users| - 1 ==> users[1..][k] == users[k + 1];
      if users[0].username == username then rest else [users[0]] + rest
  }

  /**
   * The revocation list after appending `token`: the last `MaxRevoked`
   * tokens.
   */
  function Recent(tokens: seq<string>): (r: seq<string>)
    ensures |r| <= MaxRevoked
    ensures |tokens| <= MaxRevoked ==> r == tokens
    ensures |tokens| > 0 ==> |r| > 0 && r[|r| - 1] == tokens[|tokens| - 1]
    ensures forall k :: 0 <= k < |r| ==> r[k] in tokens
  {
    if |tokens| > MaxRevoked then tokens[|tokens| - MaxRevoked..] else tokens
  }

  /** No token occurs twice. */
  predicate Distinct(tokens: seq<string>) {
    forall a, b :: 0 <= a < b < |tokens| ==> tokens[a] != tokens[b]
  }

  /** The revocation rule keeps the list duplicate-free and within the cap, and the token is then revoked. */
  lemma {:induction false} RevocationKeepsInvariant(tokens: seq<string>, token: string)
    requires Distinct(tokens) && |tokens| <= MaxRevoked && token !in tokens
    ensures Distinct(Recent(tokens + [token])) && |Recent(tokens + [token])| <= MaxRevoked
    ensures token in Recent(tokens + [token])
  {
    var all := tokens + [token];
    var r := Recent(all);
    assert Distinct(all);
    if |all| > MaxRevoked {
      forall a, b | 0 <= a < b < |r| ensures r[a] != r[b] {
        assert r[a] == all[a + |all| - MaxRevoked] && r[b] == all[b + |all| - MaxRevoked];
      }
    }
  }

  /**
   * `verify_token`: nothing for a revoked token (before decoding), for one
   * that does not decode, or for a payload without "sub"; otherwise its
   * name and role.
   */
  function VerifyToken(revoked: seq<string>, token: string, decode: string -> Option<Payload>): (r: Option<TokenUser>)
    ensures token in revoked ==> r.None?
    ensures r.Some? <==> token !in revoked && decode(token).Some? && decode(token).value.sub.Some?
    ensures r.Some? ==> r.value == TokenUser(decode(token).value.sub.value, decode(token).value.role)
  {
    if token in revoked then None
    else match decode(token)
      case None => None
      case Some(p) => if p.sub.None? then None else Some(TokenUser(p.sub.value, p.role))
  }

  /** How long an access token stays valid: 24 hours, in seconds. */
  const TokenLifetime: nat := 24 * 3600

  /** The claims `create_access_token` signs: the name as "sub", the role, and the expiry time. */
  datatype Claims = Claims(sub: string, role: string, exp: int)

  /**
   * `create_access_token` at time `now` (seconds); `encode` stands for the
   * signing with the server's secret.
   */
  function CreateAccessToken(username: string, role: string, now: int, encode: Claims -> string): string
  {
    encode(Claims(username, role, now + TokenLifetime))
  }

  /**
   * A token the server issued, while the signature checks and it has not
   * expired (the decoder gives its claims back), verifies to the name and
   * role it was issued for, until it is revoked.
   */
  lemma IssuedTokenVerifies(username: string, role: string, now: int, encode: Claims -> string,
                            decode: string -> Option<Payload>, revoked: seq<string>)
    requires var t := CreateAccessToken(username, role, now, encode);
             decode(t) == Some(Payload(Some(username), Some(role)))
    ensures var t := CreateAccessToken(username, role, now, encode);
            (VerifyToken(revoked, t, decode) == Some(TokenUser(username, Some(role))) <==> t !in revoked) &&
            (t in revoked ==> VerifyToken(revoked, t, decode).None?)
  {
  }

  // ---------------------------------------------------------------------------
  // The manager.

  class UserManager {
    var users: seq<User>
    var revoked: seq<string>

    /** The revocation list is duplicate-free and capped. */
    ghost predicate Valid()
      reads this
    {
      Distinct(revoked) && |revoked| <= MaxRevoked
    }

    /** A first start: the default administrator and no revoked tokens. */
    constructor(adminHash: Hash, now: string)
      ensures Valid()
      ensures users == [User("admin", adminHash, "admin", "admin@localhost", now, None)] && revoked == []
    {
      users := [User("admin", adminHash, "admin", "admin@localhost", now, None)];
      revoked := [];
    }

    /** `authenticate_user`: the record without its hash when the name exists and the password verifies. */
    function AuthenticateUser(username: string, password: string, verify: (string, Hash) -> bool): (r: Option<PublicUser>)
      reads this
      ensures r.Some? <==> FindUser(users, username).Some? && verify(password, users[FindUser(users, username).value].passwordHash)
      ensures r.Some? ==> r.value == Public(users[FindUser(users, username).value])
    {
      match FindUser(users, username)
      case None => None
      case Some(i) => if verify(password, users[i].passwordHash) then Some(Public(users[i])) else None
    }

    /** `create_user`: on the first failed check nothing changes; otherwise one record is appended. */
    method CreateUser(username: string, password: string, role: string, email: string,
                      hash: string -> Hash, now: string) returns (r: Result<PublicUser, UserError>)
      modifies this
      ensures revoked == old(revoked)
      ensures CreateProblem(old(users), username, password, role).Some? ==>
                r == Err(CreateProblem(old(users), username, password, role).value) && users == old(users)
      ensures CreateProblem(old(users), username, password, role).None? ==>
                var u := User(username, hash(password), role, email, now, None);
                users == old(users) + [u] && r == Ok(Public(u))
    {
      if !ValidRole(role) {
        return Err(InvalidRole);
      }
      if FindUser(users, username).Some? {
        return Err(UserExists);
      }
      if |username| < 3 {
        return Err(UsernameTooShort);
      }
      var problem := PasswordProblem(password);
      if problem.Some? {
        return Err(problem.value);
      }
      var u := User(username, hash(password), role, email, now, None);
      users := users + [u];
      return Ok(Public(u));
    }

    /** `update_user`: only the first record of that name changes, and only in email and role. */
    method UpdateUser(username: string, kwargs: seq<(string, string)>) returns (r: Result<PublicUser, UserError>)
      modifies this
      ensures revoked == old(revoked)
      ensures FindUser(old(users), username).None? ==> r == Err(UserNotFound) && users == old(users)
      ensures FindUser(old(users), username).Some? ==>
                var i := FindUser(old(users), username).value;
                match ApplyUpdates(old(users)[i], kwargs)
                case Err(e) => r == Err(e) && users == old(users)
                case Ok(u) => r == Ok(Public(u)) && users == old(users)[i := u]
    {
      var found := FindUser(users, username);
      if found.None? {
        return Err(UserNotFound);
      }
      var i := found.value;
      var user := users[i];
      for k := 0 to |kwargs|
        invariant ApplyUpdates(users[i], kwargs[..k]) == Ok(user)
      {
        assert kwargs[..k + 1][..k] == kwargs[..k];
        var (key, value) := kwargs[k];
        if key == "role" || key == "email" {
          if key == "role" && !ValidRole(value) {
            UpdateErrorPersists(users[i], kwargs, k + 1);
            return Err(InvalidRole);
          }
          user := if key == "role" then user.(role := value) else user.(email := value);
        }
      }
      assert kwargs[..|kwargs|] == kwargs;
      users := users[i := user];
      return Ok(Public(user));
    }

    /** `change_password`: the old password must verify and the new one conform; then only that hash changes. */
    method ChangePassword(username: string, oldPassword: string, newPassword: string,
                          hash: string -> Hash, verify: (string, Hash) -> bool) returns (r: Result<bool, UserError>)
      modifies this
      ensures revoked == old(revoked)
      ensures old(AuthenticateUser(username, oldPassword, verify)).None? ==> r == Err(IncorrectPassword) && users == old(users)
      ensures old(AuthenticateUser(username, oldPassword, verify)).Some? && PasswordProblem(newPassword).Some? ==>
                r == Err(PasswordProblem(newPassword).value) && users == old(users)
      ensures old(AuthenticateUser(username, oldPassword, verify)).Some? && PasswordProblem(newPassword).None? ==>
                var i := FindUser(old(users), username).value;
                r == Ok(true) && users == old(users)[i := old(users)[i].(passwordHash := hash(newPassword))]
    {
      if AuthenticateUser(username, oldPassword, verify).None? {
        return Err(IncorrectPassword);
      }
      var problem := PasswordProblem(newPassword);
      if problem.Some? {
        return Err(problem.value);
      }
      var i := FindUser(users, username).value;
      users := users[i := users[i].(passwordHash := hash(newPassword))];
      return Ok(true);
    }

    /** `delete_user`: never "admin"; an error when no record has the name; otherwise every record with it goes. */
    method DeleteUser(username: string) returns (r: Result<(), UserError>)
      modifies this
      ensures revoked == old(revoked)
      ensures username == "admin" ==> r == Err(CannotDeleteAdmin) && users == old(users)
      ensures username != "admin" && FindUser(old(users), username).None? ==> r == Err(UserNotFound) && users == old(users)
      ensures username != "admin" && FindUser(old(users), username).Some? ==> r == Ok(()) && users == Without(old(users), username)
    {
      if username == "admin" {
        return Err(CannotDeleteAdmin);
      }
      var kept := Without(users, username);
      if |kept| == |users| {
        return Err(UserNotFound);
      }
      users := kept;
      return Ok(());
    }

    /** `update_last_login`: the first record of that name gets the login time; without one nothing changes. */
    method UpdateLastLogin(username: string, now: string)
      modifies this
      ensures revoked == old(revoked)
      ensures FindUser(old(users), username).None? ==> users == old(users)
      ensures FindUser(old(users), username).Some? ==>
                var i := FindUser(old(users), username).value;
                users == old(users)[i := old(users)[i].(lastLogin := Some(now))]
    {
      var i := 0;
      while i < |users|
        invariant i <= |users| && users == old(users)
        invariant forall j :: 0 <= j < i ==> users[j].username != username
      {
        if users[i].username == username {
          users := users[i := users[i].(lastLogin := Some(now))];
          return;
        }
        i := i + 1;
      }
    }

    /** `list_users`: every record, in order, without hashes. */
    function ListUsers(): (r: seq<PublicUser>)
      reads this
      ensures |r| == |users| && forall k :: 0 <= k < |users| ==> r[k] == Public(users[k])
    {
      seq(|users|, k reads this requires 0 <= k < |users| => Public(users[k]))
    }

    /** `revoke_token`: a new token is appended and the list cut to the last 1000; a known one changes nothing. */
    method RevokeToken(token: string)
      requires Valid()
      modifies this
      ensures Valid()
      ensures users == old(users)
      ensures revoked == if token in old(revoked) then old(revoked) else Recent(old(revoked) + [token])
      ensures IsTokenRevoked(token)
    {
      if token !in revoked {
        RevocationKeepsInvariant(revoked, token);
        revoked := Recent(revoked + [token]);
      }
    }

    function IsTokenRevoked(token: string): (b: bool)
      reads this
      ensures b <==> exists k :: 0 <= k < |revoked| && revoked[k] == token
    {
      token in revoked
    }
  }

  /** A refused update stays refused whatever arguments follow. */
  lemma {:induction false} UpdateErrorPersists(u: User, kwargs: seq<(string, string)>, k: nat)
    requires k <= |kwargs| && ApplyUpdates(u, kwargs[..k]).Err?
    ensures ApplyUpdates(u, kwargs).Err?
  {
    var j := k - 1;
    assert kwargs[..k][j] == kwargs[j];
  }
}
