/**
 * The `authenticateToken` middleware's decision and the login route's
 * decision. Token signing and verification (JWT) and password comparison
 * (bcrypt) are library calls; they enter as function parameters.
 */
module Auth {
  import opened Wrappers
  import opened Strings

  /** The middleware's three outcomes. */
  datatype Gate<C> =
    | Unauthenticated     // 401 'Token de acesso requerido'
    | Forbidden           // 403 'Token inválido'
    | Proceed(claims: C)  // req.user = claims; next()

  /** `authHeader && authHeader.split(' ')[1]`: the second space-separated field, when the header has one. */
  function BearerToken(header: Option<string>): (t: Option<string>)
    ensures header.None? || header.value == "" ==> t.None?
    ensures t.Some? ==> header.Some? && ' ' in header.value && ' ' !in t.value
  {
    if header.None? || header.value == "" then None
    else
      var parts := Split(header.value, ' ');
      if |parts| < 2 then None
      else
        assert header.value == parts[0] + [' '] + Join(parts[1..], ' ');
        assert header.value[|parts[0]|] == ' ';
        Some(parts[1])
  }

  /**
   * `if (!token) 401; jwt.verify(token)`: 401 exactly when there is no
   * non-empty second field, 403 exactly when there is one and it fails
   * verification, otherwise the request proceeds with what verification decoded.
   */
  function Authenticate<C>(header: Option<string>, verify: string -> Option<C>): (g: Gate<C>)
    ensures var t := BearerToken(header);
      && (g.Unauthenticated? <==> t.None? || t.value == "")
      && (g.Forbidden? <==> t.Some? && t.value != "" && verify(t.value).None?)
      && (g.Proceed? <==> t.Some? && t.value != "" && verify(t.value).Some?)
      && (g.Proceed? ==> g.claims == verify(t.value).value)
  {
    var token := BearerToken(header);
    if token.None? || token.value == "" then Unauthenticated
    else match verify(token.value)
      case None => Forbidden
      case Some(c) => Proceed(c)
  }

  /** No header, or one without a space, or one whose second field is empty, is refused with 401 before any verification. */
  lemma NoTokenIsUnauthenticated<C>(h: string, verify: string -> Option<C>)
    ensures Authenticate(None, verify) == Unauthenticated
    ensures ' ' !in h ==> Authenticate(Some(h), verify) == Unauthenticated
    ensures Authenticate(Some("Bearer "), verify) == Unauthenticated
  {
    if ' ' !in h && h != "" { assert Split(h, ' ') == [h]; }
    SplitJoin(["Bearer", ""], ' ');
    assert Join(["Bearer", ""], ' ') == "Bearer ";
  }

  /** The second field of `Bearer <token>` is the token when it is non-empty and space-free. */
  lemma BearerField(token: string)
    requires token != "" && ' ' !in token
    ensures BearerToken(Some("Bearer " + token)) == Some(token)
  {
    assert "Bearer " + token == Join(["Bearer", token], ' ');
    assert ' ' !in "Bearer";
    SplitJoin(["Bearer", token], ' ');
  }

  /** `Bearer <token>` with a non-empty, space-free token hands exactly that token to verification. */
  lemma BearerHeaderToken<C>(token: string, verify: string -> Option<C>)
    requires token != "" && ' ' !in token
    ensures BearerToken(Some("Bearer " + token)) == Some(token)
    ensures Authenticate(Some("Bearer " + token), verify) == match verify(token) case None => Forbidden case Some(c) => Proceed(c)
  {
    BearerField(token);
  }

  // ---------------------------------------------------------------------------
  // Login
  // ---------------------------------------------------------------------------

  /** A `users` row; the password is stored hashed. */
  datatype User = User(id: int, username: string, passwordHash: string)

  /** What the login route reveals of a user, and what the token carries. */
  datatype PublicUser = PublicUser(id: int, username: string)

  datatype LoginResult =
    | LoggedIn(token: string, user: PublicUser)
    | InvalidCredentials  // 401 'Credenciais inválidas'

  /** The login route's single-row lookup of the user by name: the first user with that name. */
  function FindUser(users: seq<User>, username: string): (r: Option<nat>)
    ensures r.Some? ==> r.value < |users| && users[r.value].username == username
    ensures r.Some? ==> forall k :: 0 <= k < r.value ==> users[k].username != username
    ensures r.None? <==> forall k :: 0 <= k < |users| ==> users[k].username != username
  {
    if users == [] then None
    else if users[0].username == username then Some(0)
    else match FindUser(users[1..], username)
      case None => None
      case Some(i) => Some(i + 1)
  }

  /** Usernames are UNIQUE in the schema. */
  predicate UsernamesUnique(users: seq<User>) {
    forall i, j :: 0 <= i < j < |users| ==> users[i].username != users[j].username
  }

  /** Under unique usernames the name's holder is the one found. */
  lemma FindUserUnique(users: seq<User>, username: string, k: nat)
    requires UsernamesUnique(users)
    requires k < |users| && users[k].username == username
    ensures FindUser(users, username) == Some(k)
  {
  }

  /**
   * `POST /api/login`: `passwordMatches(password, hash)` stands for
   * `bcrypt.compareSync`, `sign(claims)` for `jwt.sign`.
   */
  function Login(users: seq<User>, username: string, password: string,
                 passwordMatches: (string, string) -> bool, sign: PublicUser -> string): (r: LoginResult)
    ensures r.LoggedIn? ==>
      exists k :: && 0 <= k < |users| && users[k].username == username
                  && passwordMatches(password, users[k].passwordHash)
                  && r.user == PublicUser(users[k].id, users[k].username) && r.token == sign(r.user)
  {
    match FindUser(users, username)
    case None => InvalidCredentials
    case Some(i) =>
      if !passwordMatches(password, users[i].passwordHash) then InvalidCredentials
      else
        var claims := PublicUser(users[i].id, users[i].username);
        LoggedIn(sign(claims), claims)
  }

  /** An unknown username and a wrong password give one and the same reply. */
  lemma LoginFailsUniformly(users: seq<User>, username: string, password: string,
                            passwordMatches: (string, string) -> bool, sign: PublicUser -> string)
    requires UsernamesUnique(users)
    requires (forall k :: 0 <= k < |users| ==> users[k].username != username)
          || (exists k :: 0 <= k < |users| && users[k].username == username && !passwordMatches(password, users[k].passwordHash))
    ensures Login(users, username, password, passwordMatches, sign) == InvalidCredentials
  {
    if exists k :: 0 <= k < |users| && users[k].username == username && !passwordMatches(password, users[k].passwordHash) {
      var k :| 0 <= k < |users| && users[k].username == username && !passwordMatches(password, users[k].passwordHash);
      FindUserUnique(users, username, k);
    }
  }

  /** Under unique usernames a login succeeds exactly when the name's holder gave a matching password. */
  lemma LoginSucceedsIff(users: seq<User>, username: string, password: string,
                         passwordMatches: (string, string) -> bool, sign: PublicUser -> string)
    requires UsernamesUnique(users)
    ensures Login(users, username, password, passwordMatches, sign).LoggedIn?
      <==> exists k :: 0 <= k < |users| && users[k].username == username && passwordMatches(password, users[k].passwordHash)
  {
    if exists k :: 0 <= k < |users| && users[k].username == username && passwordMatches(password, users[k].passwordHash) {
      var k :| 0 <= k < |users| && users[k].username == username && passwordMatches(password, users[k].passwordHash);
      FindUserUnique(users, username, k);
    }
  }

  /**
   * A token from a successful login, sent back as `Bearer <token>`, passes the
   * gate with the login's claims, provided verification decodes what signing
   * encoded and the token has no space (as a JWT has none).
   */
  lemma LoginTokenPassesGate(users: seq<User>, username: string, password: string,
                             passwordMatches: (string, string) -> bool, sign: PublicUser -> string,
                             verify: string -> Option<PublicUser>)
    requires Login(users, username, password, passwordMatches, sign).LoggedIn?
    requires var r := Login(users, username, password, passwordMatches, sign);
      r.token != "" && ' ' !in r.token && verify(r.token) == Some(r.user)
    ensures var r := Login(users, username, password, passwordMatches, sign);
      Authenticate(Some("Bearer " + r.token), verify) == Proceed(r.user)
  {
    var r := Login(users, username, password, passwordMatches, sign);
    BearerHeaderToken(r.token, verify);
  }
}
