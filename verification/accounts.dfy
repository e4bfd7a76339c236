/** Account login and registration. The user lookup, the password hashing and
    comparison (bcrypt) and the token signing (`jwt.sign`, which throws when no
    secret is configured) are inputs; `None` from any of them stands for the error
    it throws, which the handler turns into a 500. */
module Accounts {
  import opened Common
  import opened Sql

  const LoginRequired := "Email e senha s\U{00E3}o obrigat\U{00F3}rios"
  const BadCredentials := "Credenciais inv\U{00E1}lidas"
  const LoginError := "Erro interno ao efetuar login"
  const MissingFields := "Campos obrigat\U{00F3}rios faltando"
  const EmailTaken := "Email j\U{00E1} cadastrado"
  const RegisterError := "Erro interno ao criar usu\U{00E1}rio"

  /** A row of the `user` table; `password` is `None` for a NULL column. */
  datatype UserRow = UserRow(id: Value, name: Value, email: Value, password: Option<string>)

  /** What the responses show of a user: never the password. */
  datatype PublicUser = PublicUser(id: Value, name: Value, email: Value)

  datatype LoginReply = LoginReply(code: nat, message: string, token: Option<string>, user: Option<PublicUser>)

  /** The prefixes of a bcrypt hash. */
  predicate IsHashed(stored: string) {
    "$2a$" <= stored || "$2b$" <= stored || "$2y$" <= stored
  }

  /** `user.password || ""`. */
  function StoredPassword(row: UserRow): (s: string)
    ensures row.password.Some? ==> s == row.password.value
  {
    if row.password.Some? then row.password.value else ""
  }

  /** The password check: a hashed value goes to `compare`; anything else must be
      the very same string (`===`). `None` when `compare` throws. */
  function PasswordMatches(password: Value, stored: string, compare: (Value, string) -> Option<bool>): (ok: Option<bool>)
    ensures IsHashed(stored) ==> ok == compare(password, stored)
    ensures !IsHashed(stored) ==> ok == Some(password == Str(stored))
  {
    if IsHashed(stored) then compare(password, stored) else Some(password == Str(stored))
  }

  /** `login`. `found` is the row for the e-mail (`Some(None)` when there is none,
      `None` when the query throws). */
  function Login(email: Value, password: Value, found: Option<Option<UserRow>>,
                 compare: (Value, string) -> Option<bool>, sign: PublicUser -> Option<string>): (r: LoginReply)
    ensures !Truthy(email) || !Truthy(password) <==> r == LoginReply(400, LoginRequired, None, None)
    ensures Truthy(email) && Truthy(password) ==>
      && (found == Some(None) ==> r == LoginReply(401, BadCredentials, None, None))
      && (found.None? ==> r == LoginReply(500, LoginError, None, None))
      && (found.Some? && found.value.Some? ==>
          var row := found.value.value;
          var ok := PasswordMatches(password, StoredPassword(row), compare);
          // an unknown e-mail and a wrong password look the same to the caller
          && (ok == Some(false) ==> r == LoginReply(401, BadCredentials, None, None))
          && (ok.None? ==> r.code == 500)
          && (ok == Some(true) ==>
                var user := PublicUser(row.id, row.name, row.email);
                // a token that cannot be signed is a 500, never a login without one
                && (sign(user).None? ==> r == LoginReply(500, LoginError, None, None))
                && (sign(user).Some? ==> r.code == 200 && r.user == Some(user) && r.token == sign(user))))
    ensures r.code == 200 <==> r.token.Some?
  {
    if !Truthy(email) || !Truthy(password) then LoginReply(400, LoginRequired, None, None)
    else match found
      case None => LoginReply(500, LoginError, None, None)
      case Some(None) => LoginReply(401, BadCredentials, None, None)
      case Some(Some(row)) =>
        match PasswordMatches(password, StoredPassword(row), compare)
        case None => LoginReply(500, LoginError, None, None)
        case Some(false) => LoginReply(401, BadCredentials, None, None)
        case Some(true) =>
          var userData := PublicUser(row.id, row.name, row.email);
          match sign(userData)
          case None => LoginReply(500, LoginError, None, None)
          case Some(token) => LoginReply(200, "Login efetuado com sucesso!", Some(token), Some(userData))
  }

  datatype RegisterReply = RegisterReply(code: nat, message: string, write: Option<Statement>, user: Option<PublicUser>)

  /** `register`. `existing` is the number of rows with the e-mail, `hash` the
      bcrypt hashing of the password and `insertId` the id of the new row (`None`
      for the respective error). */
  function Register(name: Value, email: Value, password: Value, existing: Option<nat>,
                    hash: Value -> Option<string>, insertId: Option<Value>): (r: RegisterReply)
    ensures !Truthy(name) || !Truthy(email) || !Truthy(password) <==> r == RegisterReply(400, MissingFields, None, None)
    // a taken e-mail is refused before anything is written
    ensures Truthy(name) && Truthy(email) && Truthy(password) && existing.Some? && existing.value > 0
      ==> r == RegisterReply(409, EmailTaken, None, None)
    // what is stored is the hash, never the password itself
    ensures r.write.Some? <==> Truthy(name) && Truthy(email) && Truthy(password) && existing == Some(0) && hash(password).Some?
    ensures r.write.Some? ==> r.write.value.params == [name, email, Str(hash(password).value)]
    ensures r.write.Some? ==> Marks(r.write.value.sql) == |r.write.value.params|
    ensures r.code == 201 <==> r.write.Some? && insertId.Some?
    ensures r.code == 201 ==> r.user == Some(PublicUser(insertId.value, name, email))
  {
    if !Truthy(name) || !Truthy(email) || !Truthy(password) then RegisterReply(400, MissingFields, None, None)
    else match existing
      case None => RegisterReply(500, RegisterError, None, None)
      case Some(n) =>
        if n > 0 then RegisterReply(409, EmailTaken, None, None)
        else match hash(password)
          case None => RegisterReply(500, RegisterError, None, None)
          case Some(h) =>
            var st := Statement(UserInsert, [name, email, Str(h)]);
            UserInsertMarks();
            match insertId
            case None => RegisterReply(500, RegisterError, Some(st), None)
            case Some(id) =>
              RegisterReply(201, "Usu\U{00E1}rio criado com sucesso!", Some(st), Some(PublicUser(id, name, email)))
  }

  /** `INSERT INTO user (name, email, password) VALUES (?, ?, ?)`. */
  const UserInsert := "INSERT INTO user (name, email, password)" + " VALUES (" + "?, ?, ?" + ")"

  lemma UserInsertMarks()
    ensures Marks(UserInsert) == 3
  {
    UserInsertHeadPlain();
    ThreeMarks();
    Plain(")");
    Concat("INSERT INTO user (name, email, password)" + " VALUES (" + "?, ?, ?", ")");
    Concat("INSERT INTO user (name, email, password)" + " VALUES (", "?, ?, ?");
  }

  lemma UserInsertHeadPlain()
    ensures Marks("INSERT INTO user (name, email, password)" + " VALUES (") == 0
  {
    Plain("INSERT INTO user (");
    Plain("name, email, password)");
    Plain(" VALUES (");
    Concat("INSERT INTO user (", "name, email, password)");
    assert "INSERT INTO user (name, email, password)" == "INSERT INTO user (" + "name, email, password)";
    Concat("INSERT INTO user (name, email, password)", " VALUES (");
  }

  // ---------------------------------------------------------------------------
  // Properties

  /** The row a successful registration writes. */
  function RegisteredRow(id: Value, name: Value, email: Value, h: string): UserRow {
    UserRow(id, name, email, Some(h))
  }

  /** Registering and then logging in with the same e-mail and password succeeds
      and shows the registered user, provided the hash is a bcrypt hash that the
      comparison accepts for its own password. */
  lemma RegisterThenLogin(name: Value, email: Value, password: Value, hash: Value -> Option<string>, id: Value,
                          compare: (Value, string) -> Option<bool>, sign: PublicUser -> Option<string>)
    requires Truthy(name) && Truthy(email) && Truthy(password)
    requires hash(password).Some? && IsHashed(hash(password).value)
    requires compare(password, hash(password).value) == Some(true)
    requires sign(PublicUser(id, name, email)).Some?
    ensures Register(name, email, password, Some(0), hash, Some(id)).code == 201
    ensures var row := RegisteredRow(id, name, email, hash(password).value);
      var r := Login(email, password, Some(Some(row)), compare, sign);
      r.code == 200 && r.user == Register(name, email, password, Some(0), hash, Some(id)).user
  {
  }

  /** A row whose stored value is not a bcrypt hash accepts exactly that text as
      the password, whatever `compare` would say. */
  lemma PlainStoredPassword(email: Value, p: string, row: UserRow,
                            compare: (Value, string) -> Option<bool>, sign: PublicUser -> Option<string>)
    requires Truthy(email) && p != "" && row.password == Some(p) && !IsHashed(p)
    requires sign(PublicUser(row.id, row.name, row.email)).Some?
    ensures Login(email, Str(p), Some(Some(row)), compare, sign).code == 200
    ensures forall q :: q != p ==> Login(email, Str(q), Some(Some(row)), compare, sign).code == 401 || q == ""
  {
  }

  /** A row with no password at all (NULL or empty) rejects every password. */
  lemma EmptyStoredPasswordRejects(email: Value, password: Value, row: UserRow,
                                   compare: (Value, string) -> Option<bool>, sign: PublicUser -> Option<string>)
    requires Truthy(email) && Truthy(password) && StoredPassword(row) == ""
    ensures Login(email, password, Some(Some(row)), compare, sign) == LoginReply(401, BadCredentials, None, None)
  {
  }
}
