/** The user router mounted under /api/users. Signup and login are open;
    the other handlers run after the inline guard has accepted the request,
    with `caller` the decoded token. The password hasher and the token
    signer are parameters: `hash` stands for the one-way hash, and a
    password matches a stored hash exactly when hashing it gives that hash. */
module UserRoutes {
  import opened Http
  import opened Users
  import Auth

  const EMAIL_TAKEN: string := "E-mail já cadastrado"
  const USER_NOT_FOUND: string := "Usuário não encontrado"
  const WRONG_PASSWORD: string := "Senha incorreta"
  const WRONG_CURRENT_PASSWORD: string := "Senha atual incorreta"
  const UPDATE_ERROR: string := "Erro ao atualizar usuário"
  const PASSWORD_UPDATED: string := "Senha atualizada com sucesso"

  /** What a successful login answers: the user's public fields and the token. */
  datatype LoginReply = LoginReply(userId: UserId, email: string, role: string, church: string, district: string, token: string)

  /** The claims login signs for a user at time `now`: id, email and role,
      expiring one hour later. */
  function SessionClaims(u: User, now: Instant): (c: Claims)
    ensures c.id == u.id && c.email == u.email && c.role == u.role && c.exp == c.iat + TOKEN_LIFETIME
  {
    Claims(u.id, u.email, u.role, now, now + TOKEN_LIFETIME)
  }

  /** Signup: 400 when the email is registered (checked first), then 400
      when the CPF is; the table is unchanged in both cases. Otherwise
      exactly one user is added under the next id, holding the hash of the
      password, and the reply carries no password. */
  method Signup(t: UserTable, profile: Profile, password: string, hash: string -> string)
    returns (res: Outcome<PublicUser>)
    requires t.Valid()
    modifies t
    ensures t.Valid()
    ensures EmailTaken(old(t.rows), profile.email) ==>
      res == Fail(BAD_REQUEST, EMAIL_TAKEN) && t.rows == old(t.rows) && t.nextId == old(t.nextId)
    ensures !EmailTaken(old(t.rows), profile.email) && CpfTaken(old(t.rows), profile.cpf) ==>
      res == Fail(BAD_REQUEST, CPF_TAKEN) && t.rows == old(t.rows) && t.nextId == old(t.nextId)
    ensures !EmailTaken(old(t.rows), profile.email) && !CpfTaken(old(t.rows), profile.cpf) ==>
      var u := NewUser(old(t.nextId), profile, hash(password));
      u.id !in old(t.rows) && t.rows == old(t.rows)[u.id := u] && u.password == hash(password) &&
      res == Ok(CREATED, WithoutPassword(u))
  {
    if EmailTaken(t.rows, profile.email) {
      return Fail(BAD_REQUEST, EMAIL_TAKEN);
    }
    if CpfTaken(t.rows, profile.cpf) {
      return Fail(BAD_REQUEST, CPF_TAKEN);
    }
    var hashed := hash(password);
    var u := t.Insert(profile, hashed);
    res := Ok(CREATED, WithoutPassword(u));
  }

  /** The listing: 403 for anyone but an administrator; an administrator
      gets every user, each without the password. */
  function ListUsers(rows: map<UserId, User>, caller: Claims): (r: Outcome<map<UserId, PublicUser>>)
    ensures caller.role != ADMINISTRATOR ==> r == Fail(FORBIDDEN, ACCESS_DENIED)
    ensures caller.role == ADMINISTRATOR ==>
      r.Ok? && r.status == OK && r.value.Keys == rows.Keys &&
      forall id :: id in r.value ==> r.value[id] == WithoutPassword(rows[id])
  {
    if caller.role != ADMINISTRATOR then Fail(FORBIDDEN, ACCESS_DENIED)
    else Ok(OK, map id | id in rows :: WithoutPassword(rows[id]))
  }

  /** The listing reveals nothing about passwords: two tables that differ
      only in passwords list the same. */
  lemma ListingIgnoresPasswords(rows: map<UserId, User>, other: map<UserId, User>, caller: Claims)
    requires rows.Keys == other.Keys
    requires forall id :: id in rows ==> other[id] == rows[id].(password := other[id].password)
    ensures ListUsers(rows, caller) == ListUsers(other, caller)
  {
    if caller.role == ADMINISTRATOR {
      var a, b := ListUsers(rows, caller).value, ListUsers(other, caller).value;
      forall id | id in a ensures a[id] == b[id] {
        assert other[id] == rows[id].(password := other[id].password);
      }
      assert a == b;
    }
  }

  /** Login: 401 "user not found" for an unknown email, 401 "wrong
      password" when the password does not match the stored hash, and only
      on a match a reply with a token signed over the user's id, email and
      role. */
  function Login(rows: map<UserId, User>, email: string, password: string,
                 hash: string -> string, sign: Claims -> string, now: Instant): (r: Outcome<LoginReply>)
    requires EmailsUnique(rows)
    ensures !EmailTaken(rows, email) ==> r == Fail(UNAUTHORIZED, USER_NOT_FOUND)
    ensures forall id :: id in rows && rows[id].email == email ==>
      (rows[id].password != hash(password) ==> r == Fail(UNAUTHORIZED, WRONG_PASSWORD)) &&
      (rows[id].password == hash(password) ==>
        var u := rows[id];
        r == Ok(OK, LoginReply(u.id, u.email, u.role, u.church, u.district, sign(SessionClaims(u, now)))))
  {
    match FindByEmail(rows, email)
    case None => Fail(UNAUTHORIZED, USER_NOT_FOUND)
    case Some(id) =>
      var u := rows[id];
      if u.password != hash(password) then Fail(UNAUTHORIZED, WRONG_PASSWORD)
      else Ok(OK, LoginReply(u.id, u.email, u.role, u.church, u.district, sign(SessionClaims(u, now))))
  }

  /** A token from a successful login, sent back as `Bearer <token>`, passes
      the middleware with the logged-in user's id, email and role, provided
      the token library verifies what it signs and signs into space-free
      text. */
  lemma LoginThenAuthenticate(rows: map<UserId, User>, email: string, password: string,
                              hash: string -> string, sign: Claims -> string,
                              verify: string -> Option<Claims>, now: Instant)
    requires EmailsUnique(rows)
    requires forall c :: verify(sign(c)) == Some(c)
    requires forall c :: sign(c) != "" && Auth.NoSpace(sign(c))
    ensures var r := Login(rows, email, password, hash, sign, now);
      r.Ok? ==>
        Auth.Authenticate(Some("Bearer " + r.value.token), verify) ==
        Auth.Authenticated(Claims(r.value.userId, r.value.email, r.value.role, now, now + TOKEN_LIFETIME))
  {
    var r := Login(rows, email, password, hash, sign, now);
    if r.Ok? {
      var id := FindByEmail(rows, email).value;
      var c := SessionClaims(rows[id], now);
      assert r.value.token == sign(c);
      Auth.TokenIsSecondPiece("Bearer", sign(c), "", verify);
      assert "Bearer" + " " + sign(c) + "" == "Bearer " + r.value.token;
    }
  }

  /** After a signup with some email and password, logging in with them
      succeeds as the new user. */
  lemma LoginAfterSignup(rows: map<UserId, User>, u: User, password: string,
                         hash: string -> string, sign: Claims -> string, now: Instant)
    requires EmailsUnique(rows) && !EmailTaken(rows, u.email)
    requires u.password == hash(password)
    ensures EmailsUnique(rows[u.id := u])
    ensures Login(rows[u.id := u], u.email, password, hash, sign, now) ==
      Ok(OK, LoginReply(u.id, u.email, u.role, u.church, u.district, sign(SessionClaims(u, now))))
  {
    var rows' := rows[u.id := u];
    assert u.id in rows' && rows'[u.id].email == u.email;
  }

  /** Who may edit a profile: an administrator, or the user themself. */
  predicate MayEdit(caller: Claims, id: UserId)
  {
    caller.role == ADMINISTRATOR || caller.id == id
  }

  /** Profile update: 404 for an unknown id (checked before permission),
      then 403 unless the caller is an administrator or the user themself;
      the table is unchanged in both cases. An email or CPF held by another
      user makes the store refuse the write (500). Otherwise the profile
      fields and the role are written, whoever the caller, and the
      password is left alone. */
  method UpdateUser(t: UserTable, caller: Claims, id: UserId, profile: Profile) returns (res: Outcome<PublicUser>)
    requires t.Valid()
    modifies t
    ensures t.Valid() && t.nextId == old(t.nextId)
    ensures id !in old(t.rows) ==> res == Fail(NOT_FOUND, USER_NOT_FOUND) && t.rows == old(t.rows)
    ensures id in old(t.rows) && !MayEdit(caller, id) ==> res == Fail(FORBIDDEN, ACCESS_DENIED) && t.rows == old(t.rows)
    ensures id in old(t.rows) && MayEdit(caller, id) && ClashesWithOther(old(t.rows), id, profile) ==>
      res == Fail(INTERNAL_ERROR, UPDATE_ERROR) && t.rows == old(t.rows)
    ensures id in old(t.rows) && MayEdit(caller, id) && !ClashesWithOther(old(t.rows), id, profile) ==>
      var u := old(t.rows)[id].(fullName := profile.fullName, email := profile.email,
                               birthDate := profile.birthDate, cpf := profile.cpf,
                               district := profile.district, church := profile.church, role := profile.role);
      t.rows == old(t.rows)[id := u] && res == Ok(OK, WithoutPassword(u))
  {
    if id !in t.rows {
      return Fail(NOT_FOUND, USER_NOT_FOUND);
    }
    if !MayEdit(caller, id) {
      return Fail(FORBIDDEN, ACCESS_DENIED);
    }
    var err := t.UpdateProfile(id, profile);
    if err.Some? {
      res := Fail(INTERNAL_ERROR, UPDATE_ERROR);
    } else {
      res := Ok(OK, WithoutPassword(t.rows[id]));
    }
  }

  /** Password change: 404 for an unknown id, then 403 unless the caller is
      that very user (administrators included), then 400 when the current
      password does not match. Otherwise the stored password, and nothing
      else, becomes the hash of the new one. */
  method ChangePassword(t: UserTable, caller: Claims, id: UserId, currentPassword: string, newPassword: string,
                        hash: string -> string) returns (res: Outcome<string>)
    requires t.Valid()
    modifies t
    ensures t.Valid() && t.nextId == old(t.nextId)
    ensures id !in old(t.rows) ==> res == Fail(NOT_FOUND, USER_NOT_FOUND) && t.rows == old(t.rows)
    ensures id in old(t.rows) && caller.id != id ==> res == Fail(FORBIDDEN, ACCESS_DENIED) && t.rows == old(t.rows)
    ensures id in old(t.rows) && caller.id == id && old(t.rows)[id].password != hash(currentPassword) ==>
      res == Fail(BAD_REQUEST, WRONG_CURRENT_PASSWORD) && t.rows == old(t.rows)
    ensures id in old(t.rows) && caller.id == id && old(t.rows)[id].password == hash(currentPassword) ==>
      res == Ok(OK, PASSWORD_UPDATED) && t.rows == old(t.rows)[id := old(t.rows)[id].(password := hash(newPassword))]
  {
    if id !in t.rows {
      return Fail(NOT_FOUND, USER_NOT_FOUND);
    }
    if caller.id != id {
      return Fail(FORBIDDEN, ACCESS_DENIED);
    }
    if t.rows[id].password != hash(currentPassword) {
      return Fail(BAD_REQUEST, WRONG_CURRENT_PASSWORD);
    }
    var hashed := hash(newPassword);
    t.UpdatePassword(id, hashed);
    res := Ok(OK, PASSWORD_UPDATED);
  }

  /** After a password change the new password logs in, and an old password
      that hashes differently is refused as wrong. */
  lemma LoginAfterPasswordChange(rows: map<UserId, User>, id: UserId, oldPassword: string, newPassword: string,
                                 hash: string -> string, sign: Claims -> string, now: Instant)
    requires EmailsUnique(rows) && id in rows
    requires hash(oldPassword) != hash(newPassword)
    ensures var changed := rows[id := rows[id].(password := hash(newPassword))];
      EmailsUnique(changed) &&
      Login(changed, rows[id].email, newPassword, hash, sign, now).Ok? &&
      Login(changed, rows[id].email, oldPassword, hash, sign, now) == Fail(UNAUTHORIZED, WRONG_PASSWORD)
  {
    var changed := rows[id := rows[id].(password := hash(newPassword))];
    assert id in changed && changed[id].email == rows[id].email;
  }
}
