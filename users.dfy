/** The user table: the account record, the public view of it the API
    returns, the uniqueness rules, and the store operations the user
    handlers call. */
module Users {
  import opened Http
  import opened Age

  datatype User = User(
    id: UserId,
    fullName: string,
    email: string,
    birthDate: Date,
    cpf: string,
    district: string,
    church: string,
    role: string,
    password: string)

  /** The fields signup and profile update take from the request body. */
  datatype Profile = Profile(
    fullName: string, email: string, birthDate: Date, cpf: string,
    district: string, church: string, role: string)

  /** A user as the API returns it: every field but the password. */
  datatype PublicUser = PublicUser(
    id: UserId, fullName: string, email: string, birthDate: Date, cpf: string,
    district: string, church: string, role: string)

  /** `const { password, ...user } = u`: drop the password and keep every
      other field, so the view and the password give the user back. */
  function WithoutPassword(u: User): (v: PublicUser)
    ensures User(v.id, v.fullName, v.email, v.birthDate, v.cpf, v.district, v.church, v.role, u.password) == u
  {
    PublicUser(u.id, u.fullName, u.email, u.birthDate, u.cpf, u.district, u.church, u.role)
  }

  /** The account a signup writes: the profile under the new id, with the
      stored password being the given hash. */
  function NewUser(id: UserId, profile: Profile, passwordHash: string): User
  {
    User(id, profile.fullName, profile.email, profile.birthDate, profile.cpf,
         profile.district, profile.church, profile.role, passwordHash)
  }

  /** The user with the profile written over it; id and password stay. */
  function Reprofiled(u: User, profile: Profile): (r: User)
    ensures r.id == u.id && r.password == u.password
    ensures WithoutPassword(r) == PublicUser(u.id, profile.fullName, profile.email, profile.birthDate,
                                             profile.cpf, profile.district, profile.church, profile.role)
  {
    u.(fullName := profile.fullName, email := profile.email, birthDate := profile.birthDate,
       cpf := profile.cpf, district := profile.district, church := profile.church, role := profile.role)
  }

  /** The lookup by email finds a user: the email is among the stored ones. */
  predicate EmailTaken(rows: map<UserId, User>, email: string)
    ensures EmailTaken(rows, email) <==> email in (set id | id in rows :: rows[id].email)
  {
    exists id :: id in rows && rows[id].email == email
  }

  /** The lookup by CPF finds a user: the CPF is among the stored ones. */
  predicate CpfTaken(rows: map<UserId, User>, cpf: string)
    ensures CpfTaken(rows, cpf) <==> cpf in (set id | id in rows :: rows[id].cpf)
  {
    exists id :: id in rows && rows[id].cpf == cpf
  }

  ghost predicate EmailsUnique(rows: map<UserId, User>)
  {
    forall a, b :: a in rows && b in rows && rows[a].email == rows[b].email ==> a == b
  }

  ghost predicate CpfsUnique(rows: map<UserId, User>)
  {
    forall a, b :: a in rows && b in rows && rows[a].cpf == rows[b].cpf ==> a == b
  }

  /** Another user than `id` already has this email or this CPF. */
  predicate ClashesWithOther(rows: map<UserId, User>, id: UserId, profile: Profile)
  {
    exists o :: o in rows && o != id && (rows[o].email == profile.email || rows[o].cpf == profile.cpf)
  }

  /** `findUnique` by email: the key of the one user with that email. */
  function FindByEmail(rows: map<UserId, User>, email: string): (r: Option<UserId>)
    requires EmailsUnique(rows)
    ensures r.Some? <==> EmailTaken(rows, email)
    ensures r.Some? ==> r.value in rows && rows[r.value].email == email
    ensures r.Some? ==> forall id :: id in rows && rows[id].email == email ==> id == r.value
  {
    if EmailTaken(rows, email) then
      var id :| id in rows && rows[id].email == email;
      Some(id)
    else None
  }

  class UserTable {
    var rows: map<UserId, User>
    /** The next id the store's auto-increment hands out. */
    var nextId: UserId

    /** Every row is stored under its own id, every id is below the next
        one to be handed out, and no two users share an email or a CPF
        (the store's uniqueness constraints). */
    ghost predicate Valid()
      reads this
    {
      (forall id :: id in rows ==> rows[id].id == id && id < nextId) &&
      EmailsUnique(rows) && CpfsUnique(rows)
    }

    constructor ()
      ensures Valid() && rows == map[] && nextId == 1
    {
      rows := map[];
      nextId := 1;
    }

    /** `create`: the caller has checked the email and the CPF; the new row
        gets the next auto-increment id. */
    method Insert(profile: Profile, passwordHash: string) returns (u: User)
      requires Valid()
      requires !EmailTaken(rows, profile.email) && !CpfTaken(rows, profile.cpf)
      modifies this
      ensures Valid()
      ensures u == NewUser(old(nextId), profile, passwordHash) && u.id !in old(rows)
      ensures rows == old(rows)[u.id := u] && nextId == old(nextId) + 1
    {
      u := NewUser(nextId, profile, passwordHash);
      rows := rows[nextId := u];
      nextId := nextId + 1;
    }

    /** `update` of the profile fields: fails when the email or the CPF
        belongs to another user; otherwise only that row changes. */
    method UpdateProfile(id: UserId, profile: Profile) returns (err: Option<StoreError>)
      requires Valid() && id in rows
      modifies this
      ensures Valid() && nextId == old(nextId)
      ensures ClashesWithOther(old(rows), id, profile) ==> err == Some(UniqueViolation) && rows == old(rows)
      ensures !ClashesWithOther(old(rows), id, profile) ==>
        err == None && rows == old(rows)[id := Reprofiled(old(rows)[id], profile)]
    {
      if ClashesWithOther(rows, id, profile) {
        return Some(UniqueViolation);
      }
      rows := rows[id := Reprofiled(rows[id], profile)];
      err := None;
    }

    /** `update` of the password field alone. */
    method UpdatePassword(id: UserId, passwordHash: string)
      requires Valid() && id in rows
      modifies this
      ensures Valid() && nextId == old(nextId)
      ensures rows == old(rows)[id := old(rows)[id].(password := passwordHash)]
    {
      rows := rows[id := rows[id].(password := passwordHash)];
    }
  }
}
