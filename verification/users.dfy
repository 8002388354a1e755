/** The user table and the service that creates, reads, updates, promotes and deletes users. */
module Users {
  import opened Common

  datatype UserRole = USER | OWNER | ADMIN

  /** A stored user. The table keeps only the password's hash, never the password itself. */
  datatype User = User(id: UserId, name: string, email: string, passwordHash: string, role: UserRole)

  datatype CreateUserDto = CreateUserDto(name: string, email: string, password: string, role: UserRole)

  /** The partial form of CreateUserDto: every field may be left out. */
  datatype UpdateUserDto = UpdateUserDto(
    name: Option<string>,
    email: Option<string>,
    password: Option<string>,
    role: Option<UserRole>)

  /** The authenticated caller, as the identity layer supplies it. */
  datatype AuthUser = AuthUser(id: UserId, role: UserRole)

  /** The data record an update hands to the database: the DTO's fields plus an optional new hash. */
  datatype UserData = UserData(
    name: Option<string>,
    email: Option<string>,
    role: Option<UserRole>,
    password: Option<string>,
    passwordHash: Option<string>)

  /** Only an administrator or the user themself may update a user. */
  predicate MayUpdate(caller: AuthUser, id: UserId) {
    caller.role == ADMIN || caller.id == id
  }

  /** The row written by an update carrying `data` (which names no `password` column). */
  function Applied(u: User, data: UserData): (v: User)
    ensures v.id == u.id
  {
    u.(name := data.name.GetOr(u.name),
       email := data.email.GetOr(u.email),
       role := data.role.GetOr(u.role),
       passwordHash := data.passwordHash.GetOr(u.passwordHash))
  }

  /** The table after `id` is made an OWNER: only that user's role changes. */
  function Promoted(users: map<UserId, User>, id: UserId): (r: map<UserId, User>)
    requires id in users
    ensures r.Keys == users.Keys
    ensures r[id].role == OWNER && r[id].(role := users[id].role) == users[id]
    ensures forall k :: k in users && k != id ==> r[k] == users[k]
  {
    users[id := users[id].(role := OWNER)]
  }

  /** Promoting a user twice leaves the same table as promoting them once. */
  lemma PromoteIdempotent(users: map<UserId, User>, id: UserId)
    requires id in users
    ensures Promoted(Promoted(users, id), id) == Promoted(users, id)
  {
  }

  class UserService {
    /** The one-way password hash; its random salt is not modelled. */
    const hash: string -> string
    var users: map<UserId, User>
    var nextId: UserId

    /** Each row is stored under its own id, and every id handed out so far is below `nextId`. */
    ghost predicate Valid()
      reads this
    {
      forall id :: id in users ==> users[id].id == id && id < nextId
    }

    constructor (hash: string -> string)
      ensures Valid() && users == map[] && this.hash == hash
    {
      this.hash := hash;
      users := map[];
      nextId := 0;
    }

    /** Every stored row, each exactly once, in no particular order. */
    method FindAll() returns (rows: seq<User>)
      requires Valid()
      ensures |rows| == |users|
      ensures forall u :: u in rows ==> u.id in users && users[u.id] == u
      ensures forall id :: id in users ==> users[id] in rows
    {
      rows := [];
      var pending := users.Keys;
      while pending != {}
        invariant pending <= users.Keys
        invariant |rows| + |pending| == |users|
        invariant forall u :: u in rows ==> u.id in users && users[u.id] == u && u.id !in pending
        invariant forall id :: id in users && id !in pending ==> users[id] in rows
        decreases |pending|
      {
        var id :| id in pending;
        rows := rows + [users[id]];
        pending := pending - {id};
      }
    }

    /** The row stored under `id`, if any. */
    method FindOne(id: UserId) returns (u: Option<User>)
      requires Valid()
      ensures id in users <==> u.Some?
      ensures u.Some? ==> u.value == users[id] && u.value.id == id
    {
      if id in users {
        u := Some(users[id]);
      } else {
        u := None;
      }
    }

    /** Inserts a new user with the DTO's role whose stored hash is that of the DTO's password. */
    method Create(dto: CreateUserDto) returns (u: User)
      requires Valid()
      modifies this`users, this`nextId
      ensures Valid()
      ensures u.id !in old(users)
      ensures u.name == dto.name && u.email == dto.email
      ensures u.passwordHash == hash(dto.password) && u.role == dto.role
      ensures users == old(users)[u.id := u]
    {
      var passwordHash := hash(dto.password);
      u := User(nextId, dto.name, dto.email, passwordHash, dto.role);
      users := users[nextId := u];
      nextId := nextId + 1;
    }

    /**
     * Builds the data record of an update: a copy of the DTO in which a non-empty password is
     * replaced by its hash. An empty password is falsy and stays in the record as it is.
     */
    method PrepareUpdate(dto: UpdateUserDto) returns (data: UserData)
      ensures data.name == dto.name && data.email == dto.email && data.role == dto.role
      ensures dto.password != Some("") ==> data.password == None
      ensures dto.password == Some("") ==> data.password == Some("") && data.passwordHash == None
      ensures dto.password.Some? && dto.password != Some("") ==> data.passwordHash == Some(hash(dto.password.value))
      ensures dto.password.None? ==> data.passwordHash == None
    {
      data := UserData(dto.name, dto.email, dto.role, dto.password, None);
      if dto.password.Some? && dto.password.value != "" {
        data := data.(passwordHash := Some(hash(dto.password.value)));
        data := data.(password := None);
      }
    }

    /**
     * Updates user `id` on behalf of `caller`. Fails with Forbidden unless the caller is an
     * administrator or the user themself; otherwise the database rejects a record that still
     * carries a plaintext password, or one whose row does not exist.
     */
    method Update(id: UserId, dto: UpdateUserDto, caller: AuthUser) returns (result: Result<User>)
      requires Valid()
      modifies this`users
      ensures Valid()
      ensures result == Err(Forbidden) <==> !MayUpdate(caller, id)
      ensures !result.Ok? ==> users == old(users)
      ensures MayUpdate(caller, id) && dto.password == Some("") ==> result == Err(UnknownArgument)
      ensures MayUpdate(caller, id) && dto.password != Some("") && id !in old(users) ==> result == Err(MissingRecord)
      ensures MayUpdate(caller, id) && dto.password != Some("") && id in old(users) ==>
                result.Ok? && users == old(users)[id := result.value]
      ensures result.Ok? ==>
                var old_u := old(users)[id];
                result.value.id == id &&
                result.value.name == dto.name.GetOr(old_u.name) &&
                result.value.email == dto.email.GetOr(old_u.email) &&
                result.value.role == dto.role.GetOr(old_u.role) &&
                result.value.passwordHash == (if dto.password.Some? then hash(dto.password.value) else old_u.passwordHash)
    {
      if !MayUpdate(caller, id) {
        return Err(Forbidden);
      }
      var data := PrepareUpdate(dto);
      if data.password.Some? {
        return Err(UnknownArgument);
      }
      if id !in users {
        return Err(MissingRecord);
      }
      var updated := Applied(users[id], data);
      users := users[id := updated];
      result := Ok(updated);
    }

    /** Makes user `id` an OWNER, whatever their role was; fails with NotFound when there is none. */
    method PromoteToOwner(id: UserId) returns (result: Result<User>)
      requires Valid()
      modifies this`users
      ensures Valid()
      ensures id !in old(users) ==> result == Err(NotFound) && users == old(users)
      ensures id in old(users) ==> users == Promoted(old(users), id) && result == Ok(users[id])
    {
      if id !in users {
        return Err(NotFound);
      }
      users := Promoted(users, id);
      result := Ok(users[id]);
    }

    /** Deletes user `id` and returns the row; the database fails when there is none. */
    method Remove(id: UserId) returns (result: Result<User>)
      requires Valid()
      modifies this`users
      ensures Valid()
      ensures id !in old(users) ==> result == Err(MissingRecord) && users == old(users)
      ensures id in old(users) ==> result == Ok(old(users)[id]) && users == old(users) - {id}
    {
      if id !in users {
        return Err(MissingRecord);
      }
      result := Ok(users[id]);
      users := users - {id};
    }
  }
}
