/** Registration, update and lookup of users (`user/application/UserServiceImpl.java`). */
module UserApplication {
  import opened Common
  import opened UserDomain
  import opened UserMapper
  import opened UserStore

  class UserService {
    const table: UserTable

    constructor (table: UserTable)
      ensures this.table == table
    {
      this.table := table;
    }

    /** Registers a new user unless the email is already taken; the new user gets a
        fresh id and otherwise exactly the given fields. */
    method CreateUser(user: User) returns (r: Result<User>)
      requires table.Valid() && user.id == None
      modifies table
      ensures table.Valid()
      ensures r.Err? <==> old(table.EmailTaken(user.email))
      ensures r.Err? ==> r.error == EmailInUse && unchanged(table)
      ensures r.Ok? ==>
        && r.value.id.Some? && r.value.id.value !in old(table.rows)
        && r.value == user.(id := r.value.id)
        && table.rows == old(table.rows)[r.value.id.value := UserToUserEntity(r.value)]
        && table.Users() == old(table.Users())[r.value.id.value := r.value]
      ensures old(table.EmailsUnique()) ==> table.EmailsUnique()
    {
      if table.EmailTaken(user.email) {
        return Err(EmailInUse);
      }
      var id := table.nextId;
      table.nextId := id + 1;
      table.rows := table.rows[id := UserToUserEntity(user.(id := Some(id)))];
      r := Ok(EntityToUser(table.rows[id]));
    }

    /** Overwrites the names and the email of an existing user and keeps its id. The
        email is not checked against the other users. */
    method Update(user: User) returns (r: Result<User>)
      requires table.Valid()
      modifies table
      ensures table.Valid()
      ensures user.id == None ==> r == Err(NullId)
      ensures user.id.Some? && user.id.value !in old(table.rows) ==> r == Err(UserNotFound)
      ensures r.Ok? <==> user.id.Some? && user.id.value in old(table.rows)
      ensures r.Err? ==> unchanged(table)
      ensures r.Ok? ==>
        && user.id.Some? && user.id.value in old(table.rows)
        && r.value == old(table.Users())[user.id.value].(firstName := user.firstName, lastName := user.lastName, email := user.email)
        && r.value == user
        && table.rows == old(table.rows)[user.id.value := UserToUserEntity(r.value)]
        && table.Users() == old(table.Users())[user.id.value := r.value]
        && table.nextId == old(table.nextId)
    {
      if user.id == None {
        return Err(NullId);
      }
      var id := user.id.value;
      if id !in table.rows {
        return Err(UserNotFound);
      }
      var existing := EntityToUser(table.rows[id]);
      existing := existing.(firstName := user.firstName, lastName := user.lastName, email := user.email);
      table.rows := table.rows[id := UserToUserEntity(existing)];
      r := Ok(EntityToUser(table.rows[id]));
    }

    /** Every registered user, once each. */
    method FindAll() returns (us: seq<User>)
      requires table.Valid()
      ensures Lists(us, table.Users())
    {
      us := ListUsers(table.Users());
    }

    /** The user with this id, if there is one. */
    function FindById(id: UserId): (r: Option<User>)
      reads table
      requires table.Valid()
      ensures r.Some? <==> id in table.rows
      ensures r.Some? ==> r.value.id == Some(id) && r.value == table.Users()[id]
    {
      if id in table.rows then Some(EntityToUser(table.rows[id])) else None
    }
  }
}
