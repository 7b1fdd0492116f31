/** The `app_user` table, reached through `SpringUserRepository` and its pass-through
    wrapper `SqlUserRepository`: a map from user id to row. */
module UserStore {
  import opened Common
  import opened UserDomain
  import opened UserMapper

  class UserTable {
    var rows: map<UserId, UserEntity>
    /** The next value of the identity column. */
    var nextId: UserId

    /** Every row is filed under its own id, and the identity column has moved past it. */
    ghost predicate Valid()
      reads this
    {
      forall k | k in rows :: rows[k].id == Some(k) && k < nextId
    }

    /** The users as the repository returns them, by id. */
    function Users(): map<UserId, User>
      reads this
    {
      map k | k in rows :: EntityToUser(rows[k])
    }

    /** Some user already has this email (`finByEmail(email).isPresent()`). */
    predicate EmailTaken(email: string)
      reads this
    {
      exists k | k in rows :: rows[k].email == email
    }

    /** No two users share an email. */
    ghost predicate EmailsUnique()
      reads this
    {
      forall j, k | j in rows && k in rows && j != k :: rows[j].email != rows[k].email
    }

    constructor ()
      ensures Valid() && rows == map[]
    {
      rows := map[];
      nextId := 1;
    }
  }
}
