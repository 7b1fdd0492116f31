/** Field copies between the user's domain object, its table row and its DTOs
    (`user/infraestructure/mapper/UserMapperImp.java`). */
module UserMapper {
  import opened Common
  import opened UserDomain

  /** A row of the `app_user` table. */
  datatype UserEntity = UserEntity(id: Option<UserId>, firstName: string, lastName: string, email: string)

  /** The user summary embedded in responses. */
  datatype UserDto = UserDto(id: Option<UserId>, fullName: string, email: string)

  /** The body of a registration or update request. */
  datatype UserRequestDto = UserRequestDto(firstName: string, lastName: string, email: string)

  /** The display name of a user: first name, one space, last name. */
  function FullName(firstName: string, lastName: string): (name: string)
    ensures |name| == |firstName| + 1 + |lastName|
    ensures name[..|firstName|] == firstName && name[|firstName|] == ' '
    ensures name[|firstName| + 1..] == lastName
  {
    firstName + " " + lastName
  }

  /** The user a row stands for: every field copied across unchanged. */
  function EntityToUser(e: UserEntity): (u: User)
    ensures (u.id, u.firstName, u.lastName, u.email) == (e.id, e.firstName, e.lastName, e.email)
  {
    User(e.id, e.firstName, e.lastName, e.email)
  }

  /** Reading back the row written for `u` gives `u`: nothing is lost on the way to the table. */
  function UserToUserEntity(u: User): (e: UserEntity)
    ensures EntityToUser(e) == u
  {
    UserEntity(u.id, u.firstName, u.lastName, u.email)
  }

  function UserToUserDto(u: User): (d: UserDto)
    ensures d.id == u.id && d.email == u.email
    ensures d.fullName == FullName(u.firstName, u.lastName)
  {
    UserDto(u.id, u.firstName + " " + u.lastName, u.email)
  }

  /** A request becomes a user with no id that carries exactly the request's three fields. */
  function UpdateDtoToUser(dto: UserRequestDto): (u: User)
    ensures u.id == None
    ensures UserRequestDto(u.firstName, u.lastName, u.email) == dto
  {
    User(None, dto.firstName, dto.lastName, dto.email)
  }

  /** Writing back a row read from the table gives the same row. */
  lemma EntityRoundTrip(e: UserEntity)
    ensures UserToUserEntity(EntityToUser(e)) == e
  {
  }

  /** When first names hold no space, the display name determines both names. */
  lemma FullNameUnambiguous(first1: string, last1: string, first2: string, last2: string)
    requires ' ' !in first1 && ' ' !in first2
    requires FullName(first1, last1) == FullName(first2, last2)
    ensures first1 == first2 && last1 == last2
  {
  }

  /** Without that condition two different users can share a display name. */
  lemma FullNameAmbiguous()
    ensures FullName("Ana Maria", "Lopez") == FullName("Ana", "Maria Lopez")
  {
  }
}
