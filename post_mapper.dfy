/** Field copies between the post's domain object, its table row, its cache entry
    and its DTOs (`post/infraestructure/mapper/PostMapperImpl.java`). */
module PostMapper {
  import opened Common
  import opened UserDomain
  import opened PostDomain
  import opened UserMapper

  /** A row of the `post` table; the author is the row of the user who wrote it. */
  datatype PostEntity = PostEntity(
    id: Option<PostId>,
    title: string,
    content: string,
    author: UserEntity,
    createdAt: Option<Timestamp>,
    updatedAt: Option<Timestamp>)

  /** A post as the cache holds it, filed under its id. */
  datatype PostCacheEntity = PostCacheEntity(
    id: Option<PostId>,
    title: string,
    content: string,
    authorId: Option<UserId>,
    createdAt: Option<Timestamp>,
    updatedAt: Option<Timestamp>)

  /** The body of a post-creation request. */
  datatype PostRegisterRequestDto = PostRegisterRequestDto(title: string, content: string, userId: Option<UserId>)

  /** A post as returned to clients, with a summary of its author. */
  datatype PostResponseDto = PostResponseDto(
    id: Option<PostId>,
    title: string,
    content: string,
    user: UserDto,
    createdAt: Option<Timestamp>,
    updatedAt: Option<Timestamp>)

  /** The post a stored row stands for: its user id is the author's id. */
  function EntityToPost(e: PostEntity): (p: Post)
    ensures p.userId == e.author.id
    ensures (p.id, p.title, p.content) == (e.id, e.title, e.content)
    ensures (p.createdDate, p.updatedDate) == (e.createdAt, e.updatedAt)
  {
    Post(e.id, e.title, e.content, e.author.id, e.createdAt, e.updatedAt)
  }

  /** The row written for `p` with the given author. Reading it back gives `p` with the
      author's id and no timestamps: the timestamps are left to the database. */
  function PostToEntity(p: Post, author: UserEntity): (e: PostEntity)
    ensures e.author == author
    ensures EntityToPost(e) == p.(userId := author.id, createdDate := None, updatedDate := None)
  {
    PostEntity(p.id, p.title, p.content, author, None, None)
  }

  /** The response for `p`: the post's own fields, and the author's summary built exactly
      as the user mapper builds it. */
  function PostToDto(p: Post, u: User): (d: PostResponseDto)
    ensures d.user == UserToUserDto(u)
    ensures d.user.fullName == FullName(u.firstName, u.lastName)
    ensures (d.id, d.title, d.content) == (p.id, p.title, p.content)
    ensures (d.createdAt, d.updatedAt) == (p.createdDate, p.updatedDate)
  {
    PostResponseDto(p.id, p.title, p.content,
      UserDto(u.id, u.firstName + " " + u.lastName, u.email),
      p.createdDate, p.updatedDate)
  }

  /** A new post from a request: no id and no timestamps yet, and the owner is the
      `userId` argument, not the one in the request body. */
  function RegisterPostToPost(dto: PostRegisterRequestDto, userId: UserId): (p: Post)
    ensures p.id == None && p.createdDate == None && p.updatedDate == None
    ensures p.userId == Some(userId)
    ensures p.title == dto.title && p.content == dto.content
  {
    Post(None, dto.title, dto.content, Some(userId), None, None)
  }

  /** The post a cache entry stands for: its user id is the entry's author id, and the
      other fields are copied across unchanged. */
  function PostCacheEntityToPost(c: PostCacheEntity): (p: Post)
    ensures p.userId == c.authorId
    ensures (p.id, p.title, p.content) == (c.id, c.title, c.content)
    ensures (p.createdDate, p.updatedDate) == (c.createdAt, c.updatedAt)
  {
    Post(c.id, c.title, c.content, c.authorId, c.createdAt, c.updatedAt)
  }

  /** The cache entry for `p`, filed under `p`'s id; reading it back gives `p` exactly. */
  function PostToCacheEntity(p: Post): (c: PostCacheEntity)
    ensures c.id == p.id
    ensures PostCacheEntityToPost(c) == p
  {
    PostCacheEntity(p.id, p.title, p.content, p.userId, p.createdDate, p.updatedDate)
  }

  /** Writing back a cache entry that was read gives the same entry. */
  lemma CacheEntityRoundTrip(c: PostCacheEntity)
    ensures PostToCacheEntity(PostCacheEntityToPost(c)) == c
  {
  }

  /** Writing back a row that was read, with its own author, loses only the timestamps. */
  lemma EntityRoundTrip(e: PostEntity)
    ensures PostToEntity(EntityToPost(e), e.author) == e.(createdAt := None, updatedAt := None)
  {
  }
}
