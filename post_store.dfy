/** The authoritative post store: the `post` table behind `SpringPostRepository`, as
    `PostPostgresRepository` reads and writes it
    (`post/infraestructure/repository/PostPostgresRepository.java`). */
module PostPersistence {
  import opened Common
  import opened UserMapper
  import opened UserStore
  import opened PostDomain
  import opened PostMapper

  /** The posts a table holds, read back through the mapper. */
  function StoredView(rows: map<PostId, PostEntity>): map<PostId, Post>
  {
    map k | k in rows :: EntityToPost(rows[k])
  }

  /** A row as the database completes it on insert: the identity column assigns the id,
      and both timestamps are set to the moment of the insert. */
  function Inserted(e: PostEntity, id: PostId, now: Timestamp): (row: PostEntity)
    ensures row.id == Some(id) && row.createdAt == Some(now) && row.updatedAt == Some(now)
    ensures row.(id := e.id, createdAt := e.createdAt, updatedAt := e.updatedAt) == e
  {
    e.(id := Some(id), createdAt := Some(now), updatedAt := Some(now))
  }

  class PostPostgresRepository {
    var rows: map<PostId, PostEntity>
    /** The next value of the identity column. */
    var nextId: PostId
    /** The user table this store looks authors up in. */
    const users: UserTable

    /** Every row is filed under its own id, has an author with an id and both
        timestamps, and the identity column has moved past it. */
    ghost predicate Valid()
      reads this, users
    {
      && users.Valid()
      && forall k | k in rows ::
           && rows[k].id == Some(k)
           && rows[k].author.id.Some?
           && rows[k].createdAt.Some? && rows[k].updatedAt.Some?
           && k < nextId
    }

    /** The stored posts, by id. */
    function Posts(): map<PostId, Post>
      reads this
    {
      StoredView(rows)
    }

    constructor (users: UserTable)
      ensures this.users == users && rows == map[]
      ensures users.Valid() ==> Valid()
    {
      this.users := users;
      rows := map[];
      nextId := 1;
    }

    /** Inserts a new post for a known user. On success the store gains exactly one
        post under a fresh id: the given post with that id and both timestamps set. */
    method Save(post: Post, now: Timestamp) returns (r: Result<Post>)
      requires Valid() && post.id == None
      modifies this
      ensures Valid()
      ensures r.Ok? <==> post.userId.Some? && post.userId.value in users.rows
      ensures post.userId == None ==> r == Err(NullId)
      ensures post.userId.Some? && post.userId.value !in users.rows ==> r == Err(UserNotFound)
      ensures r.Err? ==> unchanged(this)
      ensures r.Ok? ==>
        && r.value.id.Some? && r.value.id.value !in old(rows)
        && r.value == post.(id := r.value.id, createdDate := Some(now), updatedDate := Some(now))
        && rows == old(rows)[r.value.id.value :=
             Inserted(PostToEntity(post, users.rows[post.userId.value]), r.value.id.value, now)]
        && Posts() == old(Posts())[r.value.id.value := r.value]
    {
      if post.userId == None {
        return Err(NullId);
      }
      if post.userId.value !in users.rows {
        return Err(UserNotFound);
      }
      var uid := post.userId.value;
      assert users.Valid() && uid in users.rows;
      var author := users.rows[uid];
      assert author.id == Some(uid);
      var id := nextId;
      nextId := nextId + 1;
      var row := Inserted(PostToEntity(post, author), id, now);
      rows := rows[id := row];
      r := Ok(EntityToPost(row));
      assert Posts() == old(Posts())[id := r.value];
    }

    /** Overwrites the title, the content and the author of an existing post; the id and
        the creation time stay. The update time is stamped into the row only when the
        transaction flushes, after the post has been read back, so the returned post still
        carries the previous update time. */
    method Update(post: Post, now: Timestamp) returns (r: Result<Post>)
      requires Valid()
      modifies this
      ensures Valid()
      ensures post.id == None ==> r == Err(NullId)
      ensures post.id.Some? && post.id.value !in old(rows) ==> r == Err(PostNotFound)
      ensures post.id.Some? && post.id.value in old(rows) && post.userId == None ==> r == Err(NullId)
      ensures post.id.Some? && post.id.value in old(rows) && post.userId.Some? && post.userId.value !in users.rows
        ==> r == Err(UserNotFound)
      ensures r.Ok? <==>
        post.id.Some? && post.id.value in old(rows) && post.userId.Some? && post.userId.value in users.rows
      ensures r.Err? ==> unchanged(this)
      ensures nextId == old(nextId)
      ensures r.Ok? ==>
        && r.value.id == post.id
        && r.value == old(Posts())[post.id.value].(title := post.title, content := post.content,
             userId := post.userId)
        && rows == old(rows)[post.id.value := old(rows)[post.id.value].(title := post.title,
             content := post.content, author := users.rows[post.userId.value], updatedAt := Some(now))]
        && Posts() == old(Posts())[post.id.value := r.value.(updatedDate := Some(now))]
    {
      if post.id == None {
        return Err(NullId);
      }
      var id := post.id.value;
      if id !in rows {
        return Err(PostNotFound);
      }
      if post.userId == None {
        return Err(NullId);
      }
      if post.userId.value !in users.rows {
        return Err(UserNotFound);
      }
      var uid := post.userId.value;
      assert users.Valid() && uid in users.rows;
      var author := users.rows[uid];
      assert author.id == Some(uid);
      var row := rows[id];
      row := row.(title := post.title, content := post.content, author := author);
      r := Ok(EntityToPost(row));
      rows := rows[id := row.(updatedAt := Some(now))];
      assert Posts() == old(Posts())[id := r.value.(updatedDate := Some(now))];
    }

    /** The stored post with this id, if any. */
    function FindById(id: PostId): (r: Option<Post>)
      reads this, users
      requires Valid()
      ensures r.Some? <==> id in rows
      ensures r.Some? ==> r.value == Posts()[id] && r.value.id == Some(id)
      ensures r.Some? ==> r.value.createdDate.Some? && r.value.updatedDate.Some?
    {
      if id in rows then Some(EntityToPost(rows[id])) else None
    }

    /** Every stored post, once each. */
    method FindAll() returns (ps: seq<Post>)
      requires Valid()
      ensures Lists(ps, Posts())
    {
      ps := ListPosts(Posts());
    }

    /** Exactly the stored posts written by user `u`. */
    method FindAllByUserId(u: UserId) returns (ps: seq<Post>)
      requires Valid()
      ensures Lists(ps, ByAuthor(Posts(), u))
      ensures forall i | 0 <= i < |ps| :: ps[i].userId == Some(u) && ps[i].id.value in rows
    {
      ps := ListPosts(ByAuthor(Posts(), u));
    }

    /** Removes the post with this id, if any; nothing else changes. */
    method DeleteById(id: PostId)
      requires Valid()
      modifies this
      ensures Valid()
      ensures rows == old(rows) - {id} && nextId == old(nextId)
      ensures Posts() == old(Posts()) - {id}
    {
      rows := rows - {id};
      assert Posts() == old(Posts()) - {id};
    }

    /** The id of the author of the post with this id, if the post exists. */
    function FindUserIdByPostId(postId: PostId): (r: Option<UserId>)
      reads this, users
      requires Valid()
      ensures r.Some? <==> postId in rows
      ensures r.Some? ==> Some(r.value) == Posts()[postId].userId
    {
      if postId in rows then rows[postId].author.id else None
    }
  }
}
