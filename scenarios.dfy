/** Whole flows through the services, built on fresh tables, and properties that relate
    several calls. */
module Scenarios {
  import opened Common
  import opened UserDomain
  import opened UserMapper
  import opened UserStore
  import opened UserApplication
  import opened PostDomain
  import opened PostMapper
  import opened PostPersistence
  import opened PostCaching
  import opened PostApplication

  /** Register a user, create a post for them and render it, read it back, delete it;
      afterwards the post can be neither read nor deleted again. */
  method CreateReadDelete(now: Timestamp)
    returns (created: PostResponseDto, read: Result<Post>, gone: Result<Post>, again: Result<()>)
    ensures created.user.fullName == "Juan Gonzales"
    ensures created.title == "T" && created.content == "0123456789"
    ensures created.createdAt == Some(now) && created.updatedAt == Some(now)
    ensures read.Ok? && read.value.id == created.id && read.value.title == "T"
    ensures gone == Err(PostNotFound)
    ensures again == Err(PostNotFound)
  {
    var table := new UserTable();
    var userService := new UserService(table);
    var registered := userService.CreateUser(User(None, "Juan", "Gonzales", "juan@example.com"));
    var author := registered.value;
    var uid := author.id.value;

    var store := new PostPostgresRepository(table);
    var cache := new RedisPostRepository();
    var posts := new PostService(store, cache, table);
    var request := PostRegisterRequestDto("T", "0123456789", Some(uid));
    var saved := posts.Save(RegisterPostToPost(request, uid), now);
    var post := saved.value;
    var id := post.id.value;
    assert FullName("Juan", "Gonzales") == "Juan Gonzales";
    created := PostToDto(post, author);

    read := posts.FindById(id);
    var deleted := posts.Delete(id);
    gone := posts.FindById(id);
    again := posts.Delete(id);
  }

  /** Reading one post into an empty cache hides every other stored post from the next
      listing: a non-empty cache is taken to be complete. */
  method StaleListing(now: Timestamp) returns (listed: seq<Post>, stored: nat, hidden: Post)
    ensures |listed| == 1 && listed[0].title == "first"
    ensures stored == 2
    ensures hidden.title == "second" && hidden !in listed
  {
    var table := new UserTable();
    var userService := new UserService(table);
    var registered := userService.CreateUser(User(None, "Ana", "Lopez", "ana@example.com"));
    var uid := registered.value.id.value;

    var store := new PostPostgresRepository(table);
    var cache := new RedisPostRepository();
    var first := store.Save(Post(None, "first", "0123456789", Some(uid), None, None), now);
    var second := store.Save(Post(None, "second", "0123456789", Some(uid), None, None), now);
    stored := |store.Posts()|;

    var posts := new PostService(store, cache, table);
    var read := posts.FindById(first.value.id.value);
    listed := posts.FindAll();
    assert cache.Posts() == map[first.value.id.value := first.value];
    hidden := second.value;
    ListsOmits(listed, cache.Posts(), hidden);
  }

  /** After an update the cache holds the post as the store returned it, with the update
      time it had before, while the stored row carries the time of the update. */
  method UpdateLeavesStaleUpdateTime(created: Timestamp, updated: Timestamp)
    returns (cached: Option<Post>, stored: Option<Post>)
    ensures cached.Some? && stored.Some?
    ensures cached.value.updatedDate == Some(created) && stored.value.updatedDate == Some(updated)
    ensures cached.value.title == "new" && stored.value.title == "new"
    ensures created != updated ==> cached != stored
  {
    var table := new UserTable();
    var userService := new UserService(table);
    var registered := userService.CreateUser(User(None, "Ana", "Lopez", "ana@example.com"));
    var uid := registered.value.id.value;

    var store := new PostPostgresRepository(table);
    var cache := new RedisPostRepository();
    var posts := new PostService(store, cache, table);
    var saved := posts.Save(Post(None, "old", "0123456789", Some(uid), None, None), created);
    var id := saved.value.id.value;
    var changed := posts.Update(saved.value.(title := "new"), updated);
    cached := cache.FindById(id);
    stored := store.FindById(id);
  }

  /** Reading the same id twice gives the same answer: a miss that the store answers
      leaves the post in the cache, where the second read finds it. */
  method ReadTwice(posts: PostService, id: PostId) returns (first: Result<Post>, second: Result<Post>)
    requires posts.Valid()
    modifies posts.cache
    ensures first == second
  {
    first := posts.FindById(id);
    second := posts.FindById(id);
  }

  /** A post saved to the cache is found there under its id, equal in every field. */
  method CacheSaveThenFind(cache: RedisPostRepository, p: Post) returns (found: Option<Post>)
    requires cache.Valid() && p.id.Some?
    modifies cache
    ensures found == Some(p)
  {
    var saved := cache.Save(p);
    found := cache.FindById(p.id.value);
  }

  /** Updating a user does not check the new email against the other users, so two
      users can end up sharing one. */
  method UpdateCanDuplicateEmail() returns (ana: User, bob: User)
    ensures ana.email == bob.email && ana.id != bob.id
  {
    var table := new UserTable();
    var userService := new UserService(table);
    var createdAna := userService.CreateUser(User(None, "Ana", "Lopez", "ana@example.com"));
    var createdBob := userService.CreateUser(User(None, "Bob", "Ruiz", "bob@example.com"));
    ana := createdAna.value;
    var updated := userService.Update(createdBob.value.(email := "ana@example.com"));
    bob := updated.value;
  }
}
