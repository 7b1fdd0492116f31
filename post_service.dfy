/** The cache-aside orchestration of posts (`post/application/PostServiceImpl.java`):
    reads are served from the cache and fall back to the store, filling the cache;
    writes go to the store and are then mirrored into the cache. */
module PostApplication {
  import opened Common
  import opened PostDomain
  import opened PostMapper
  import opened UserStore
  import opened PostPersistence
  import opened PostCaching

  class PostService {
    const store: PostPostgresRepository
    const cache: RedisPostRepository
    const users: UserTable

    /** The repositories are well formed and the store looks authors up in the same
        user table as the service. */
    ghost predicate Valid()
      reads this, store, cache, users
    {
      store.users == users && store.Valid() && cache.Valid()
    }

    /** The cache holds no post the store lacks, and each cached post equals the stored
        one. Every operation but `Update` keeps this; none of them needs it. */
    ghost predicate Coherent()
      reads this, store, cache
    {
      Submap(cache.Posts(), store.Posts())
    }

    /** The cache holds no post the store lacks, and each cached post equals the stored
        one except perhaps in its update time. Every operation keeps this. */
    ghost predicate CoherentButUpdateTime()
      reads this, store, cache
    {
      SubmapButUpdateTime(cache.Posts(), store.Posts())
    }

    constructor (store: PostPostgresRepository, cache: RedisPostRepository, users: UserTable)
      requires store.users == users && store.Valid() && cache.Valid()
      ensures this.store == store && this.cache == cache && this.users == users
      ensures Valid()
    {
      this.store := store;
      this.cache := cache;
      this.users := users;
    }

    /** A non-empty cache is returned as it is, even when the store holds more posts.
        An empty cache is refilled with everything the store holds. */
    method FindAll() returns (ps: seq<Post>)
      requires Valid()
      modifies cache
      ensures Valid() && unchanged(store)
      ensures old(cache.Posts()) != map[] ==> Lists(ps, old(cache.Posts())) && unchanged(cache)
      ensures old(cache.Posts()) == map[] ==> Lists(ps, store.Posts()) && cache.Posts() == store.Posts()
      ensures old(cache.Posts()) == map[] && ps == [] ==> unchanged(cache)
      ensures old(Coherent()) ==> Coherent()
      ensures old(CoherentButUpdateTime()) ==> CoherentButUpdateTime()
    {
      ps := cache.FindAll();
      ListsEmpty(ps, cache.Posts());
      if ps != [] {
        return;
      }
      ps := store.FindAll();
      ListsEmpty(ps, store.Posts());
      if ps != [] {
        SavedListing(cache.entries, ps, store.Posts());
        cache.SaveAll(ps);
      }
    }

    /** A cached post is returned without consulting the store. Otherwise the stored
        post is returned and cached; a post in neither is not found. */
    method FindById(id: PostId) returns (r: Result<Post>)
      requires Valid()
      modifies cache
      ensures Valid() && unchanged(store)
      ensures r.Ok? ==> r.value.id == Some(id)
      ensures id in old(cache.Posts()) ==> r == Ok(old(cache.Posts())[id]) && unchanged(cache)
      ensures id !in old(cache.Posts()) && id !in store.Posts() ==> r == Err(PostNotFound) && unchanged(cache)
      ensures id !in old(cache.Posts()) && id in store.Posts() ==>
        && r == Ok(store.Posts()[id])
        && cache.Posts() == old(cache.Posts())[id := r.value]
      ensures old(Coherent()) ==> Coherent()
      ensures old(CoherentButUpdateTime()) ==> CoherentButUpdateTime()
    {
      var cached := cache.FindById(id);
      if cached.Some? {
        return Ok(cached.value);
      }
      var stored := store.FindById(id);
      if stored.None? {
        return Err(PostNotFound);
      }
      var saved := cache.Save(stored.value);
      r := Ok(stored.value);
    }

    /** A non-empty cached list of the user's posts is returned as it is, without
        checking that the user exists. Otherwise an unknown user is an error, and the
        user's stored posts are returned and, when there are any, cached. */
    method FindAllByUserId(u: UserId) returns (r: Result<seq<Post>>)
      requires Valid()
      modifies cache
      ensures Valid() && unchanged(store)
      ensures ByAuthor(old(cache.Posts()), u) != map[] ==>
        r.Ok? && Lists(r.value, ByAuthor(old(cache.Posts()), u)) && unchanged(cache)
      ensures ByAuthor(old(cache.Posts()), u) == map[] && u !in users.rows ==>
        r == Err(UserNotFound) && unchanged(cache)
      ensures ByAuthor(old(cache.Posts()), u) == map[] && u in users.rows ==>
        && r.Ok? && Lists(r.value, ByAuthor(store.Posts(), u))
        && cache.Posts() == old(cache.Posts()) + ByAuthor(store.Posts(), u)
        && (r.value == [] ==> unchanged(cache))
      ensures old(Coherent()) ==> Coherent()
      ensures old(CoherentButUpdateTime()) ==> CoherentButUpdateTime()
    {
      var cached := cache.FindAllByUserId(u);
      ListsEmpty(cached, ByAuthor(cache.Posts(), u));
      if cached != [] {
        return Ok(cached);
      }
      if u !in users.rows {
        return Err(UserNotFound);
      }
      var ps := store.FindAllByUserId(u);
      ListsEmpty(ps, ByAuthor(store.Posts(), u));
      if ps != [] {
        ByAuthorWithin(store.Posts(), u);
        Fill(ps, ByAuthor(store.Posts(), u));
      }
      r := Ok(ps);
    }

    /** Saves into the cache a listing of some of the stored posts: the cache view gains
        exactly those posts, and both forms of coherence are kept. */
    method Fill(ps: seq<Post>, ghost loaded: map<PostId, Post>)
      requires Valid() && Lists(ps, loaded) && Submap(loaded, store.Posts())
      modifies cache
      ensures Valid()
      ensures cache.Posts() == old(cache.Posts()) + loaded
      ensures old(Coherent()) ==> Coherent()
      ensures old(CoherentButUpdateTime()) ==> CoherentButUpdateTime()
    {
      assert KeyedById(loaded) by {
        forall k | k in loaded
          ensures loaded[k].id == Some(k)
        {
          assert store.Posts()[k] == EntityToPost(store.rows[k]);
        }
      }
      SavedListing(cache.entries, ps, loaded);
      if Coherent() {
        SubmapAdd(cache.Posts(), loaded, store.Posts());
      }
      if CoherentButUpdateTime() {
        SubmapButUpdateTimeAdd(cache.Posts(), loaded, store.Posts());
      }
      cache.SaveAll(ps);
    }

    /** Creates a post for a known user: the store assigns the id and timestamps, and
        the stored post is mirrored into the cache. An unknown user changes nothing. */
    method Save(post: Post, now: Timestamp) returns (r: Result<Post>)
      requires Valid() && post.id == None
      modifies store, cache
      ensures Valid()
      ensures r.Ok? <==> post.userId.Some? && post.userId.value in users.rows
      ensures post.userId == None ==> r == Err(NullId)
      ensures post.userId.Some? && post.userId.value !in users.rows ==> r == Err(UserNotFound)
      ensures r.Err? ==> unchanged(store) && unchanged(cache)
      ensures r.Ok? ==>
        && r.value.id.Some? && r.value.id.value !in old(store.Posts())
        && r.value == post.(id := r.value.id, createdDate := Some(now), updatedDate := Some(now))
        && store.Posts() == old(store.Posts())[r.value.id.value := r.value]
        && cache.Posts() == old(cache.Posts())[r.value.id.value := r.value]
      ensures old(Coherent()) ==> Coherent()
      ensures old(CoherentButUpdateTime()) ==> CoherentButUpdateTime()
    {
      if post.userId == None {
        return Err(NullId);
      }
      if post.userId.value !in users.rows {
        return Err(UserNotFound);
      }
      r := store.Save(post, now);
      var saved := cache.Save(r.value);
    }

    /** Overwrites title, content and author of an existing post for a known user, in
        the store and then in the cache. Any failure changes nothing. The post cached is
        the one the store returned, which still carries the previous update time while
        the stored row gets the new one: the two copies then differ in that field. */
    method Update(post: Post, now: Timestamp) returns (r: Result<Post>)
      requires Valid()
      modifies store, cache
      ensures Valid()
      ensures post.userId == None ==> r == Err(NullId)
      ensures post.userId.Some? && post.userId.value !in users.rows ==> r == Err(UserNotFound)
      ensures post.userId.Some? && post.userId.value in users.rows && post.id == None ==> r == Err(NullId)
      ensures post.userId.Some? && post.userId.value in users.rows && post.id.Some? && post.id.value !in old(store.Posts())
        ==> r == Err(PostNotFound)
      ensures r.Ok? <==>
        post.userId.Some? && post.userId.value in users.rows && post.id.Some? && post.id.value in old(store.Posts())
      ensures r.Err? ==> unchanged(store) && unchanged(cache)
      ensures r.Ok? ==>
        && r.value == old(store.Posts())[post.id.value].(title := post.title, content := post.content,
             userId := post.userId)
        && store.Posts() == old(store.Posts())[post.id.value := r.value.(updatedDate := Some(now))]
        && cache.Posts() == old(cache.Posts())[post.id.value := r.value]
      ensures old(Coherent()) && r.Err? ==> Coherent()
      ensures old(Coherent()) && r.Ok? ==> Submap(cache.Posts() - {post.id.value}, store.Posts())
      ensures old(CoherentButUpdateTime()) ==> CoherentButUpdateTime()
    {
      if post.userId == None {
        return Err(NullId);
      }
      if post.userId.value !in users.rows {
        return Err(UserNotFound);
      }
      r := store.Update(post, now);
      if r.Err? {
        return;
      }
      var saved := cache.Save(r.value);
    }

    /** Deletes a stored post from the store and then from the cache; an id the store
        lacks is an error and changes nothing. */
    method Delete(id: PostId) returns (r: Result<()>)
      requires Valid()
      modifies store, cache
      ensures Valid()
      ensures id !in old(store.Posts()) ==> r == Err(PostNotFound) && unchanged(store) && unchanged(cache)
      ensures id in old(store.Posts()) ==>
        && r == Ok(())
        && store.Posts() == old(store.Posts()) - {id}
        && cache.Posts() == old(cache.Posts()) - {id}
      ensures old(Coherent()) ==> Coherent()
      ensures old(CoherentButUpdateTime()) ==> CoherentButUpdateTime()
    {
      var found := store.FindById(id);
      if found.None? {
        return Err(PostNotFound);
      }
      store.DeleteById(id);
      cache.DeleteById(id);
      r := Ok(());
    }
  }
}
