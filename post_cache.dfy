/** The disposable post cache: Redis hashes of `PostCacheEntity` keyed by post id, as
    `RedisPostRepositoryImpl` reads and writes them
    (`post/infraestructure/repository/RedisPostRepositoryImpl.java`). */
module PostCaching {
  import opened Common
  import opened PostDomain
  import opened PostMapper

  /** The posts a cache holds, read back through the mapper. */
  function CachedView(entries: map<PostId, PostCacheEntity>): map<PostId, Post>
  {
    map k | k in entries :: PostCacheEntityToPost(entries[k])
  }

  ghost predicate AllHaveIds(ps: seq<Post>)
  {
    forall i | 0 <= i < |ps| :: ps[i].id.Some?
  }

  /** The cache after saving the posts of `ps` one after another: each is filed under
      its id, a later post replacing an earlier one with the same id. */
  function SavedAll(entries: map<PostId, PostCacheEntity>, ps: seq<Post>): map<PostId, PostCacheEntity>
    requires AllHaveIds(ps)
  {
    if ps == [] then entries
    else
      var last := ps[|ps| - 1];
      SavedAll(entries, ps[..|ps| - 1])[last.id.value := PostToCacheEntity(last)]
  }

  /** A post that no later post of the list replaces ends up cached under its id. */
  lemma {:induction false} SavedAllAt(entries: map<PostId, PostCacheEntity>, ps: seq<Post>, i: nat)
    requires AllHaveIds(ps) && i < |ps|
    requires forall j | i < j < |ps| :: ps[j].id != ps[i].id
    ensures ps[i].id.value in SavedAll(entries, ps)
    ensures SavedAll(entries, ps)[ps[i].id.value] == PostToCacheEntity(ps[i])
  {
    if i < |ps| - 1 {
      SavedAllAt(entries, ps[..|ps| - 1], i);
    }
  }

  /** An id that no post of the list carries keeps whatever the cache held under it. */
  lemma {:induction false} SavedAllElsewhere(entries: map<PostId, PostCacheEntity>, ps: seq<Post>, k: PostId)
    requires AllHaveIds(ps)
    requires forall i | 0 <= i < |ps| :: ps[i].id != Some(k)
    ensures k in SavedAll(entries, ps) <==> k in entries
    ensures k in entries ==> SavedAll(entries, ps)[k] == entries[k]
  {
    if ps != [] {
      SavedAllElsewhere(entries, ps[..|ps| - 1], k);
    }
  }

  /** Saving a listing of a collection adds that collection to the cache, replacing
      whatever the cache held under the same ids and keeping everything else. */
  lemma SavedListing(entries: map<PostId, PostCacheEntity>, ps: seq<Post>, view: map<PostId, Post>)
    requires Lists(ps, view) && KeyedById(view)
    ensures AllHaveIds(ps)
    ensures CachedView(SavedAll(entries, ps)) == CachedView(entries) + view
  {
    var after := CachedView(SavedAll(entries, ps));
    var expected := CachedView(entries) + view;
    forall k | k in view
      ensures k in after && after[k] == view[k]
    {
      assert view[k] in ps;
      var i :| 0 <= i < |ps| && ps[i] == view[k];
      assert ps[i].id == Some(k);
      SavedAllAt(entries, ps, i);
    }
    forall k | k !in view
      ensures k in after <==> k in entries
      ensures k in entries ==> after[k] == CachedView(entries)[k]
    {
      SavedAllElsewhere(entries, ps, k);
    }
    assert after.Keys == expected.Keys;
    assert after == expected;
  }

  class RedisPostRepository {
    var entries: map<PostId, PostCacheEntity>

    /** Every entry is filed under its own id (the `@Id` of the cache entity). */
    ghost predicate Valid()
      reads this
    {
      forall k | k in entries :: entries[k].id == Some(k)
    }

    /** The cached posts, by id. */
    function Posts(): map<PostId, Post>
      reads this
    {
      CachedView(entries)
    }

    constructor ()
      ensures Valid() && entries == map[]
    {
      entries := map[];
    }

    /** Files `p` under its id, replacing any entry there, and returns it as read back:
        `p` itself. */
    method Save(p: Post) returns (r: Post)
      requires Valid() && p.id.Some?
      modifies this
      ensures Valid()
      ensures entries == old(entries)[p.id.value := PostToCacheEntity(p)]
      ensures Posts() == old(Posts())[p.id.value := p]
      ensures r == p
    {
      entries := entries[p.id.value := PostToCacheEntity(p)];
      r := PostCacheEntityToPost(entries[p.id.value]);
      assert Posts() == old(Posts())[p.id.value := p];
    }

    /** The cached post with this id, if any. */
    function FindById(id: PostId): (r: Option<Post>)
      reads this
      requires Valid()
      ensures r.Some? <==> id in entries
      ensures r.Some? ==> r.value == Posts()[id] && r.value.id == Some(id)
      ensures r.Some? ==> PostToCacheEntity(r.value) == entries[id]
    {
      if id in entries then Some(PostCacheEntityToPost(entries[id])) else None
    }

    /** Every cached post, once each. */
    method FindAll() returns (ps: seq<Post>)
      requires Valid()
      ensures Lists(ps, Posts())
    {
      ps := ListPosts(Posts());
    }

    /** Exactly the cached posts whose user id is `u`. */
    method FindAllByUserId(u: UserId) returns (ps: seq<Post>)
      requires Valid()
      ensures Lists(ps, ByAuthor(Posts(), u))
      ensures forall i | 0 <= i < |ps| :: ps[i].userId == Some(u) && ps[i].id.value in entries
    {
      ps := ListPosts(ByAuthor(Posts(), u));
    }

    /** Removes the entry under this id; an absent id leaves the cache as it was. */
    method DeleteById(id: PostId)
      requires Valid()
      modifies this
      ensures Valid()
      ensures entries == old(entries) - {id}
      ensures Posts() == old(Posts()) - {id}
      ensures id !in old(entries) ==> entries == old(entries)
    {
      entries := entries - {id};
      assert Posts() == old(Posts()) - {id};
    }

    /** Saves every post of `ps`, in order, exactly as `Save` would one by one. */
    method SaveAll(ps: seq<Post>)
      requires Valid() && AllHaveIds(ps)
      modifies this
      ensures Valid()
      ensures entries == SavedAll(old(entries), ps)
    {
      for i := 0 to |ps|
        invariant Valid()
        invariant entries == SavedAll(old(entries), ps[..i])
      {
        var saved := Save(ps[i]);
        assert ps[..i + 1][..i] == ps[..i];
      }
      assert ps[..|ps|] == ps;
    }
  }
}
