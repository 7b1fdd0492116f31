/** The post as the application layer sees it (`post/domain/Post.java`), and the
    relations between lists of posts and keyed collections of them. */
module PostDomain {
  import opened Common

  /** A post. The id and both timestamps are unset until the store assigns them. */
  datatype Post = Post(
    id: Option<PostId>,
    title: string,
    content: string,
    userId: Option<UserId>,
    createdDate: Option<Timestamp>,
    updatedDate: Option<Timestamp>)

  /** Every post of `view` is filed under its own id. */
  ghost predicate KeyedById(view: map<PostId, Post>)
  {
    forall k | k in view :: view[k].id == Some(k)
  }

  /** `ps` lists every post of `view` exactly once, each under its own id, in some order. */
  ghost predicate Lists(ps: seq<Post>, view: map<PostId, Post>)
  {
    && |ps| == |view|
    && (forall i | 0 <= i < |ps| :: ps[i].id.Some? && ps[i].id.value in view && view[ps[i].id.value] == ps[i])
    && (forall k | k in view :: view[k] in ps)
    && (forall i, j | 0 <= i < j < |ps| :: ps[i].id != ps[j].id)
  }

  /** The posts of `view` written by user `u`. */
  function ByAuthor(view: map<PostId, Post>, u: UserId): map<PostId, Post>
  {
    map k | k in view && view[k].userId == Some(u) :: view[k]
  }

  /** Every entry of `a` is also in `b`, with the same post. */
  ghost predicate Submap(a: map<PostId, Post>, b: map<PostId, Post>)
  {
    forall k | k in a :: k in b && a[k] == b[k]
  }

  /** Two posts that agree in every field except possibly the update time. */
  predicate SameButUpdateTime(p: Post, q: Post)
  {
    p.(updatedDate := None) == q.(updatedDate := None)
  }

  /** Every entry of `a` is also in `b`, with the same post up to its update time. */
  ghost predicate SubmapButUpdateTime(a: map<PostId, Post>, b: map<PostId, Post>)
  {
    forall k | k in a :: k in b && SameButUpdateTime(a[k], b[k])
  }

  /** The posts of one author are some of the posts of the collection. */
  lemma ByAuthorWithin(view: map<PostId, Post>, u: UserId)
    ensures Submap(ByAuthor(view, u), view)
  {
  }

  /** Adding to `a` posts taken from `b` keeps `a` within `b`. */
  lemma SubmapAdd(a: map<PostId, Post>, extra: map<PostId, Post>, b: map<PostId, Post>)
    requires Submap(a, b) && Submap(extra, b)
    ensures Submap(a + extra, b)
  {
  }

  /** Adding to `a` posts taken from `b` keeps `a` within `b` up to update times. */
  lemma SubmapButUpdateTimeAdd(a: map<PostId, Post>, extra: map<PostId, Post>, b: map<PostId, Post>)
    requires SubmapButUpdateTime(a, b) && Submap(extra, b)
    ensures SubmapButUpdateTime(a + extra, b)
  {
  }

  /** Collects the posts of `view` into a list, in the order the store yields them. */
  method ListPosts(view: map<PostId, Post>) returns (ps: seq<Post>)
    requires KeyedById(view)
    ensures Lists(ps, view)
  {
    var ks := Enumerate(view.Keys);
    ps := seq(|ks|, i requires 0 <= i < |ks| => view[ks[i]]);
    forall i | 0 <= i < |ks|
      ensures ps[i].id == Some(ks[i])
    {
      assert ks[i] in view;
      assert ps[i] == view[ks[i]];
      var k := ks[i];
      assert view[k].id == Some(k);
    }
    forall k | k in view
      ensures view[k] in ps
    {
      var i :| 0 <= i < |ks| && ks[i] == k;
      assert ps[i] == view[k];
    }
  }

  /** A list of a collection is empty exactly when the collection is. */
  lemma ListsEmpty(ps: seq<Post>, view: map<PostId, Post>)
    requires Lists(ps, view)
    ensures ps == [] <==> view == map[]
  {
  }

  /** A list of a collection misses every post filed only elsewhere: what a partial
      cache returns never shows a stored post that the cache lacks. */
  lemma ListsOmits(ps: seq<Post>, view: map<PostId, Post>, p: Post)
    requires Lists(ps, view)
    requires p.id.Some? && p.id.value !in view
    ensures p !in ps
  {
  }
}
