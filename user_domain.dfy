/** The user as the application layer sees it (`user/domain/User.java`). */
module UserDomain {
  import opened Common

  /** A user. Only the id is ever left unset: by a registration request, before the first save. */
  datatype User = User(id: Option<UserId>, firstName: string, lastName: string, email: string)

  /** `us` lists every user of `view` exactly once, each under its own id, in some order. */
  ghost predicate Lists(us: seq<User>, view: map<UserId, User>)
  {
    && |us| == |view|
    && (forall i | 0 <= i < |us| :: us[i].id.Some? && us[i].id.value in view && view[us[i].id.value] == us[i])
    && (forall k | k in view :: view[k] in us)
    && (forall i, j | 0 <= i < j < |us| :: us[i].id != us[j].id)
  }

  /** Collects the users of `view` into a list, in the order the store yields them. */
  method ListUsers(view: map<UserId, User>) returns (us: seq<User>)
    requires forall k | k in view :: view[k].id == Some(k)
    ensures Lists(us, view)
  {
    var ks := Enumerate(view.Keys);
    us := seq(|ks|, i requires 0 <= i < |ks| => view[ks[i]]);
    forall i | 0 <= i < |ks|
      ensures us[i].id == Some(ks[i])
    {
      assert ks[i] in view;
      assert us[i] == view[ks[i]];
      var k := ks[i];
      assert view[k].id == Some(k);
    }
    forall k | k in view
      ensures view[k] in us
    {
      var i :| 0 <= i < |ks| && ks[i] == k;
      assert us[i] == view[k];
    }
  }
}
