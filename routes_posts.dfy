/**
 * The handlers of routes/api/posts.js, each run behind the auth middleware:
 * creating a post as the caller, listing every post newest first, fetching
 * one post by id and deleting one of the caller's own posts.
 */
module PostRoutes {
  import opened Http
  import opened Models
  import opened AuthGate

  const PostRules := [Rule("text", "Text is required")]

  const NoPostText := "No post for this id"
  const ServerErrorText := "Server Error"
  const UnauthorizedText := "Unauthorized access!"
  const PostRemovedMsg := "Post Removed"

  /** `sort({ date: -1 })`: no post is older than one after it. */
  predicate NewestFirst(ps: seq<Post>)
  {
    forall i, j | 0 <= i < j < |ps| :: ps[i].date >= ps[j].date
  }

  /** Places `p` into a newest-first list ahead of every post not newer than it. */
  function InsertByDate(p: Post, ps: seq<Post>): (r: seq<Post>)
    requires NewestFirst(ps)
    ensures NewestFirst(r)
    ensures multiset(r) == multiset(ps) + multiset{p}
    ensures forall q | q in r :: q == p || q in ps
  {
    if ps == [] then [p]
    else if p.date >= ps[0].date then
      NewerThanAll(p, ps);
      [p] + ps
    else
      var rest := InsertByDate(p, ps[1..]);
      assert ps == [ps[0]] + ps[1..];
      NewerThanAll(ps[0], rest);
      [ps[0]] + rest
  }

  /** A post not older than the head of a newest-first list can go in front of it. */
  lemma NewerThanAll(x: Post, ps: seq<Post>)
    requires NewestFirst(ps)
    requires ps == [] || x.date >= ps[0].date || forall q | q in ps :: x.date >= q.date
    ensures NewestFirst([x] + ps)
  {
    var r := [x] + ps;
    forall i, j | 0 <= i < j < |r|
      ensures r[i].date >= r[j].date
    {
      if i == 0 {
        assert r[j] == ps[j - 1] && ps[j - 1] in ps;
      } else {
        assert r[i] == ps[i - 1] && r[j] == ps[j - 1];
      }
    }
  }

  /** The posts as `Post.find().sort({ date: -1 })` returns them: the same posts, newest first. */
  function SortByDate(ps: seq<Post>): (r: seq<Post>)
    ensures NewestFirst(r)
    ensures multiset(r) == multiset(ps)
  {
    if ps == [] then []
    else
      assert ps == [ps[0]] + ps[1..];
      InsertByDate(ps[0], SortByDate(ps[1..]))
  }

  /** A list already newest first is returned as it is, so sorting twice is sorting once. */
  lemma {:induction false} SortNewestFirstUnchanged(ps: seq<Post>)
    requires NewestFirst(ps)
    ensures SortByDate(ps) == ps
  {
    if ps != [] {
      SortNewestFirstUnchanged(ps[1..]);
      assert ps == [ps[0]] + ps[1..];
    }
  }

  /** Sorting is idempotent. */
  lemma SortIdempotent(ps: seq<Post>)
    ensures SortByDate(SortByDate(ps)) == SortByDate(ps)
  {
    SortNewestFirstUnchanged(SortByDate(ps));
  }

  /** The post `new Post({ text, name, avatar, user })` describes, stamped `now` and saved under `id`. */
  function NewPost(id: PostId, caller: UserId, text: string, author: User, now: int): (p: Post)
    ensures p.id == id && p.user == caller && p.text == text && p.date == now
    ensures p.name == author.name && p.avatar == author.avatar
  {
    Post(id, caller, text, author.name, author.avatar, now)
  }

  /**
   * `Post.findById(id).remove()`: the post with that id goes, every other
   * post stays, in order.
   */
  function RemovePost(ps: seq<Post>, id: PostId): (qs: seq<Post>)
    ensures |qs| <= |ps|
    ensures forall q | q in qs :: q in ps && q.id != id
    ensures forall q | q in ps && q.id != id :: q in qs
  {
    if ps == [] then []
    else
      var rest := RemovePost(ps[1..], id);
      assert ps == [ps[0]] + ps[1..];
      if ps[0].id == id then rest else [ps[0]] + rest
  }

  /** Removing a post keeps the ids unique. */
  lemma {:induction false} RemovePostKeepsUnique(ps: seq<Post>, id: PostId)
    requires UniquePostIds(ps)
    ensures UniquePostIds(RemovePost(ps, id))
  {
    if ps != [] {
      assert UniquePostIds(ps[1..]);
      RemovePostKeepsUnique(ps[1..], id);
      var rest := RemovePost(ps[1..], id);
      assert forall q | q in ps[1..] :: q.id != ps[0].id;
    }
  }

  /** With unique ids, removing the post at `i` by its id takes out exactly that position. */
  lemma RemovePostAt(ps: seq<Post>, i: int)
    requires UniquePostIds(ps) && 0 <= i < |ps|
    ensures RemovePost(ps, ps[i].id) == ps[..i] + ps[i + 1..]
  {
    forall k | 0 <= k < |ps| && k != i
      ensures ps[k].id != ps[i].id
    {
      if k < i { assert ps[k].id != ps[i].id; } else { assert ps[i].id != ps[k].id; }
    }
    RemoveOnlyPostAt(ps, i);
  }

  /** Removing the id of the post at `i`, when no other post has that id. */
  lemma {:induction false} RemoveOnlyPostAt(ps: seq<Post>, i: int)
    requires 0 <= i < |ps|
    requires forall k | 0 <= k < |ps| && k != i :: ps[k].id != ps[i].id
    ensures RemovePost(ps, ps[i].id) == ps[..i] + ps[i + 1..]
    decreases i
  {
    var id := ps[i].id;
    var tail := ps[1..];
    if i == 0 {
      forall q | q in tail
        ensures q.id != id
      {
        var k :| 0 <= k < |tail| && tail[k] == q;
        assert ps[k + 1] == q;
      }
      RemoveAbsentPost(tail, id);
      RemovePostDropsHead(ps, id);
      DropAt(ps, 0);
    } else {
      forall k | 0 <= k < |tail| && k != i - 1
        ensures tail[k].id != tail[i - 1].id
      {
        assert tail[k] == ps[k + 1];
      }
      RemoveOnlyPostAt(tail, i - 1);
      assert ps[0].id != id;
      RemovePostKeepsHead(ps, id);
      DropAt(ps, i);
    }
  }

  /** A first post with the id goes, and the removal continues in the rest. */
  lemma RemovePostDropsHead(ps: seq<Post>, id: PostId)
    requires ps != [] && ps[0].id == id
    ensures RemovePost(ps, id) == RemovePost(ps[1..], id)
  {
  }

  /** A first post with another id survives the removal, ahead of the rest. */
  lemma RemovePostKeepsHead(ps: seq<Post>, id: PostId)
    requires ps != [] && ps[0].id != id
    ensures RemovePost(ps, id) == [ps[0]] + RemovePost(ps[1..], id)
  {
  }

  /** Dropping position `i` of a list, in terms of its tail. */
  lemma DropAt<T>(xs: seq<T>, i: int)
    requires 0 <= i < |xs|
    ensures i == 0 ==> xs[..i] + xs[i + 1..] == xs[1..]
    ensures i > 0 ==> xs[..i] + xs[i + 1..] == [xs[0]] + (xs[1..][..i - 1] + xs[1..][i..])
  {
    if i > 0 {
      assert xs[..i] == [xs[0]] + xs[1..][..i - 1];
      assert xs[i + 1..] == xs[1..][i..];
    } else {
      assert xs[..i] == [];
    }
  }

  /** Removing an id no post has changes nothing. */
  lemma {:induction false} RemoveAbsentPost(ps: seq<Post>, id: PostId)
    requires forall q | q in ps :: q.id != id
    ensures RemovePost(ps, id) == ps
  {
    if ps != [] {
      RemoveAbsentPost(ps[1..], id);
      assert ps == [ps[0]] + ps[1..];
    }
  }

  /**
   * POST /: a body without text is refused with the validation errors; a
   * caller with no user record makes the handler dereference nothing and
   * answer 500; a save under an id already taken fails with 500; otherwise
   * the new post is appended and returned.
   */
  method CreatePost(db: Db, caller: UserId, body: Body, newId: PostId, now: int) returns (res: Response<Post>)
    requires db.Valid()
    modifies db`posts
    ensures db.Valid()
    ensures Validate(body, PostRules) != [] ==>
      res == Response(StatusBadRequest, Errors(Validate(body, PostRules))) && db.posts == old(db.posts)
    ensures Validate(body, PostRules) == [] && (caller !in db.users || PostIndex(old(db.posts), newId) >= 0) ==>
      res == Response(StatusServerError, Text(ServerErrorText)) && db.posts == old(db.posts)
    ensures Validate(body, PostRules) == [] && caller in db.users && PostIndex(old(db.posts), newId) < 0 ==>
      var p := NewPost(newId, caller, body["text"], db.users[caller], now);
      db.posts == old(db.posts) + [p] && res == Response(StatusOk, One(p))
  {
    var errs := Validate(body, PostRules);
    if errs != [] {
      return Response(StatusBadRequest, Errors(errs));
    }
    assert PostRules[0].param == "text";
    if caller !in db.users {
      return Response(StatusServerError, Text(ServerErrorText));
    }
    var author := db.users[caller];
    if PostIndex(db.posts, newId) >= 0 {
      return Response(StatusServerError, Text(ServerErrorText));
    }
    var p := NewPost(newId, caller, body["text"], author, now);
    db.posts := db.posts + [p];
    res := Response(StatusOk, One(p));
  }

  /** GET /: every stored post, newest first, each exactly as often as it is stored. */
  method ListPosts(db: Db) returns (res: Response<Post>)
    ensures res.status == StatusOk && res.reply.Many?
    ensures NewestFirst(res.reply.docs) && multiset(res.reply.docs) == multiset(db.posts)
  {
    res := Response(StatusOk, Many(SortByDate(db.posts)));
  }

  /**
   * GET /:id: a malformed id and an absent post are both answered 404 with
   * the same text; a present post is returned.
   */
  method GetPost(db: Db, id: string, isValidId: string -> bool) returns (res: Response<Post>)
    ensures res.status == StatusOk <==> isValidId(id) && exists k | 0 <= k < |db.posts| :: db.posts[k].id == id
    ensures res.status != StatusOk ==> res == Response(StatusNotFound, Text(NoPostText))
    ensures res.status == StatusOk ==> res.reply.One? && res.reply.doc in db.posts && res.reply.doc.id == id
  {
    if !isValidId(id) {
      return Response(StatusNotFound, Text(NoPostText));
    }
    var i := PostIndex(db.posts, id);
    if i < 0 {
      return Response(StatusNotFound, Text(NoPostText));
    }
    res := Response(StatusOk, One(db.posts[i]));
  }

  /**
   * DELETE /:id: a malformed id is answered 404; a well-formed id with no
   * post behind it is answered 500, since the owner check dereferences the
   * missing post before the not-found check is reached; a post of another
   * user is kept and answered 401; the caller's own post is removed.
   */
  method DeletePost(db: Db, caller: UserId, id: string, isValidId: string -> bool) returns (res: Response<Post>)
    requires db.Valid()
    modifies db`posts
    ensures db.Valid()
    ensures res.status == StatusNotFound <==> !isValidId(id)
    ensures !isValidId(id) ==> res == Response(StatusNotFound, Text(NoPostText)) && db.posts == old(db.posts)
    ensures isValidId(id) && PostIndex(old(db.posts), id) < 0 ==>
      res == Response(StatusServerError, Text(ServerErrorText)) && db.posts == old(db.posts)
    ensures isValidId(id) && PostIndex(old(db.posts), id) >= 0 ==>
      var i := PostIndex(old(db.posts), id);
      if old(db.posts)[i].user != caller then
        res == Response(StatusUnauthorized, Text(UnauthorizedText)) && db.posts == old(db.posts)
      else
        res == Response(StatusOk, Msg(PostRemovedMsg)) && db.posts == old(db.posts)[..i] + old(db.posts)[i + 1..]
  {
    if !isValidId(id) {
      return Response(StatusNotFound, Text(NoPostText));
    }
    var i := PostIndex(db.posts, id);
    if i < 0 {
      return Response(StatusServerError, Text(ServerErrorText));
    }
    if db.posts[i].user != caller {
      return Response(StatusUnauthorized, Text(UnauthorizedText));
    }
    RemovePostKeepsUnique(db.posts, id);
    RemovePostAt(db.posts, i);
    db.posts := RemovePost(db.posts, id);
    res := Response(StatusOk, Msg(PostRemovedMsg));
  }

  /**
   * DELETE /:id behind the auth middleware. Without a valid token nothing is
   * deleted and one 401 is sent; without any token the codec is not even
   * called. With a valid token the handler runs for the token's user and
   * its one response is sent: 404 for a malformed id, 500 for a missing
   * post, 401 for another user's post, and otherwise the post is removed. A
   * post leaves the store only when the token verifies and names the post's
   * owner.
   */
  method DeletePostRoute(req: Request, out: Writer<Post>, codec: TokenCodec, db: Db, id: string, isValidId: string -> bool)
    requires db.Valid()
    modifies req`user, out`sent, codec`calls, db`posts
    ensures db.Valid()
    ensures var d := Gate(req.Header(TokenHeader), codec.decode);
      d.Reject? ==>
        db.posts == old(db.posts) && out.sent == old(out.sent) + [Response(StatusUnauthorized, Msg(d.msg))]
    ensures !HasToken(req.Header(TokenHeader)) ==> codec.calls == old(codec.calls)
    ensures |out.sent| == |old(out.sent)| + 1
    ensures var d := Gate(req.Header(TokenHeader), codec.decode);
      d.Proceed? ==>
        var i := PostIndex(old(db.posts), id);
        if !isValidId(id) then
          db.posts == old(db.posts) && out.sent == old(out.sent) + [Response(StatusNotFound, Text(NoPostText))]
        else if i < 0 then
          db.posts == old(db.posts) && out.sent == old(out.sent) + [Response(StatusServerError, Text(ServerErrorText))]
        else if old(db.posts)[i].user != d.user.id then
          db.posts == old(db.posts) && out.sent == old(out.sent) + [Response(StatusUnauthorized, Text(UnauthorizedText))]
        else
          db.posts == old(db.posts)[..i] + old(db.posts)[i + 1..] && out.sent == old(out.sent) + [Response(StatusOk, Msg(PostRemovedMsg))]
    ensures db.posts != old(db.posts) ==>
      var d := Gate(req.Header(TokenHeader), codec.decode);
      var i := PostIndex(old(db.posts), id);
      && d.Proceed? && isValidId(id) && i >= 0 && old(db.posts)[i].user == d.user.id
      && db.posts == old(db.posts)[..i] + old(db.posts)[i + 1..]
  {
    var next := Auth(req, out, codec);
    if next {
      var r := DeletePost(db, req.user.value.id, id, isValidId);
      out.Send(r);
    }
  }
}
