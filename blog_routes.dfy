/**
 * The blog routes of the server: the `requireAuth` middleware, listing, creation,
 * the like toggle and comment append over the collection of stored posts.
 */
module BlogRoutes {
  import opened Wrappers
  import opened ObjectIds
  import opened Persistence

  type UserId = ObjectId
  type PostId = ObjectId
  /** Creation times are supplied by the caller (the database clock); only their order matters. */
  type Timestamp = nat

  datatype Comment = Comment(user: UserId, text: string)

  datatype Post = Post(
    title: string,
    content: string,
    author: UserId,
    likes: seq<UserId>,
    comments: seq<Comment>,
    createdAt: Timestamp)

  /** The two places a request may carry the acting user: the body field `userId` and the header `userid`. */
  datatype Credentials = Credentials(bodyUserId: Option<string>, headerUserId: Option<string>)

  datatype Body =
    | Error(error: string)
    | OnePost(id: PostId, post: Post)
    | Listing(entries: seq<(PostId, Post)>)

  datatype Reply = Reply(status: nat, body: Body)

  datatype Auth = Rejected(reply: Reply) | Acting(user: UserId)

  /**
   * `requireAuth`: 401 when neither field is truthy; otherwise the body field wins over the
   * header, and a chosen value that does not cast to an object id is a 400.
   */
  function RequireAuth(c: Credentials): (r: Auth)
    ensures r.Rejected? && r.reply.status == 401 <==> !Truthy(c.bodyUserId) && !Truthy(c.headerUserId)
    ensures r.Rejected? ==> r.reply.status in {400, 401}
    ensures Truthy(c.bodyUserId) ==>
      if WellFormed(c.bodyUserId.value) then r == Acting(Cast(c.bodyUserId.value)) else r.Rejected? && r.reply.status == 400
    ensures !Truthy(c.bodyUserId) && Truthy(c.headerUserId) ==>
      if WellFormed(c.headerUserId.value) then r == Acting(Cast(c.headerUserId.value)) else r.Rejected? && r.reply.status == 400
  {
    if !Truthy(c.bodyUserId) && !Truthy(c.headerUserId) then
      Rejected(Reply(401, Error("Authentication required")))
    else
      var raw := if Truthy(c.bodyUserId) then c.bodyUserId.value else c.headerUserId.value;
      if WellFormed(raw) then Acting(Cast(raw)) else Rejected(Reply(400, Error("Invalid userId")))
  }

  /** A malformed body id is not rescued by a well-formed header: the body field is the one cast. */
  lemma BodyFieldShadowsHeader(body: string, header: string)
    requires body != "" && !WellFormed(body) && WellFormed(header)
    ensures RequireAuth(Credentials(Some(body), Some(header))) == Rejected(Reply(400, Error("Invalid userId")))
  {
  }

  // ---------------------------------------------------------------- likes

  predicate NoDuplicates<T(==)>(s: seq<T>) {
    forall i, j :: 0 <= i < j < |s| ==> s[i] != s[j]
  }

  /** `Array.prototype.indexOf`: the first position holding `x`, or -1. */
  function IndexOf<T(==)>(s: seq<T>, x: T): (i: int)
    ensures -1 <= i < |s|
    ensures i == -1 <==> x !in s
    ensures 0 <= i ==> s[i] == x && x !in s[..i]
  {
    if s == [] then -1
    else if s[0] == x then 0
    else
      var j := IndexOf(s[1..], x);
      assert s[1..][..j + 1] == s[1..j + 2];
      if j == -1 then -1 else j + 1
  }

  /** The list with its first occurrence of `x` taken out (the list itself when there is none). */
  function RemoveFirst<T(==)>(s: seq<T>, x: T): (r: seq<T>)
  {
    if s == [] then []
    else if s[0] == x then s[1..]
    else [s[0]] + RemoveFirst(s[1..], x)
  }

  /** The like toggle as a specification: unlike removes the first occurrence, like appends. */
  function Toggled<T(==)>(likes: seq<T>, actor: T): seq<T>
  {
    if actor in likes then RemoveFirst(likes, actor) else likes + [actor]
  }

  /** Splicing out the element at `indexOf` removes exactly the first occurrence. */
  lemma {:induction false} SpliceRemovesFirst<T>(s: seq<T>, x: T)
    requires x in s
    ensures var i := IndexOf(s, x); s[..i] + s[i + 1..] == RemoveFirst(s, x)
  {
    if s[0] != x {
      SpliceRemovesFirst(s[1..], x);
      var j := IndexOf(s[1..], x);
      assert s[..j + 1] + s[j + 2..] == [s[0]] + (s[1..][..j] + s[1..][j + 1..]);
    }
  }

  lemma {:induction false} RemoveFirstMultiset<T>(s: seq<T>, x: T)
    ensures multiset(RemoveFirst(s, x)) == multiset(s) - multiset{x}
  {
    if s != [] {
      RemoveFirstMultiset(s[1..], x);
      assert s == [s[0]] + s[1..];
      assert multiset(s) == multiset{s[0]} + multiset(s[1..]);
      if s[0] != x {
        assert RemoveFirst(s, x) == [s[0]] + RemoveFirst(s[1..], x);
      }
    }
  }

  lemma NoDuplicatesMultiset<T>(s: seq<T>)
    ensures NoDuplicates(s) <==> forall y :: multiset(s)[y] <= 1
  {
    if NoDuplicates(s) {
      forall y ensures multiset(s)[y] <= 1 { CountUnique(s, y); }
    } else {
      var i, j :| 0 <= i < j < |s| && s[i] == s[j];
      SecondOccurrence(s, i, j);
    }
  }

  lemma {:induction false} CountUnique<T>(s: seq<T>, y: T)
    requires NoDuplicates(s)
    ensures multiset(s)[y] <= 1
  {
    if s != [] {
      CountUnique(s[1..], y);
      assert s == [s[0]] + s[1..];
      if s[0] == y {
        assert y !in s[1..] by {
          forall k | 0 <= k < |s[1..]| ensures s[1..][k] != y { assert s[k + 1] != s[0]; }
        }
      }
    }
  }

  lemma {:induction false} SecondOccurrence<T>(s: seq<T>, i: nat, j: nat)
    requires i < j < |s| && s[i] == s[j]
    ensures multiset(s)[s[i]] >= 2
  {
    assert s == s[..i] + [s[i]] + s[i + 1..j] + [s[j]] + s[j + 1..];
  }

  /** A duplicate-free list of likes stays duplicate-free under the toggle, and only the actor's membership flips. */
  lemma ToggleKeepsUnique<T>(likes: seq<T>, actor: T)
    requires NoDuplicates(likes)
    ensures NoDuplicates(Toggled(likes, actor))
    ensures actor in Toggled(likes, actor) <==> actor !in likes
    ensures forall u :: u != actor ==> (u in Toggled(likes, actor) <==> u in likes)
  {
    var t := Toggled(likes, actor);
    NoDuplicatesMultiset(likes);
    if actor in likes {
      RemoveFirstMultiset(likes, actor);
    }
    assert forall u :: multiset(t)[u] <= 1;
    NoDuplicatesMultiset(t);
    forall u | u != actor
      ensures u in t <==> u in likes
    {
      assert multiset(t)[u] == multiset(likes)[u];
    }
  }

  /** Toggling twice: an absent actor leaves the list exactly as it was; a present actor returns to the end. */
  lemma {:induction false} ToggleTwice<T>(likes: seq<T>, actor: T)
    ensures actor !in likes ==> Toggled(Toggled(likes, actor), actor) == likes
    ensures multiset(likes)[actor] == 1 ==> Toggled(Toggled(likes, actor), actor) == RemoveFirst(likes, actor) + [actor]
    ensures multiset(likes)[actor] <= 1 ==> multiset(Toggled(Toggled(likes, actor), actor)) == multiset(likes)
  {
    if actor !in likes {
      RemoveLast(likes, actor);
    } else {
      RemoveFirstMultiset(likes, actor);
      if multiset(likes)[actor] <= 1 {
        assert actor !in multiset(RemoveFirst(likes, actor));
      }
    }
  }

  lemma {:induction false} RemoveLast<T>(s: seq<T>, x: T)
    requires x !in s
    ensures RemoveFirst(s + [x], x) == s
  {
    if s != [] {
      assert (s + [x])[1..] == s[1..] + [x];
      RemoveLast(s[1..], x);
    }
  }

  /** The likes after `n` toggles by the same actor. */
  function ToggledTimes<T(==)>(likes: seq<T>, actor: T, n: nat): seq<T>
  {
    if n == 0 then likes else Toggled(ToggledTimes(likes, actor, n - 1), actor)
  }

  /** On a duplicate-free list, after `n` toggles the actor is a member exactly when its initial membership flipped an odd number of times. */
  lemma {:induction false} ToggleParity<T>(likes: seq<T>, actor: T, n: nat)
    requires NoDuplicates(likes)
    ensures NoDuplicates(ToggledTimes(likes, actor, n))
    ensures actor in ToggledTimes(likes, actor, n) <==> (actor in likes) != (n % 2 == 1)
    ensures forall u :: u != actor ==> (u in ToggledTimes(likes, actor, n) <==> u in likes)
  {
    if n > 0 {
      ToggleParity(likes, actor, n - 1);
      ToggleKeepsUnique(ToggledTimes(likes, actor, n - 1), actor);
    }
  }

  // ---------------------------------------------------------------- listing

  predicate NewestFirst(entries: seq<(PostId, Post)>) {
    forall i, j :: 0 <= i < j < |entries| ==> entries[i].1.createdAt >= entries[j].1.createdAt
  }

  /** Places one entry into a newest-first listing, ahead of the first entry that is not newer. */
  function InsertByRecency(e: (PostId, Post), entries: seq<(PostId, Post)>): (r: seq<(PostId, Post)>)
    ensures multiset(r) == multiset(entries) + multiset{e}
    ensures r[0] == e || (entries != [] && r[0] == entries[0])
  {
    if entries == [] || entries[0].1.createdAt <= e.1.createdAt then
      [e] + entries
    else
      var rest := InsertByRecency(e, entries[1..]);
      assert entries == [entries[0]] + entries[1..];
      [entries[0]] + rest
  }

  /** Inserting into a newest-first listing keeps it newest first. */
  lemma {:induction false} InsertKeepsOrder(e: (PostId, Post), entries: seq<(PostId, Post)>)
    requires NewestFirst(entries)
    ensures NewestFirst(InsertByRecency(e, entries))
  {
    if entries == [] || entries[0].1.createdAt <= e.1.createdAt {
      ConsKeepsOrder(e, entries);
    } else {
      var tail := entries[1..];
      assert NewestFirst(tail) by {
        forall i, j | 0 <= i < j < |tail|
          ensures tail[i].1.createdAt >= tail[j].1.createdAt
        {
          assert tail[i] == entries[i + 1] && tail[j] == entries[j + 1];
        }
      }
      InsertKeepsOrder(e, tail);
      var rest := InsertByRecency(e, tail);
      assert rest[0].1.createdAt <= entries[0].1.createdAt by {
        if rest[0] != e {
          assert rest[0] == entries[1];
        }
      }
      ConsKeepsOrder(entries[0], rest);
    }
  }

  /** An entry no older than the head of a newest-first listing can go in front of it. */
  lemma ConsKeepsOrder(x: (PostId, Post), rest: seq<(PostId, Post)>)
    requires NewestFirst(rest)
    requires rest != [] ==> rest[0].1.createdAt <= x.1.createdAt
    ensures NewestFirst([x] + rest)
  {
    var r := [x] + rest;
    forall i, j | 0 <= i < j < |r|
      ensures r[i].1.createdAt >= r[j].1.createdAt
    {
      assert r[j] == rest[j - 1];
      if i > 0 {
        assert r[i] == rest[i - 1];
      } else if j > 1 {
        assert rest[0].1.createdAt >= rest[j - 1].1.createdAt;
      }
    }
  }

  /** Every entry of the listing is a stored post under its own id. */
  predicate Stored(posts: map<PostId, Post>, entries: seq<(PostId, Post)>) {
    forall i :: 0 <= i < |entries| ==> entries[i].0 in posts && posts[entries[i].0] == entries[i].1
  }

  function Occurrences(entries: seq<(PostId, Post)>, id: PostId): nat
  {
    if entries == [] then 0 else (if entries[0].0 == id then 1 else 0) + Occurrences(entries[1..], id)
  }

  lemma {:induction false} InsertOccurrences(e: (PostId, Post), entries: seq<(PostId, Post)>, id: PostId)
    ensures Occurrences(InsertByRecency(e, entries), id) == Occurrences(entries, id) + if e.0 == id then 1 else 0
  {
    if entries == [] || entries[0].1.createdAt <= e.1.createdAt {
      assert ([e] + entries)[1..] == entries;
    } else {
      InsertOccurrences(e, entries[1..], id);
      var r := InsertByRecency(e, entries);
      assert r[1..] == InsertByRecency(e, entries[1..]);
    }
  }

  // ---------------------------------------------------------------- the store

  /** Every post's likes hold each user at most once. */
  ghost predicate UniqueLikes(posts: map<PostId, Post>) {
    forall id :: id in posts ==> NoDuplicates(posts[id].likes)
  }

  lemma ReplaceKeepsUnique(posts: map<PostId, Post>, id: PostId, p: Post)
    requires UniqueLikes(posts) && NoDuplicates(p.likes)
    ensures UniqueLikes(posts[id := p])
  {
  }

  /** The `blogs` collection as the routes see it: posts by id. */
  /** The route's update of the likes array: `splice` at `indexOf` when the actor is there, `push` otherwise. */
  method SpliceOrPush(likes: seq<UserId>, userId: UserId) returns (r: seq<UserId>)
    ensures r == Toggled(likes, userId)
  {
    var likeIndex := IndexOf(likes, userId);
    if likeIndex > -1 {
      SpliceRemovesFirst(likes, userId);
      r := likes[..likeIndex] + likes[likeIndex + 1..];
    } else {
      r := likes + [userId];
    }
  }

  /**
   * Whether a like or comment request gets as far as a successful `save`: from then on the post
   * is stored, whatever the `populate` that follows does.
   */
  predicate SaveReached(c: Credentials, idParam: string, posts: map<PostId, Post>, lookup: Storage, save: Storage) {
    RequireAuth(c).Acting? && WellFormed(idParam) && lookup.Succeeded? && Cast(idParam) in posts && save.Succeeded?
  }

  class BlogStore {
    var posts: map<PostId, Post>

    /** The invariant the routes keep. */
    ghost predicate Valid()
      reads this
    {
      UniqueLikes(posts)
    }

    constructor ()
      ensures Valid() && posts == map[]
    {
      posts := map[];
    }

    /** GET /: every stored post once, newest first; a failing query is a 500 with the driver's message. */
    method List(query: Storage) returns (reply: Reply)
      ensures query.Failed? ==> reply == Reply(500, Error(query.message))
      ensures query.Succeeded? ==> reply.status == 200 && reply.body.Listing?
      ensures query.Succeeded? ==> NewestFirst(reply.body.entries)
      ensures query.Succeeded? ==> Stored(posts, reply.body.entries)
      ensures query.Succeeded? ==> forall id :: id in posts ==> Occurrences(reply.body.entries, id) == 1
    {
      if query.Failed? {
        return Reply(500, Error(query.message));
      }
      var rest := posts.Keys;
      var entries: seq<(PostId, Post)> := [];
      while rest != {}
        invariant rest <= posts.Keys
        invariant NewestFirst(entries)
        invariant Stored(posts, entries)
        invariant forall id :: id in posts ==> Occurrences(entries, id) == if id in rest then 0 else 1
        decreases rest
      {
        var id :| id in rest;
        var e := (id, posts[id]);
        forall k | k in posts
          ensures Occurrences(InsertByRecency(e, entries), k) == Occurrences(entries, k) + if id == k then 1 else 0
        {
          InsertOccurrences(e, entries, k);
        }
        InsertKeepsOrder(e, entries);
        var next := InsertByRecency(e, entries);
        assert Stored(posts, next) by {
          forall i | 0 <= i < |next|
            ensures next[i].0 in posts && posts[next[i].0] == next[i].1
          {
            assert next[i] in multiset(next);
            if next[i] != e {
              assert next[i] in multiset(entries);
              var j :| 0 <= j < |entries| && entries[j] == next[i];
            }
          }
        }
        entries := next;
        rest := rest - {id};
      }
      reply := Reply(200, Listing(entries));
    }

    /**
     * POST /: a new post authored by the acting user, with no likes and no comments. A failed save
     * or a failed `populate` after it is a 400; in the second case the post is already stored.
     */
    method Create(c: Credentials, title: string, content: string, freshId: PostId, now: Timestamp,
                  save: Storage, populate: Storage)
      returns (reply: Reply)
      requires Valid()
      requires freshId !in posts
      modifies this
      ensures Valid()
      ensures RequireAuth(c).Rejected? ==> reply == RequireAuth(c).reply && posts == old(posts)
      ensures RequireAuth(c).Acting? && save.Failed? ==> reply == Reply(400, Error(save.message)) && posts == old(posts)
      ensures RequireAuth(c).Acting? && save.Succeeded? ==>
        var p := Post(title, content, RequireAuth(c).user, [], [], now);
        && posts == old(posts)[freshId := p]
        && (populate.Succeeded? ==> reply == Reply(201, OnePost(freshId, p)))
        && (populate.Failed? ==> reply == Reply(400, Error(populate.message)))
    {
      var auth := RequireAuth(c);
      if auth.Rejected? {
        return auth.reply;
      }
      var blog := Post(title, content, auth.user, [], [], now);
      if save.Failed? {
        return Reply(400, Error(save.message));
      }
      posts := posts[freshId := blog];
      if populate.Failed? {
        return Reply(400, Error(populate.message));
      }
      reply := Reply(201, OnePost(freshId, blog));
    }

    /**
     * POST /:id/like: a malformed id fails the cast and a failed lookup or save is a 500 with the
     * error's message, an unknown id is a 404; otherwise the first occurrence of the actor is
     * spliced out, or the actor is pushed, and the post saved. A `populate` that fails after the
     * save is a 500 too, with the toggle already stored.
     */
    method Like(c: Credentials, idParam: string, lookup: Storage, save: Storage, populate: Storage)
      returns (reply: Reply)
      requires Valid()
      modifies this
      ensures Valid()
      ensures !SaveReached(c, idParam, old(posts), lookup, save) ==> posts == old(posts)
      ensures RequireAuth(c).Rejected? ==> reply == RequireAuth(c).reply
      ensures RequireAuth(c).Acting? && !WellFormed(idParam) ==> reply.status == 500
      ensures RequireAuth(c).Acting? && WellFormed(idParam) && lookup.Failed? ==>
        reply == Reply(500, Error(lookup.message))
      ensures RequireAuth(c).Acting? && WellFormed(idParam) && lookup.Succeeded? && Cast(idParam) !in old(posts) ==>
        reply == Reply(404, Error("Blog not found"))
      ensures RequireAuth(c).Acting? && WellFormed(idParam) && lookup.Succeeded? && Cast(idParam) in old(posts) && save.Failed? ==>
        reply == Reply(500, Error(save.message))
      ensures reply.status == 200 <==> SaveReached(c, idParam, old(posts), lookup, save) && populate.Succeeded?
      ensures SaveReached(c, idParam, old(posts), lookup, save) ==>
        var id := Cast(idParam);
        var p := old(posts)[id].(likes := Toggled(old(posts)[id].likes, RequireAuth(c).user));
        && posts == old(posts)[id := p]
        && (populate.Succeeded? ==> reply == Reply(200, OnePost(id, p)))
        && (populate.Failed? ==> reply == Reply(500, Error(populate.message)))
    {
      var auth := RequireAuth(c);
      if auth.Rejected? {
        return auth.reply;
      }
      if !WellFormed(idParam) {
        return Reply(500, Error("Cast to ObjectId failed"));
      }
      if lookup.Failed? {
        return Reply(500, Error(lookup.message));
      }
      var id := Cast(idParam);
      if id !in posts {
        return Reply(404, Error("Blog not found"));
      }
      var blog := posts[id];
      var likes := SpliceOrPush(blog.likes, auth.user);
      blog := blog.(likes := likes);
      if save.Failed? {
        return Reply(500, Error(save.message));
      }
      ToggleKeepsUnique(posts[id].likes, auth.user);
      ReplaceKeepsUnique(posts, id, blog);
      posts := posts[id := blog];
      if populate.Failed? {
        return Reply(500, Error(populate.message));
      }
      reply := Reply(200, OnePost(id, blog));
    }

    /**
     * POST /:id/comment: a malformed id, a failed lookup or a failed save is a 500, an unknown id a
     * 404; otherwise one comment by the actor with the request's text is pushed at the end and the
     * post saved. A `populate` that fails after the save is a 500 too, with the comment stored.
     */
    method AddComment(c: Credentials, idParam: string, text: string, lookup: Storage, save: Storage, populate: Storage)
      returns (reply: Reply)
      requires Valid()
      modifies this
      ensures Valid()
      ensures !SaveReached(c, idParam, old(posts), lookup, save) ==> posts == old(posts)
      ensures RequireAuth(c).Rejected? ==> reply == RequireAuth(c).reply
      ensures RequireAuth(c).Acting? && !WellFormed(idParam) ==> reply.status == 500
      ensures RequireAuth(c).Acting? && WellFormed(idParam) && lookup.Failed? ==>
        reply == Reply(500, Error(lookup.message))
      ensures RequireAuth(c).Acting? && WellFormed(idParam) && lookup.Succeeded? && Cast(idParam) !in old(posts) ==>
        reply == Reply(404, Error("Blog not found"))
      ensures RequireAuth(c).Acting? && WellFormed(idParam) && lookup.Succeeded? && Cast(idParam) in old(posts) && save.Failed? ==>
        reply == Reply(500, Error(save.message))
      ensures reply.status == 200 <==> SaveReached(c, idParam, old(posts), lookup, save) && populate.Succeeded?
      ensures SaveReached(c, idParam, old(posts), lookup, save) ==>
        var id := Cast(idParam);
        var before := old(posts)[id].comments;
        && id in posts
        && posts == old(posts)[id := old(posts)[id].(comments := posts[id].comments)]
        && |posts[id].comments| == |before| + 1
        && posts[id].comments[..|before|] == before
        && posts[id].comments[|before|] == Comment(RequireAuth(c).user, text)
        && (populate.Succeeded? ==> reply == Reply(200, OnePost(id, posts[id])))
        && (populate.Failed? ==> reply == Reply(500, Error(populate.message)))
    {
      var auth := RequireAuth(c);
      if auth.Rejected? {
        return auth.reply;
      }
      if !WellFormed(idParam) {
        return Reply(500, Error("Cast to ObjectId failed"));
      }
      if lookup.Failed? {
        return Reply(500, Error(lookup.message));
      }
      var id := Cast(idParam);
      if id !in posts {
        return Reply(404, Error("Blog not found"));
      }
      var blog := posts[id];
      blog := blog.(comments := blog.comments + [Comment(auth.user, text)]);
      if save.Failed? {
        return Reply(500, Error(save.message));
      }
      posts := posts[id := blog];
      if populate.Failed? {
        return Reply(500, Error(populate.message));
      }
      reply := Reply(200, OnePost(id, blog));
    }
  }
}
