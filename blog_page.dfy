/**
 * The client blog page: its local copy of the posts, the optimistic like and comment updates
 * with their reverts, and posting a new blog.
 *
 * React state is read from the snapshot of the render that created a handler, and the handler's
 * setters replace it. Each handler is therefore a method from that snapshot (and the outcome of
 * its awaited calls) to the state its setters leave behind.
 */
module BlogPage {
  import opened Wrappers
  import opened Text

  /** A populated user reference `{_id, username}` as the client receives or builds it. */
  datatype UserRef = UserRef(id: string, username: string)

  datatype CommentView = CommentView(user: UserRef, text: string, date: nat)

  /** One post of the listing as JSON, with author, likes and comment authors populated. */
  datatype PostDoc = PostDoc(
    docId: string,
    title: string,
    content: string,
    author: UserRef,
    likes: seq<UserRef>,
    comments: seq<CommentView>,
    createdAt: nat)

  /** A post of the page state: the document spread out, plus `id` and the two local fields. */
  datatype LocalPost = LocalPost(doc: PostDoc, id: string, showComments: bool, commentText: string)

  datatype Draft = Draft(title: string, content: string)

  datatype PageState = PageState(blogs: seq<LocalPost>, newBlog: Draft, loading: bool, errorMessage: string)

  /** How an awaited `fetch` settled: a response with `ok`, one without (with its parsed `error` field), or a throw. */
  datatype Response = Ok | NotOk(error: Option<string>) | Thrown

  /** The JSON body of the create request. */
  datatype NewPost = NewPost(title: string, content: string, userId: string)

  predicate UniqueIds(blogs: seq<LocalPost>) {
    forall i, j :: 0 <= i < j < |blogs| ==> blogs[i].id != blogs[j].id
  }

  // ---------------------------------------------------------------- fetchBlogs

  /** The mapping of `fetchBlogs`: each document in order, with `id` copied from `_id` and fresh local fields. */
  function Hydrate(data: seq<PostDoc>): (r: seq<LocalPost>)
    ensures |r| == |data|
    ensures forall i :: 0 <= i < |data| ==>
      r[i].doc == data[i] && r[i].id == data[i].docId && !r[i].showComments && r[i].commentText == ""
  {
    if data == [] then [] else [LocalPost(data[0], data[0].docId, false, "")] + Hydrate(data[1..])
  }

  /** `fetchBlogs` as a state change: a failed fetch leaves the list alone. */
  function Refetch(blogs: seq<LocalPost>, fetched: Option<seq<PostDoc>>): (r: seq<LocalPost>)
    ensures fetched.None? ==> r == blogs
    ensures fetched.Some? ==> |r| == |fetched.value|
    ensures fetched.Some? ==> forall i :: 0 <= i < |r| ==>
      r[i].doc == fetched.value[i] && r[i].id == fetched.value[i].docId && !r[i].showComments && r[i].commentText == ""
  {
    if fetched.Some? then Hydrate(fetched.value) else blogs
  }

  // ---------------------------------------------------------------- likes

  /** `likes.some(like => like._id === uid)`. */
  predicate LikedBy(likes: seq<UserRef>, uid: string) {
    exists i :: 0 <= i < |likes| && likes[i].id == uid
  }

  /** `r` keeps some of the elements of `s`, in the order they have there. */
  predicate IsSubsequence<T(==)>(r: seq<T>, s: seq<T>)
    decreases |s|
  {
    if r == [] then true
    else if s == [] then false
    else if r[0] == s[0] then IsSubsequence(r[1..], s[1..])
    else IsSubsequence(r, s[1..])
  }

  /** `likes.filter(like => like._id !== uid)`. */
  function WithoutUser(likes: seq<UserRef>, uid: string): (r: seq<UserRef>)
    ensures !LikedBy(r, uid)
    ensures forall x :: x in r <==> x in likes && x.id != uid
    ensures forall x :: multiset(r)[x] == if x.id == uid then 0 else multiset(likes)[x]
    ensures IsSubsequence(r, likes)
    ensures !LikedBy(likes, uid) ==> r == likes
  {
    if likes == [] then []
    else
      var rest := WithoutUser(likes[1..], uid);
      if likes[0].id == uid then
        DropStep(likes, uid, rest);
        rest
      else
        KeepStep(likes, uid, rest);
        [likes[0]] + rest
  }

  /** One step of `WithoutUser` that drops the head, which carries `uid`. */
  lemma DropStep(likes: seq<UserRef>, uid: string, rest: seq<UserRef>)
    requires likes != [] && likes[0].id == uid
    requires forall x :: x in rest ==> x.id != uid
    requires forall x :: multiset(rest)[x] == if x.id == uid then 0 else multiset(likes[1..])[x]
    requires IsSubsequence(rest, likes[1..])
    ensures forall x :: multiset(rest)[x] == if x.id == uid then 0 else multiset(likes)[x]
    ensures IsSubsequence(rest, likes)
  {
    assert likes == [likes[0]] + likes[1..];
    if rest != [] {
      assert rest[0] in rest;
    }
  }

  /** One step of `WithoutUser` that keeps the head, which does not carry `uid`. */
  lemma KeepStep(likes: seq<UserRef>, uid: string, rest: seq<UserRef>)
    requires likes != [] && likes[0].id != uid
    requires !LikedBy(likes[1..], uid) ==> rest == likes[1..]
    requires forall x :: multiset(rest)[x] == if x.id == uid then 0 else multiset(likes[1..])[x]
    requires IsSubsequence(rest, likes[1..])
    ensures forall x :: multiset([likes[0]] + rest)[x] == if x.id == uid then 0 else multiset(likes)[x]
    ensures IsSubsequence([likes[0]] + rest, likes)
    ensures !LikedBy(likes, uid) ==> [likes[0]] + rest == likes
  {
    assert likes == [likes[0]] + likes[1..];
    assert ([likes[0]] + rest)[1..] == rest;
    if LikedBy(likes[1..], uid) {
      var i :| 0 <= i < |likes[1..]| && likes[1..][i].id == uid;
      assert likes[i + 1].id == uid;
    }
  }

  /** `blogs.find(b => b.id === id)` as a position: the first match, or -1. */
  function FindIndex(blogs: seq<LocalPost>, id: string): (k: int)
    ensures -1 <= k < |blogs|
    ensures k == -1 <==> forall i :: 0 <= i < |blogs| ==> blogs[i].id != id
    ensures 0 <= k ==> blogs[k].id == id && forall i :: 0 <= i < k ==> blogs[i].id != id
  {
    if blogs == [] then -1
    else if blogs[0].id == id then 0
    else
      var j := FindIndex(blogs[1..], id);
      if j == -1 then -1 else j + 1
  }

  function WithLikes(b: LocalPost, likes: seq<UserRef>): LocalPost {
    b.(doc := b.doc.(likes := likes))
  }

  /**
   * The like update of the handler, on every post whose id matches: `removing` filters the user's
   * entries out, otherwise one entry for the user is appended. The optimistic update passes the
   * pre-click `isLiked`; the revert passes its negation, again on the pre-click list.
   */
  function FlipLike(blogs: seq<LocalPost>, blogId: string, me: UserRef, removing: bool): (r: seq<LocalPost>)
    ensures |r| == |blogs|
    ensures forall i :: 0 <= i < |blogs| && blogs[i].id != blogId ==> r[i] == blogs[i]
    ensures forall i :: 0 <= i < |blogs| && blogs[i].id == blogId ==>
      r[i] == WithLikes(blogs[i], r[i].doc.likes)
    ensures removing ==> forall i :: 0 <= i < |blogs| && blogs[i].id == blogId ==>
      r[i].doc.likes == WithoutUser(blogs[i].doc.likes, me.id) && !LikedBy(r[i].doc.likes, me.id)
    ensures !removing ==> forall i :: 0 <= i < |blogs| && blogs[i].id == blogId ==>
      r[i].doc.likes == blogs[i].doc.likes + [me]
  {
    seq(|blogs|, i requires 0 <= i < |blogs| =>
      if blogs[i].id == blogId then
        WithLikes(blogs[i], if removing then WithoutUser(blogs[i].doc.likes, me.id) else blogs[i].doc.likes + [me])
      else blogs[i])
  }

  /** Filtering out a user who had not liked changes nothing: with unique ids the list comes back whole. */
  lemma FilterAbsentIsIdentity(blogs: seq<LocalPost>, blogId: string, me: UserRef)
    requires UniqueIds(blogs)
    requires var k := FindIndex(blogs, blogId); 0 <= k && !LikedBy(blogs[k].doc.likes, me.id)
    ensures FlipLike(blogs, blogId, me, true) == blogs
  {
    var r := FlipLike(blogs, blogId, me, true);
    var k := FindIndex(blogs, blogId);
    forall i | 0 <= i < |blogs|
      ensures r[i] == blogs[i]
    {
      if blogs[i].id == blogId {
        assert i == k;
        assert r[i].doc.likes == blogs[i].doc.likes;
      }
    }
  }

  /**
   * `handleLike`: the optimistic flip, then either the refetch or the revert. A missing post
   * makes `blog.likes` throw before any state is written.
   */
  method HandleLike(blogs: seq<LocalPost>, blogId: string, me: UserRef, response: Response, refetched: Option<seq<PostDoc>>)
    returns (optimistic: seq<LocalPost>, next: seq<LocalPost>)
    ensures FindIndex(blogs, blogId) == -1 ==> optimistic == blogs && next == blogs
    ensures var k := FindIndex(blogs, blogId); 0 <= k ==>
      var wasLiked := LikedBy(blogs[k].doc.likes, me.id);
      && optimistic == FlipLike(blogs, blogId, me, wasLiked)
      && LikedBy(optimistic[k].doc.likes, me.id) == !wasLiked
      && (response.Ok? ==> next == Refetch(optimistic, refetched))
      && (!response.Ok? ==> next == FlipLike(blogs, blogId, me, !wasLiked))
      && (!response.Ok? ==> LikedBy(next[k].doc.likes, me.id) == wasLiked)
      && (!response.Ok? && !wasLiked && UniqueIds(blogs) ==> next == blogs)
  {
    var k := FindIndex(blogs, blogId);
    if k == -1 {
      return blogs, blogs;
    }
    var isLiked := LikedBy(blogs[k].doc.likes, me.id);
    optimistic := FlipLike(blogs, blogId, me, isLiked);
    assert !isLiked ==> optimistic[k].doc.likes[|blogs[k].doc.likes|] == me;
    next := optimistic;
    if response.Ok? {
      next := Refetch(next, refetched);
    } else {
      next := FlipLike(blogs, blogId, me, !isLiked);
      assert isLiked ==> next[k].doc.likes[|blogs[k].doc.likes|] == me;
      if !isLiked && UniqueIds(blogs) {
        FilterAbsentIsIdentity(blogs, blogId, me);
      }
    }
  }

  /** As written, a failed unlike leaves the user in the likes twice: the snapshot still holds the entry and the revert appends another. */
  lemma FailedUnlikeDuplicates(blogs: seq<LocalPost>, blogId: string, me: UserRef)
    requires var k := FindIndex(blogs, blogId); 0 <= k && LikedBy(blogs[k].doc.likes, me.id)
    ensures var k := FindIndex(blogs, blogId);
      var after := FlipLike(blogs, blogId, me, false)[k].doc.likes;
      exists i, j :: 0 <= i < j < |after| && after[i].id == me.id && after[j].id == me.id
  {
    var k := FindIndex(blogs, blogId);
    var before := blogs[k].doc.likes;
    var after := FlipLike(blogs, blogId, me, false)[k].doc.likes;
    var i :| 0 <= i < |before| && before[i].id == me.id;
    assert after[i] == before[i] && after[|before|] == me;
  }

  /** `handleLike` with the revert corrected to restore the pre-click list. */
  method HandleLikeRestoring(blogs: seq<LocalPost>, blogId: string, me: UserRef, response: Response, refetched: Option<seq<PostDoc>>)
    returns (optimistic: seq<LocalPost>, next: seq<LocalPost>)
    ensures FindIndex(blogs, blogId) == -1 ==> optimistic == blogs && next == blogs
    ensures var k := FindIndex(blogs, blogId); 0 <= k ==>
      var wasLiked := LikedBy(blogs[k].doc.likes, me.id);
      && optimistic == FlipLike(blogs, blogId, me, wasLiked)
      && LikedBy(optimistic[k].doc.likes, me.id) == !wasLiked
      && (response.Ok? ==> next == Refetch(optimistic, refetched))
    ensures !response.Ok? ==> next == blogs
  {
    var k := FindIndex(blogs, blogId);
    if k == -1 {
      return blogs, blogs;
    }
    var isLiked := LikedBy(blogs[k].doc.likes, me.id);
    optimistic := FlipLike(blogs, blogId, me, isLiked);
    assert !isLiked ==> optimistic[k].doc.likes[|blogs[k].doc.likes|] == me;
    next := optimistic;
    if response.Ok? {
      next := Refetch(next, refetched);
    } else {
      next := blogs;
    }
  }

  // ---------------------------------------------------------------- comments

  /** `arr.slice(0, -1)`: everything but the last element; nothing for an empty array. */
  function DropLast<T>(s: seq<T>): (r: seq<T>)
    ensures s == [] ==> r == []
    ensures s != [] ==> r + [s[|s| - 1]] == s
  {
    if s == [] then [] else s[..|s| - 1]
  }

  /** The optimistic comment: appended to every post with the id, whose input is cleared. */
  function AppendComment(blogs: seq<LocalPost>, blogId: string, c: CommentView): (r: seq<LocalPost>)
    ensures |r| == |blogs|
    ensures forall i :: 0 <= i < |blogs| && blogs[i].id != blogId ==> r[i] == blogs[i]
    ensures forall i :: 0 <= i < |blogs| && blogs[i].id == blogId ==>
      && r[i].doc == blogs[i].doc.(comments := r[i].doc.comments)
      && r[i].id == blogs[i].id && r[i].showComments == blogs[i].showComments
      && |r[i].doc.comments| == |blogs[i].doc.comments| + 1
      && r[i].doc.comments[..|blogs[i].doc.comments|] == blogs[i].doc.comments
      && r[i].doc.comments[|blogs[i].doc.comments|] == c
      && r[i].commentText == ""
  {
    seq(|blogs|, i requires 0 <= i < |blogs| =>
      if blogs[i].id == blogId then
        blogs[i].(doc := blogs[i].doc.(comments := blogs[i].doc.comments + [c]), commentText := "")
      else blogs[i])
  }

  /** The comment revert as written: the pre-click comments without their last one, and the text back in the input. */
  function RevertComment(blogs: seq<LocalPost>, blogId: string, text: string): (r: seq<LocalPost>)
    ensures |r| == |blogs|
    ensures forall i :: 0 <= i < |blogs| && blogs[i].id != blogId ==> r[i] == blogs[i]
    ensures forall i :: 0 <= i < |blogs| && blogs[i].id == blogId ==>
      && r[i].doc == blogs[i].doc.(comments := r[i].doc.comments)
      && r[i].id == blogs[i].id && r[i].showComments == blogs[i].showComments
      && r[i].commentText == text
      && (blogs[i].doc.comments == [] ==> r[i].doc.comments == [])
      && (blogs[i].doc.comments != [] ==>
            r[i].doc.comments + [blogs[i].doc.comments[|blogs[i].doc.comments| - 1]] == blogs[i].doc.comments)
  {
    seq(|blogs|, i requires 0 <= i < |blogs| =>
      if blogs[i].id == blogId then
        blogs[i].(doc := blogs[i].doc.(comments := DropLast(blogs[i].doc.comments)), commentText := text)
      else blogs[i])
  }

  /** The intended revert: the pre-click comments untouched and the text back in the input. */
  function RestoreComment(blogs: seq<LocalPost>, blogId: string, text: string): (r: seq<LocalPost>)
    ensures |r| == |blogs|
    ensures forall i :: 0 <= i < |blogs| ==> r[i].doc == blogs[i].doc
    ensures forall i :: 0 <= i < |blogs| && blogs[i].id != blogId ==> r[i] == blogs[i]
    ensures forall i :: 0 <= i < |blogs| && blogs[i].id == blogId ==> r[i] == blogs[i].(commentText := text)
  {
    seq(|blogs|, i requires 0 <= i < |blogs| =>
      if blogs[i].id == blogId then blogs[i].(commentText := text) else blogs[i])
  }

  /** Restoring a post whose input still holds the submitted text gives back the pre-click list exactly. */
  lemma RestoreCommentIsSnapshot(blogs: seq<LocalPost>, blogId: string, text: string)
    requires forall i :: 0 <= i < |blogs| && blogs[i].id == blogId ==> blogs[i].commentText == text
    ensures RestoreComment(blogs, blogId, text) == blogs
  {
    var r := RestoreComment(blogs, blogId, text);
    assert forall i :: 0 <= i < |blogs| ==> r[i] == blogs[i];
  }

  /**
   * `handleComment`: a blank text changes nothing; otherwise the optimistic append, then either
   * the refetch or the revert computed from the pre-click list.
   */
  method HandleComment(blogs: seq<LocalPost>, blogId: string, text: string, me: UserRef, now: nat,
                       response: Response, refetched: Option<seq<PostDoc>>)
    returns (optimistic: seq<LocalPost>, next: seq<LocalPost>)
    ensures AllSpace(text) ==> optimistic == blogs && next == blogs
    ensures !AllSpace(text) ==> optimistic == AppendComment(blogs, blogId, CommentView(me, text, now))
    ensures !AllSpace(text) && response.Ok? ==> next == Refetch(optimistic, refetched)
    ensures !AllSpace(text) && !response.Ok? ==> next == RevertComment(blogs, blogId, text)
  {
    TrimBlank(text);
    if Trim(text) == "" {
      return blogs, blogs;
    }
    var newComment := CommentView(me, text, now);
    optimistic := AppendComment(blogs, blogId, newComment);
    next := optimistic;
    if response.Ok? {
      next := Refetch(next, refetched);
    } else {
      next := RevertComment(blogs, blogId, text);
    }
  }

  /** As written, a failed comment on a post that already had comments loses the last of them. */
  lemma FailedCommentLosesOne(blogs: seq<LocalPost>, blogId: string, text: string, i: nat)
    requires i < |blogs| && blogs[i].id == blogId && blogs[i].doc.comments != []
    ensures |RevertComment(blogs, blogId, text)[i].doc.comments| == |blogs[i].doc.comments| - 1
  {
    var r := RevertComment(blogs, blogId, text);
    assert |r[i].doc.comments + [blogs[i].doc.comments[|blogs[i].doc.comments| - 1]]| == |blogs[i].doc.comments|;
  }

  /** `handleComment` with the revert corrected to keep the pre-click comments. */
  method HandleCommentRestoring(blogs: seq<LocalPost>, blogId: string, text: string, me: UserRef, now: nat,
                                response: Response, refetched: Option<seq<PostDoc>>)
    returns (optimistic: seq<LocalPost>, next: seq<LocalPost>)
    ensures AllSpace(text) ==> optimistic == blogs && next == blogs
    ensures !AllSpace(text) ==> optimistic == AppendComment(blogs, blogId, CommentView(me, text, now))
    ensures !AllSpace(text) && response.Ok? ==> next == Refetch(optimistic, refetched)
    ensures !response.Ok? ==> |next| == |blogs| && forall i :: 0 <= i < |blogs| ==> next[i].doc == blogs[i].doc
    ensures !response.Ok? && (forall i :: 0 <= i < |blogs| && blogs[i].id == blogId ==> blogs[i].commentText == text) ==>
      next == blogs
  {
    TrimBlank(text);
    if Trim(text) == "" {
      return blogs, blogs;
    }
    var newComment := CommentView(me, text, now);
    optimistic := AppendComment(blogs, blogId, newComment);
    next := optimistic;
    if response.Ok? {
      next := Refetch(next, refetched);
    } else {
      next := RestoreComment(blogs, blogId, text);
      if forall i :: 0 <= i < |blogs| && blogs[i].id == blogId ==> blogs[i].commentText == text {
        RestoreCommentIsSnapshot(blogs, blogId, text);
      }
    }
  }

  // ---------------------------------------------------------------- local fields

  /** The comments button: flips `showComments` on the posts with the id. */
  function ToggleComments(blogs: seq<LocalPost>, blogId: string): (r: seq<LocalPost>)
    ensures |r| == |blogs|
    ensures forall i :: 0 <= i < |blogs| ==>
      r[i].doc == blogs[i].doc && r[i].id == blogs[i].id && r[i].commentText == blogs[i].commentText
    ensures forall i :: 0 <= i < |blogs| ==>
      r[i].showComments == (if blogs[i].id == blogId then !blogs[i].showComments else blogs[i].showComments)
  {
    seq(|blogs|, i requires 0 <= i < |blogs| =>
      if blogs[i].id == blogId then blogs[i].(showComments := !blogs[i].showComments) else blogs[i])
  }

  /** Two clicks on the comments button leave the list as it was. */
  lemma ToggleCommentsTwice(blogs: seq<LocalPost>, blogId: string)
    ensures ToggleComments(ToggleComments(blogs, blogId), blogId) == blogs
  {
    var r := ToggleComments(ToggleComments(blogs, blogId), blogId);
    assert forall i :: 0 <= i < |blogs| ==> r[i] == blogs[i];
  }

  // ---------------------------------------------------------------- posting

  /**
   * `handlePostBlog`: an empty title or content sends nothing; otherwise the request is sent with
   * the user's id, the form is cleared only on success, and `loading` ends false on every path.
   */
  method HandlePostBlog(s: PageState, me: UserRef, response: Response, refetched: Option<seq<PostDoc>>)
    returns (next: PageState, sent: Option<NewPost>)
    ensures s.newBlog.title == "" || s.newBlog.content == "" ==> next == s && sent == None
    ensures s.newBlog.title != "" && s.newBlog.content != "" ==>
      && sent == Some(NewPost(s.newBlog.title, s.newBlog.content, me.id))
      && !next.loading
      && (response.Ok? ==>
            next.newBlog == Draft("", "") && next.errorMessage == "" && next.blogs == Refetch(s.blogs, refetched))
      && (response.NotOk? ==>
            next.newBlog == s.newBlog && next.blogs == s.blogs
            && next.errorMessage == OrElse(response.error, "Failed to post blog"))
      && (response.Thrown? ==>
            next.newBlog == s.newBlog && next.blogs == s.blogs
            && next.errorMessage == "Network error. Please try again.")
  {
    if s.newBlog.title == "" || s.newBlog.content == "" {
      return s, None;
    }
    next := s.(loading := true);
    next := next.(errorMessage := "");
    sent := Some(NewPost(s.newBlog.title, s.newBlog.content, me.id));
    match response {
      case Ok =>
        next := next.(newBlog := Draft("", ""));
        next := next.(blogs := Refetch(s.blogs, refetched));
      case NotOk(error) =>
        next := next.(errorMessage := OrElse(error, "Failed to post blog"));
      case Thrown =>
        next := next.(errorMessage := "Network error. Please try again.");
    }
    next := next.(loading := false);
  }
}
