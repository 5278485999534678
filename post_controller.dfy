// server/controllers/postController.js: the feed. Posts are created by their
// author, liked and unliked by toggling the caller in `likes`, and commented
// on by putting the new comment first.
module PostController {
  import opened Common
  import opened Text
  import opened Tables
  import opened Models
  import opened Invariants
  import opened Store
  import opened ConnectionController

  // ------------------------------------------------------------- the likes

  /** `likes.pull(u)`: every occurrence of u removed, the rest in order. */
  function Without(likes: seq<Id>, u: Id): (r: seq<Id>)
    ensures |r| <= |likes|
    ensures u !in r
    ensures forall v :: v != u ==> (v in r <==> v in likes)
  {
    if |likes| == 0 then []
    else (if likes[0] == u then [] else [likes[0]]) + Without(likes[1..], u)
  }

  /** pull distributes over concatenation. */
  lemma {:induction false} WithoutAppend(a: seq<Id>, b: seq<Id>, u: Id)
    ensures Without(a + b, u) == Without(a, u) + Without(b, u)
  {
    if |a| == 0 {
      assert a + b == b;
    } else {
      var head := if a[0] == u then [] else [a[0]];
      assert (a + b)[0] == a[0] && (a + b)[1..] == a[1..] + b;
      WithoutAppend(a[1..], b, u);
      assert Without(a + b, u) == head + (Without(a[1..], u) + Without(b, u));
      assert Without(a, u) == head + Without(a[1..], u);
    }
  }

  /** pull of an absent id changes nothing. */
  lemma {:induction false} WithoutAbsent(likes: seq<Id>, u: Id)
    requires u !in likes
    ensures Without(likes, u) == likes
  {
    if |likes| > 0 {
      WithoutAbsent(likes[1..], u);
    }
  }

  /** pull keeps a duplicate-free list duplicate-free. */
  lemma {:induction false} WithoutKeepsDistinct(likes: seq<Id>, u: Id)
    requires Distinct(likes)
    ensures Distinct(Without(likes, u))
  {
    if |likes| > 0 {
      WithoutKeepsDistinct(likes[1..], u);
      var rest := Without(likes[1..], u);
      assert likes[0] !in likes[1..] by {
        forall k | 0 <= k < |likes[1..]| ensures likes[1..][k] != likes[0] {
          assert likes[1..][k] == likes[k + 1];
        }
      }
    }
  }

  /** likePost's update: pull the caller when the list includes them, push
      them otherwise. */
  function Toggle(likes: seq<Id>, u: Id): (r: seq<Id>)
  {
    if u in likes then Without(likes, u) else likes + [u]
  }

  /** Toggling flips the caller's membership and no one else's. */
  lemma ToggleFlips(likes: seq<Id>, u: Id)
    ensures u in Toggle(likes, u) <==> u !in likes
    ensures forall v :: v != u ==> (v in Toggle(likes, u) <==> v in likes)
  {
  }

  /** Liking twice from a state without the like gives back the same list, and
      from any state gives back the same set of likers. */
  lemma ToggleTwice(likes: seq<Id>, u: Id)
    ensures u !in likes ==> Toggle(Toggle(likes, u), u) == likes
    ensures forall v :: v in Toggle(Toggle(likes, u), u) <==> v in likes
  {
    if u !in likes {
      WithoutAppend(likes, [u], u);
      WithoutAbsent(likes, u);
      assert Without([u], u) == [];
    }
  }

  /** Toggling keeps a post's likes free of duplicates. */
  lemma ToggleKeepsDistinct(likes: seq<Id>, u: Id)
    requires Distinct(likes)
    ensures Distinct(Toggle(likes, u))
  {
    if u in likes {
      WithoutKeepsDistinct(likes, u);
    } else {
      var r := likes + [u];
      forall i, j | 0 <= i < j < |r| ensures r[i] != r[j] {
        if j == |likes| {
          assert r[i] == likes[i];
        }
      }
    }
  }

  // ------------------------------------------------------------- handlers

  /** `Notification.insertMany(...)` of one notification per recipient, all of
      one type: validation fails for every document or for none, and a failure
      inserts nothing. */
  method InsertMany(db: Db, recipients: seq<Id>, sender: Id, kind: string, link: Link) returns (r: Result<()>)
    modifies db`notifications
    ensures r.Err? <==> |recipients| > 0 && ParseNotificationType(kind).None?
    ensures r.Err? ==> r.status == ServerError && db.notifications == old(db.notifications)
    ensures r.Ok? ==> |db.notifications| == |old(db.notifications)| + |recipients|
    ensures r.Ok? ==> db.notifications[..|old(db.notifications)|] == old(db.notifications)
    ensures r.Ok? ==> forall i :: 0 <= i < |recipients| ==>
              db.notifications[|old(db.notifications)| + i]
              == Notification(recipients[i], sender, ParseNotificationType(kind).value, link, false)
  {
    if |recipients| == 0 {
      return Ok(());
    }
    var t := ParseNotificationType(kind);
    if t.None? {
      return Err(ServerError);
    }
    var docs := seq(|recipients|, i requires 0 <= i < |recipients| =>
      Notification(recipients[i], sender, t.value, link, false));
    db.notifications := db.notifications + docs;
    r := Ok(());
  }

  /** createPost: a missing post type or content 400; a post type outside the
      enum fails validation, 500 with nothing saved; otherwise the post is
      saved. When the author has friends, the notifications of type
      "new_post" then fail validation: 500, with the post already saved and
      no notification stored. */
  method CreatePost(db: Db, caller: Caller, postType: Option<string>, content: Option<PostContent>)
    returns (r: Result<Row<Post>>)
    requires db.PostsValid()
    modifies db`posts, db`notifications
    ensures db.PostsValid()
    ensures db.notifications == old(db.notifications)
    ensures postType.None? || postType.value == "" || content.None? ==> r == Err(BadRequest)
    ensures (postType.Some? && postType.value != "" && content.Some?
             && ParsePostType(postType.value).None?) ==> r == Err(ServerError)
    ensures (!(postType.Some? && ParsePostType(postType.value).Some? && content.Some?)
             ==> db.posts == old(db.posts))
    ensures (postType.Some? && ParsePostType(postType.value).Some? && content.Some?
             ==> db.posts == old(db.posts) + [Post(caller.id, ParsePostType(postType.value).value, None,
                                                   content.value, [], [], [])])
    ensures r.Ok? <==> (postType.Some? && ParsePostType(postType.value).Some? && content.Some?
                        && FriendIds(db.connections, caller.id) == [])
    ensures (postType.Some? && ParsePostType(postType.value).Some? && content.Some?
             && FriendIds(db.connections, caller.id) != []) ==> r == Err(ServerError)
    ensures r.Ok? ==> r.value == Row(|old(db.posts)|, db.posts[|old(db.posts)|])
  {
    if postType.None? || postType.value == "" || content.None? {
      return Err(BadRequest);
    }
    var t := ParsePostType(postType.value);
    if t.None? {
      return Err(ServerError);
    }
    var post := Post(caller.id, t.value, None, content.value, [], [], []);
    db.posts := db.posts + [post];
    var id := |db.posts| - 1;
    var friends := FriendIds(db.connections, caller.id);
    if |friends| > 0 {
      var inserted := InsertMany(db, friends, caller.id, "new_post", PostPage(id));
      if inserted.Err? {
        return Err(inserted.status);
      }
    }
    r := Ok(Row(id, post));
  }

  /** getAllPosts: the fifty newest posts, newest first. */
  function GetAllPosts(posts: seq<Post>): (r: seq<Row<Post>>)
    ensures |r| == if |posts| < 50 then |posts| else 50
    ensures Descending(r) && RowsOf(r, posts)
    ensures forall x :: x in r ==> x.id >= |posts| - |r|
  {
    var n := if |posts| < 50 then |posts| else 50;
    seq(n, k requires 0 <= k < n => Row(|posts| - 1 - k, posts[|posts| - 1 - k]))
  }

  /** likePost: a missing post 404; otherwise the caller's like is toggled and
      the new likes returned, and a new like by someone other than the author
      notifies the author. */
  method LikePost(db: Db, caller: Caller, postId: Id) returns (r: Result<seq<Id>>)
    requires db.PostsValid()
    modifies db`posts, db`notifications
    ensures db.PostsValid()
    ensures postId >= |old(db.posts)| ==> r == Err(NotFound)
    ensures r.Ok? <==> postId < |old(db.posts)|
    ensures r.Err? ==> db.posts == old(db.posts) && db.notifications == old(db.notifications)
    ensures r.Ok? ==> r.value == Toggle(old(db.posts)[postId].likes, caller.id)
    ensures r.Ok? ==> db.posts == old(db.posts)[postId := old(db.posts)[postId].(likes := r.value)]
    ensures (r.Ok? && caller.id !in old(db.posts)[postId].likes && old(db.posts)[postId].author != caller.id
             ==> db.notifications == old(db.notifications) +
                   [Notification(old(db.posts)[postId].author, caller.id, NewLike, PostPage(postId), false)])
    ensures (r.Ok? && (caller.id in old(db.posts)[postId].likes || old(db.posts)[postId].author == caller.id)
             ==> db.notifications == old(db.notifications))
  {
    if postId >= |db.posts| {
      return Err(NotFound);
    }
    var post := db.posts[postId];
    var hasLiked := caller.id in post.likes;
    ToggleKeepsDistinct(post.likes, caller.id);
    post := post.(likes := Toggle(post.likes, caller.id));
    db.posts := db.posts[postId := post];
    if !hasLiked && post.author != caller.id {
      var _ := Notify(db, Notification(post.author, caller.id, NewLike, PostPage(postId), false));
    }
    r := Ok(post.likes);
  }

  /** addComment: missing or blank text 400 before the lookup, a missing post
      404; otherwise the trimmed comment goes first, the others follow
      unchanged, and a comment by someone other than the author notifies the
      author. `now` is the clock reading that stamps the comment. */
  method AddComment(db: Db, caller: Caller, postId: Id, text: Option<string>, now: nat) returns (r: Result<Comment>)
    requires db.PostsValid()
    modifies db`posts, db`notifications
    ensures db.PostsValid()
    ensures (text.None? || forall i :: 0 <= i < |text.value| ==> IsSpace(text.value[i])) <==> r == Err(BadRequest)
    ensures r != Err(BadRequest) && postId >= |old(db.posts)| ==> r == Err(NotFound)
    ensures r.Ok? <==> r != Err(BadRequest) && postId < |old(db.posts)|
    ensures r.Err? ==> db.posts == old(db.posts) && db.notifications == old(db.notifications)
    ensures r.Ok? ==> r.value == Comment(caller.id, Trim(text.value), now)
    ensures r.Ok? ==> r.value.text != "" && IsTrimmed(r.value.text)
    ensures r.Ok? ==> db.posts == old(db.posts)[postId := old(db.posts)[postId].(
                                    comments := [r.value] + old(db.posts)[postId].comments)]
    ensures (r.Ok? && old(db.posts)[postId].author != caller.id
             ==> db.notifications == old(db.notifications) +
                   [Notification(old(db.posts)[postId].author, caller.id, NewComment, PostPage(postId), false)])
    ensures r.Ok? && old(db.posts)[postId].author == caller.id ==> db.notifications == old(db.notifications)
  {
    if text.Some? {
      TrimEmptyIffBlank(text.value);
    }
    if text.None? || Trim(text.value) == "" {
      return Err(BadRequest);
    }
    if postId >= |db.posts| {
      return Err(NotFound);
    }
    var post := db.posts[postId];
    var comment := Comment(caller.id, Trim(text.value), now);
    post := post.(comments := [comment] + post.comments);
    db.posts := db.posts[postId := post];
    if post.author != caller.id {
      var _ := Notify(db, Notification(post.author, caller.id, NewComment, PostPage(postId), false));
    }
    r := Ok(comment);
  }
}
