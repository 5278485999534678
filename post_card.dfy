// client/src/components/PostCard.jsx: one post of the feed. The text is
// rendered with its hashtags as search links; the like button updates the
// card before the server answers and rolls back when the request fails; a
// comment pushed by the server for this post goes on top.
module PostCard {
  import opened Common
  import opened Models
  import PostController

  // --------------------------------------------------- renderWithHashtags

  /** `\w`: an ASCII letter, digit or underscore. */
  predicate IsWordChar(c: char)
  {
    'a' <= c <= 'z' || 'A' <= c <= 'Z' || '0' <= c <= '9' || c == '_'
  }

  /** Length of the longest prefix of word characters. */
  function WordRun(s: string): (n: nat)
    ensures n <= |s|
    ensures forall i :: 0 <= i < n ==> IsWordChar(s[i])
    ensures n < |s| ==> !IsWordChar(s[n])
  {
    if |s| == 0 || !IsWordChar(s[0]) then 0 else 1 + WordRun(s[1..])
  }

  /** Where `/#\w+/` first matches: the first `#` followed by a word character. */
  function FindTag(s: string): (r: Option<nat>)
    ensures r.Some? ==> r.value + 1 < |s| && s[r.value] == '#' && IsWordChar(s[r.value + 1])
    ensures r.Some? ==> forall i :: 0 <= i < r.value ==> !(s[i] == '#' && IsWordChar(s[i + 1]))
    ensures r.None? ==> forall i :: 0 <= i < |s| - 1 ==> !(s[i] == '#' && IsWordChar(s[i + 1]))
  {
    if |s| < 2 then None
    else if s[0] == '#' && IsWordChar(s[1]) then Some(0)
    else
      match FindTag(s[1..])
      case None => None
      case Some(i) => Some(i + 1)
  }

  /** Whether `part` is a whole hashtag: `#` and one or more word characters. */
  predicate IsTag(part: string)
  {
    |part| >= 2 && part[0] == '#' && forall i :: 1 <= i < |part| ==> IsWordChar(part[i])
  }

  /** The match of `#\w+` at `i`: the `#` and every word character after it. */
  function TagAt(s: string, i: nat): (t: string)
    requires i + 1 < |s| && s[i] == '#' && IsWordChar(s[i + 1])
    ensures IsTag(t)
    ensures i + |t| <= |s| && t == s[i..i + |t|]
    ensures i + |t| < |s| ==> !IsWordChar(s[i + |t|])
  {
    var n := 1 + WordRun(s[i + 1..]);
    var t, after := s[i..i + n], s[i + 1..];
    assert forall j :: 1 <= j < n ==> t[j] == after[j - 1];
    t
  }

  /** `text.split(/(#\w+)/g)`: the text between matches, with each match kept
      in between, so the hashtags sit at the odd positions. */
  function Parts(s: string): (r: seq<string>)
    ensures |r| % 2 == 1
    ensures forall k :: 0 <= k < |r| && k % 2 == 1 ==> IsTag(r[k])
    decreases |s|
  {
    match FindTag(s)
    case None => [s]
    case Some(i) =>
      var t := TagAt(s, i);
      var rest := Parts(s[i + |t|..]);
      var r := [s[..i], t] + rest;
      forall k | 0 <= k < |r| && k % 2 == 1 ensures IsTag(r[k]) {
        if k > 1 {
          assert r[k] == rest[k - 2] && (k - 2) % 2 == 1;
        }
      }
      r
  }

  /** The split is global: no part between hashtags holds a `#\w` match,
      so every match of the text sits at an odd position. */
  lemma {:induction false} PartsLeaveNoTag(s: string)
    ensures forall k :: 0 <= k < |Parts(s)| && k % 2 == 0 ==> FindTag(Parts(s)[k]).None?
    decreases |s|
  {
    var found := FindTag(s);
    if found.None? {
      assert Parts(s) == [s];
    } else {
      var i := found.value;
      var t := TagAt(s, i);
      var tail := s[i + |t|..];
      PartsLeaveNoTag(tail);
      var rest := Parts(tail);
      assert Parts(s) == [s[..i], t] + rest;
      PrefixHasNoTag(s, i);
      EvenPartsOfCons(s[..i], t, rest);
    }
  }

  /** Even positions of `[a, t] + rest` are `a` and the even positions of `rest`. */
  lemma EvenPartsOfCons(a: string, t: string, rest: seq<string>)
    requires FindTag(a).None?
    requires forall k :: 0 <= k < |rest| && k % 2 == 0 ==> FindTag(rest[k]).None?
    ensures forall k :: 0 <= k < |[a, t] + rest| && k % 2 == 0 ==> FindTag(([a, t] + rest)[k]).None?
  {
    var r := [a, t] + rest;
    forall k | 0 <= k < |r| && k % 2 == 0 ensures FindTag(r[k]).None? {
      if k > 0 {
        assert r[k] == rest[k - 2];
      }
    }
  }

  /** The text before the first match holds no match. */
  lemma PrefixHasNoTag(s: string, i: nat)
    requires FindTag(s) == Some(i)
    ensures FindTag(s[..i]).None?
  {
  }

  /** The concatenation of a list of strings. */
  function Concat(parts: seq<string>): string
  {
    if |parts| == 0 then "" else parts[0] + Concat(parts[1..])
  }

  /** Concatenating two leading parts. */
  lemma ConcatTwo(a: string, b: string, rest: seq<string>)
    ensures Concat([a, b] + rest) == a + (b + Concat(rest))
  {
    var r := [a, b] + rest;
    assert r[1..] == [b] + rest && r[1..][1..] == rest;
  }

  /** Splitting loses nothing: the parts concatenate back to the text. */
  lemma {:induction false} PartsConcat(s: string)
    ensures Concat(Parts(s)) == s
    decreases |s|
  {
    var found := FindTag(s);
    if found.None? {
      assert Parts(s) == [s];
      assert [s][1..] == [];
    } else {
      var i := found.value;
      var t := TagAt(s, i);
      var tail := s[i + |t|..];
      PartsConcat(tail);
      assert Parts(s) == [s[..i], t] + Parts(tail);
      ConcatTwo(s[..i], t, Parts(tail));
      SplitAround(s, i, |t|);
    }
  }

  /** A string is its prefix, a middle slice and its suffix. */
  lemma SplitAround(s: string, i: nat, n: nat)
    requires i + n <= |s|
    ensures s == s[..i] + (s[i..i + n] + s[i + n..])
  {
  }

  /** A rendered piece: a link to the search for `tag`, showing `caption`, or
      plain text. */
  datatype Piece = TagLink(tag: string, caption: string) | Plain(text: string)

  /** The text a piece shows. */
  function Shown(p: Piece): string
  {
    match p
    case TagLink(_, caption) => caption
    case Plain(text) => text
  }

  /** renderWithHashtags: null for a missing or empty text; otherwise every
      part starting with `#` becomes a link to its tag (the part without the
      `#`), and every other part stays text. */
  function RenderWithHashtags(text: Option<string>): (r: Option<seq<Piece>>)
    ensures r.None? <==> text.None? || text.value == ""
    ensures r.Some? ==> |r.value| == |Parts(text.value)|
    ensures r.Some? ==> forall k :: 0 <= k < |r.value| ==> Shown(r.value[k]) == Parts(text.value)[k]
    ensures r.Some? ==> forall k :: 0 <= k < |r.value| && r.value[k].TagLink? ==>
                          |r.value[k].caption| > 0 && r.value[k].caption[0] == '#'
                          && r.value[k].tag == r.value[k].caption[1..]
    ensures r.Some? ==> forall k :: 0 <= k < |r.value| && r.value[k].Plain? ==>
                          !(|r.value[k].text| > 0 && r.value[k].text[0] == '#')
  {
    if text.None? || text.value == "" then None
    else
      var parts := Parts(text.value);
      Some(seq(|parts|, k requires 0 <= k < |parts| =>
        if |parts[k]| > 0 && parts[k][0] == '#' then TagLink(parts[k][1..], parts[k]) else Plain(parts[k])))
  }

  /** The shown texts of the pieces concatenate back to the post text. */
  lemma RenderShowsText(text: string)
    requires text != ""
    ensures var pieces := RenderWithHashtags(Some(text)).value;
            Concat(seq(|pieces|, k requires 0 <= k < |pieces| => Shown(pieces[k]))) == text
  {
    var pieces := RenderWithHashtags(Some(text)).value;
    assert seq(|pieces|, k requires 0 <= k < |pieces| => Shown(pieces[k])) == Parts(text);
    PartsConcat(text);
  }

  /** Every part at an odd position, a hashtag, becomes a link to itself
      without the `#`. */
  lemma TagsBecomeLinks(text: string, k: nat)
    requires text != "" && k < |Parts(text)| && k % 2 == 1
    ensures RenderWithHashtags(Some(text)).value[k] == TagLink(Parts(text)[k][1..], Parts(text)[k])
  {
  }

  /** No hashtag is left as plain text: a plain piece holds no `#\w` match. */
  lemma NoTagLeftPlain(text: string)
    requires text != ""
    ensures var pieces := RenderWithHashtags(Some(text)).value;
            forall k :: 0 <= k < |pieces| && pieces[k].Plain? ==> FindTag(pieces[k].text).None?
  {
    var parts := Parts(text);
    var pieces := RenderWithHashtags(Some(text)).value;
    PartsLeaveNoTag(text);
    forall k | 0 <= k < |pieces| && pieces[k].Plain? ensures FindTag(pieces[k].text).None? {
      assert pieces[k].text == parts[k];
    }
  }

  /** A part between hashtags that starts with `#` is shown as a link too:
      "# x" links to the search for " x". */
  lemma SpaceAfterHashLinks()
    ensures RenderWithHashtags(Some("# x")) == Some([TagLink(" x", "# x")])
  {
    assert FindTag("# x") == None by {
      assert "# x"[1..] == " x" && " x"[1..] == "x";
      assert FindTag("x") == None;
      assert FindTag(" x") == None;
    }
    assert Parts("# x") == ["# x"];
    var pieces := RenderWithHashtags(Some("# x")).value;
    assert |pieces| == 1 && pieces[0] == TagLink(" x", "# x");
    assert pieces == [TagLink(" x", "# x")];
  }

  // ------------------------------------------------------------ the card

  /** The card's state. `me` is the signed-in user's id. */
  class View {
    const postId: Id
    const me: Id
    var likes: seq<Id>
    var comments: seq<Comment>
    var isLiked: bool
    var visibleCommentsCount: nat

    /** What the `isLiked` effect maintains. */
    ghost predicate Synced()
      reads this`likes, this`isLiked
    {
      isLiked == (me in likes)
    }

    /** The initial state: the post's likes and comments (`|| []`), not yet
        liked, two comments visible. */
    constructor (postId: Id, me: Id, likes: Option<seq<Id>>, comments: Option<seq<Comment>>)
      ensures this.postId == postId && this.me == me
      ensures this.likes == (if likes.Some? then likes.value else [])
      ensures this.comments == (if comments.Some? then comments.value else [])
      ensures !isLiked && visibleCommentsCount == 2
    {
      this.postId := postId;
      this.me := me;
      this.likes := if likes.Some? then likes.value else [];
      this.comments := if comments.Some? then comments.value else [];
      isLiked := false;
      visibleCommentsCount := 2;
    }

    /** The effect on `likes`: `setIsLiked(likes.includes(user._id))`. */
    method SyncLiked()
      modifies this`isLiked
      ensures Synced()
      ensures isLiked == (me in likes)
    {
      isLiked := me in likes;
    }

    /** The optimistic update: the caller removed when liked, appended
        otherwise. */
    function Optimistic(): (r: seq<Id>)
      reads this`likes, this`isLiked
      ensures me in r <==> !isLiked
      ensures forall v :: v != me ==> (v in r <==> v in likes)
    {
      if isLiked then PostController.Without(likes, me) else likes + [me]
    }

    /** handleLike: the optimistic likes and flag are shown at once; when the
        request fails the likes are put back. The catch block sets the flag
        from the value captured before the click, so it keeps the optimistic
        flag; the effect on `likes`, which follows, recomputes the flag from
        the restored likes. `requestOk` is whether the request succeeded. */
    method HandleLike(requestOk: bool)
      requires Synced()
      modifies this`likes, this`isLiked
      ensures Synced()
      ensures requestOk ==> likes == old(Optimistic()) && isLiked == !old(isLiked)
      ensures !requestOk ==> likes == old(likes) && isLiked == old(isLiked)
    {
      var originalLikes := likes;
      var wasLiked := isLiked;
      var newLikes := Optimistic();
      isLiked := !wasLiked;
      likes := newLikes;
      if !requestOk {
        isLiked := !wasLiked;
        likes := originalLikes;
      }
      SyncLiked();
    }

    /** The postLikeUpdate listener: the server's likes for this post replace
        the card's; updates for other posts are ignored. */
    method HandleLikeUpdate(post: Id, serverLikes: seq<Id>)
      modifies this`likes, this`isLiked
      ensures post == postId ==> likes == serverLikes && Synced()
      ensures post != postId ==> likes == old(likes) && isLiked == old(isLiked)
    {
      if post == postId {
        likes := serverLikes;
        SyncLiked();
      }
    }

    /** The postCommentUpdate listener: a comment on this post goes first and
        one more comment is shown; updates for other posts are ignored. */
    method HandleCommentUpdate(post: Id, comment: Comment)
      modifies this`comments, this`visibleCommentsCount
      ensures post == postId ==> comments == [comment] + old(comments)
                                 && visibleCommentsCount == old(visibleCommentsCount) + 1
      ensures post != postId ==> comments == old(comments) && visibleCommentsCount == old(visibleCommentsCount)
    {
      if post == postId {
        comments := [comment] + comments;
        visibleCommentsCount := visibleCommentsCount + 1;
      }
    }
  }

  /** With the flag in step with the likes, the card's optimistic likes are
      what the server's likePost will store. */
  lemma OptimisticMatchesServer(likes: seq<Id>, me: Id, isLiked: bool)
    requires isLiked == (me in likes)
    ensures (if isLiked then PostController.Without(likes, me) else likes + [me]) == PostController.Toggle(likes, me)
  {
  }
}
