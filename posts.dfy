/**
 * What the saved-posts and my-posts screens share: the server's post record,
 * the display record built from it with its defaults, the date guard, and the
 * list updates the handlers apply (removing or re-flagging posts by id, putting
 * fetched comments on a post, toggling an id in the expanded-comments list,
 * and reading a reply draft).
 */
module Posts {
  import opened Common
  import Json

  /** A doctor comment, by its string fields. */
  type Comment = Json.Profile

  /** A post as the community endpoint returns it; `None` is a missing (null or undefined)
      property. `id` is the property after `toString()`. */
  datatype RawPost = RawPost(
    id: Option<string>,
    title: Option<string>,
    content: Option<string>,
    image: Option<string>,
    createdAt: Option<string>,
    author: Option<string>,
    isSaved: Option<bool>)

  /** A post as the screens hold it. `comments` is null until the comments are fetched. */
  datatype Post = Post(
    id: string,
    title: string,
    content: string,
    image: Option<string>,
    createdAt: string,
    author: string,
    comments: Option<seq<Comment>>,
    saved: bool)

  const UnknownDate := "Unknown Date"
  const UnknownId := "unknown"
  const NoTitle := "No Title"
  const NoContent := "No Content"
  const Anonymous := "Anonymous"

  /** `a ?? b` on an optional string. */
  function OrElse(a: Option<string>, b: string): (r: string)
    ensures a.Some? ==> r == a.value
    ensures a.None? ==> r == b
  {
    if a.Some? then a.value else b
  }

  /** `formatDate(s)`: the placeholder for an empty input and for the placeholder itself,
      otherwise the locale rendering, which is the parameter `format`. */
  function FormatDate(s: string, format: string -> string): (r: string)
    ensures s == "" || s == UnknownDate ==> r == UnknownDate
    ensures s != "" && s != UnknownDate ==> r == format(s)
  {
    if s == "" || s == UnknownDate then UnknownDate else format(s)
  }

  /** The `map` callback of `fetchPosts`: each missing field gets its default, a present field
      is kept as it is (even when empty, since `??` only replaces null), and comments are null. */
  function FormatPost(raw: RawPost, format: string -> string): (r: Post)
    ensures r.id == OrElse(raw.id, UnknownId) && r.title == OrElse(raw.title, NoTitle)
    ensures r.content == OrElse(raw.content, NoContent) && r.author == OrElse(raw.author, Anonymous)
    ensures r.image == raw.image && r.comments.None?
    ensures r.saved <==> raw.isSaved == Some(true)
    ensures raw.createdAt.None? ==> r.createdAt == UnknownDate
  {
    Post(OrElse(raw.id, UnknownId), OrElse(raw.title, NoTitle), OrElse(raw.content, NoContent), raw.image,
         FormatDate(OrElse(raw.createdAt, UnknownDate), format), OrElse(raw.author, Anonymous), None,
         raw.isSaved == Some(true))
  }

  /** Formats every post, keeping the order. */
  function FormatAll(raws: seq<RawPost>, format: string -> string): (r: seq<Post>)
    ensures |r| == |raws|
    ensures forall i :: 0 <= i < |raws| ==> r[i] == FormatPost(raws[i], format)
  {
    if raws == [] then [] else [FormatPost(raws[0], format)] + FormatAll(raws[1..], format)
  }

  predicate IsSavedRaw(raw: RawPost) {
    raw.isSaved == Some(true)
  }

  /** The filter of the saved-posts screen: `post.is_saved === true`. */
  function SavedOnly(raws: seq<RawPost>): seq<RawPost> {
    Filter(raws, IsSavedRaw)
  }

  /** The filter of the my-posts screen: `post.author === userName`. */
  function AuthorIs(userName: string): RawPost -> bool {
    (raw: RawPost) => raw.author == Some(userName)
  }

  function ByAuthor(raws: seq<RawPost>, userName: string): seq<RawPost> {
    Filter(raws, AuthorIs(userName))
  }

  /** The saved-posts pipeline keeps exactly the posts flagged saved, every occurrence and in
      their original order, and shows each of them as saved with no comments yet. */
  lemma SavedPostsView(raws: seq<RawPost>, format: string -> string)
    ensures IsSubsequence(SavedOnly(raws), raws)
    ensures forall x :: multiset(SavedOnly(raws))[x] == if x.isSaved == Some(true) then multiset(raws)[x] else 0
    ensures forall p :: p in FormatAll(SavedOnly(raws), format) ==> p.saved && p.comments.None?
  {
    FilterExact(raws, IsSavedRaw);
    var kept := SavedOnly(raws);
    forall p | p in FormatAll(kept, format) ensures p.saved && p.comments.None? {
      var i :| 0 <= i < |kept| && FormatAll(kept, format)[i] == p;
      assert kept[i] in kept;
    }
  }

  /** The my-posts pipeline keeps exactly the posts by `userName`, in order, and each shows
      that author. */
  lemma AuthorPostsView(raws: seq<RawPost>, userName: string, format: string -> string)
    ensures IsSubsequence(ByAuthor(raws, userName), raws)
    ensures forall x :: multiset(ByAuthor(raws, userName))[x] == if x.author == Some(userName) then multiset(raws)[x] else 0
    ensures forall p :: p in FormatAll(ByAuthor(raws, userName), format) ==> p.author == userName
  {
    FilterExact(raws, AuthorIs(userName));
    var kept := ByAuthor(raws, userName);
    forall p | p in FormatAll(kept, format) ensures p.author == userName {
      var i :| 0 <= i < |kept| && FormatAll(kept, format)[i] == p;
      assert kept[i] in kept;
    }
  }

  function OtherId(id: string): Post -> bool {
    (p: Post) => p.id != id
  }

  /** `posts.filter(post => post.id !== id)` */
  function WithoutId(posts: seq<Post>, id: string): (r: seq<Post>)
    ensures forall i :: 0 <= i < |r| ==> r[i].id != id
  {
    var r := Filter(posts, OtherId(id));
    assert forall i :: 0 <= i < |r| ==> r[i] in r;
    r
  }

  /** Removing an id drops every post with that id and keeps every other post, in order. */
  lemma WithoutIdExact(posts: seq<Post>, id: string)
    ensures IsSubsequence(WithoutId(posts, id), posts)
    ensures forall p :: multiset(WithoutId(posts, id))[p] == if p.id == id then 0 else multiset(posts)[p]
  {
    FilterExact(posts, OtherId(id));
  }

  /** Sets `saved` on every post with the id; nothing else in the list changes. */
  function SetSaved(posts: seq<Post>, id: string, saved: bool): (r: seq<Post>)
    ensures |r| == |posts|
    ensures forall i :: 0 <= i < |posts| ==> r[i].(saved := posts[i].saved) == posts[i]
    ensures forall i :: 0 <= i < |posts| ==> r[i].saved == if posts[i].id == id then saved else posts[i].saved
  {
    if posts == [] then []
    else [if posts[0].id == id then posts[0].(saved := saved) else posts[0]] + SetSaved(posts[1..], id, saved)
  }

  /** Index of the first post with the id (`posts.find`). */
  function FindIndex(posts: seq<Post>, id: string): (r: Option<nat>)
    ensures r.Some? ==> r.value < |posts| && posts[r.value].id == id
    ensures r.Some? ==> forall k :: 0 <= k < r.value ==> posts[k].id != id
    ensures r.None? ==> forall k :: 0 <= k < |posts| ==> posts[k].id != id
  {
    if posts == [] then None
    else if posts[0].id == id then Some(0)
    else
      match FindIndex(posts[1..], id)
      case None => None
      case Some(k) => Some(k + 1)
  }

  /** The update of `fetchDoctorComments`: every post with the id becomes the first such post
      carrying the fetched comments; other posts are unchanged. */
  function WithComments(posts: seq<Post>, id: string, comments: seq<Comment>): (r: seq<Post>)
    ensures |r| == |posts|
    ensures forall i :: 0 <= i < |posts| && posts[i].id != id ==> r[i] == posts[i]
    ensures forall i :: 0 <= i < |posts| && posts[i].id == id ==>
      FindIndex(posts, id).Some? && r[i] == posts[FindIndex(posts, id).value].(comments := Some(comments))
  {
    match FindIndex(posts, id)
    case None => posts
    case Some(j) =>
      var updated := posts[j].(comments := Some(comments));
      seq(|posts|, i requires 0 <= i < |posts| => if posts[i].id == id then updated else posts[i])
  }

  /** `post && post.comments === null` for the first post with the id. */
  predicate CommentsNotLoaded(posts: seq<Post>, id: string) {
    var found := FindIndex(posts, id);
    found.Some? && posts[found.value].comments.None?
  }

  /** No two posts share an id. */
  predicate UniqueIds(posts: seq<Post>) {
    forall i, j :: 0 <= i < j < |posts| ==> posts[i].id != posts[j].id
  }

  /** With unique ids, fetching comments changes only the comments of the post with that id. */
  lemma WithCommentsUnique(posts: seq<Post>, id: string, comments: seq<Comment>)
    requires UniqueIds(posts)
    ensures forall i :: 0 <= i < |posts| ==>
      WithComments(posts, id, comments)[i] == if posts[i].id == id then posts[i].(comments := Some(comments)) else posts[i]
  {
    forall i | 0 <= i < |posts| && posts[i].id == id
      ensures WithComments(posts, id, comments)[i] == posts[i].(comments := Some(comments))
    {
      var j := FindIndex(posts, id).value;
      assert j == i;
    }
  }

  function NotEqual(x: string): string -> bool {
    (y: string) => y != x
  }

  /** `toggleCommentsVisibility`: an expanded id is removed, any other id is appended. */
  function ToggleMember(xs: seq<string>, x: string): (r: seq<string>)
    ensures x in r <==> x !in xs
    ensures forall y :: y != x ==> (y in r <==> y in xs)
  {
    if x in xs then Filter(xs, NotEqual(x))
    else
      var r := xs + [x];
      assert forall y :: y in r <==> y in xs || y == x;
      r
  }

  /** Toggling an id that was not expanded twice gives back the same list. */
  lemma ToggleTwice(xs: seq<string>, x: string)
    requires x !in xs
    ensures ToggleMember(ToggleMember(xs, x), x) == xs
  {
    FilterAppend(xs, [x], NotEqual(x));
    FilterAllPass(xs, NotEqual(x));
    assert Filter([x], NotEqual(x)) == [];
  }

  ghost predicate Distinct(xs: seq<string>) {
    forall y :: multiset(xs)[y] <= 1
  }

  /** The expanded list never holds an id twice. */
  lemma ToggleKeepsDistinct(xs: seq<string>, x: string)
    requires Distinct(xs)
    ensures Distinct(ToggleMember(xs, x))
  {
    if x in xs {
      FilterExact(xs, NotEqual(x));
    } else {
      assert multiset(xs + [x]) == multiset(xs) + multiset{x};
    }
  }

  /** The guard of `submitReply`: a missing draft or one that is only whitespace is refused. */
  lemma SubmitGuard(replies: map<string, string>, id: string)
    ensures HasText(Lookup(replies, id)) <==>
      id in replies && exists i :: 0 <= i < |replies[id]| && !IsJsSpace(replies[id][i])
  {
    if id in replies {
      TrimEmptyIffAllSpace(replies[id]);
    }
  }

  /** Outcome of the GET of the post list: failure (no reply, a non-ok status or an exception)
      or the reply body's `posts` property. */
  datatype PostsReply = PostsFailed | PostsReplied(posts: Option<seq<RawPost>>)

  /** Outcome of a request whose reply is judged by its `status` field. */
  datatype StatusReply = StatusFailed | Status(status: string)

  /** Outcome of the GET of one post's comments. */
  datatype CommentsReply = CommentsFailed | CommentsReplied(status: string, comments: Option<seq<Comment>>)

  const Success := "success"

  predicate IsSuccess(reply: StatusReply) {
    reply.Status? && reply.status == Success
  }

  /** What a successful comments fetch installs: `data.comments || []`. */
  function FetchedComments(reply: CommentsReply): (r: Option<seq<Comment>>)
    ensures r.Some? <==> reply.CommentsReplied? && reply.status == Success
    ensures r.Some? && reply.comments.Some? ==> r.value == reply.comments.value
    ensures r.Some? && reply.comments.None? ==> r.value == []
  {
    if reply.CommentsReplied? && reply.status == Success then
      Some(if reply.comments.Some? then reply.comments.value else [])
    else None
  }
}
