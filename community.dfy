/**
 * The community forum screen (screens/CommunityScreen.js): the post list built
 * from the server's serialized records behind one fixed example post, the reply
 * drafts, replies kept locally on each post, and the `addPost` callback that
 * would prepend a post; it is handed to the create-post screen, which never calls
 * it. Server replies are parameters; `format` is the locale date rendering and
 * `nowIso` the current time.
 */
module Community {
  import opened Common

  const Host := "http://localhost:8000"
  const StaticId := "static-1"
  const StaticTitle := "Example Post with an Image"
  const StaticText := "This is a sample post with an image."
  const StaticAuthor := "Admin"
  const ServerAuthor := "User"
  const StaticAsset := "rash.avif"

  /** What a post shows as its picture: nothing, a URL, or an image bundled with the app. */
  datatype Picture = NoPicture | Url(url: string) | Bundled(asset: string)

  /** One record of the serialized `posts` list: the primary key and the `fields` object. */
  datatype ServerPost = ServerPost(
    pk: int,
    title: Option<string>,
    content: Option<string>,
    image: Option<string>,
    createdAt: string)

  datatype ForumPost = ForumPost(
    id: string,
    title: Option<string>,
    text: Option<string>,
    picture: Picture,
    createdAt: string,
    author: string,
    replies: Option<seq<string>>)

  /** Outcome of the GET of the forum: failure (an exception, including a `posts` text that
      does not parse), or the reply's `status` with the parsed records. */
  datatype ForumReply = ForumFailed | ForumReplied(status: string, posts: seq<ServerPost>)

  function DigitChar(d: nat): (c: char)
    requires d < 10
    ensures '0' <= c <= '9'
  {
    ('0' as int + d) as char
  }

  /** Decimal digits of a natural number, most significant first. */
  function NatToString(n: nat): (s: string)
    ensures |s| >= 1 && forall i :: 0 <= i < |s| ==> '0' <= s[i] <= '9'
  {
    if n < 10 then [DigitChar(n)] else NatToString(n / 10) + [DigitChar(n % 10)]
  }

  /** `n.toString()` for an integer. */
  function IntToString(n: int): (s: string)
    ensures s != [] && forall i :: 1 <= i < |s| ==> '0' <= s[i] <= '9'
    ensures s[0] == '-' <==> n < 0
    ensures s[0] != '-' ==> '0' <= s[0] <= '9'
  {
    if n < 0 then "-" + NatToString(-n) else NatToString(n)
  }

  /** The value of a string of decimal digits. */
  function DecimalValue(s: string): nat {
    if s == [] then 0
    else
      var d := s[|s| - 1] as int - '0' as int;
      DecimalValue(s[..|s| - 1]) * 10 + (if 0 <= d then d else 0)
  }

  lemma {:induction false} DecimalRoundTrip(n: nat)
    ensures DecimalValue(NatToString(n)) == n
  {
    if n >= 10 {
      var s := NatToString(n);
      assert s[..|s| - 1] == NatToString(n / 10);
      DecimalRoundTrip(n / 10);
    }
  }

  lemma NatToStringInjective(a: nat, b: nat)
    requires NatToString(a) == NatToString(b)
    ensures a == b
  {
    DecimalRoundTrip(a);
    DecimalRoundTrip(b);
  }

  /** Distinct primary keys give distinct ids. */
  lemma IntToStringInjective(a: int, b: int)
    requires IntToString(a) == IntToString(b)
    ensures a == b
  {
    var s := IntToString(a);
    if a < 0 {
      assert b < 0;
      assert s[1..] == NatToString(-a) by { assert s == "-" + NatToString(-a); }
      assert s[1..] == NatToString(-b) by { assert s == "-" + NatToString(-b); }
      NatToStringInjective(-a, -b);
    } else {
      assert b >= 0;
      NatToStringInjective(a, b);
    }
  }

  /** The `map` callback of `fetchPosts`. */
  function FormatServerPost(p: ServerPost, format: string -> string): (r: ForumPost)
    ensures r.id == IntToString(p.pk) && r.title == p.title && r.text == p.content
    ensures r.picture == if Truthy(p.image) then Url(Host + p.image.value) else NoPicture
    ensures r.createdAt == format(p.createdAt) && r.author == ServerAuthor && r.replies.None?
  {
    ForumPost(IntToString(p.pk), p.title, p.content,
              if Truthy(p.image) then Url(Host + p.image.value) else NoPicture,
              format(p.createdAt), ServerAuthor, None)
  }

  function StaticPost(nowIso: string, format: string -> string): ForumPost {
    ForumPost(StaticId, Some(StaticTitle), Some(StaticText), Bundled(StaticAsset), format(nowIso), StaticAuthor, None)
  }

  /** The list a success reply installs: the example post, then the server's posts in order. */
  function ForumList(server: seq<ServerPost>, nowIso: string, format: string -> string): (r: seq<ForumPost>)
    ensures |r| == |server| + 1 && r[0] == StaticPost(nowIso, format)
    ensures forall i :: 0 <= i < |server| ==> r[i + 1] == FormatServerPost(server[i], format)
  {
    [StaticPost(nowIso, format)] + seq(|server|, i requires 0 <= i < |server| => FormatServerPost(server[i], format))
  }

  /** With distinct primary keys, every post of the list has its own id: no server id collides
      with another or with the example post's. */
  lemma ForumListIdsDistinct(server: seq<ServerPost>, nowIso: string, format: string -> string)
    requires forall i, j :: 0 <= i < j < |server| ==> server[i].pk != server[j].pk
    ensures var r := ForumList(server, nowIso, format);
      forall i, j :: 0 <= i < j < |r| ==> r[i].id != r[j].id
  {
    var r := ForumList(server, nowIso, format);
    forall i, j | 0 <= i < j < |r| ensures r[i].id != r[j].id {
      if i == 0 {
        assert r[j].id == IntToString(server[j - 1].pk);
        assert StaticId[0] == 's';
      } else if r[i].id == r[j].id {
        IntToStringInjective(server[i - 1].pk, server[j - 1].pk);
      }
    }
  }

  /** The replies a post shows: `post.replies || []`. */
  function RepliesOf(p: ForumPost): seq<string> {
    if p.replies.Some? then p.replies.value else []
  }

  /** The update of `submitReply`: each post with the id gains the draft as its last reply;
      every other post, and every other field, is unchanged. */
  function AddReply(posts: seq<ForumPost>, id: string, text: string): (r: seq<ForumPost>)
    ensures |r| == |posts|
    ensures forall i :: 0 <= i < |posts| ==> r[i].(replies := posts[i].replies) == posts[i]
    ensures forall i :: 0 <= i < |posts| ==>
      RepliesOf(r[i]) == if posts[i].id == id then RepliesOf(posts[i]) + [text] else RepliesOf(posts[i])
    ensures forall i :: 0 <= i < |posts| && posts[i].id != id ==> r[i] == posts[i]
  {
    if posts == [] then []
    else
      var p := posts[0];
      [if p.id == id then p.(replies := Some(RepliesOf(p) + [text])) else p] + AddReply(posts[1..], id, text)
  }

  class CommunityScreen {
    var posts: seq<ForumPost>
    var loading: bool
    var replies: map<string, string>

    constructor ()
      ensures posts == [] && loading && replies == map[]
    {
      posts := [];
      loading := true;
      replies := map[];
    }

    /** `fetchPosts`: a success replaces the list; anything else keeps it. `loading` ends false. */
    method FetchPosts(reply: ForumReply, nowIso: string, format: string -> string)
      modifies this
      ensures reply.ForumReplied? && reply.status == "success" ==> posts == ForumList(reply.posts, nowIso, format)
      ensures !(reply.ForumReplied? && reply.status == "success") ==> posts == old(posts)
      ensures !loading && replies == old(replies)
    {
      if reply.ForumReplied? && reply.status == "success" {
        posts := ForumList(reply.posts, nowIso, format);
      }
      loading := false;
    }

    method HandleReplyChange(postId: string, text: string)
      modifies this
      ensures replies == old(replies)[postId := text]
      ensures posts == old(posts) && loading == old(loading)
    {
      replies := replies[postId := text];
    }

    /** `submitReply`: a non-blank draft is appended, untrimmed, to the post's replies and the
        draft is cleared; a blank or missing draft changes nothing. */
    method SubmitReply(postId: string)
      modifies this
      ensures HasText(Lookup(old(replies), postId)) ==>
        posts == AddReply(old(posts), postId, old(replies)[postId]) && replies == old(replies)[postId := ""]
      ensures !HasText(Lookup(old(replies), postId)) ==> posts == old(posts) && replies == old(replies)
      ensures loading == old(loading)
    {
      if HasText(Lookup(replies, postId)) {
        posts := AddReply(posts, postId, replies[postId]);
        replies := replies[postId := ""];
      }
    }

    /** The `addPost` callback handed to the create-post screen. That screen never calls
        it, so no step of the program reaches this method. */
    method AddPost(post: ForumPost)
      modifies this
      ensures posts == [post] + old(posts)
      ensures loading == old(loading) && replies == old(replies)
    {
      posts := [post] + posts;
    }
  }
}
