/**
 * The my-posts screen (screens/MyPostsScreen.js): the user's type and name read
 * from the stored profile, the posts whose author is that name, the ids whose
 * comments are expanded, and one reply draft per post. The stored profile text,
 * the access token and every server reply are parameters; `format` is the locale
 * date rendering.
 */
module MyPosts {
  import opened Common
  import Json
  import opened Posts

  /** Outcome of the save-toggle request: failure, or the reply's `status` and its `saved`
      property (`None` when undefined). */
  datatype SaveReply = SaveFailed | SaveReplied(status: string, saved: Option<bool>)

  const UserTypeKey := "user_type"
  const UserNameKey := "username"
  /** The user type used when the profile has none: the four-letter string, not null. */
  const NullUserType := "null"

  /** `userDataParsed?.user_type || 'null'` */
  function UserTypeOf(profile: Json.Profile): (r: string)
    ensures Truthy(Json.Get(profile, UserTypeKey)) ==> r == Json.Get(profile, UserTypeKey).value
    ensures !Truthy(Json.Get(profile, UserTypeKey)) ==> r == NullUserType
    ensures r != ""
  {
    var t := Json.Get(profile, UserTypeKey);
    if Truthy(t) then t.value else NullUserType
  }

  /** `userDataParsed?.username || null` */
  function UserNameOf(profile: Json.Profile): (r: Option<string>)
    ensures r.Some? <==> Truthy(Json.Get(profile, UserNameKey))
    ensures r.Some? ==> r == Json.Get(profile, UserNameKey) && r.value != ""
  {
    var n := Json.Get(profile, UserNameKey);
    if Truthy(n) then n else None
  }

  /** The profile `login` stored is read back with its own user type and name. */
  lemma StoredProfileFields(profile: Json.Profile)
    ensures Json.Parse(Json.Stringify(profile)).Some?
    ensures var read := Json.Parse(Json.Stringify(profile)).value;
      UserNameOf(read) == UserNameOf(profile) && UserTypeOf(read) == UserTypeOf(profile)
  {
    Json.ParseStringify(profile);
  }

  /** The list after a save toggle. A success sets `saved` on the post with the id to the
      reply's `saved` when defined and otherwise to the negation of the first such post's flag;
      without such a post the lookup throws and nothing changes, as after a failure. */
  function AfterToggleSave(posts: seq<Post>, id: string, reply: SaveReply): (r: seq<Post>)
    ensures !(reply.SaveReplied? && reply.status == Success) ==> r == posts
    ensures reply.SaveReplied? && reply.status == Success && reply.saved.Some? ==> r == SetSaved(posts, id, reply.saved.value)
    ensures reply.SaveReplied? && reply.status == Success && reply.saved.None? ==>
      if FindIndex(posts, id).None? then r == posts else r == SetSaved(posts, id, !posts[FindIndex(posts, id).value].saved)
  {
    if reply.SaveReplied? && reply.status == Success then
      match reply.saved
      case Some(b) => SetSaved(posts, id, b)
      case None =>
        match FindIndex(posts, id)
        case None => posts
        case Some(j) => SetSaved(posts, id, !posts[j].saved)
    else posts
  }

  /** With unique ids, a success that only flips the flag changes exactly the `saved` field
      of the post with the id, and flipping twice restores the list. */
  lemma ToggleSaveFlip(posts: seq<Post>, id: string, status: string)
    requires UniqueIds(posts) && status == Success
    ensures var r := AfterToggleSave(posts, id, SaveReplied(status, None));
      |r| == |posts| && forall i :: 0 <= i < |posts| ==>
        r[i] == if posts[i].id == id then posts[i].(saved := !posts[i].saved) else posts[i]
    ensures AfterToggleSave(AfterToggleSave(posts, id, SaveReplied(status, None)), id, SaveReplied(status, None)) == posts
  {
    var reply := SaveReplied(status, None);
    var r := AfterToggleSave(posts, id, reply);
    match FindIndex(posts, id)
    case None =>
    case Some(j) =>
      forall i | 0 <= i < |posts| && posts[i].id == id ensures i == j {
      }
      assert FindIndex(r, id) == Some(j) by {
        assert r[j].id == id;
        assert forall k :: 0 <= k < j ==> r[k].id == posts[k].id;
      }
      var r2 := AfterToggleSave(r, id, reply);
      assert |r2| == |posts|;
      forall i | 0 <= i < |posts| ensures r2[i] == posts[i] {
        assert r[i].(saved := posts[i].saved) == posts[i];
      }
  }

  class MyPostsScreen {
    var posts: seq<Post>
    var loading: bool
    var replies: map<string, string>
    var userType: Option<string>
    var userName: Option<string>
    var expandedComments: seq<string>

    constructor ()
      ensures posts == [] && loading && replies == map[] && expandedComments == []
      ensures userType.None? && userName.None?
    {
      posts := [];
      loading := true;
      replies := map[];
      userType := None;
      userName := None;
      expandedComments := [];
    }

    /** `fetchUserTypeAndName`, with `userData` the stored profile text: a missing text or one
        that does not parse leaves both fields as they were. */
    method FetchUserTypeAndName(userData: Option<string>)
      modifies this
      ensures Truthy(userData) && Json.Parse(userData.value).Some? ==>
        userType == Some(UserTypeOf(Json.Parse(userData.value).value))
        && userName == UserNameOf(Json.Parse(userData.value).value)
      ensures !(Truthy(userData) && Json.Parse(userData.value).Some?) ==>
        userType == old(userType) && userName == old(userName)
      ensures posts == old(posts) && loading == old(loading) && replies == old(replies)
      ensures expandedComments == old(expandedComments)
    {
      if !Truthy(userData) {
        return;
      }
      var parsed := Json.Parse(userData.value);
      if parsed.Some? {
        userType := Some(UserTypeOf(parsed.value));
        userName := UserNameOf(parsed.value);
      }
    }

    /** `fetchPosts`: nothing at all happens while the user name is unset; otherwise the list is
        replaced by the user's own posts when a token exists and the reply carries `posts`,
        and `loading` ends false. */
    method FetchPosts(accessToken: Option<string>, reply: PostsReply, format: string -> string)
      modifies this
      ensures !Truthy(old(userName)) ==> posts == old(posts) && loading == old(loading)
      ensures Truthy(userName) ==> !loading
      ensures Truthy(userName) && Truthy(accessToken) && reply.PostsReplied? && reply.posts.Some? ==>
        posts == FormatAll(ByAuthor(reply.posts.value, userName.value), format)
      ensures !(Truthy(accessToken) && reply.PostsReplied? && reply.posts.Some?) ==> posts == old(posts)
      ensures userName == old(userName) && userType == old(userType) && replies == old(replies)
      ensures expandedComments == old(expandedComments)
    {
      if !Truthy(userName) {
        return;
      }
      loading := true;
      if !Truthy(accessToken) {
        loading := false;
        return;
      }
      if reply.PostsReplied? && reply.posts.Some? {
        posts := FormatAll(ByAuthor(reply.posts.value, userName.value), format);
      }
      loading := false;
    }

    method HandleReplyChange(postId: string, text: string)
      modifies this
      ensures replies == old(replies)[postId := text]
      ensures posts == old(posts) && loading == old(loading) && expandedComments == old(expandedComments)
      ensures userName == old(userName) && userType == old(userType)
    {
      replies := replies[postId := text];
    }

    /** `fetchDoctorComments`: on a success reply the matching posts get the comments. */
    method FetchDoctorComments(postId: string, accessToken: Option<string>, reply: CommentsReply)
      modifies this
      ensures Truthy(accessToken) && FetchedComments(reply).Some? ==>
        posts == WithComments(old(posts), postId, FetchedComments(reply).value)
      ensures !(Truthy(accessToken) && FetchedComments(reply).Some?) ==> posts == old(posts)
      ensures replies == old(replies) && loading == old(loading) && expandedComments == old(expandedComments)
      ensures userName == old(userName) && userType == old(userType)
    {
      if !Truthy(accessToken) {
        return;
      }
      var comments := FetchedComments(reply);
      if comments.Some? {
        posts := WithComments(posts, postId, comments.value);
      }
    }

    /** `submitReply`: a blank draft sends nothing; an accepted reply re-fetches the comments
        (whose reply is `commentsReply`) and clears the draft. */
    method SubmitReply(postId: string, accessToken: Option<string>, reply: StatusReply, commentsReply: CommentsReply)
      modifies this
      ensures !HasText(Lookup(old(replies), postId)) || !Truthy(accessToken) || !IsSuccess(reply) ==>
        posts == old(posts) && replies == old(replies)
      ensures HasText(Lookup(old(replies), postId)) && Truthy(accessToken) && IsSuccess(reply) ==>
        replies == old(replies)[postId := ""]
        && posts == (if FetchedComments(commentsReply).Some?
                     then WithComments(old(posts), postId, FetchedComments(commentsReply).value) else old(posts))
      ensures loading == old(loading) && expandedComments == old(expandedComments)
      ensures userName == old(userName) && userType == old(userType)
    {
      if !HasText(Lookup(replies, postId)) {
        return;
      }
      if !Truthy(accessToken) {
        return;
      }
      if IsSuccess(reply) {
        FetchDoctorComments(postId, accessToken, commentsReply);
        replies := replies[postId := ""];
      }
    }

    method ToggleSavePost(postId: string, accessToken: Option<string>, reply: SaveReply)
      modifies this
      ensures posts == if Truthy(accessToken) then AfterToggleSave(old(posts), postId, reply) else old(posts)
      ensures replies == old(replies) && loading == old(loading) && expandedComments == old(expandedComments)
      ensures userName == old(userName) && userType == old(userType)
    {
      if !Truthy(accessToken) {
        return;
      }
      posts := AfterToggleSave(posts, postId, reply);
    }

    /** `toggleCommentsVisibility`; `fetchComments` tells whether it starts a comments fetch. */
    method ToggleCommentsVisibility(postId: string) returns (fetchComments: bool)
      modifies this
      ensures expandedComments == ToggleMember(old(expandedComments), postId)
      ensures fetchComments <==> postId !in old(expandedComments) && CommentsNotLoaded(posts, postId)
      ensures posts == old(posts) && replies == old(replies) && loading == old(loading)
      ensures userName == old(userName) && userType == old(userType)
    {
      fetchComments := false;
      if postId !in expandedComments {
        fetchComments := CommentsNotLoaded(posts, postId);
      }
      expandedComments := ToggleMember(expandedComments, postId);
    }
  }
}
