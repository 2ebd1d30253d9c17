/**
 * The saved-posts screen (screens/SavedPosts.js): the list of posts the user
 * saved, the ids whose comments are expanded, and one reply draft per post.
 * The access token read from storage and every server reply are parameters;
 * `format` is the locale date rendering.
 */
module SavedPosts {
  import opened Common
  import opened Posts

  /** Outcome of the save-toggle request: failure, or the reply's `status` and `message`. */
  datatype SaveReply = SaveFailed | SaveReplied(status: string, message: Option<string>)

  const UnsavedMessage := "Post unsaved."

  /** The list after a save toggle: an "unsaved" success removes the post, any other success
      marks it saved, anything else leaves the list alone. */
  function AfterToggleSave(posts: seq<Post>, id: string, reply: SaveReply): (r: seq<Post>)
    ensures !(reply.SaveReplied? && reply.status == Success) ==> r == posts
    ensures reply.SaveReplied? && reply.status == Success && reply.message == Some(UnsavedMessage) ==>
      forall p :: p in r <==> p in posts && p.id != id
    ensures reply.SaveReplied? && reply.status == Success && reply.message != Some(UnsavedMessage) ==>
      |r| == |posts| && forall i :: 0 <= i < |posts| ==> r[i] == if posts[i].id == id then posts[i].(saved := true) else posts[i]
  {
    if reply.SaveReplied? && reply.status == Success then
      if reply.message == Some(UnsavedMessage) then
        var r := WithoutId(posts, id);
        assert forall i :: 0 <= i < |r| ==> r[i].id != id;
        r
      else
        SetSaved(posts, id, true)
    else posts
  }

  class SavedPostsScreen {
    var posts: seq<Post>
    var loading: bool
    var replies: map<string, string>
    var expandedComments: seq<string>

    constructor ()
      ensures posts == [] && loading && replies == map[] && expandedComments == []
    {
      posts := [];
      loading := true;
      replies := map[];
      expandedComments := [];
    }

    /** `fetchPosts`: the list is replaced only when a token exists and the reply carries
        `posts`; `loading` ends false in every case. */
    method FetchPosts(accessToken: Option<string>, reply: PostsReply, format: string -> string)
      modifies this
      ensures !loading && replies == old(replies) && expandedComments == old(expandedComments)
      ensures Truthy(accessToken) && reply.PostsReplied? && reply.posts.Some? ==>
        posts == FormatAll(SavedOnly(reply.posts.value), format)
      ensures !(Truthy(accessToken) && reply.PostsReplied? && reply.posts.Some?) ==> posts == old(posts)
    {
      loading := true;
      if !Truthy(accessToken) {
        loading := false;
        return;
      }
      if reply.PostsReplied? && reply.posts.Some? {
        posts := FormatAll(SavedOnly(reply.posts.value), format);
      }
      loading := false;
    }

    method HandleReplyChange(postId: string, text: string)
      modifies this
      ensures replies == old(replies)[postId := text]
      ensures posts == old(posts) && loading == old(loading) && expandedComments == old(expandedComments)
    {
      replies := replies[postId := text];
    }

    /** `fetchDoctorComments`: on a success reply the matching posts get the comments. */
    method FetchDoctorComments(postId: string, accessToken: Option<string>, reply: CommentsReply)
      modifies this
      ensures Truthy(accessToken) && FetchedComments(reply).Some? ==>
        posts == WithComments(old(posts), postId, FetchedComments(reply).value)
      ensures !(Truthy(accessToken) && FetchedComments(reply).Some?) ==> posts == old(posts)
      ensures replies == old(replies) && loading == old(loading) && expandedComments == old(expandedComments)
    {
      if !Truthy(accessToken) {
        return;
      }
      var comments := FetchedComments(reply);
      if comments.Some? {
        posts := WithComments(posts, postId, comments.value);
      }
    }

    /** `submitReply`: a blank draft sends nothing; an accepted reply re-fetches the comments
        (whose reply is `commentsReply`) and clears the draft. */
    method SubmitReply(postId: string, accessToken: Option<string>, reply: StatusReply, commentsReply: CommentsReply)
      modifies this
      ensures !HasText(Lookup(old(replies), postId)) || !Truthy(accessToken) || !IsSuccess(reply) ==>
        posts == old(posts) && replies == old(replies)
      ensures HasText(Lookup(old(replies), postId)) && Truthy(accessToken) && IsSuccess(reply) ==>
        replies == old(replies)[postId := ""]
        && posts == (if FetchedComments(commentsReply).Some?
                     then WithComments(old(posts), postId, FetchedComments(commentsReply).value) else old(posts))
      ensures loading == old(loading) && expandedComments == old(expandedComments)
    {
      if !HasText(Lookup(replies, postId)) {
        return;
      }
      if !Truthy(accessToken) {
        return;
      }
      if IsSuccess(reply) {
        FetchDoctorComments(postId, accessToken, commentsReply);
        replies := replies[postId := ""];
      }
    }

    method ToggleSavePost(postId: string, accessToken: Option<string>, reply: SaveReply)
      modifies this
      ensures posts == if Truthy(accessToken) then AfterToggleSave(old(posts), postId, reply) else old(posts)
      ensures replies == old(replies) && loading == old(loading) && expandedComments == old(expandedComments)
    {
      if !Truthy(accessToken) {
        return;
      }
      posts := AfterToggleSave(posts, postId, reply);
    }

    /** `toggleCommentsVisibility`; `fetchComments` tells whether it starts a comments fetch,
        which it does when expanding a post whose comments were never loaded. */
    method ToggleCommentsVisibility(postId: string) returns (fetchComments: bool)
      modifies this
      ensures expandedComments == ToggleMember(old(expandedComments), postId)
      ensures fetchComments <==> postId !in old(expandedComments) && CommentsNotLoaded(posts, postId)
      ensures posts == old(posts) && replies == old(replies) && loading == old(loading)
    {
      fetchComments := false;
      if postId !in expandedComments {
        fetchComments := CommentsNotLoaded(posts, postId);
      }
      expandedComments := ToggleMember(expandedComments, postId);
    }
  }
}
