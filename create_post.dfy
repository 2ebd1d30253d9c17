/**
 * The create-post screen (screens/CreatePostScreen.js): the post text, an
 * optional picked image (its URI), and the `multipart/form-data` request whose
 * image part takes its file name and MIME type from the URI. The picker outcome
 * (`None` when cancelled) and the server reply are parameters.
 */
module CreatePost {
  import opened Common
  import opened Multipart

  const PostTitle := "User Post"
  const ImageMimePrefix := "image/"

  /** The part names, in the order they are appended. */
  const PartNames := ["title", "content", "image"]

  /** The reply: an exception, or the `ok` flag. */
  datatype PostReply = PostThrew | PostReplied(ok: bool)

  /** `uri.split('/').pop()` */
  function FileNameOf(uri: string): string {
    LastSegment(uri, '/')
  }

  /** `fileName.split('.').pop()` */
  function FileTypeOf(fileName: string): string {
    LastSegment(fileName, '.')
  }

  /** The `image` part: the file when an image is selected, `null` otherwise. */
  function ImageValue(selectedImage: Option<string>): (v: PartValue)
    ensures v.File? <==> Truthy(selectedImage)
    ensures v.File? ==> v.uri == selectedImage.value && v.fileName == FileNameOf(v.uri)
    ensures v.File? ==> v.mime == ImageMimePrefix + FileTypeOf(v.fileName)
    ensures !v.File? ==> v == Null
  {
    if Truthy(selectedImage) then
      var fileName := FileNameOf(selectedImage.value);
      File(selectedImage.value, ImageMimePrefix + FileTypeOf(fileName), fileName)
    else Null
  }

  /** For a URI `<directory>/<base>.<extension>` the part is named `<base>.<extension>` and
      typed `image/<extension>`, whatever the directory. */
  lemma ImagePartOfPath(directory: string, base: string, extension: string)
    requires '/' !in base && '/' !in extension && '.' !in extension
    ensures var v := ImageValue(Some(directory + "/" + base + "." + extension));
      v.fileName == base + "." + extension && v.mime == ImageMimePrefix + extension
  {
    var name := base + "." + extension;
    var uri := directory + "/" + base + "." + extension;
    assert uri == directory + ['/'] + name;
    assert '/' !in name;
    LastSegmentAfterSep(directory, '/', name);
    LastSegmentAfterSep(base, '.', extension);
    assert FileNameOf(uri) == name && FileTypeOf(name) == extension;
  }

  class CreatePostScreen {
    var postText: string
    var selectedImage: Option<string>
    var loading: bool

    constructor ()
      ensures postText == "" && selectedImage.None? && !loading
    {
      postText := "";
      selectedImage := None;
      loading := false;
    }

    method SetPostText(text: string)
      modifies this
      ensures postText == text && selectedImage == old(selectedImage) && loading == old(loading)
    {
      postText := text;
    }

    /** `pickImage`: a cancelled pick changes nothing. */
    method PickImage(picked: Option<string>)
      modifies this
      ensures selectedImage == if picked.Some? then picked else old(selectedImage)
      ensures postText == old(postText) && loading == old(loading)
    {
      if picked.Some? {
        selectedImage := picked;
      }
    }

    method RemoveImage()
      modifies this
      ensures selectedImage.None? && postText == old(postText) && loading == old(loading)
    {
      selectedImage := None;
    }

    /** `handlePost`: `request` is the form data posted, if any, and `goBack` whether the screen
        is left. A blank text sends nothing and changes nothing, `loading` included; once a
        request is made `loading` ends false, and only an `ok` reply clears the text and image. */
    method HandlePost(reply: PostReply) returns (request: Option<seq<Part>>, goBack: bool)
      modifies this
      ensures request.Some? <==> Trim(old(postText)) != ""
      ensures request.None? ==> postText == old(postText) && selectedImage == old(selectedImage) && loading == old(loading)
      ensures request.Some? ==>
        request.value == [Part(PartNames[0], Text(PostTitle)), Part(PartNames[1], Text(old(postText))), Part(PartNames[2], ImageValue(old(selectedImage)))]
      ensures request.Some? ==> !loading
      ensures goBack <==> request.Some? && reply == PostReplied(true)
      ensures goBack ==> postText == "" && selectedImage.None?
      ensures !goBack ==> postText == old(postText) && selectedImage == old(selectedImage)
    {
      if Trim(postText) == "" {
        return None, false;
      }
      var parts;
      parts, goBack := SendPost(reply);
      request := Some(parts);
    }

    /** The part of `handlePost` after the blank check: the form data is built and posted,
        `loading` is set for the request and cleared after it, and an `ok` reply clears the
        text and image and leaves the screen. */
    method SendPost(reply: PostReply) returns (parts: seq<Part>, goBack: bool)
      modifies this
      ensures parts == [Part(PartNames[0], Text(PostTitle)), Part(PartNames[1], Text(old(postText))), Part(PartNames[2], ImageValue(old(selectedImage)))]
      ensures !loading
      ensures goBack <==> reply == PostReplied(true)
      ensures goBack ==> postText == "" && selectedImage.None?
      ensures !goBack ==> postText == old(postText) && selectedImage == old(selectedImage)
    {
      var image := ImageValue(selectedImage);
      loading := true;
      parts := [Part(PartNames[0], Text(PostTitle))];
      parts := parts + [Part(PartNames[1], Text(postText))];
      parts := parts + [Part(PartNames[2], image)];
      goBack := false;
      if reply.PostReplied? && reply.ok {
        postText := "";
        selectedImage := None;
        goBack := true;
      }
      loading := false;
    }
  }
}
