/**
 * The `FormData` objects two screens post as `multipart/form-data`: a list of
 * named parts in the order they were appended. A value is a text, JavaScript's
 * `undefined` or `null` as appended, or a file described by its URI, MIME type
 * and file name.
 */
module Multipart {
  import opened Common

  datatype PartValue = Text(text: string) | Undefined | Null | File(uri: string, mime: string, fileName: string)

  datatype Part = Part(name: string, value: PartValue)

  /** The value appended for a property that may be missing. */
  function TextOrUndefined(o: Option<string>): (v: PartValue)
    ensures v.Text? <==> o.Some?
    ensures o.Some? ==> v.text == o.value
  {
    if o.Some? then Text(o.value) else Undefined
  }
}
