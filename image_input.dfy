/** The image picker (components/create/image-input.tsx): a file is accepted
    when its type is an image type and it is at most 5 MB; generating sends
    the part of the data URL after its first ",". */
module ImageInput {
  import opened Options
  import opened Text

  const ImageTypePrefix := "image/"
  const MaxImageBytes := 5 * 1024 * 1024
  const InvalidTypeMessage := "Please select a valid image file."
  const TooLargeMessage := "Image size should be less than 5MB."

  /** A chosen file: its MIME type, its size in bytes, and the data URL the
      reader produces for it. */
  datatype File = File(mimeType: string, size: nat, dataUrl: string)

  predicate StartsWith(s: string, prefix: string)
  {
    |prefix| <= |s| && s[..|prefix|] == prefix
  }

  datatype Check = Accepted | Rejected(message: string)

  /** The checks of `handleFileChange`, the type before the size. */
  function CheckFile(f: File): (c: Check)
    ensures c == Accepted <==> StartsWith(f.mimeType, ImageTypePrefix) && f.size <= MaxImageBytes
    ensures !StartsWith(f.mimeType, ImageTypePrefix) ==> c == Rejected(InvalidTypeMessage)
    ensures StartsWith(f.mimeType, ImageTypePrefix) && f.size > MaxImageBytes ==> c == Rejected(TooLargeMessage)
  {
    if !StartsWith(f.mimeType, ImageTypePrefix) then Rejected(InvalidTypeMessage)
    else if f.size > 5 * 1024 * 1024 then Rejected(TooLargeMessage)
    else Accepted
  }

  /** `dataUrl.split(",")[1]`: `None` (undefined) when there is no ",". */
  function Base64Part(url: string): (r: Option<string>)
    ensures r.None? <==> !Contains(url, ",")
  {
    var parts := Split(url, ",");
    if |parts| > 1 then Some(parts[1]) else None
  }

  /** For a data URL `header,payload` the part sent is the payload. */
  lemma Base64OfDataUrl(header: string, payload: string)
    requires !Contains(header, ",") && !Contains(payload, ",")
    ensures Base64Part(header + "," + payload) == Some(payload)
  {
    CommaUnbordered();
    SplitAfterFirst(header, ",", payload);
    assert Split(payload, ",") == [payload];
    assert Split(header + "," + payload, ",") == [header, payload];
  }

  /** Any further ","-separated part is dropped. */
  lemma Base64DropsRest(header: string, payload: string, rest: string)
    requires !Contains(header, ",") && !Contains(payload, ",")
    ensures Base64Part(header + "," + payload + "," + rest) == Some(payload)
  {
    CommaUnbordered();
    var tail := payload + "," + rest;
    assert header + "," + payload + "," + rest == header + "," + tail;
    SplitAfterFirst(header, ",", tail);
    SplitAfterFirst(payload, ",", rest);
    assert Split(header + "," + tail, ",")[1] == payload;
  }

  /** What `handleGenerate` hands to `onGenerate`, if it calls it. */
  datatype Generate = NotCalled | Called(base64: Option<string>)

  class ImageInput {
    var imagePreview: Option<string>
    var error: Option<string>

    constructor ()
      ensures imagePreview == None && error == None
    {
      imagePreview, error := None, None;
    }

    /** `handleFileChange`, with the reader's result arriving at once. */
    method HandleFileChange(file: Option<File>)
      modifies this
      ensures file.None? ==> imagePreview == old(imagePreview) && error == old(error)
      ensures file.Some? && CheckFile(file.value).Rejected? ==>
        imagePreview == old(imagePreview) && error == Some(CheckFile(file.value).message)
      ensures file.Some? && CheckFile(file.value) == Accepted ==>
        imagePreview == Some(file.value.dataUrl) && error == None
    {
      if file.None? {
        return;
      }
      var f := file.value;
      if !StartsWith(f.mimeType, ImageTypePrefix) {
        error := Some(InvalidTypeMessage);
        return;
      }
      if f.size > MaxImageBytes {
        error := Some(TooLargeMessage);
        return;
      }
      error := None;
      imagePreview := Some(f.dataUrl);
    }

    /** `handleRemoveImage`. */
    method HandleRemoveImage()
      modifies this
      ensures imagePreview == None && error == old(error)
    {
      imagePreview := None;
    }

    /** `handleGenerate`: nothing without a preview (or with an empty one). */
    method HandleGenerate() returns (g: Generate)
      ensures imagePreview.None? || imagePreview == Some("") ==> g == NotCalled
      ensures imagePreview.Some? && imagePreview.value != "" ==> g == Called(Base64Part(imagePreview.value))
    {
      if imagePreview.None? || imagePreview.value == "" {
        return NotCalled;
      }
      g := Called(Base64Part(imagePreview.value));
    }
  }
}
