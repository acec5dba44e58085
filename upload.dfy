/** The upload page: the checks a chosen image must pass, the image data
    the page holds, and the item the form submits. The file is given by its
    size, its MIME type and what the `FileReader` produced (`None` when
    reading failed). */
module Upload {
  import opened Wrappers
  import opened Text
  import opened Records
  import opened TagInput

  /** 5 MiB: the largest image the page accepts. */
  const MaxImageBytes: nat := 5 * 1024 * 1024

  datatype ImageError = TooLarge | NotAnImage

  /** `handleImageUpload`'s checks: the size first, then the type. An image
      of exactly `MaxImageBytes` passes the size check. */
  function CheckImage(size: nat, mime: string): (r: Option<ImageError>)
    ensures r.None? <==> size <= MaxImageBytes && StartsWith(mime, "image/")
    ensures size > MaxImageBytes ==> r == Some(TooLarge)
    ensures size <= MaxImageBytes && !StartsWith(mime, "image/") ==> r == Some(NotAnImage)
  {
    if size > MaxImageBytes then Some(TooLarge)
    else if !StartsWith(mime, "image/") then Some(NotAnImage)
    else None
  }

  /** Why `handleFormSubmit` sends nothing. */
  datatype SubmitError = NoImage | MissingFields

  /** `handleFormSubmit` up to the request: without image data (none, or
      empty) nothing else is looked at; then the trimmed title and the
      category must be non-empty. The item carries the trimmed title, the
      category, the image data as it is held and the parsed tags. */
  function SubmitRequest(imageData: Option<string>, titleField: string, categoryField: string, tagsField: string)
    : (r: Result<ItemBody, SubmitError>)
    ensures imageData.None? || imageData == Some([]) ==> r == Failure(NoImage)
    ensures imageData.Some? && imageData.value != [] && (IsBlank(titleField) || categoryField == []) ==> r == Failure(MissingFields)
    ensures r.Success? <==> imageData.Some? && imageData.value != [] && !IsBlank(titleField) && categoryField != []
    ensures r.Success? ==>
      && r.value.title == Some(Trim(titleField)) && r.value.category == Some(categoryField)
      && r.value.imageUrl == imageData && r.value.tags == Some(ParseTagInput(Trim(tagsField)))
      && IsTrimmed(r.value.title.value) && r.value.title.value != []
      && WellFormedTags(r.value.tags.value)
  {
    if imageData.None? || imageData.value == [] then Failure(NoImage)
    else
      var title := Trim(titleField);
      if title == [] || categoryField == [] then Failure(MissingFields)
      else Success(ItemBody(Some(title), Some(categoryField), imageData, Some(ParseTagInput(Trim(tagsField)))))
  }

  /** The page state: the data URL of the chosen image, if any. */
  class UploadPage {
    var selectedImageData: Option<string>

    constructor ()
      ensures selectedImageData == None
    {
      selectedImageData := None;
    }

    /** `handleImageUpload(file)`: a rejected file, or one that cannot be
        read, leaves the held image as it was; otherwise the page holds what
        the reader produced. */
    method HandleImageUpload(size: nat, mime: string, readResult: Option<string>) returns (err: Option<ImageError>)
      modifies this
      ensures err == CheckImage(size, mime)
      ensures err.Some? || readResult.None? ==> selectedImageData == old(selectedImageData)
      ensures err.None? && readResult.Some? ==> selectedImageData == readResult
    {
      err := CheckImage(size, mime);
      if err.None? && readResult.Some? {
        selectedImageData := readResult;
      }
    }

    /** `clearImagePreview`: the page holds no image. */
    method ClearImagePreview()
      modifies this
      ensures selectedImageData == None
    {
      selectedImageData := None;
    }

    /** `handleFormSubmit` with the three form fields: the item it sends,
        or why it sends none. */
    method HandleFormSubmit(titleField: string, categoryField: string, tagsField: string)
      returns (r: Result<ItemBody, SubmitError>)
      ensures r == SubmitRequest(selectedImageData, titleField, categoryField, tagsField)
      ensures r.Success? ==> r.value.imageUrl == selectedImageData
    {
      r := SubmitRequest(selectedImageData, titleField, categoryField, tagsField);
    }
  }
}
