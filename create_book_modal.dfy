/** The "create ad" form of components/create-book-modal.tsx: how the typed
    fields become the `createBook` payload, when submitting is enabled, and
    how the form state is reset on success, on failure and on close. */
module Modal {
  import opened Js
  import opened JsStrings
  import opened Http
  import opened Api

  /** The five text inputs (`formData`). */
  datatype FormFields = FormFields(title: string, author: string, description: string,
                                   location: string, phoneNumber: string)

  const EmptyForm := FormFields("", "", "", "", "")

  const SubmitFallback := "Failed to create book ad. Please try again."

  /** `s.trim() || undefined`: the trimmed text, or nothing when it is blank. */
  function BlankToNone(s: string): (r: Option<string>)
    ensures r.None? <==> AllWhiteSpace(s)
    ensures r.Some? ==> r.value == Trim(s) && r.value != ""
  {
    TrimEmptyIffAllWhiteSpace(s);
    var t := Trim(s);
    if |t| == 0 then None else Some(t)
  }

  /** The argument `handleSubmit` passes to `createBook`: the title and the
      location trimmed, each optional field trimmed or left out when blank,
      and the chosen file as it is. */
  function Payload(f: FormFields, image: Option<File>): (d: CreateBookData)
    ensures d.title == Trim(f.title) && d.location == Trim(f.location) && d.image == image
    ensures d.author.None? <==> AllWhiteSpace(f.author)
    ensures d.description.None? <==> AllWhiteSpace(f.description)
    ensures d.phoneNumber.None? <==> AllWhiteSpace(f.phoneNumber)
    ensures d.author.Some? ==> d.author.value == Trim(f.author) != ""
    ensures d.description.Some? ==> d.description.value == Trim(f.description) != ""
    ensures d.phoneNumber.Some? ==> d.phoneNumber.value == Trim(f.phoneNumber) != ""
  {
    CreateBookData(Trim(f.title), BlankToNone(f.author), BlankToNone(f.description),
                   Trim(f.location), BlankToNone(f.phoneNumber), image)
  }

  /** The submit button's `disabled`. */
  predicate SubmitDisabled(isLoading: bool, f: FormFields) {
    isLoading || Trim(f.title) == "" || Trim(f.location) == ""
  }

  /** Submitting is disabled exactly while loading or while the title or the
      location is only white space. */
  lemma SubmitDisabledIff(isLoading: bool, f: FormFields)
    ensures SubmitDisabled(isLoading, f) <==> isLoading || AllWhiteSpace(f.title) || AllWhiteSpace(f.location)
  {
    TrimEmptyIffAllWhiteSpace(f.title);
    TrimEmptyIffAllWhiteSpace(f.location);
  }

  /** A submit the button allows posts the trimmed title and the trimmed
      location first, both non-empty and with nothing left to trim. */
  lemma EnabledSubmitRequired(isLoading: bool, f: FormFields, image: Option<File>)
    requires !SubmitDisabled(isLoading, f)
    ensures var form := CreateBookForm(Payload(f, image));
            && form[0] == FormEntry("title", Text(Trim(f.title)))
            && form[1] == FormEntry("location", Text(Trim(f.location)))
            && Trim(f.title) != "" && Trim(Trim(f.title)) == Trim(f.title)
            && Trim(f.location) != "" && Trim(Trim(f.location)) == Trim(f.location)
  {
    TrimIdempotent(f.title);
    TrimIdempotent(f.location);
  }

  /** An optional input is posted exactly when it is not blank, and then
      trimmed: its entry carries the trimmed text, non-empty and with
      nothing left to trim. */
  lemma PayloadOptionalField(f: FormFields, image: Option<File>, name: string, input: string, v: FormValue)
    requires (name, input) in {("author", f.author), ("description", f.description), ("phone_number", f.phoneNumber)}
    ensures FormEntry(name, v) in CreateBookForm(Payload(f, image))
            <==> !AllWhiteSpace(input) && v == Text(Trim(input))
    ensures !AllWhiteSpace(input) ==> Trim(input) != "" && Trim(Trim(input)) == Trim(input)
  {
    var d := Payload(f, image);
    var field := BlankToNone(input);
    TrimIdempotent(input);
    if name == "author" {
      assert input == f.author && d.author == field;
      CreateBookFormText(d, name, field, v);
    } else if name == "description" {
      assert input == f.description && d.description == field;
      CreateBookFormText(d, name, field, v);
    } else {
      assert input == f.phoneNumber && d.phoneNumber == field;
      CreateBookFormText(d, name, field, v);
    }
  }

  /** The chosen image is posted exactly when there is one. */
  lemma PayloadImage(f: FormFields, image: Option<File>, v: FormValue)
    ensures FormEntry("image", v) in CreateBookForm(Payload(f, image)) <==> image.Some? && v == Blob(image.value)
  {
    CreateBookFormImage(Payload(f, image), v);
  }

  /** Which parent callbacks a handler calls, in order. */
  datatype Callback = Close | BookCreated

  /** The form's state: `formData`, `image`, `imagePreview`, `isLoading`,
      `error`. */
  class CreateBookModal {
    var formData: FormFields
    var image: Option<File>
    var imagePreview: Option<string>
    var isLoading: bool
    var error: string

    constructor()
      ensures formData == EmptyForm && image == None && imagePreview == None && !isLoading && error == ""
    {
      formData := EmptyForm;
      image := None;
      imagePreview := None;
      isLoading := false;
      error := "";
    }

    /** Typing into the inputs. */
    method Edit(f: FormFields)
      modifies this
      ensures formData == f
      ensures image == old(image) && imagePreview == old(imagePreview)
      ensures isLoading == old(isLoading) && error == old(error)
    {
      formData := f;
    }

    /** `handleImageChange`: a chosen file replaces the image; choosing
        nothing keeps the old one. The preview arrives later (PreviewLoaded). */
    method ChooseImage(file: Option<File>)
      modifies this
      ensures image == (if file.Some? then file else old(image))
      ensures formData == old(formData) && imagePreview == old(imagePreview)
      ensures isLoading == old(isLoading) && error == old(error)
    {
      if file.Some? {
        image := file;
      }
    }

    /** The file reader's `onloadend`: the data URL becomes the preview. */
    method PreviewLoaded(dataUrl: string)
      modifies this
      ensures imagePreview == Some(dataUrl)
      ensures formData == old(formData) && image == old(image)
      ensures isLoading == old(isLoading) && error == old(error)
    {
      imagePreview := Some(dataUrl);
    }

    /** `handleSubmit` up to the `createBook` call: loading on, error
        cleared, and the payload built from the current fields. */
    method BeginSubmit() returns (payload: CreateBookData)
      modifies this
      ensures payload == Payload(old(formData), old(image))
      ensures isLoading && error == ""
      ensures formData == old(formData) && image == old(image) && imagePreview == old(imagePreview)
    {
      payload := Payload(formData, image);
      isLoading := true;
      error := "";
    }

    /** `handleSubmit` after `createBook` settles. On success the form,
        the image and the preview are reset, then `onClose` is called and
        `onBookCreated` after it when given. On failure the error shows the
        thrown message (or the fallback when it is empty) and the fields are
        kept. Loading ends either way. */
    method CompleteSubmit(outcome: Result<Option<Json>>, hasOnBookCreated: bool)
      returns (callbacks: seq<Callback>)
      modifies this
      ensures !isLoading
      ensures outcome.Ok? ==>
                && formData == EmptyForm && image == None && imagePreview == None
                && callbacks == (if hasOnBookCreated then [Close, BookCreated] else [Close])
                && error == old(error)
      ensures outcome.Err? ==>
                && error == (if outcome.message != "" then outcome.message else SubmitFallback)
                && callbacks == []
                && formData == old(formData) && image == old(image) && imagePreview == old(imagePreview)
    {
      callbacks := [];
      if outcome.Ok? {
        formData := EmptyForm;
        image := None;
        imagePreview := None;
        callbacks := callbacks + [Close];
        if hasOnBookCreated {
          callbacks := callbacks + [BookCreated];
        }
      } else {
        error := if outcome.message != "" then outcome.message else SubmitFallback;
      }
      isLoading := false;
    }

    /** `handleClose`: ignored while a submit is in flight; otherwise calls
        `onClose` and resets the fields, the image, the preview and the
        error. */
    method HandleClose() returns (callbacks: seq<Callback>)
      modifies this
      ensures old(isLoading) ==>
                && callbacks == [] && formData == old(formData) && image == old(image)
                && imagePreview == old(imagePreview) && error == old(error)
      ensures !old(isLoading) ==>
                && callbacks == [Close]
                && formData == EmptyForm && image == None && imagePreview == None && error == ""
      ensures isLoading == old(isLoading)
    {
      callbacks := [];
      if !isLoading {
        callbacks := [Close];
        formData := EmptyForm;
        image := None;
        imagePreview := None;
        error := "";
      }
    }
  }
}
