/**
 * The form for adding a memory: choosing a category, a photo and writing the
 * story and the author name, then submitting. Submitting validates the form,
 * uploads the photo when there is one, inserts the record and redirects home.
 * The storage and database calls are not modelled: their replies are
 * parameters of `Submit`, which returns the requests it issued, in order.
 * The time-and-random stem of the upload file name is a parameter too.
 */
module AddMemory {
  import opened Wrappers
  import opened Text
  import opened Categories

  /** The chosen file; only its name matters here. */
  datatype PhotoFile = PhotoFile(name: string)

  /** What a backend call gives back: no error; an `{ error }` reply with its
      message; or a rejected promise, holding the message when the thing
      thrown is an `Error`. */
  datatype Reply = Ok | ErrorReply(message: string) | Thrown(thrown: Option<string>)

  /** The row inserted into `memories`; `photoUrl` is `None` for `null`. */
  datatype MemoryRecord = MemoryRecord(category: Category, photoUrl: Option<string>, story: string, authorName: string)

  /** The requests `handleSubmit` issues. */
  datatype Effect = Upload(path: string) | Insert(record: MemoryRecord) | Redirect

  /** The requests issued and the `error` and `isSubmitting` state a submit leaves. */
  datatype Outcome = Outcome(effects: seq<Effect>, error: Option<string>, submitting: bool)

  const IncompleteMessage: string := "Por favor completa todos los campos"
  const UploadPrefix: string := "Error al subir la foto: "
  const InsertPrefix: string := "Error al guardar el recuerdo: "
  const UnknownFailure: string := "Algo sali\U{00F3} mal. Intenta de nuevo."

  /** The validation of `handleSubmit`: a category, and a story and an author name
      that are not blank once trimmed. */
  predicate IsComplete(category: Option<Category>, story: string, authorName: string) {
    category.Some? && Trim(story) != "" && Trim(authorName) != ""
  }

  /** `name.split(".").pop()`. */
  function FileExtension(name: string): string {
    LastSegment(name, ".")
  }

  /** `memories/${stem}.${fileExt}`, where `stem` stands for the time-and-random part. */
  function UploadPath(stem: string, fileName: string): string {
    "memories/" + stem + "." + FileExtension(fileName)
  }

  /** The message left in `error` when a backend call fails: an `{ error }` reply is
      rethrown as an `Error` with `prefix` before its message; a thrown `Error`
      gives its own message; anything else thrown gives the generic message. */
  function FailureMessage(prefix: string, reply: Reply): string
    requires !reply.Ok?
  {
    match reply
    case ErrorReply(m) => prefix + m
    case Thrown(Some(m)) => m
    case Thrown(None) => UnknownFailure
  }

  function BuildRecord(category: Category, photoUrl: Option<string>, story: string, authorName: string): MemoryRecord {
    MemoryRecord(category, photoUrl, Trim(story), Trim(authorName))
  }

  /** The insert and what follows it, after the requests `prior`. */
  function InsertStep(prior: seq<Effect>, record: MemoryRecord, insertReply: Reply): Outcome {
    if insertReply.Ok? then Outcome(prior + [Insert(record), Redirect], None, true)
    else Outcome(prior + [Insert(record)], Some(FailureMessage(InsertPrefix, insertReply)), false)
  }

  /** What `handleSubmit` does on a form in the given state, with the given replies
      of the upload and insert calls and the public URL of the uploaded photo. */
  function SubmitOutcome(category: Option<Category>, photo: Option<PhotoFile>, story: string, authorName: string,
                         wasSubmitting: bool, stem: string, uploadReply: Reply, publicUrl: string,
                         insertReply: Reply): Outcome
  {
    if !IsComplete(category, story, authorName) then Outcome([], Some(IncompleteMessage), wasSubmitting)
    else if photo.Some? then
      var path := UploadPath(stem, photo.value.name);
      if uploadReply.Ok? then
        InsertStep([Upload(path)], BuildRecord(category.value, Some(publicUrl), story, authorName), insertReply)
      else Outcome([Upload(path)], Some(FailureMessage(UploadPrefix, uploadReply)), false)
    else InsertStep([], BuildRecord(category.value, None, story, authorName), insertReply)
  }

  /** The state of the add-memory page. */
  class AddMemoryForm {
    var selectedCategory: Option<Category>
    var photoFile: Option<PhotoFile>
    var photoPreview: Option<string>
    var story: string
    var authorName: string
    var isSubmitting: bool
    var error: Option<string>

    constructor ()
      ensures selectedCategory == None && photoFile == None && photoPreview == None
      ensures story == "" && authorName == "" && !isSubmitting && error == None
    {
      selectedCategory := None;
      photoFile := None;
      photoPreview := None;
      story := "";
      authorName := "";
      isSubmitting := false;
      error := None;
    }

    /** The photo and story steps are shown once a category is chosen. */
    predicate ShowsPhotoAndStory()
      reads this
    {
      selectedCategory.Some?
    }

    /** The author step and the submit button are shown once, in addition, the
        trimmed story is not empty. */
    predicate ShowsAuthorAndSubmit()
      reads this
    {
      selectedCategory.Some? && Trim(story) != ""
    }

    /** The submit button is disabled while submitting or while the trimmed author
        name is empty. */
    predicate SubmitDisabled()
      reads this
    {
      isSubmitting || Trim(authorName) == ""
    }

    method SelectCategory(c: Category)
      modifies this
      ensures selectedCategory == Some(c)
      ensures photoFile == old(photoFile) && photoPreview == old(photoPreview) && story == old(story)
      ensures authorName == old(authorName) && isSubmitting == old(isSubmitting) && error == old(error)
    {
      selectedCategory := Some(c);
    }

    /** `handlePhotoSelect`: a chosen file replaces the photo and its preview URL;
        an empty choice changes nothing. */
    method SelectPhoto(file: Option<PhotoFile>, previewUrl: string)
      modifies this
      ensures file.Some? ==> photoFile == file && photoPreview == Some(previewUrl)
      ensures file.None? ==> photoFile == old(photoFile) && photoPreview == old(photoPreview)
      ensures selectedCategory == old(selectedCategory) && story == old(story)
      ensures authorName == old(authorName) && isSubmitting == old(isSubmitting) && error == old(error)
    {
      if file.Some? {
        photoFile := file;
        photoPreview := Some(previewUrl);
      }
    }

    /** The "Quitar foto" button: both the file and its preview are cleared. */
    method RemovePhoto()
      modifies this
      ensures photoFile == None && photoPreview == None
      ensures selectedCategory == old(selectedCategory) && story == old(story)
      ensures authorName == old(authorName) && isSubmitting == old(isSubmitting) && error == old(error)
    {
      photoFile := None;
      photoPreview := None;
    }

    /** `handlePromptClick`: the story becomes the prompt followed by one space. */
    method PromptClick(prompt: string)
      modifies this
      ensures story == prompt + " "
      ensures selectedCategory == old(selectedCategory) && photoFile == old(photoFile)
      ensures photoPreview == old(photoPreview)
      ensures authorName == old(authorName) && isSubmitting == old(isSubmitting) && error == old(error)
    {
      story := prompt + " ";
    }

    /** `handleSubmit`, step by step, with the backend replies as parameters. */
    method Submit(stem: string, uploadReply: Reply, publicUrl: string, insertReply: Reply)
      returns (effects: seq<Effect>)
      modifies this
      ensures var o := SubmitOutcome(old(selectedCategory), old(photoFile), old(story), old(authorName),
                                     old(isSubmitting), stem, uploadReply, publicUrl, insertReply);
        effects == o.effects && error == o.error && isSubmitting == o.submitting
      ensures selectedCategory == old(selectedCategory) && photoFile == old(photoFile)
      ensures photoPreview == old(photoPreview) && story == old(story) && authorName == old(authorName)
    {
      var category, photo, text, author := selectedCategory, photoFile, story, authorName;
      ghost var o := SubmitOutcome(category, photo, text, author, isSubmitting, stem,
                                   uploadReply, publicUrl, insertReply);
      effects := [];
      if category.None? || Trim(text) == "" || Trim(author) == "" {
        error := Some(IncompleteMessage);
        assert o == Outcome([], Some(IncompleteMessage), isSubmitting);
        return;
      }
      isSubmitting := true;
      error := None;
      var photoUrl: Option<string> := None;
      if photo.Some? {
        var path := UploadPath(stem, photo.value.name);
        effects := effects + [Upload(path)];
        if !uploadReply.Ok? {
          error := Some(FailureMessage(UploadPrefix, uploadReply));
          isSubmitting := false;
          assert o == Outcome([Upload(path)], error, false);
          return;
        }
        photoUrl := Some(publicUrl);
      }
      var record := BuildRecord(category.value, photoUrl, text, author);
      assert o == InsertStep(effects, record, insertReply);
      effects := effects + [Insert(record)];
      if !insertReply.Ok? {
        error := Some(FailureMessage(InsertPrefix, insertReply));
        isSubmitting := false;
        return;
      }
      effects := effects + [Redirect];
    }
  }

  /** The form is complete exactly when a category is chosen and neither the story
      nor the author name is all whitespace. */
  lemma IsCompleteIff(category: Option<Category>, story: string, authorName: string)
    ensures IsComplete(category, story, authorName)
        <==> category.Some? && !AllWhitespace(story) && !AllWhitespace(authorName)
  {
    TrimIsSlice(story);
    TrimIsSlice(authorName);
  }

  /** An incomplete form only gets the error message: no request is issued and
      `isSubmitting` is left as it was. */
  lemma IncompleteSubmitIssuesNothing(category: Option<Category>, photo: Option<PhotoFile>, story: string,
                                      authorName: string, wasSubmitting: bool, stem: string,
                                      uploadReply: Reply, publicUrl: string, insertReply: Reply)
    requires !IsComplete(category, story, authorName)
    ensures var o := SubmitOutcome(category, photo, story, authorName, wasSubmitting, stem,
                                   uploadReply, publicUrl, insertReply);
      o.effects == [] && o.error == Some(IncompleteMessage) && o.submitting == wasSubmitting
  {
  }

  /** A complete form ends in one of two ways: every call succeeds, nothing is
      reported, `isSubmitting` stays true and the page redirects; or a call fails,
      its message is reported, `isSubmitting` is false again and there is no redirect. */
  lemma CompleteSubmitEndsCleanly(category: Option<Category>, photo: Option<PhotoFile>, story: string,
                                  authorName: string, wasSubmitting: bool, stem: string,
                                  uploadReply: Reply, publicUrl: string, insertReply: Reply)
    requires IsComplete(category, story, authorName)
    ensures var o := SubmitOutcome(category, photo, story, authorName, wasSubmitting, stem,
                                   uploadReply, publicUrl, insertReply);
      && (o.submitting <==> o.error.None?)
      && (o.submitting <==> Redirect in o.effects)
      && (o.submitting <==> (photo.None? || uploadReply.Ok?) && insertReply.Ok?)
      && Redirect !in o.effects[..|o.effects| - 1]
  {
  }

  /** The requests come in order: the upload exactly when there is a photo and
      always first, then the insert unless the upload failed, then the redirect. */
  lemma SubmitRequestOrder(category: Option<Category>, photo: Option<PhotoFile>, story: string,
                           authorName: string, wasSubmitting: bool, stem: string,
                           uploadReply: Reply, publicUrl: string, insertReply: Reply)
    requires IsComplete(category, story, authorName)
    ensures var o := SubmitOutcome(category, photo, story, authorName, wasSubmitting, stem,
                                   uploadReply, publicUrl, insertReply);
      && (photo.Some? ==> |o.effects| >= 1 && o.effects[0] == Upload(UploadPath(stem, photo.value.name)))
      && (photo.None? ==> forall e :: e in o.effects ==> !e.Upload?)
      && ((exists e :: e in o.effects && e.Insert?) <==> photo.None? || uploadReply.Ok?)
  {
    var o := SubmitOutcome(category, photo, story, authorName, wasSubmitting, stem,
                           uploadReply, publicUrl, insertReply);
    if photo.None? || uploadReply.Ok? {
      var k := if photo.None? then 0 else 1;
      assert o.effects[k].Insert?;
    }
  }

  /** The inserted record holds the chosen category, the trimmed story and author
      name, and the photo's public URL, or no URL when there is no photo. */
  lemma InsertedRecord(category: Option<Category>, photo: Option<PhotoFile>, story: string,
                       authorName: string, wasSubmitting: bool, stem: string,
                       uploadReply: Reply, publicUrl: string, insertReply: Reply, r: MemoryRecord)
    requires Insert(r) in SubmitOutcome(category, photo, story, authorName, wasSubmitting, stem,
                                        uploadReply, publicUrl, insertReply).effects
    ensures category == Some(r.category)
    ensures r.story == Trim(story) && r.authorName == Trim(authorName)
    ensures r.photoUrl == (if photo.Some? then Some(publicUrl) else None)
  {
  }

  /** A failing call leaves its own message: the upload's `{ error }` message behind
      "Error al subir la foto: ", the insert's behind "Error al guardar el recuerdo: ",
      a thrown `Error`'s message as it is and the generic message otherwise. */
  lemma FailureMessages(category: Option<Category>, photo: Option<PhotoFile>, story: string,
                        authorName: string, wasSubmitting: bool, stem: string,
                        uploadReply: Reply, publicUrl: string, insertReply: Reply)
    requires IsComplete(category, story, authorName)
    ensures var o := SubmitOutcome(category, photo, story, authorName, wasSubmitting, stem,
                                   uploadReply, publicUrl, insertReply);
      && (photo.Some? && uploadReply.ErrorReply? ==> o.error == Some(UploadPrefix + uploadReply.message))
      && (((photo.None? || uploadReply.Ok?) && insertReply.ErrorReply?) ==>
            o.error == Some(InsertPrefix + insertReply.message))
      && (photo.Some? && uploadReply.Thrown? && uploadReply.thrown.Some? ==> o.error == uploadReply.thrown)
      && (((photo.None? || uploadReply.Ok?) && insertReply.Thrown? && insertReply.thrown.Some?) ==>
            o.error == insertReply.thrown)
      && (((photo.Some? && uploadReply == Thrown(None)) || ((photo.None? || uploadReply.Ok?) && insertReply == Thrown(None))) ==>
            o.error == Some(UnknownFailure))
  {
  }

  /** The file name ends in "." and the last dot-separated piece of the original
      name: a dot-free suffix that starts right after the name's last dot; a name
      without a dot is used whole. */
  lemma UploadPathShape(stem: string, fileName: string)
    ensures var ext := FileExtension(fileName);
      && UploadPath(stem, fileName) == "memories/" + stem + "." + ext
      && !Contains(ext, ".") && EndsWith(fileName, ext)
      && (!Contains(fileName, ".") ==> ext == fileName)
      && (Contains(fileName, ".") ==> |ext| < |fileName| && fileName[|fileName| - |ext| - 1] == '.')
  {
    LastSegmentIsSuffix(fileName, ".");
    var ext := FileExtension(fileName);
    if Contains(fileName, ".") {
      var d := |fileName| - |ext| - 1;
      assert fileName[d..d + 1] == ".";
      assert fileName[d] == fileName[d..d + 1][0];
    }
  }

  /** A form whose submit button is shown and enabled always passes validation. */
  lemma EnabledButtonPassesValidation(f: AddMemoryForm)
    requires f.ShowsAuthorAndSubmit() && !f.SubmitDisabled()
    ensures IsComplete(f.selectedCategory, f.story, f.authorName)
    ensures !f.isSubmitting
  {
  }

  /** After a prompt is clicked (with a category chosen), the author step is shown
      exactly when the prompt is not all whitespace. */
  lemma PromptShowsAuthorStep(prompt: string)
    ensures Trim(prompt + " ") != "" <==> !AllWhitespace(prompt)
  {
    TrimIsSlice(prompt + " ");
    assert AllWhitespace(prompt + " ") <==> AllWhitespace(prompt) by {
      if AllWhitespace(prompt) {
        assert forall i :: 0 <= i < |prompt + " "| ==> (prompt + " ")[i] == if i < |prompt| then prompt[i] else ' ';
      }
      if AllWhitespace(prompt + " ") {
        assert forall i :: 0 <= i < |prompt| ==> prompt[i] == (prompt + " ")[i];
      }
    }
  }
}
