/**
 * The citizen's report submission form (components/report-crime-form.tsx): the
 * image upload path, the record handed to the `crime_reports` insert, and the
 * form state before and after a submission.
 */
module ReportForm {
  import opened Types
  import opened Text

  /** The crime types offered by the form's select; "Other" opens a free-text field. */
  const CrimeTypes: seq<string> := ["Drug Activity", "Harassment", "Robbery", "Theft/Burglary", "Other"]

  const UploadFolder := "crime-reports/"
  const SubmitFailedMessage := "Failed to submit report. Please try again."

  datatype FormData = FormData(
    crimeType: string,
    otherCrimeType: string,
    location: string,
    description: string,
    videoLink: string,
    isAnonymous: bool)

  /** The form's initial values, restored after a successful submission. */
  const EmptyForm := FormData("", "", "", "", "", false)

  /** A selected image file; only its name matters here. */
  datatype ImageFile = ImageFile(name: string)

  /** The record handed to the `crime_reports` insert. */
  datatype ReportInsert = ReportInsert(
    userId: Option<string>,
    crimeType: string,
    location: string,
    description: string,
    imageUrl: Option<string>,
    videoLink: Option<string>,
    isAnonymous: bool)

  // ---------------------------------------------------------------------------
  // Upload path

  /** The position of the last dot in `name`, or -1 when it has none. */
  function LastDot(name: string): (i: int)
    ensures -1 <= i < |name|
    ensures i >= 0 ==> name[i] == '.'
    ensures forall j :: i < j < |name| ==> name[j] != '.'
    decreases |name|
  {
    if name == [] then -1
    else if name[|name| - 1] == '.' then |name| - 1
    else LastDot(name[..|name| - 1])
  }

  /**
   * `name.split(".").pop()`: the text after the last dot, or the whole name exactly
   * when it has no dot.
   */
  function Extension(name: string): (ext: string)
    ensures '.' !in ext
    ensures |ext| <= |name| && ext == name[|name| - |ext|..]
    ensures |ext| < |name| ==> name[|name| - |ext| - 1] == '.'
    ensures ext == name <==> '.' !in name
  {
    name[LastDot(name) + 1..]
  }

  /** `crime-reports/${Date.now()}.${fileExt}` for the upload time in milliseconds. */
  function UploadPath(fileName: string, timestamp: nat): string
  {
    UploadFolder + Decimal(timestamp) + "." + Extension(fileName)
  }

  /** Whatever precedes the last dot, the extension is what follows it. */
  lemma ExtensionAfterDot(prefix: string, ext: string)
    requires '.' !in ext
    ensures Extension(prefix + "." + ext) == ext
  {
    var name := prefix + "." + ext;
    assert name[|prefix|] == '.';
    assert forall j :: |prefix| < j < |name| ==> name[j] == ext[j - |prefix| - 1];
    assert LastDot(name) == |prefix|;
    assert name[|prefix| + 1..] == ext;
  }

  /**
   * The upload path lies in the report folder, names the file by the upload time
   * in decimal, and keeps the extension of the chosen file.
   */
  lemma UploadPathSpec(fileName: string, timestamp: nat)
    ensures var path := UploadPath(fileName, timestamp);
            && UploadFolder <= path
            && path[|UploadFolder|..|UploadFolder| + |Decimal(timestamp)|] == Decimal(timestamp)
            && Extension(path) == Extension(fileName)
  {
    var path := UploadPath(fileName, timestamp);
    assert path == (UploadFolder + Decimal(timestamp)) + "." + Extension(fileName);
    ExtensionAfterDot(UploadFolder + Decimal(timestamp), Extension(fileName));
  }

  /**
   * `handleImageUpload`: the public URL of the uploaded file, or null when the upload
   * fails (the error is caught, not passed on). `publicUrlOf` stands for `getPublicUrl`.
   */
  function UploadedImageUrl(file: ImageFile, timestamp: nat, uploadOk: bool, publicUrlOf: string -> string)
    : (url: Option<string>)
    ensures uploadOk ==> url == Some(publicUrlOf(UploadPath(file.name, timestamp)))
    ensures !uploadOk ==> url == None
  {
    if uploadOk then Some(publicUrlOf(UploadPath(file.name, timestamp))) else None
  }

  /** Where `handleSubmit` uploads: the path of the chosen file, or no upload without one. */
  function UploadTarget(file: Option<ImageFile>, timestamp: nat): Option<string>
  {
    if file.Some? then Some(UploadPath(file.value.name, timestamp)) else None
  }

  // ---------------------------------------------------------------------------
  // The inserted record

  /** The stored crime type: the free text when "Other" is selected, the selection otherwise. */
  function CrimeTypeValue(form: FormData): (crimeType: string)
    ensures form.crimeType == "Other" ==> crimeType == form.otherCrimeType
    ensures form.crimeType != "Other" ==> crimeType == form.crimeType
  {
    if form.crimeType == "Other" then form.otherCrimeType else form.crimeType
  }

  /** `formData.videoLink || null` */
  function VideoLinkValue(videoLink: string): (link: Option<string>)
    ensures link == None <==> videoLink == ""
    ensures link.Some? ==> link.value == videoLink
  {
    if videoLink == "" then None else Some(videoLink)
  }

  /** The insert record built from the session user, the form and the uploaded image's URL. */
  function BuildInsert(sessionUser: Option<User>, form: FormData, imageUrl: Option<string>): (row: ReportInsert)
    ensures row.userId == (if sessionUser.Some? then Some(sessionUser.value.id) else None)
    ensures row.crimeType == CrimeTypeValue(form)
    ensures row.location == form.location && row.description == form.description
    ensures row.isAnonymous == form.isAnonymous && row.imageUrl == imageUrl
    ensures row.videoLink == VideoLinkValue(form.videoLink)
  {
    ReportInsert(
      if sessionUser.Some? then Some(sessionUser.value.id) else None,
      CrimeTypeValue(form),
      form.location,
      form.description,
      imageUrl,
      VideoLinkValue(form.videoLink),
      form.isAnonymous)
  }

  /**
   * A crime type picked from the list is stored either as the free text or as one of
   * the listed types other than "Other".
   */
  lemma StoredCrimeType(form: FormData)
    requires form.crimeType in CrimeTypes
    ensures CrimeTypeValue(form) == form.otherCrimeType || CrimeTypeValue(form) in CrimeTypes[..4]
  {
    if form.crimeType != "Other" {
      var i :| 0 <= i < |CrimeTypes| && CrimeTypes[i] == form.crimeType;
      assert i < 4;
      assert CrimeTypes[..4][i] == form.crimeType;
    }
  }

  // ---------------------------------------------------------------------------
  // The form's state

  class ReportCrimeForm {
    var formData: FormData
    var imageFile: Option<ImageFile>
    var isLoading: bool
    var success: bool
    var error: string

    constructor ()
      ensures formData == EmptyForm && imageFile == None && !isLoading && !success && error == ""
    {
      formData := EmptyForm;
      imageFile := None;
      isLoading := false;
      success := false;
      error := "";
    }

    method Edit(form: FormData, file: Option<ImageFile>)
      modifies this`formData, this`imageFile
      ensures formData == form && imageFile == file
    {
      formData := form;
      imageFile := file;
    }

    /**
     * `handleSubmit`. An upload is attempted only when a file is chosen; its failure
     * leaves the image URL null and the insert goes ahead. `insertOk` is the insert's
     * outcome. On success the form is reset and `success` set; on failure the fixed
     * error message is shown and the form kept. Loading ends in both cases.
     * Returns the path sent to storage, if any, and the record handed to the insert.
     * A successful upload stays in storage even when the insert then fails.
     */
    method HandleSubmit(sessionUser: Option<User>, timestamp: nat, uploadOk: bool,
                        publicUrlOf: string -> string, insertOk: bool)
      returns (uploaded: Option<string>, sent: ReportInsert)
      modifies this`formData, this`imageFile, this`isLoading, this`success, this`error
      ensures var imageUrl :=
                if old(imageFile).Some? then UploadedImageUrl(old(imageFile).value, timestamp, uploadOk, publicUrlOf)
                else None;
              sent == BuildInsert(sessionUser, old(formData), imageUrl)
      ensures uploaded == UploadTarget(old(imageFile), timestamp)
      ensures uploaded.None? <==> old(imageFile).None?
      ensures old(imageFile).None? || !uploadOk ==> sent.imageUrl == None
      ensures sent.imageUrl.Some? ==> uploaded.Some? && sent.imageUrl.value == publicUrlOf(uploaded.value)
      ensures !isLoading
      ensures insertOk ==> success && error == "" && formData == EmptyForm && imageFile == None
      ensures !insertOk ==> success == old(success) && error == SubmitFailedMessage
                            && formData == old(formData) && imageFile == old(imageFile)
    {
      uploaded := UploadTarget(imageFile, timestamp);
      error := "";
      isLoading := true;
      var imageUrl: Option<string> := None;
      if imageFile.Some? {
        imageUrl := UploadedImageUrl(imageFile.value, timestamp, uploadOk, publicUrlOf);
      }
      sent := BuildInsert(sessionUser, formData, imageUrl);
      if insertOk {
        success := true;
        formData := EmptyForm;
        imageFile := None;
      } else {
        error := SubmitFailedMessage;
      }
      isLoading := false;
    }

    /** "Submit Another Report" returns from the success card to the form. */
    method SubmitAnother()
      modifies this`success
      ensures !success
    {
      success := false;
    }
  }
}
