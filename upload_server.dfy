/**
 * The upload endpoint `POST /api/upload`: the file filter, the size limit,
 * the stored file name, the route's responses and the error handler.
 * The multipart parser is modelled by the decisions it takes on the one file
 * part of a request; streaming and disk writes are not modelled.
 */
module UploadServer {
  import opened Common
  import opened Text

  /** `limits.fileSize`: 100 MiB. */
  const MAX_FILE_SIZE: nat := 100 * 1024 * 1024

  /** The one field name `upload.single('video')` accepts. */
  const FIELD_NAME: string := "video"

  const URL_PREFIX: string := "/videos/"

  /** A file part of a multipart request, as the client declared it. */
  datatype FilePart = FilePart(fieldname: string, originalname: string, mimetype: string, size: nat)

  /** An error raised while receiving the upload: one of the upload middleware's own errors
      (with its code), or a plain error raised by the file filter. */
  datatype UploadError =
    | MulterError(code: string, message: string)
    | PlainError(message: string)

  /** A file the server has written to its upload directory. */
  datatype StoredFile = StoredFile(filename: string, size: nat)

  datatype Body = ErrorBody(error: string) | UrlBody(videoUrl: string)
  datatype Response = Response(status: nat, body: Body)

  // ---------------------------------------------------------------------------
  // File name

  predicate IsSafeChar(c: char) { IsAsciiAlnum(c) || c == '.' || c == '_' }

  /** The UTF-16 code units of one character: itself below U+10000, a surrogate pair above. */
  function CodeUnits(c: char): (units: seq<int>)
    ensures 1 <= |units| <= 2
    ensures |units| == 2 <==> c as int >= 0x1_0000
    ensures |units| == 2 ==> forall k :: 0 <= k < 2 ==> 0xD800 <= units[k] < 0xE000
  {
    var v := c as int;
    if v < 0x1_0000 then [v]
    else [0xD800 + (v - 0x1_0000) / 0x400, 0xDC00 + (v - 0x1_0000) % 0x400]
  }

  /** A string as JavaScript sees it: a sequence of UTF-16 code units. */
  function Utf16(s: string): seq<int> {
    if s == [] then [] else CodeUnits(s[0]) + Utf16(s[1..])
  }

  /** A code unit the pattern `[a-zA-Z0-9.]` matches. */
  predicate KeptUnit(u: int) {
    ('0' as int <= u <= '9' as int) || ('a' as int <= u <= 'z' as int)
    || ('A' as int <= u <= 'Z' as int) || u == '.' as int
  }

  /** What one code unit becomes: itself when the pattern keeps it, `_` otherwise. */
  function SanitizeUnit(u: int): char {
    if KeptUnit(u) then u as char else '_'
  }

  function SanitizeChar(c: char): string {
    if IsAsciiAlnum(c) || c == '.' then [c]
    else if c as int >= 0x1_0000 then "__"
    else "_"
  }

  /** `originalname.replace(/[^a-zA-Z0-9.]/g, '_')`: the regular expression has no `u` flag, so
      it replaces code units, and a character outside the basic plane becomes two underscores. */
  function Sanitize(name: string): string
    decreases |name|
  {
    if name == [] then [] else SanitizeChar(name[0]) + Sanitize(name[1..])
  }

  lemma KeptUnitOfChar(c: char)
    requires c as int < 0x1_0000
    ensures KeptUnit(c as int) <==> IsAsciiAlnum(c) || c == '.'
  {
  }

  lemma SanitizeCharUnits(c: char)
    ensures |SanitizeChar(c)| == |CodeUnits(c)|
    ensures forall k :: 0 <= k < |SanitizeChar(c)| ==> SanitizeChar(c)[k] == SanitizeUnit(CodeUnits(c)[k])
  {
    if c as int < 0x1_0000 {
      KeptUnitOfChar(c);
    }
  }

  /** The sanitised name has one character per UTF-16 code unit of the original: the unit itself
      when it is an ASCII letter, digit or `.`, and `_` otherwise. */
  lemma {:induction false} SanitizeUnits(name: string)
    ensures |Sanitize(name)| == |Utf16(name)|
    ensures forall i :: 0 <= i < |Sanitize(name)| ==> Sanitize(name)[i] == SanitizeUnit(Utf16(name)[i])
    decreases |name|
  {
    if name != [] {
      var head, rest := SanitizeChar(name[0]), Sanitize(name[1..]);
      var units, restUnits := CodeUnits(name[0]), Utf16(name[1..]);
      SanitizeCharUnits(name[0]);
      SanitizeUnits(name[1..]);
      assert Sanitize(name) == head + rest;
      assert Utf16(name) == units + restUnits;
      forall i | 0 <= i < |head + rest| ensures (head + rest)[i] == SanitizeUnit((units + restUnits)[i]) {
        if i < |head| {
          assert (head + rest)[i] == head[i] && (units + restUnits)[i] == units[i];
        } else {
          assert (head + rest)[i] == rest[i - |head|] && (units + restUnits)[i] == restUnits[i - |units|];
        }
      }
    }
  }

  /** Every character of a sanitised name is a letter, a digit, `.` or `_`. */
  lemma SanitizeSafe(name: string)
    ensures forall i :: 0 <= i < |Sanitize(name)| ==> IsSafeChar(Sanitize(name)[i])
  {
    SanitizeUnits(name);
  }

  /** Letters, digits, dots and underscores are their own single code unit. */
  lemma {:induction false} Utf16OfSafe(s: string)
    requires forall i :: 0 <= i < |s| ==> IsSafeChar(s[i])
    ensures Utf16(s) == seq(|s|, i requires 0 <= i < |s| => s[i] as int)
    decreases |s|
  {
    if s != [] {
      Utf16OfSafe(s[1..]);
    }
  }

  /** Sanitising twice is sanitising once. */
  lemma SanitizeIdempotent(name: string)
    ensures Sanitize(Sanitize(name)) == Sanitize(name)
  {
    var safe := Sanitize(name);
    SanitizeSafe(name);
    Utf16OfSafe(safe);
    SanitizeUnits(safe);
  }

  /** A name made only of letters, digits and dots is kept as it is. */
  lemma SanitizeKeepsPlainNames(name: string)
    requires forall i :: 0 <= i < |name| ==> IsAsciiAlnum(name[i]) || name[i] == '.'
    ensures Sanitize(name) == name
  {
    Utf16OfSafe(name);
    SanitizeUnits(name);
  }

  /** A character outside the basic plane (an emoji, say) takes two underscores. */
  lemma SanitizeAstral(c: char)
    requires c as int >= 0x1_0000
    ensures Sanitize([c]) == "__"
  {
  }

  /** The stored name: the upload time in decimal, a hyphen, the sanitised original name. */
  function StoredName(now: nat, originalname: string): string {
    NatToString(now) + "-" + Sanitize(originalname)
  }

  /** The stored name determines the upload time and the sanitised name: it splits at its one
      hyphen into the two, so names taken at different times never collide. */
  lemma StoredNameSplits(now: nat, originalname: string)
    ensures Split(StoredName(now, originalname), '-') == [NatToString(now), Sanitize(originalname)]
    ensures ParseNat(Split(StoredName(now, originalname), '-')[0]) == Some(now)
  {
    var t, safe := NatToString(now), Sanitize(originalname);
    assert '-' !in t by {
      assert forall i :: 0 <= i < |t| ==> IsDigit(t[i]);
    }
    assert '-' !in safe by {
      SanitizeSafe(originalname);
      assert forall i :: 0 <= i < |safe| ==> IsSafeChar(safe[i]);
    }
    assert Join([t, safe], '-') == StoredName(now, originalname);
    SplitJoin([t, safe], '-');
    ParseNatToString(now);
  }

  /** Distinct upload times give distinct stored names. */
  lemma StoredNameInjectiveInTime(t1: nat, t2: nat, n1: string, n2: string)
    requires StoredName(t1, n1) == StoredName(t2, n2)
    ensures t1 == t2 && Sanitize(n1) == Sanitize(n2)
  {
    StoredNameSplits(t1, n1);
    StoredNameSplits(t2, n2);
  }

  // ---------------------------------------------------------------------------
  // Receiving the upload

  /** `fileFilter`: only declared video types pass; anything else fails with `Not a video file`. */
  function FileFilter(mimetype: string): (r: Outcome<UploadError>)
    ensures r.Pass? <==> StartsWith(mimetype, "video/")
    ensures r.Fail? ==> r.error == PlainError("Not a video file")
  {
    if StartsWith(mimetype, "video/") then Pass else Fail(PlainError("Not a video file"))
  }

  /**
   * What the upload middleware does with the request's file part, at time `now`:
   * a part under any other field name is the middleware's `LIMIT_UNEXPECTED_FILE`
   * error; then the file filter is consulted before anything is written; a file
   * larger than the limit is the middleware's `LIMIT_FILE_SIZE` error (the partial
   * file is removed); otherwise the file is stored under `StoredName`. No file
   * part at all is no error and no file.
   */
  function Receive(part: Option<FilePart>, now: nat): Result<Option<StoredFile>, UploadError> {
    match part
    case None => Ok(None)
    case Some(f) =>
      if f.fieldname != FIELD_NAME then Err(MulterError("LIMIT_UNEXPECTED_FILE", "Unexpected field"))
      else match FileFilter(f.mimetype)
        case Fail(e) => Err(e)
        case Pass =>
          if f.size > MAX_FILE_SIZE then Err(MulterError("LIMIT_FILE_SIZE", "File too large"))
          else Ok(Some(StoredFile(StoredName(now, f.originalname), f.size)))
  }

  /** The route's callback: every upload error is a 400 with its message, a missing file is a
      400 `No file uploaded`, and a stored file is answered with its public URL. */
  function Route(received: Result<Option<StoredFile>, UploadError>): Response {
    match received
    case Err(e) => Response(400, ErrorBody(e.message))
    case Ok(None) => Response(400, ErrorBody("No file uploaded"))
    case Ok(Some(f)) => Response(200, UrlBody(URL_PREFIX + f.filename))
  }

  /** `POST /api/upload`. */
  function HandleUpload(part: Option<FilePart>, now: nat): Response {
    Route(Receive(part, now))
  }

  /** A file is stored exactly when it arrives under `video`, declares a video type and fits the
      limit; the answer is then 200 with `/videos/<time>-<sanitised name>`. */
  lemma UploadAccepted(part: Option<FilePart>, now: nat)
    ensures Receive(part, now).Ok? && Receive(part, now).value.Some? <==>
              part.Some? && part.value.fieldname == FIELD_NAME
              && StartsWith(part.value.mimetype, "video/") && part.value.size <= MAX_FILE_SIZE
    ensures HandleUpload(part, now).status == 200 <==> Receive(part, now).Ok? && Receive(part, now).value.Some?
    ensures HandleUpload(part, now).status == 200 ==>
              HandleUpload(part, now).body == UrlBody("/videos/" + NatToString(now) + "-" + Sanitize(part.value.originalname))
  {
  }

  /** Every refusal of the route is a 400, never a 500. */
  lemma UploadStatuses(part: Option<FilePart>, now: nat)
    ensures HandleUpload(part, now).status == 200 || HandleUpload(part, now).status == 400
    ensures HandleUpload(part, now).status == 200 <==> HandleUpload(part, now).body.UrlBody?
  {
  }

  /** The route's refusals: no file part is 400 `No file uploaded`, and any error of the upload
      middleware is 400 carrying that error's own message. */
  lemma RouteAnswers(part: Option<FilePart>, now: nat)
    ensures HandleUpload(None, now) == Response(400, ErrorBody("No file uploaded"))
    ensures Receive(part, now).Err? ==>
              HandleUpload(part, now) == Response(400, ErrorBody(Receive(part, now).error.message))
    ensures Receive(part, now) == Ok(None) <==> part.None?
  {
  }

  /** A file that does not declare a video type is refused with 400 `Not a video file` and nothing is stored. */
  lemma NonVideoRejected(f: FilePart, now: nat)
    requires f.fieldname == FIELD_NAME && !StartsWith(f.mimetype, "video/")
    ensures Receive(Some(f), now).Err?
    ensures HandleUpload(Some(f), now) == Response(400, ErrorBody("Not a video file"))
  {
  }

  /** A video over the limit is refused with 400 `File too large` and nothing is stored. */
  lemma OversizeRejected(f: FilePart, now: nat)
    requires f.fieldname == FIELD_NAME && StartsWith(f.mimetype, "video/") && f.size > MAX_FILE_SIZE
    ensures Receive(Some(f), now).Err?
    ensures HandleUpload(Some(f), now) == Response(400, ErrorBody("File too large"))
  {
  }

  /** The returned URL names one file directly under `/videos/`: no further `/` can appear. */
  lemma UploadUrlIsFlat(part: Option<FilePart>, now: nat)
    requires HandleUpload(part, now).status == 200
    ensures StartsWith(HandleUpload(part, now).body.videoUrl, URL_PREFIX)
    ensures '/' !in HandleUpload(part, now).body.videoUrl[|URL_PREFIX|..]
  {
    var f := part.value;
    var url := HandleUpload(part, now).body.videoUrl;
    var name := StoredName(now, f.originalname);
    assert url == URL_PREFIX + name;
    assert url[|URL_PREFIX|..] == name;
    var t := NatToString(now);
    SanitizeSafe(f.originalname);
    forall i | 0 <= i < |name| ensures name[i] != '/' {
      if i < |t| {
        assert name[i] == t[i];
      } else if i > |t| {
        assert name[i] == Sanitize(f.originalname)[i - |t| - 1];
      }
    }
  }

  // ---------------------------------------------------------------------------
  // Error handler

  /** `errorHandler`: the size error is 400 `File too large`, any other middleware error a 400
      with its message, and anything else a 500 that reveals nothing. */
  function ErrorHandler(err: UploadError): (r: Response)
    ensures r.status == 500 <==> err.PlainError?
    ensures r.status != 500 ==> r.status == 400
    ensures err.PlainError? ==> r.body == ErrorBody("Internal server error")
    ensures err.MulterError? && err.code == "LIMIT_FILE_SIZE" ==> r.body == ErrorBody("File too large")
    ensures err.MulterError? && err.code != "LIMIT_FILE_SIZE" ==> r.body == ErrorBody(err.message)
  {
    match err
    case MulterError(code, message) =>
      if code == "LIMIT_FILE_SIZE" then Response(400, ErrorBody("File too large"))
      else Response(400, ErrorBody(message))
    case PlainError(_) => Response(500, ErrorBody("Internal server error"))
  }

  /** For the errors the upload itself raises, the route and the error handler agree
      except on a filter refusal: the route answers it 400, the handler would answer 500. */
  lemma RouteAndHandlerAgree(part: Option<FilePart>, now: nat)
    requires Receive(part, now).Err?
    ensures var e := Receive(part, now).error;
      (e.MulterError? ==> HandleUpload(part, now) == ErrorHandler(e))
      && (e.PlainError? ==> HandleUpload(part, now).status == 400 && ErrorHandler(e).status == 500)
  {
  }
}
