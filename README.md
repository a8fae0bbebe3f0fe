# Lecture video platform — verified model of its decision rules

The platform is a small learning portal. Students and teachers of one
organisation sign in with their organisation's Google accounts. Teachers upload
lecture videos to an upload server, and everyone browses, searches and plays
them. A separate board carries course announcements. Around the UI
glue there is a set of exact rules, and this project states them in Dafny and
proves what they guarantee:

- **Sign-in gate and roles** (`Roles`). The allowed-domain check, the
  student / teacher / unknown classification of the email's local part, the
  merge-write of the profile document, and the `AuthProvider` state
  (`user`, `loading`).
- **Upload server** (`UploadServer`). The file-name sanitiser on UTF-16 code
  units, the stored name `<time>-<safe name>`, the MIME filter, the 100 MiB
  limit, the route's responses and the error handler.
- **Catalog queries** (`Catalog`, `Search`, `Home`). A store query is a list
  of `where` clauses over an in-memory sequence, followed by a newest-first
  sort. The lecture-name range and its exact meaning as a prefix test are
  proved here, and so is the client-side keyword filter.
- **Clock texts** (`TimeFormat`). `formatDuration` (`M:SS`) and `formatTime`
  (`H:MM:SS` / `M:SS`) are proved against a reader that takes the
  colon-separated fields in base 60.
- **Playback progress** (`Player`). The `VideoPlayer` class covers its fields
  `playedSeconds`, `progress`, `seeking` and `duration`, the rules for the displayed resume position (the media element is never sought), the
  30-second checkpoint, and the completion save with its view-count increment.
- **Announcement board** (`Materials`, `NotificationForm`). The optional
  conjunctive filters, delete-by-id, clearing the filters, and the form's
  required fields and stored record.
- **Video record construction** (`Upload`). The client's file check, the
  request to the upload route, the new catalog record, and how the page state
  is reset or kept.

`Store.Database` is the document store: videos, notifications, the progress
records keyed by (uid, videoId), and user profiles. Each page is a class holding
the page's state fields and a reference to the database. Outside events are
parameters of the methods that react to them. These are the identity
provider's popup answer, whether a store read or write went through, the
upload server's answer, the clock (`now`), and the user's confirmation. Seconds
are natural numbers (positions and durations after `Math.floor`), and
timestamps are integers.

Four behaviours of the code that are easy to misread, and that the model
states as the code has them:

- The size limit rejects a file strictly larger than 104857600 bytes. The code
  sets `limits.fileSize` and the upload middleware refuses only what exceeds
  it, so a file of exactly 100 MiB is accepted, not rejected.
- The checkpoint is taken on every progress tick whose whole-second position is
  a multiple of 30. That includes position 0, and a checkpoint there overwrites
  a completed record with an unfinished one (`Player.RestartClearsCompletion`).
  The rule is not "whenever a multiple of 30 is crossed".
- The completion save and the view-count increment are two separate writes,
  not one atomic one. The increment is issued only after the record write went
  through, and it can fail on its own.
- Resuming moves only the clock text. A stored unfinished record (or a
  positive start time) sets `playedSeconds`, which feeds only the displayed
  `formatTime(playedSeconds)`. The media element gets no `seekTo` and no start
  offset, so playback starts from the beginning, and the next progress tick
  overwrites `playedSeconds` with the real position.

An observation that the model keeps as the code has it: the lecture-name
filter `[p, p + U+F8FF]` is not a full prefix test. The range holds exactly the
names that begin with `p` and continue with nothing, with a code point below
U+F8FF, or with U+F8FF alone (`Catalog.LectureRangeIff`). A name such as
`数学（基礎）` searched as `数学` is therefore not found, because the full-width
parenthesis U+FF08 lies above U+F8FF (`Catalog.FullWidthExample`).

## Model

| member | source | states |
|---|---|---|
| Roles.AllowedDomain | src/contexts/AuthContext.tsx:21 | the configured domain when it is set and non-empty, else `your-organization.com`; never empty |
| Roles.DomainAcceptedShape | src/contexts/AuthContext.tsx:57 | an accepted email is some text, `@`, then exactly the allowed domain |
| Roles.LocalPartSpec | src/contexts/AuthContext.tsx:24 | the account is the text before the first `@`, or the whole string when there is none, and holds no `@` |
| Roles.StudentMatcherCorrect | src/contexts/AuthContext.tsx:26-29 | the position-based student matcher holds exactly for four digits, `P`, then one or more digits |
| Roles.TeacherMatcherCorrect | src/contexts/AuthContext.tsx:27-30 | the teacher matcher holds exactly for one or more non-empty lower-case words joined by `-` |
| Roles.TeacherAccountShape | src/contexts/AuthContext.tsx:27 | the teacher pattern holds exactly for non-empty strings of `a`–`z` and `-` with no hyphen at either end and none doubled |
| Roles.GetUserRoleSpec | src/contexts/AuthContext.tsx:23-33 | student iff the student pattern matches; teacher iff it does not and the teacher pattern does; unknown iff neither matches |
| Roles.PatternsDisjoint | src/contexts/AuthContext.tsx:26-30 | no account matches both patterns |
| Roles.RoleIgnoresDomain | src/contexts/AuthContext.tsx:24 | for an account without `@`, the role of `account@domain` is the account's role whatever the domain |
| Roles.StudentExample | src/contexts/AuthContext.tsx:26-29 | `2024P001@<any domain>` is a student |
| Roles.TeacherExample | src/contexts/AuthContext.tsx:27-30 | the account `yamada-taro` is a teacher |
| Roles.UnknownExample | src/contexts/AuthContext.tsx:32 | `x1y2@<any domain>` is unknown |
| Roles.MergeProfile | src/contexts/AuthContext.tsx:65-69 | the profile keeps every earlier field except `email`, `role` and `displayName`, which take the new values (displayName may be null); it gains no other key |
| Roles.Rethrown | src/contexts/AuthContext.tsx:72-78 | an `auth/invalid-api-key` error becomes the configuration message; every other error is raised unchanged |
| Roles.AuthProvider.constructor | src/contexts/AuthContext.tsx:35-37 | no user, loading, domain from the configuration |
| Roles.AuthProvider.OnAuthStateChanged | src/contexts/AuthContext.tsx:40-44 | the listener sets the user and ends loading |
| Roles.AuthProvider.Logout | src/contexts/AuthContext.tsx:81 | after sign-out nobody is signed in |
| Roles.AuthProvider.SignInWithGoogle | src/contexts/AuthContext.tsx:49-79 | a popup error is rethrown and nothing changes. An email outside the domain signs out, raises the domain error and writes nothing. Otherwise the user is signed in and, if the write goes through, exactly that user's profile becomes the merge with the computed role; a failed write is rethrown and changes nothing |
| UploadServer.SanitizeUnits | src/api/server.ts:34 | the safe name has one character per UTF-16 code unit of the original: the unit itself when it is ASCII alphanumeric or `.`, else `_` |
| UploadServer.SanitizeSafe | src/api/server.ts:34 | the safe name contains only `[A-Za-z0-9._]` |
| UploadServer.SanitizeIdempotent | src/api/server.ts:34 | sanitising twice gives the same name as sanitising once |
| UploadServer.SanitizeKeepsPlainNames | src/api/server.ts:34 | a name of letters, digits and dots is kept as it is |
| UploadServer.SanitizeAstral | src/api/server.ts:34 | a character outside the Basic Multilingual Plane becomes two underscores, one per code unit |
| UploadServer.StoredNameSplits | src/api/server.ts:35 | the stored name splits at `-` into the decimal time and the safe name, and the time reads back |
| UploadServer.StoredNameInjectiveInTime | src/api/server.ts:35 | equal stored names have equal times and equal safe names |
| UploadServer.FileFilter | src/api/server.ts:39-45 | a file passes iff its MIME type starts with `video/`; otherwise the error is `Not a video file` |
| UploadServer.UploadAccepted | src/api/server.ts:68-81 | a file is stored iff it arrives under `video`, declares a video type and is at most 104857600 bytes; then the answer is 200 with `/videos/` + the stored name |
| UploadServer.RouteAnswers | src/api/server.ts:68-77 | no file part gives 400 `No file uploaded` (and only then is nothing received without error); any upload error gives 400 with that error's message |
| UploadServer.UploadStatuses | src/api/server.ts:68-81 | the route answers only 200 or 400, and 200 iff the body is a URL |
| UploadServer.NonVideoRejected | src/api/server.ts:40-44 | a non-video file is answered 400 `Not a video file` |
| UploadServer.OversizeRejected | src/api/server.ts:50-52 | a video over 100·1024·1024 bytes is answered 400 `File too large` |
| UploadServer.UploadUrlIsFlat | src/api/server.ts:79-81 | the returned URL is `/videos/` followed by a name with no `/` |
| UploadServer.ErrorHandler | src/api/server.ts:55-66 | a size error gives 400 `File too large`, another middleware error 400 with its message, anything else 500 `Internal server error` |
| UploadServer.RouteAndHandlerAgree | src/api/server.ts:55-77 | for middleware errors the route and the handler answer alike; a filter refusal is 400 in the route but would be 500 in the handler |
| Text.JoinSplit | src/contexts/AuthContext.tsx:24 | splitting at a character and joining the pieces again gives back the original string |
| Text.SplitJoin | src/contexts/AuthContext.tsx:24 | pieces free of the separator are recovered by splitting their join |
| Text.TrimSpec | src/pages/Search.tsx:48-49 | `trim` removes exactly a run of JavaScript white space at each end and leaves a slice with no white space at either end |
| Text.TrimEmptyIff | src/pages/Search.tsx:70 | a string trims to empty iff it is all white space |
| Text.TrimOfLower | src/pages/Search.tsx:71 | lower-casing then trimming equals trimming then lower-casing |
| Text.ToLowerIdempotent | src/pages/Search.tsx:71-75 | lower-casing twice is lower-casing once |
| Text.ContainsIff | src/pages/Search.tsx:73-75 | `includes` holds iff the keyword occurs at some position of the text |
| Text.ParseIntOfNatToString | src/pages/NotificationForm.tsx:18 | `parseInt` of a decimal numeral reads back its value |
| Text.ParseIntNoDigits | src/pages/Search.tsx:41 | `parseInt` of text without a digit is NaN |
| Text.ParsePad2 | src/pages/Search.tsx:101 | a number below 100 padded to two digits is two characters that read back as the number |
| Seqs.SortDescSorted | src/pages/Search.tsx:55 | the newest-first order puts larger keys first |
| Seqs.SortDescPermutes | src/pages/Search.tsx:55 | ordering keeps every document as often as it occurs |
| Seqs.FilterCount | src/pages/Search.tsx:72-76 | a filter keeps each element meeting the test as often as it occurs and drops the others |
| Seqs.FilterIsSubsequence | src/pages/Search.tsx:72-76 | a filter keeps the order of what it keeps |
| Catalog.RangeImpliesPrefix | src/pages/Search.tsx:48-51 | every name in `[p, p + U+F8FF]` begins with `p` |
| Catalog.LectureRangeIff | src/pages/Search.tsx:48-51 | a name is in the range iff it begins with `p` and continues with nothing, a code point below U+F8FF, or U+F8FF alone |
| Catalog.RangeMissesHighContinuations | src/pages/Search.tsx:51 | a name continuing `p` with a code point above U+F8FF is outside the range |
| Catalog.FullWidthExample | src/pages/Search.tsx:51 | `p` followed by U+FF08 begins with `p` but is not found |
| Catalog.RunQuery | src/pages/Search.tsx:57-58 | a query result is sorted newest first and holds each stored document meeting all clauses as often as stored, and no other |
| Catalog.RunQueryMembership | src/pages/Search.tsx:57-58 | a document is in the result iff it is stored and meets every clause |
| Catalog.IncrementViewsAt | src/pages/VideoPlayer.tsx:69-72 | the document with the id gains exactly one view and keeps every other field; other documents are untouched |
| Catalog.IncrementViewsTotal | src/pages/VideoPlayer.tsx:69-72 | the total view count grows by the number of documents with that id |
| Search.WithFilter | src/pages/Search.tsx:28-30 | only the chosen filter field takes the new value |
| Search.BuildSearchQuery | src/pages/Search.tsx:38-52 | the pushed clauses hold exactly for ready videos meeting the grade (parsed), semester and trimmed lecture-range filters that are set |
| Search.KeywordFilterIsSubsequence | src/pages/Search.tsx:72 | the keyword filter only removes results and keeps the order of the rest |
| Search.KeywordFilterMembership | src/pages/Search.tsx:70-77 | with a keyword that is not blank, a result is kept iff its lower-cased title, description or lecture name contains the lower-cased, trimmed keyword |
| Search.BlankKeywordKeepsAll | src/pages/Search.tsx:70 | an empty or whitespace-only keyword returns the query result unchanged |
| Search.SearchResultSound | src/pages/Search.tsx:37-77 | every listed video is stored and ready, has the chosen grade and semester, and a lecture name beginning with the trimmed prefix |
| Search.SearchResultSorted | src/pages/Search.tsx:54-55 | search results are ordered by `created_at`, newest first |
| Search.SearchResultComplete | src/pages/Search.tsx:37-77 | every stored video meeting the filters and the keyword is listed |
| Search.SearchPage.constructor | src/pages/Search.tsx:17-25 | empty filters and results, not loading, no error |
| Search.SearchPage.HandleFilterChange | src/pages/Search.tsx:28-30 | the filter set becomes the old one with the one field replaced |
| Search.SearchPage.HandleSearch | src/pages/Search.tsx:32-86 | loading ends in every case; on success the results are the search result and the error is cleared; on failure the results are kept and the error message is set |
| Home.HomeQueryIsReady | src/pages/Home.tsx:19 | the browse query's clauses hold exactly for ready videos |
| Home.HomeListSpec | src/pages/Home.tsx:17-21 | the list is newest first and holds exactly the ready videos, each as often as stored |
| Home.Render | src/pages/Home.tsx:54-60 | the spinner while loading; then the error if there is one; else the list |
| Home.HomePage.constructor | src/pages/Home.tsx:9-11 | no videos, loading, no error |
| Home.HomePage.FetchVideos | src/pages/Home.tsx:15-35 | loading ends in every case; on success the list is the browse query; on failure the list is kept and the page shows the error |
| TimeFormat.FormatDurationRoundTrip | src/pages/Search.tsx:98-102 | `formatDuration(s)` (also at src/pages/Home.tsx:48-52) reads back as `s` in base 60 |
| TimeFormat.FormatDurationSecondsField | src/pages/Search.tsx:98-102 | the text has two fields, and the seconds field is exactly two digits worth `s mod 60` |
| TimeFormat.FormatTimeRoundTrip | src/pages/VideoPlayer.tsx:187-196 | `formatTime(s)` reads back as `s` in base 60 |
| TimeFormat.FormatTimeFieldCount | src/pages/VideoPlayer.tsx:193-195 | three fields exactly from one hour on, two below |
| TimeFormat.FormatTimeLongFields | src/pages/VideoPlayer.tsx:188-194 | from one hour on, the text has three fields: the hours, then the minutes and the seconds, each exactly two digits and worth `(s mod 3600) div 60` and `s mod 60` |
| TimeFormat.FormatsAgreeBelowAnHour | src/pages/VideoPlayer.tsx:187-196 | below an hour the player's text equals the lists' `formatDuration` text |
| Player.ResolvedVideoUrl | src/pages/VideoPlayer.tsx:27-29 | the URL starts with `/`, ends with the stored URL with at most one character added, and equals it when it already starts with `/` |
| Player.ResolvedVideoUrlIdempotent | src/pages/VideoPlayer.tsx:27-29 | resolving twice changes nothing more |
| Player.ServerUrlsPlayAsIs | src/pages/VideoPlayer.tsx:27-29 | URLs handed out by the upload route are played unchanged |
| Player.ResumeFrom | src/pages/VideoPlayer.tsx:44-49 | an unfinished record moves the displayed position (`playedSeconds`) to its `lastPosition`; a completed or missing record leaves it; the media element is never sought |
| Player.ReadyPosition | src/pages/VideoPlayer.tsx:81-85 | a positive start time wins; otherwise the stored progress decides as on load |
| Player.ResumeIdempotent | src/pages/VideoPlayer.tsx:44-49 | resuming twice from one record lands where resuming once does |
| Player.CheckpointInEveryWindow | src/pages/VideoPlayer.tsx:93-95 | every 30 consecutive whole-second positions contain a checkpoint position (a save happens there only if a progress tick lands on it) |
| Player.CheckpointsApart | src/pages/VideoPlayer.tsx:93-95 | two checkpoint positions are at least 30 seconds apart |
| Player.SaveOverwrites | src/pages/VideoPlayer.tsx:59-66 | a save replaces the (uid, videoId) record by exactly the new record and leaves every other record |
| Player.NoUserNoWrites | src/pages/VideoPlayer.tsx:56 | without a signed-in user nothing is written and no view is counted |
| Player.CheckpointsKeepViews | src/pages/VideoPlayer.tsx:68-73 | a save that is not a completion never changes a view count |
| Player.CompletionAddsOneView | src/pages/VideoPlayer.tsx:68-72 | a completion adds one view to the video's document and changes no other document |
| Player.CompletionTotal | src/pages/VideoPlayer.tsx:68-72 | with one document per id, a completion raises the total view count by exactly 1 |
| Player.RestartClearsCompletion | src/pages/VideoPlayer.tsx:93-95 | position 0 is a checkpoint, and saving it marks a completed record unfinished |
| Player.VideoPlayer.constructor | src/pages/VideoPlayer.tsx:18-25 | not ready, no error, no progress, all positions 0, not seeking |
| Player.VideoPlayer.LoadPlaybackProgress | src/pages/VideoPlayer.tsx:37-53 | without a user or an answer nothing changes; otherwise a stored record becomes `progress` and the displayed position (`playedSeconds`) follows `ResumeFrom`; the media element is never sought |
| Player.VideoPlayer.SavePlaybackProgress | src/pages/VideoPlayer.tsx:55-77 | the record is overwritten as `SaveRecord` says, and the view count moves only for a completion whose record write went through |
| Player.VideoPlayer.HandleReady | src/pages/VideoPlayer.tsx:79-86 | ready, with the displayed position (`playedSeconds`) given by `ReadyPosition`; the media element is never sought |
| Player.VideoPlayer.HandleProgress | src/pages/VideoPlayer.tsx:88-97 | while seeking nothing changes; otherwise the position moves and only a checkpoint position is saved, as unfinished; view counts never change |
| Player.VideoPlayer.HandleDuration | src/pages/VideoPlayer.tsx:99-101 | the duration is recorded |
| Player.VideoPlayer.SetSeeking | src/pages/VideoPlayer.tsx:173-174 | mouse-down and mouse-up on the slider switch seeking on and off |
| Player.VideoPlayer.HandleEnded | src/pages/VideoPlayer.tsx:103-105 | with a signed-in user whose record write goes through, the record is saved as completed at the full duration; the video then gains one view if the increment also goes through; otherwise nothing is written |
| Player.VideoPlayer.HandleError | src/pages/VideoPlayer.tsx:107-110 | the playback error message is shown |
| Store.RemoveNotice | src/pages/Materials.tsx:54 | a notification remains iff it was there and has another id |
| Store.RemoveNoticeKeepsOthers | src/pages/Materials.tsx:54 | every notification with another id remains as often as it was there |
| Store.Database.AddVideo | src/pages/Upload.tsx:61-75 | the collection gains the new record at its end |
| Store.Database.IncrementViewCount | src/pages/VideoPlayer.tsx:69-72 | the collection becomes `IncrementViews` of the old one |
| Store.Database.AddNotification | src/pages/NotificationForm.tsx:16-20 | the collection gains the new record |
| Store.Database.DeleteNotification | src/pages/Materials.tsx:54 | the collection loses the documents with the id |
| Store.Database.SetProgress | src/pages/VideoPlayer.tsx:66 | the record under the key is replaced, without merging |
| Store.Database.SetProfile | src/contexts/AuthContext.tsx:65-69 | the user's profile document is replaced by the given one |
| Materials.BuildNoticeQuery | src/pages/Materials.tsx:18-30 | the pushed clauses hold exactly when the trimmed course (if non-blank), the grade (if non-zero) and the semester (if non-empty) all match |
| Materials.ListNotices | src/pages/Materials.tsx:20-41 | the listing is newest first and holds each notification satisfying all active filters as often as stored, and no other |
| Materials.ClearedFiltersListAll | src/pages/Materials.tsx:63-65 | with no filters every notification is listed |
| Materials.ListingAfterDelete | src/pages/Materials.tsx:54-55 | after a delete the listing has no notification with that id and every other one as before |
| Materials.MaterialsPage.constructor | src/pages/Materials.tsx:10-14 | no notifications, no filters, form hidden, not deleting |
| Materials.MaterialsPage.FetchNotifications | src/pages/Materials.tsx:16-45 | on success the list is `ListNotices` of the store under the current filters; a failed fetch keeps the previous list |
| Materials.MaterialsPage.SetFilters | src/pages/Materials.tsx:67-69 | the filters change and the list is fetched again |
| Materials.MaterialsPage.ClearFilters | src/pages/Materials.tsx:63-65 | the filter set is empty and the next list holds every notification |
| Materials.MaterialsPage.HandleDelete | src/pages/Materials.tsx:47-61 | declining changes nothing; a confirmed delete removes exactly that id and refetches; `isDeleting` is false afterwards whatever the outcome |
| Materials.MaterialsPage.OpenForm | src/pages/Materials.tsx:78 | the form is shown |
| Materials.MaterialsPage.OnSubmitSuccess | src/pages/Materials.tsx:88-91 | the form closes and the list is fetched again |
| Materials.MaterialsPage.SubmitForm | src/pages/NotificationForm.tsx:14-26 | the store gains the record exactly when the form is valid and the write goes through; only then does the form close and the list refresh |
| Materials.MaterialsPage.CancelForm | src/pages/NotificationForm.tsx:109 | cancel closes the form and refetches without writing |
| NotificationForm.ValidIff | src/pages/NotificationForm.tsx:37-81 | the form is valid iff title, content, course, grade and semester are all filled in |
| NotificationForm.LinkIsOptional | src/pages/NotificationForm.tsx:94 | the material link plays no part in validation |
| NotificationForm.NoticeRecord | src/pages/NotificationForm.tsx:16-20 | the record is the form's fields with the grade parsed as a base-10 integer and `createdAt` the store's timestamp |
| NotificationForm.GradeChoicesParse | src/pages/NotificationForm.tsx:70 | each of the grade choices 1–6 is stored as that integer |
| NotificationForm.Submit | src/pages/NotificationForm.tsx:14-26 | a record is written iff the form is valid and the write goes through; the form is reset and the callback called exactly then |
| NotificationForm.Cancel | src/pages/NotificationForm.tsx:109 | cancel calls back and writes nothing |
| Upload.ClientCheckMatchesServer | src/pages/Upload.tsx:20 | the client accepts a file iff the server's filter would |
| Upload.NewVideo | src/pages/Upload.tsx:61-75 | the record has no views, status ready, the teacher's uid and email, the server's URL, the probed duration or 0, the grade parsed as an integer, and server timestamps |
| Upload.NewVideoIsListed | src/pages/Upload.tsx:61-75 | a record built from the server's answer carries a `/videos/` URL and is ready, and once added to any collection the browse query lists it |
| Upload.UploadPage.constructor | src/pages/Upload.tsx:10-16 | no file, no progress, not uploading, no error, no duration |
| Upload.UploadPage.HandleFileSelect | src/pages/Upload.tsx:18-32 | a video file replaces the selection and clears the error; anything else sets the error and keeps the previous selection |
| Upload.UploadPage.OnLoadedMetadata | src/pages/Upload.tsx:26-28 | the probed duration is recorded |
| Upload.UploadPage.HandleSubmit | src/pages/Upload.tsx:34-90 | without a file or a user nothing happens. Otherwise `isUploading` ends false. On success the store gains `NewVideo` and the file, duration and progress are reset. On failure the error is set, the selection is kept and nothing is written |

## Left out

- Network, disk and timers: the upload middleware's streaming, writing to disk, `ensureUploadDir`, static serving, CORS, `listen` and SIGINT (src/api/server.ts:9-26, 85-95), the 500 ms search debounce, and `Date.now()`. Their outcomes are parameters of the model.
- The identity provider: popup sign-in, `onAuthStateChanged` and `signOut` are foreign calls. Their answers are parameters, and the listener's reports are applied where they happen.
- Requests with more than one file part are not modelled. `Receive` takes at most one part, so a second file under `video` (which `upload.single('video')` refuses with `LIMIT_UNEXPECTED_FILE`) and a part with an empty file name (which the middleware ignores) are not represented.
- The upload middleware is not part of this model. Its decisions on an unexpected field (`LIMIT_UNEXPECTED_FILE`, "Unexpected field") and on a file over the limit (`LIMIT_FILE_SIZE`, "File too large", strictly greater than the limit) follow that library's documented behaviour. The filter is consulted before the size.
- Floating point: the upload percentage, the `played` fraction and the slider, and fractional media positions. Positions and durations are whole seconds, and `uploadProgress` is only ever reset.
- Dates: `Intl.DateTimeFormat` and `date-fns` formatting. Timestamps are integers.
- Text.ToLower: only ASCII letters are folded; full Unicode `toLowerCase` is not modelled.
- Text.ParseInt: base 10 only; the `0x` prefix that `parseInt` without a radix accepts (src/pages/Search.tsx:41, src/pages/Upload.tsx:42) is not modelled. The form values are the decimal choices 1–6.
- The two completion writes are made in sequence with no interleaving. The model neither claims they are atomic nor models a crash between them.
- Materials.MaterialsPage.HandleDelete: the intermediate `isDeleting = true` while the delete is pending is not observable in a sequential model; only its final value is stated.
- Transient loading states: `loading = true` during a search and `isUploading = true` during an upload are likewise not stated.
- The store's tie order for equal `created_at` values, composite indexes, and the requirement on `orderBy('status')` in the search query. Results are the qualifying documents in some newest-first order, and a query the store refuses is a failed fetch.
- Browser checks on the forms: the `type="url"` validation of the material link, the `accept="video/*"` file dialog, and the `required` `title` and `lecture_name` text inputs of the upload form (src/pages/Upload.tsx:159, 184), so `Upload.UploadPage.HandleSubmit` also accepts forms with those fields empty, which the browser never submits.
- Firestore document ids are arguments (`newId`). They are not checked for uniqueness, so delete and increment act on every document with the id.
- Rendering, routing and the UI-only files (src/App.tsx, src/pages/Login.tsx, src/components/Navbar.tsx, src/components/Sidebar.tsx); the teacher-only controls are always shown, since `isTeacher` is fixed to true.
- The announcement filter inputs' change handlers (src/pages/Materials.tsx:114-136) turn empty text into an unset filter and the grade text into a number. The model takes the filter set they produce as the argument of `SetFilters`.
- The player loads progress only when a video id is given (src/pages/VideoPlayer.tsx:32). That guard belongs to the effect that triggers the load, and `LoadPlaybackProgress` is modelled as called.
- The `users` collection holds only the profile fields that sign-in writes. src/types/index.ts supplies the record shapes, and src/lib/firebase.ts, which sets up the client, is not part of this model.
