/**
 * The teacher's upload page: the client-side file check, the probed duration,
 * the upload request to the server, the catalog record written after it, and
 * how the page state is reset or kept.
 */
module Upload {
  import opened Common
  import opened Text
  import opened Records
  import opened Store
  import UploadServer
  import Catalog
  import Home

  const SELECT_ERROR := "動画ファイルを選択してください。"
  const UPLOAD_ERROR := "アップロードに失敗しました。"
  const VIDEO_MIME_PREFIX := "video/"

  /** A file chosen in the file input. */
  datatype SelectedFile = SelectedFile(name: string, mimetype: string, size: nat)

  /** The form's fields (`title`, `description`, `lecture_name`, `grade`, `semester`). */
  datatype UploadForm = UploadForm(title: string, description: string, lectureName: string, grade: string, semester: string)

  /** The client accepts a file exactly when the server's filter would. */
  lemma ClientCheckMatchesServer(f: SelectedFile)
    ensures StartsWith(f.mimetype, VIDEO_MIME_PREFIX) <==> UploadServer.FileFilter(f.mimetype).Pass?
  {
  }

  /** The multipart part the client sends for a selected file. */
  function UploadPart(f: SelectedFile): UploadServer.FilePart {
    UploadServer.FilePart(UploadServer.FIELD_NAME, f.name, f.mimetype, f.size)
  }

  /** The catalog record written after a successful upload. */
  function NewVideo(user: AuthUser, form: UploadForm, videoUrl: string, duration: Option<nat>, id: string, now: int): (v: Video)
    ensures v.view_count == 0 && v.status == Ready
    ensures v.teacher_id == user.uid && v.teacher_email == user.email && v.video_url == videoUrl
    ensures v.duration == (if duration.Some? then duration.value else 0)
    ensures v.grade == ParseInt(form.grade)
    ensures v.title == form.title && v.description == form.description
    ensures v.lecture_name == form.lectureName && v.semester == form.semester
    ensures v.id == id && v.created_at == now && v.updated_at == now
  {
    Video(id, user.uid, user.email, form.title, form.description, form.lectureName, ParseInt(form.grade),
          form.semester, videoUrl, duration.GetOr(0), 0, Ready, now, now)
  }

  /** A record built from a server URL plays as it is, and once added to any collection the browse query lists it. */
  lemma NewVideoIsListed(user: AuthUser, form: UploadForm, f: SelectedFile, serverTime: nat,
                         duration: Option<nat>, id: string, now: int)
    requires UploadServer.HandleUpload(Some(UploadPart(f)), serverTime).status == 200
    ensures var v := NewVideo(user, form, UploadServer.HandleUpload(Some(UploadPart(f)), serverTime).body.videoUrl,
                              duration, id, now);
      && StartsWith(v.video_url, UploadServer.URL_PREFIX) && v.status == Ready
      && forall videos: seq<Video> {:trigger videos + [v]} :: v in Catalog.RunQuery(videos + [v], Home.HOME_QUERY)
  {
    UploadServer.UploadUrlIsFlat(Some(UploadPart(f)), serverTime);
    var v := NewVideo(user, form, UploadServer.HandleUpload(Some(UploadPart(f)), serverTime).body.videoUrl,
                      duration, id, now);
    Home.HomeQueryIsReady(v);
    forall videos: seq<Video> ensures v in Catalog.RunQuery(videos + [v], Home.HOME_QUERY) {
      Catalog.RunQueryMembership(videos + [v], Home.HOME_QUERY, v);
    }
  }

  class UploadPage {
    var selectedFile: Option<SelectedFile>
    var uploadProgress: nat
    var isUploading: bool
    var error: string
    var videoDuration: Option<nat>
    const db: Database

    constructor (db: Database)
      ensures selectedFile == None && uploadProgress == 0 && !isUploading && error == ""
      ensures videoDuration == None && this.db == db
    {
      selectedFile := None;
      uploadProgress := 0;
      isUploading := false;
      error := "";
      videoDuration := None;
      this.db := db;
    }

    /** `handleFileSelect`: a video file replaces the selection and clears the error; anything
        else sets the error and keeps the previous selection. */
    method HandleFileSelect(file: Option<SelectedFile>)
      modifies this`selectedFile, this`error
      ensures file.Some? && StartsWith(file.value.mimetype, VIDEO_MIME_PREFIX) ==> selectedFile == file && error == ""
      ensures !(file.Some? && StartsWith(file.value.mimetype, VIDEO_MIME_PREFIX)) ==>
        selectedFile == old(selectedFile) && error == SELECT_ERROR
    {
      if file.Some? && StartsWith(file.value.mimetype, VIDEO_MIME_PREFIX) {
        selectedFile := file;
        error := "";
      } else {
        error := SELECT_ERROR;
      }
    }

    /** The probe's `onloadedmetadata`. */
    method OnLoadedMetadata(seconds: nat)
      modifies this`videoDuration
      ensures videoDuration == Some(seconds)
    {
      videoDuration := Some(seconds);
    }

    /** `handleSubmit`. The server's answer is the upload route's response to the selected file
        (`reachable` false: the request never got an answer); `addOk` says whether the store took
        the catalog record. */
    method HandleSubmit(user: Option<AuthUser>, form: UploadForm, reachable: bool, serverTime: nat,
                        addOk: bool, newId: string, now: int)
      modifies this`selectedFile, this`uploadProgress, this`isUploading, this`error, this`videoDuration, db`videos
      ensures old(selectedFile).None? || user.None? ==>
        && selectedFile == old(selectedFile) && videoDuration == old(videoDuration) && error == old(error)
        && isUploading == old(isUploading) && uploadProgress == old(uploadProgress) && db.videos == old(db.videos)
      ensures old(selectedFile).Some? && user.Some? ==>
        var response := UploadServer.HandleUpload(Some(UploadPart(old(selectedFile).value)), serverTime);
        var success := reachable && response.status == 200 && addOk;
        && !isUploading
        && (success ==>
              && db.videos == old(db.videos) + [NewVideo(user.value, form, response.body.videoUrl, old(videoDuration), newId, now)]
              && selectedFile == None && videoDuration == None && uploadProgress == 0 && error == "")
        && (!success ==>
              && db.videos == old(db.videos)
              && selectedFile == old(selectedFile) && videoDuration == old(videoDuration)
              && uploadProgress == old(uploadProgress) && error == UPLOAD_ERROR)
    {
      if selectedFile.None? || user.None? {
        return;
      }
      isUploading := true;
      error := "";
      var response := UploadServer.HandleUpload(Some(UploadPart(selectedFile.value)), serverTime);
      if reachable && response.status == 200 && addOk {
        db.AddVideo(NewVideo(user.value, form, response.body.videoUrl, videoDuration, newId, now));
        selectedFile := None;
        videoDuration := None;
        uploadProgress := 0;
      } else {
        error := UPLOAD_ERROR;
      }
      isUploading := false;
    }
  }
}
