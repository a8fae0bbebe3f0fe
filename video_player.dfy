/**
 * The video player: the displayed position (`playedSeconds`) after a load or a
 * ready event, when progress is written, and the view count a finished playback
 * adds. The media element itself is never sought: "resuming" moves only the
 * clock text until the next progress tick reports the real position. Positions
 * and the duration are whole seconds.
 */
module Player {
  import opened Common
  import opened Text
  import opened Records
  import opened Catalog
  import opened Store
  import UploadServer

  const CHECKPOINT_INTERVAL: nat := 30

  const PLAYBACK_ERROR := "動画の再生中にエラーが発生しました。しばらく待ってから再度お試しください。"

  // ---------------------------------------------------------------------------
  // Source URL

  /** The URL handed to the media element: the stored one, made to start with `/`. */
  function ResolvedVideoUrl(url: string): (r: string)
    ensures StartsWith(r, "/")
    ensures EndsWith(r, url) && |r| <= |url| + 1
    ensures StartsWith(url, "/") ==> r == url
  {
    if StartsWith(url, "/") then url else "/" + url
  }

  lemma ResolvedVideoUrlIdempotent(url: string)
    ensures ResolvedVideoUrl(ResolvedVideoUrl(url)) == ResolvedVideoUrl(url)
  {
  }

  /** The URLs the upload server hands out are played as they are. */
  lemma ServerUrlsPlayAsIs(part: Option<UploadServer.FilePart>, now: nat)
    requires UploadServer.HandleUpload(part, now).status == 200
    ensures var url := UploadServer.HandleUpload(part, now).body.videoUrl;
      ResolvedVideoUrl(url) == url
  {
    UploadServer.UploadUrlIsFlat(part, now);
    var url := UploadServer.HandleUpload(part, now).body.videoUrl;
    assert url[..1] == UploadServer.URL_PREFIX[..1];
  }

  // ---------------------------------------------------------------------------
  // Resuming

  /** A record of an unfinished playback moves the displayed position (`playedSeconds`) to where it
      stopped; otherwise it stays. The media element is never sought. */
  function ResumeFrom(current: nat, stored: Option<PlaybackProgress>): (r: nat)
    ensures stored.Some? && !stored.value.completed ==> r == stored.value.lastPosition
    ensures stored.None? || stored.value.completed ==> r == current
  {
    match stored
    case Some(p) => if p.completed then current else p.lastPosition
    case None => current
  }

  /** On ready, a positive start time wins over any stored progress. */
  function ReadyPosition(startTime: nat, current: nat, progress: Option<PlaybackProgress>): (r: nat)
    ensures startTime > 0 ==> r == startTime
    ensures startTime == 0 ==> r == ResumeFrom(current, progress)
  {
    if startTime > 0 then startTime else ResumeFrom(current, progress)
  }

  /** Resuming twice from the same record lands where resuming once does. */
  lemma ResumeIdempotent(current: nat, stored: Option<PlaybackProgress>)
    ensures ResumeFrom(ResumeFrom(current, stored), stored) == ResumeFrom(current, stored)
  {
  }

  // ---------------------------------------------------------------------------
  // Checkpoints

  /** `Math.floor(playedSeconds) % 30 === 0`. */
  predicate IsCheckpoint(seconds: nat) {
    seconds % CHECKPOINT_INTERVAL == 0
  }

  /** Every 30-second window of whole-second positions holds a checkpoint position (a save happens
      only if a progress tick lands on it) ... */
  lemma CheckpointInEveryWindow(n: nat)
    ensures exists k :: n <= k < n + CHECKPOINT_INTERVAL && IsCheckpoint(k)
  {
    var k := n + (CHECKPOINT_INTERVAL - n % CHECKPOINT_INTERVAL) % CHECKPOINT_INTERVAL;
    assert n <= k < n + CHECKPOINT_INTERVAL && IsCheckpoint(k);
  }

  /** ... and only one, since two checkpoint positions are at least 30 seconds apart. */
  lemma CheckpointsApart(a: nat, b: nat)
    requires a < b && IsCheckpoint(a) && IsCheckpoint(b)
    ensures b - a >= CHECKPOINT_INTERVAL
  {
    assert a == (a / 30) * 30 && b == (b / 30) * 30;
    assert a / 30 < b / 30;
  }

  // ---------------------------------------------------------------------------
  // Saving

  /** `setDoc` of the whole record under (uid, videoId); nothing without a user or when the write fails. */
  function SaveRecord(m: map<ProgressKey, PlaybackProgress>, user: Option<AuthUser>, videoId: string,
                      position: nat, completed: bool, now: int, writeOk: bool): map<ProgressKey, PlaybackProgress>
  {
    if user.Some? && writeOk then m[(user.value.uid, videoId) := PlaybackProgress(position, completed, now)] else m
  }

  /** The view-count update that follows a completed save, when that save went through. */
  function CountView(videos: seq<Video>, user: Option<AuthUser>, videoId: string,
                     completed: bool, writeOk: bool, updateOk: bool): seq<Video>
  {
    if user.Some? && writeOk && completed && updateOk then IncrementViews(videos, videoId) else videos
  }

  /** A save replaces the (uid, videoId) record by exactly the new one and touches no other record. */
  lemma SaveOverwrites(m: map<ProgressKey, PlaybackProgress>, u: AuthUser, videoId: string,
                       position: nat, completed: bool, now: int, k: ProgressKey)
    ensures var r := SaveRecord(m, Some(u), videoId, position, completed, now, true);
      && r.Keys == m.Keys + {(u.uid, videoId)}
      && r[(u.uid, videoId)] == PlaybackProgress(position, completed, now)
      && (k != (u.uid, videoId) && k in m ==> r[k] == m[k])
  {
  }

  /** Without a signed-in user nothing is written. */
  lemma NoUserNoWrites(m: map<ProgressKey, PlaybackProgress>, videos: seq<Video>, videoId: string,
                       position: nat, completed: bool, now: int, writeOk: bool, updateOk: bool)
    ensures SaveRecord(m, None, videoId, position, completed, now, writeOk) == m
    ensures CountView(videos, None, videoId, completed, writeOk, updateOk) == videos
  {
  }

  /** A save that is not a completion never changes a view count. */
  lemma CheckpointsKeepViews(videos: seq<Video>, user: Option<AuthUser>, videoId: string, writeOk: bool, updateOk: bool)
    ensures CountView(videos, user, videoId, false, writeOk, updateOk) == videos
  {
  }

  /** A completion adds exactly one view to the video's document and changes no other document. */
  lemma CompletionAddsOneView(videos: seq<Video>, u: AuthUser, videoId: string, i: nat)
    requires i < |videos|
    ensures var r := CountView(videos, Some(u), videoId, true, true, true);
      && |r| == |videos|
      && r[i] == if videos[i].id == videoId then videos[i].(view_count := videos[i].view_count + 1) else videos[i]
  {
    IncrementViewsAt(videos, videoId, i);
  }

  /** With one document per id, the total view count grows by exactly one. */
  lemma CompletionTotal(videos: seq<Video>, u: AuthUser, videoId: string)
    requires CountId(videos, videoId) == 1
    ensures TotalViews(CountView(videos, Some(u), videoId, true, true, true)) == TotalViews(videos) + 1
  {
    IncrementViewsTotal(videos, videoId);
  }

  /** A checkpoint at position 0 is also a save: replaying from the start overwrites a
      completed record with an unfinished one. */
  lemma RestartClearsCompletion(m: map<ProgressKey, PlaybackProgress>, u: AuthUser, videoId: string, now: int)
    requires (u.uid, videoId) in m && m[(u.uid, videoId)].completed
    ensures IsCheckpoint(0)
    ensures !SaveRecord(m, Some(u), videoId, 0, false, now, true)[(u.uid, videoId)].completed
  {
  }

  // ---------------------------------------------------------------------------
  // The player

  class VideoPlayer {
    const db: Database
    const user: Option<AuthUser>
    const videoId: string
    const videoUrl: string
    const startTime: nat
    var isReady: bool
    var error: string
    var progress: Option<PlaybackProgress>
    var playedSeconds: nat
    var duration: nat
    var seeking: bool

    constructor (db: Database, user: Option<AuthUser>, videoId: string, videoUrl: string, startTime: nat)
      ensures this.db == db && this.user == user && this.videoId == videoId
      ensures this.videoUrl == videoUrl && this.startTime == startTime
      ensures !isReady && error == "" && progress == None && playedSeconds == 0 && duration == 0 && !seeking
    {
      this.db := db;
      this.user := user;
      this.videoId := videoId;
      this.videoUrl := videoUrl;
      this.startTime := startTime;
      isReady := false;
      error := "";
      progress := None;
      playedSeconds := 0;
      duration := 0;
      seeking := false;
    }

    function SourceUrl(): string
      reads this
    {
      ResolvedVideoUrl(videoUrl)
    }

    /** `loadPlaybackProgress`; `readOk` says whether the store answered. */
    method LoadPlaybackProgress(readOk: bool)
      modifies this`progress, this`playedSeconds
      ensures user.None? || !readOk ==> progress == old(progress) && playedSeconds == old(playedSeconds)
      ensures user.Some? && readOk ==>
        var stored := Get(db.progress, (user.value.uid, videoId));
        && progress == (if stored.Some? then stored else old(progress))
        && playedSeconds == ResumeFrom(old(playedSeconds), stored)
    {
      if user.None? || !readOk {
        return;
      }
      var key := (user.value.uid, videoId);
      if key in db.progress {
        var stored := db.progress[key];
        progress := Some(stored);
        if !stored.completed {
          playedSeconds := stored.lastPosition;
        }
      }
    }

    /** `savePlaybackProgress`; `writeOk` and `updateOk` say whether the record write and the
        view-count update went through. */
    method SavePlaybackProgress(currentTime: nat, isCompleted: bool, now: int, writeOk: bool, updateOk: bool)
      modifies db`progress, db`videos
      ensures db.progress == SaveRecord(old(db.progress), user, videoId, currentTime, isCompleted, now, writeOk)
      ensures db.videos == CountView(old(db.videos), user, videoId, isCompleted, writeOk, updateOk)
    {
      if user.None? {
        return;
      }
      if writeOk {
        db.SetProgress((user.value.uid, videoId), PlaybackProgress(currentTime, isCompleted, now));
        if isCompleted && updateOk {
          db.IncrementViewCount(videoId);
        }
      }
    }

    /** `handleReady` */
    method HandleReady()
      modifies this`isReady, this`playedSeconds
      ensures isReady
      ensures playedSeconds == ReadyPosition(startTime, old(playedSeconds), progress)
    {
      isReady := true;
      if startTime > 0 {
        playedSeconds := startTime;
      } else if progress.Some? && !progress.value.completed {
        playedSeconds := progress.value.lastPosition;
      }
    }

    /** `handleProgress`: ignored while the user drags the slider; otherwise the position moves and a
        checkpoint position is saved as unfinished. */
    method HandleProgress(seconds: nat, now: int, writeOk: bool)
      modifies this`playedSeconds, db`progress, db`videos
      ensures seeking ==> playedSeconds == old(playedSeconds) && db.progress == old(db.progress)
      ensures !seeking ==> playedSeconds == seconds
      ensures !seeking && IsCheckpoint(seconds) ==>
        db.progress == SaveRecord(old(db.progress), user, videoId, seconds, false, now, writeOk)
      ensures !seeking && !IsCheckpoint(seconds) ==> db.progress == old(db.progress)
      ensures db.videos == old(db.videos)
    {
      if !seeking {
        playedSeconds := seconds;
        if seconds % 30 == 0 {
          SavePlaybackProgress(seconds, false, now, writeOk, false);
        }
      }
    }

    /** `handleDuration` */
    method HandleDuration(d: nat)
      modifies this`duration
      ensures duration == d
    {
      duration := d;
    }

    /** The slider's mouse-down and mouse-up. */
    method SetSeeking(on: bool)
      modifies this`seeking
      ensures seeking == on
    {
      seeking := on;
    }

    /** `handleEnded`: the record is saved as completed at the full duration and one view is counted. */
    method HandleEnded(now: int, writeOk: bool, updateOk: bool)
      modifies db`progress, db`videos
      ensures db.progress == SaveRecord(old(db.progress), user, videoId, duration, true, now, writeOk)
      ensures db.videos == CountView(old(db.videos), user, videoId, true, writeOk, updateOk)
    {
      SavePlaybackProgress(duration, true, now, writeOk, updateOk);
    }

    /** `handleError` */
    method HandleError()
      modifies this`error
      ensures error == PLAYBACK_ERROR
    {
      error := PLAYBACK_ERROR;
    }
  }
}
