/**
 * The documents the portal keeps in its document store, shaped after the
 * repository's type declarations. Timestamps are integers (milliseconds as the
 * store assigns them); durations and positions are whole seconds.
 */
module Records {
  import opened Common
  import opened Text

  /** A signed-in account as the identity provider reports it. */
  datatype AuthUser = AuthUser(uid: string, email: Option<string>, displayName: Option<string>)

  datatype VideoStatus = Processing | Ready

  /** A document of the `videos` collection. */
  datatype Video = Video(
    id: string,
    teacher_id: string,
    teacher_email: Option<string>,
    title: string,
    description: string,
    lecture_name: string,
    grade: Number,
    semester: string,
    video_url: string,
    duration: nat,
    view_count: nat,
    status: VideoStatus,
    created_at: int,
    updated_at: int)

  /** A document of `users/{uid}/playback-progress/{videoId}`. */
  datatype PlaybackProgress = PlaybackProgress(lastPosition: nat, completed: bool, lastUpdated: int)

  /** A document of the `notifications` collection. */
  datatype Notification = Notification(
    id: string,
    title: string,
    content: string,
    course: string,
    grade: Number,
    semester: string,
    repositoryLink: string,
    createdAt: int)

  /** A field value of a `users` profile document. */
  datatype FieldValue = Str(s: string) | Null

  type Profile = map<string, FieldValue>

  function CreatedAt(v: Video): int { v.created_at }
  function NotificationCreatedAt(n: Notification): int { n.createdAt }
}
