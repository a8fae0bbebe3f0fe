/**
 * The document store as the pages use it: the `videos` and `notifications`
 * collections, the per-user `playback-progress` documents and the `users`
 * profiles. Each write is one method; a write the store refuses (a network or
 * permission failure) is decided by the caller and simply not made.
 */
module Store {
  import opened Common
  import opened Records
  import opened Catalog

  /** `users/{uid}/playback-progress/{videoId}` is addressed by the pair (uid, videoId). */
  type ProgressKey = (string, string)

  /** A notification document's id as a query result reports it. */
  function NoticeId(n: Notification): string { n.id }

  /** `deleteDoc(doc('notifications', id))` over the collection. */
  function RemoveNotice(notices: seq<Notification>, id: string): (r: seq<Notification>)
    ensures |r| <= |notices|
    ensures forall n :: n in r <==> n in notices && n.id != id
    decreases |notices|
  {
    if notices == [] then []
    else if notices[0].id == id then RemoveNotice(notices[1..], id)
    else [notices[0]] + RemoveNotice(notices[1..], id)
  }

  /** Deleting keeps every other notification, each as often as it was there, in order. */
  lemma {:induction false} RemoveNoticeKeepsOthers(notices: seq<Notification>, id: string, n: Notification)
    requires n.id != id
    ensures multiset(RemoveNotice(notices, id))[n] == multiset(notices)[n]
    decreases |notices|
  {
    if notices != [] {
      RemoveNoticeKeepsOthers(notices[1..], id, n);
      assert notices == [notices[0]] + notices[1..];
    }
  }

  class Database {
    var videos: seq<Video>
    var notifications: seq<Notification>
    var progress: map<ProgressKey, PlaybackProgress>
    var users: map<string, Profile>

    constructor (videos: seq<Video>, notifications: seq<Notification>)
      ensures this.videos == videos && this.notifications == notifications
      ensures progress == map[] && users == map[]
    {
      this.videos := videos;
      this.notifications := notifications;
      progress := map[];
      users := map[];
    }

    /** `addDoc(collection(db, 'videos'), v)`. */
    method AddVideo(v: Video)
      modifies this`videos
      ensures videos == old(videos) + [v]
    {
      videos := videos + [v];
    }

    /** `updateDoc(doc(db, 'videos', id), { view_count: increment(1) })`. */
    method IncrementViewCount(id: string)
      modifies this`videos
      ensures videos == IncrementViews(old(videos), id)
    {
      videos := IncrementViews(videos, id);
    }

    /** `addDoc(collection(db, 'notifications'), n)`. */
    method AddNotification(n: Notification)
      modifies this`notifications
      ensures notifications == old(notifications) + [n]
    {
      notifications := notifications + [n];
    }

    /** `deleteDoc(doc(db, 'notifications', id))`. */
    method DeleteNotification(id: string)
      modifies this`notifications
      ensures notifications == RemoveNotice(old(notifications), id)
    {
      notifications := RemoveNotice(notifications, id);
    }

    /** `setDoc` without merge: the whole record is replaced. */
    method SetProgress(key: ProgressKey, p: PlaybackProgress)
      modifies this`progress
      ensures progress == old(progress)[key := p]
    {
      progress := progress[key := p];
    }

    /** Writes a user's profile document. */
    method SetProfile(uid: string, p: Profile)
      modifies this`users
      ensures users == old(users)[uid := p]
    {
      users := users[uid := p];
    }
  }
}
