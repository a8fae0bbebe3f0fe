/**
 * The announcements page: optional filters on course, grade and semester that
 * combine by conjunction, the newest-first listing, delete-by-id and the
 * posting form it hosts.
 */
module Materials {
  import opened Common
  import opened Text
  import opened Seqs
  import opened Records
  import opened Store
  import NotificationForm

  /** The filter set; an absent entry (or an empty value) filters nothing. */
  datatype NoticeFilters = NoticeFilters(course: Option<string>, grade: Option<int>, semester: Option<string>)

  const NO_FILTERS := NoticeFilters(None, None, None)

  /** One `where` clause of the announcements query. */
  datatype NoticeCondition = CourseIs(course: string) | GradeIs(grade: int) | SemesterIs(semester: string)

  predicate NoticeHolds(c: NoticeCondition, n: Notification) {
    match c
    case CourseIs(course) => n.course == course
    case GradeIs(g) => n.grade == Int(g)
    case SemesterIs(s) => n.semester == s
  }

  predicate NoticeHoldsAll(cs: seq<NoticeCondition>, n: Notification) {
    forall i :: 0 <= i < |cs| ==> NoticeHolds(cs[i], n)
  }

  lemma NoticeHoldsAllPush(cs: seq<NoticeCondition>, c: NoticeCondition, n: Notification)
    ensures NoticeHoldsAll(cs + [c], n) <==> NoticeHoldsAll(cs, n) && NoticeHolds(c, n)
  {
    if NoticeHoldsAll(cs + [c], n) {
      assert NoticeHolds((cs + [c])[|cs|], n);
      forall i | 0 <= i < |cs| ensures NoticeHolds(cs[i], n) {
        assert (cs + [c])[i] == cs[i];
      }
    }
    if NoticeHoldsAll(cs, n) && NoticeHolds(c, n) {
      forall i | 0 <= i < |cs + [c]| ensures NoticeHolds((cs + [c])[i], n) {
        if i < |cs| { assert (cs + [c])[i] == cs[i]; }
      }
    }
  }

  /** The filters as the page means them: each one that is set must hold. The course is
      compared after trimming; a grade of 0 and empty strings count as unset. */
  predicate FilterMatch(f: NoticeFilters, n: Notification) {
    && (f.course.Some? && Trim(f.course.value) != "" ==> n.course == Trim(f.course.value))
    && (f.grade.Some? && f.grade.value != 0 ==> n.grade == Int(f.grade.value))
    && (f.semester.Some? && f.semester.value != "" ==> n.semester == f.semester.value)
  }

  function NoticeMatcher(f: NoticeFilters): Notification -> bool {
    n => FilterMatch(f, n)
  }

  /** The `where` clauses of `fetchNotifications`, pushed one by one. */
  method BuildNoticeQuery(f: NoticeFilters) returns (cs: seq<NoticeCondition>)
    ensures forall n :: NoticeHoldsAll(cs, n) <==> FilterMatch(f, n)
  {
    cs := [];
    if f.course.Some? && Trim(f.course.value) != "" {
      var c := CourseIs(Trim(f.course.value));
      forall n ensures NoticeHoldsAll(cs + [c], n) <==> NoticeHoldsAll(cs, n) && NoticeHolds(c, n) {
        NoticeHoldsAllPush(cs, c, n);
      }
      cs := cs + [c];
    }
    assert forall n :: NoticeHoldsAll(cs, n) <==>
      (f.course.Some? && Trim(f.course.value) != "" ==> n.course == Trim(f.course.value));
    if f.grade.Some? && f.grade.value != 0 {
      var c := GradeIs(f.grade.value);
      forall n ensures NoticeHoldsAll(cs + [c], n) <==> NoticeHoldsAll(cs, n) && NoticeHolds(c, n) {
        NoticeHoldsAllPush(cs, c, n);
      }
      cs := cs + [c];
    }
    if f.semester.Some? && f.semester.value != "" {
      var c := SemesterIs(f.semester.value);
      forall n ensures NoticeHoldsAll(cs + [c], n) <==> NoticeHoldsAll(cs, n) && NoticeHolds(c, n) {
        NoticeHoldsAllPush(cs, c, n);
      }
      cs := cs + [c];
    }
  }

  /** The listing: the notifications meeting every active filter, newest first. */
  function ListNotices(notices: seq<Notification>, f: NoticeFilters): (r: seq<Notification>)
    ensures SortedDesc(r, NotificationCreatedAt)
    ensures forall n :: multiset(r)[n] == if FilterMatch(f, n) then multiset(notices)[n] else 0
  {
    var kept := Filter(notices, NoticeMatcher(f));
    SortDescSorted(kept, NotificationCreatedAt);
    SortDescPermutes(kept, NotificationCreatedAt);
    forall n ensures multiset(kept)[n] == if FilterMatch(f, n) then multiset(notices)[n] else 0 {
      FilterCount(notices, NoticeMatcher(f), n);
    }
    SortDesc(kept, NotificationCreatedAt)
  }

  /** Without filters every notification is listed. */
  lemma ClearedFiltersListAll(notices: seq<Notification>)
    ensures multiset(ListNotices(notices, NO_FILTERS)) == multiset(notices)
  {
    var r := ListNotices(notices, NO_FILTERS);
    assert forall n :: multiset(r)[n] == multiset(notices)[n];
  }

  /** After a delete the listing loses the notification with that id and keeps every other one. */
  lemma ListingAfterDelete(notices: seq<Notification>, f: NoticeFilters, id: string, n: Notification)
    ensures n.id == id ==> n !in ListNotices(RemoveNotice(notices, id), f)
    ensures n.id != id ==> multiset(ListNotices(RemoveNotice(notices, id), f))[n] == multiset(ListNotices(notices, f))[n]
  {
    var after := ListNotices(RemoveNotice(notices, id), f);
    if n.id == id {
      assert n !in RemoveNotice(notices, id);
      assert multiset(after)[n] == 0;
    } else {
      RemoveNoticeKeepsOthers(notices, id, n);
    }
  }

  class MaterialsPage {
    var notifications: seq<Notification>
    var filters: NoticeFilters
    var showForm: bool
    var isDeleting: bool
    const db: Database

    constructor (db: Database)
      ensures notifications == [] && filters == NO_FILTERS && !showForm && !isDeleting && this.db == db
    {
      notifications := [];
      filters := NO_FILTERS;
      showForm := false;
      isDeleting := false;
      this.db := db;
    }

    /** `fetchNotifications`; a failed fetch keeps the previous list. */
    method FetchNotifications(fetchOk: bool)
      modifies this`notifications
      ensures fetchOk ==> notifications == ListNotices(db.notifications, filters)
      ensures !fetchOk ==> notifications == old(notifications)
    {
      var cs := BuildNoticeQuery(filters);
      if fetchOk {
        FilterExtensional(db.notifications, n => NoticeHoldsAll(cs, n), NoticeMatcher(filters));
        var kept := Filter(db.notifications, n => NoticeHoldsAll(cs, n));
        notifications := SortDesc(kept, NotificationCreatedAt);
      }
    }

    /** A change of the filter set, and the fetch it triggers. */
    method SetFilters(f: NoticeFilters, fetchOk: bool)
      modifies this`filters, this`notifications
      ensures filters == f
      ensures fetchOk ==> notifications == ListNotices(db.notifications, f)
      ensures !fetchOk ==> notifications == old(notifications)
    {
      filters := f;
      FetchNotifications(fetchOk);
    }

    /** `clearFilters`, and the fetch it triggers. */
    method ClearFilters(fetchOk: bool)
      modifies this`filters, this`notifications
      ensures filters == NO_FILTERS
      ensures fetchOk ==> multiset(notifications) == multiset(db.notifications)
      ensures !fetchOk ==> notifications == old(notifications)
    {
      SetFilters(NO_FILTERS, fetchOk);
      ClearedFiltersListAll(db.notifications);
    }

    /** `handleDelete`: nothing unless confirmed; then the delete, the refetch, and
        `isDeleting` back to false whatever happened. */
    method HandleDelete(id: string, confirmed: bool, deleteOk: bool, fetchOk: bool)
      modifies this`isDeleting, this`notifications, db`notifications
      ensures !confirmed ==> isDeleting == old(isDeleting) && notifications == old(notifications)
                             && db.notifications == old(db.notifications)
      ensures confirmed ==> !isDeleting
      ensures confirmed && deleteOk ==> db.notifications == RemoveNotice(old(db.notifications), id)
      ensures confirmed && !deleteOk ==> db.notifications == old(db.notifications)
      ensures confirmed && deleteOk && fetchOk ==> notifications == ListNotices(db.notifications, filters)
      ensures !(confirmed && deleteOk && fetchOk) ==> notifications == old(notifications)
    {
      if !confirmed {
        return;
      }
      isDeleting := true;
      if deleteOk {
        db.DeleteNotification(id);
        FetchNotifications(fetchOk);
      }
      isDeleting := false;
    }

    method OpenForm()
      modifies this`showForm
      ensures showForm
    {
      showForm := true;
    }

    /** `onSubmitSuccess` as this page passes it: close the form and refetch. */
    method OnSubmitSuccess(fetchOk: bool)
      modifies this`showForm, this`notifications
      ensures !showForm
      ensures fetchOk ==> notifications == ListNotices(db.notifications, filters)
      ensures !fetchOk ==> notifications == old(notifications)
    {
      showForm := false;
      FetchNotifications(fetchOk);
    }

    /** A submission of the hosted form; `addOk` says whether the store took the write. */
    method SubmitForm(form: NotificationForm.NoticeForm, newId: string, now: int, addOk: bool, fetchOk: bool)
      modifies this`showForm, this`notifications, db`notifications
      ensures var e := NotificationForm.Submit(form, newId, now, addOk);
        && db.notifications == old(db.notifications) + (if e.write.Some? then [e.write.value] else [])
        && (e.callback ==> !showForm)
        && (e.callback && fetchOk ==> notifications == ListNotices(db.notifications, filters))
        && (e.callback && !fetchOk ==> notifications == old(notifications))
        && (!e.callback ==> showForm == old(showForm) && notifications == old(notifications))
    {
      var e := NotificationForm.Submit(form, newId, now, addOk);
      if e.write.Some? {
        db.AddNotification(e.write.value);
      }
      if e.callback {
        OnSubmitSuccess(fetchOk);
      }
    }

    /** The form's cancel button: the callback alone, with nothing written. */
    method CancelForm(fetchOk: bool)
      modifies this`showForm, this`notifications
      ensures !showForm
      ensures fetchOk ==> notifications == ListNotices(db.notifications, filters)
      ensures !fetchOk ==> notifications == old(notifications)
    {
      var e := NotificationForm.Cancel();
      if e.callback {
        OnSubmitSuccess(fetchOk);
      }
    }
  }
}
