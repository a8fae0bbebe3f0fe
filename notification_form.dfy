/**
 * The announcement form: which fields are required, the record it stores
 * (the form's fields, the grade parsed as a decimal integer, the store's own
 * timestamp) and what a submission or a cancellation does.
 */
module NotificationForm {
  import opened Common
  import opened Text
  import opened Records

  /** The form's fields as the browser hands them over. The text controls yield text; `grade` is
      registered with `valueAsNumber` and yields a number, kept here as its decimal text, which
      `parseInt(…, 10)` reads to that same integer. */
  datatype NoticeForm = NoticeForm(
    title: string,
    content: string,
    course: string,
    grade: string,
    semester: string,
    repositoryLink: string)

  datatype Field = Title | Content | Course | Grade | Semester | RepositoryLink

  const GRADE_CHOICES: seq<nat> := [1, 2, 3, 4, 5, 6]
  const SEMESTER_CHOICES: seq<string> := ["前期", "後期"]

  /** The fields marked `required`, in the order the form shows them. */
  const REQUIRED: seq<Field> := [Title, Content, Course, Grade, Semester]

  function FieldText(form: NoticeForm, f: Field): string {
    match f
    case Title => form.title
    case Content => form.content
    case Course => form.course
    case Grade => form.grade
    case Semester => form.semester
    case RepositoryLink => form.repositoryLink
  }

  /** The required fields left empty, each reported once, in form order. */
  function Missing(form: NoticeForm, fields: seq<Field>): (r: seq<Field>)
    ensures forall f :: f in r <==> f in fields && FieldText(form, f) == ""
    decreases |fields|
  {
    if fields == [] then []
    else (if FieldText(form, fields[0]) == "" then [fields[0]] else []) + Missing(form, fields[1..])
  }

  function MissingFields(form: NoticeForm): seq<Field> {
    Missing(form, REQUIRED)
  }

  /** The form passes validation exactly when the five required fields are filled in. */
  lemma ValidIff(form: NoticeForm)
    ensures MissingFields(form) == [] <==>
      form.title != "" && form.content != "" && form.course != "" && form.grade != "" && form.semester != ""
  {
    var r := MissingFields(form);
    if r != [] {
      assert r[0] in r;
      assert r[0] in REQUIRED && FieldText(form, r[0]) == "";
    } else {
      assert Title in REQUIRED && Content in REQUIRED && Course in REQUIRED;
      assert Grade in REQUIRED && Semester in REQUIRED;
    }
  }

  /** The material link plays no part in validation. */
  lemma LinkIsOptional(form: NoticeForm, link: string)
    ensures MissingFields(form.(repositoryLink := link)) == MissingFields(form)
  {
    forall f | f in REQUIRED ensures FieldText(form.(repositoryLink := link), f) == FieldText(form, f) {
      assert f != RepositoryLink;
    }
    MissingAgrees(form, form.(repositoryLink := link), REQUIRED);
  }

  lemma {:induction false} MissingAgrees(a: NoticeForm, b: NoticeForm, fields: seq<Field>)
    requires forall f :: f in fields ==> FieldText(a, f) == FieldText(b, f)
    ensures Missing(a, fields) == Missing(b, fields)
    decreases |fields|
  {
    if fields != [] {
      assert fields[0] in fields;
      assert forall f :: f in fields[1..] ==> f in fields;
      MissingAgrees(a, b, fields[1..]);
    }
  }

  /** `{ ...data, grade: parseInt(data.grade, 10), createdAt: serverTimestamp() }` under a new id. */
  function NoticeRecord(form: NoticeForm, id: string, now: int): (n: Notification)
    ensures n.grade == ParseInt(form.grade) && n.createdAt == now && n.id == id
    ensures n.title == form.title && n.content == form.content && n.course == form.course
    ensures n.semester == form.semester && n.repositoryLink == form.repositoryLink
  {
    Notification(id, form.title, form.content, form.course, ParseInt(form.grade), form.semester,
                 form.repositoryLink, now)
  }

  /** Each grade choice is stored as that integer. */
  lemma GradeChoicesParse(form: NoticeForm, i: nat, id: string, now: int)
    requires i < |GRADE_CHOICES|
    ensures NoticeRecord(form.(grade := NatToString(GRADE_CHOICES[i])), id, now).grade == Int(GRADE_CHOICES[i])
  {
    ParseIntOfNatToString(GRADE_CHOICES[i]);
  }

  /** What a submission or a cancellation does: the record written, whether the form is reset,
      and whether `onSubmitSuccess` is called. */
  datatype Effect = Effect(write: Option<Notification>, resetForm: bool, callback: bool)

  /** `handleSubmit(onSubmit)`: validation first, then the write (`addOk` says whether it went through). */
  function Submit(form: NoticeForm, id: string, now: int, addOk: bool): (e: Effect)
    ensures e.write.Some? <==> MissingFields(form) == [] && addOk
    ensures e.write.Some? ==> e.write.value == NoticeRecord(form, id, now)
    ensures e.resetForm <==> e.write.Some?
    ensures e.callback <==> e.write.Some?
  {
    if MissingFields(form) != [] || !addOk then Effect(None, false, false)
    else Effect(Some(NoticeRecord(form, id, now)), true, true)
  }

  /** The cancel button calls back without writing. */
  function Cancel(): (e: Effect)
    ensures e.write.None? && !e.resetForm && e.callback
  {
    Effect(None, false, true)
  }
}
