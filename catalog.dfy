/**
 * The `videos` collection as the browse and search pages query it: a query is
 * a conjunction of field conditions followed by `orderBy('created_at', 'desc')`,
 * and the player's completion bumps one document's `view_count`.
 */
module Catalog {
  import opened Common
  import opened Text
  import opened Seqs
  import opened Records

  // ---------------------------------------------------------------------------
  // String order

  /** Code-point order of strings, the order the store uses for string fields. */
  predicate LexLe(a: string, b: string)
    decreases |a|
  {
    a == [] || (b != [] && (a[0] < b[0] || (a[0] == b[0] && LexLe(a[1..], b[1..]))))
  }

  /** The last code point of the Private Use Area, appended to a lecture prefix as the range's upper end. */
  const RANGE_END: char := '\U{F8FF}'

  /** `lecture_name >= p` and `lecture_name <= p + U+F8FF`. */
  predicate InLectureRange(p: string, name: string) {
    LexLe(p, name) && LexLe(name, p + [RANGE_END])
  }

  /** Every name in the range begins with the prefix. */
  lemma {:induction false} RangeImpliesPrefix(p: string, name: string)
    requires InLectureRange(p, name)
    ensures StartsWith(name, p)
    decreases |p|
  {
    if p != [] {
      assert name != [];
      assert (p + [RANGE_END])[0] == p[0];
      assert name[0] == p[0];
      assert (p + [RANGE_END])[1..] == p[1..] + [RANGE_END];
      RangeImpliesPrefix(p[1..], name[1..]);
      assert name == [name[0]] + name[1..];
      assert p == [p[0]] + p[1..];
    }
  }

  /** A string is at or after each of its prefixes. */
  lemma {:induction false} PrefixIsBelow(p: string, name: string)
    requires StartsWith(name, p)
    ensures LexLe(p, name)
    decreases |p|
  {
    if p != [] {
      assert name[0] == p[0];
      assert StartsWith(name[1..], p[1..]) by {
        assert name[1..][..|p| - 1] == name[..|p|][1..];
      }
      PrefixIsBelow(p[1..], name[1..]);
    }
  }

  /** Below `p + [c]` for a name that begins with `p` is decided by what follows `p`. */
  lemma {:induction false} UpperBoundAfterPrefix(p: string, name: string, c: char)
    requires StartsWith(name, p)
    ensures LexLe(name, p + [c]) <==> LexLe(name[|p|..], [c])
    decreases |p|
  {
    if p != [] {
      assert (p + [c])[0] == p[0] && (p + [c])[1..] == p[1..] + [c];
      assert StartsWith(name[1..], p[1..]) by {
        assert name[1..][..|p| - 1] == name[..|p|][1..];
      }
      assert name[1..][|p| - 1..] == name[|p|..];
      UpperBoundAfterPrefix(p[1..], name[1..], c);
    } else {
      assert name[0..] == name;
    }
  }

  /** The range holds exactly the names that begin with `p` and continue with
      nothing, with one code point below U+F8FF and anything after it, or with U+F8FF alone. */
  lemma LectureRangeIff(p: string, name: string)
    ensures InLectureRange(p, name) <==>
      StartsWith(name, p) &&
      var rest := name[|p|..];
      rest == [] || rest[0] < RANGE_END || rest == [RANGE_END]
  {
    if StartsWith(name, p) {
      PrefixIsBelow(p, name);
      UpperBoundAfterPrefix(p, name, RANGE_END);
      var rest := name[|p|..];
      if rest != [] && rest[0] == RANGE_END {
        assert LexLe(rest, [RANGE_END]) <==> LexLe(rest[1..], []);
        assert LexLe(rest[1..], []) <==> rest[1..] == [];
        assert rest[1..] == [] <==> rest == [RANGE_END];
      }
    } else if InLectureRange(p, name) {
      RangeImpliesPrefix(p, name);
    }
  }

  /** A name continuing its prefix with a code point above U+F8FF, such as the
      full-width parenthesis U+FF08, begins with the prefix but is outside the range. */
  lemma RangeMissesHighContinuations(p: string, name: string)
    requires StartsWith(name, p) && |name| > |p| && name[|p|] > RANGE_END
    ensures !InLectureRange(p, name)
  {
    LectureRangeIff(p, name);
  }

  lemma FullWidthExample(p: string)
    ensures StartsWith(p + "\U{FF08}", p) && !InLectureRange(p, p + "\U{FF08}")
  {
    var name := p + "\U{FF08}";
    assert name[..|p|] == p;
    RangeMissesHighContinuations(p, name);
  }

  // ---------------------------------------------------------------------------
  // Queries

  /** One `where` clause of a video query. */
  datatype Condition =
    | StatusIs(status: VideoStatus)
    | GradeIs(grade: Number)
    | SemesterIs(semester: string)
    | LectureAtLeast(lower: string)
    | LectureAtMost(upper: string)

  predicate Holds(c: Condition, v: Video) {
    match c
    case StatusIs(s) => v.status == s
    case GradeIs(g) => v.grade == g
    case SemesterIs(s) => v.semester == s
    case LectureAtLeast(p) => LexLe(p, v.lecture_name)
    case LectureAtMost(p) => LexLe(v.lecture_name, p)
  }

  predicate HoldsAll(cs: seq<Condition>, v: Video) {
    forall i :: 0 <= i < |cs| ==> Holds(cs[i], v)
  }

  /** Pushing a clause adds one conjunct. */
  lemma HoldsAllPush(cs: seq<Condition>, c: Condition, v: Video)
    ensures HoldsAll(cs + [c], v) <==> HoldsAll(cs, v) && Holds(c, v)
  {
    if HoldsAll(cs, v) && Holds(c, v) {
      forall i | 0 <= i < |cs + [c]| ensures Holds((cs + [c])[i], v) {
        if i < |cs| { assert (cs + [c])[i] == cs[i]; }
      }
    }
    if HoldsAll(cs + [c], v) {
      assert Holds((cs + [c])[|cs|], v);
      forall i | 0 <= i < |cs| ensures Holds(cs[i], v) {
        assert (cs + [c])[i] == cs[i];
      }
    }
  }

  /** The documents meeting every condition, newest first. */
  function RunQuery(videos: seq<Video>, cs: seq<Condition>): (r: seq<Video>)
    ensures SortedDesc(r, CreatedAt)
    ensures forall v :: multiset(r)[v] == if HoldsAll(cs, v) then multiset(videos)[v] else 0
  {
    var kept := Filter(videos, v => HoldsAll(cs, v));
    SortDescSorted(kept, CreatedAt);
    SortDescPermutes(kept, CreatedAt);
    forall v ensures multiset(kept)[v] == if HoldsAll(cs, v) then multiset(videos)[v] else 0 {
      FilterCount(videos, v => HoldsAll(cs, v), v);
    }
    SortDesc(kept, CreatedAt)
  }

  /** A query result holds exactly the qualifying documents. */
  lemma RunQueryMembership(videos: seq<Video>, cs: seq<Condition>, v: Video)
    ensures v in RunQuery(videos, cs) <==> v in videos && HoldsAll(cs, v)
  {
    var r := RunQuery(videos, cs);
    assert v in r <==> multiset(r)[v] > 0;
    assert v in videos <==> multiset(videos)[v] > 0;
  }

  /** Queries whose conditions agree on every document give the same result. */
  lemma RunQueryExtensional(videos: seq<Video>, cs: seq<Condition>, p: Video -> bool)
    requires forall v :: HoldsAll(cs, v) == p(v)
    ensures RunQuery(videos, cs) == SortDesc(Filter(videos, p), CreatedAt)
  {
    FilterExtensional(videos, v => HoldsAll(cs, v), p);
  }

  // ---------------------------------------------------------------------------
  // View counts

  function Bump(v: Video): Video {
    v.(view_count := v.view_count + 1)
  }

  /** `updateDoc(doc('videos', id), { view_count: increment(1) })` over the collection. */
  function IncrementViews(videos: seq<Video>, id: string): (r: seq<Video>)
    ensures |r| == |videos|
    decreases |videos|
  {
    if videos == [] then []
    else [if videos[0].id == id then Bump(videos[0]) else videos[0]] + IncrementViews(videos[1..], id)
  }

  /** The document with the id gains one view and nothing else changes; every other document is untouched. */
  lemma {:induction false} IncrementViewsAt(videos: seq<Video>, id: string, i: nat)
    requires i < |videos|
    ensures IncrementViews(videos, id)[i] == if videos[i].id == id then Bump(videos[i]) else videos[i]
    decreases |videos|
  {
    if i > 0 {
      IncrementViewsAt(videos[1..], id, i - 1);
    }
  }

  function TotalViews(videos: seq<Video>): nat
    decreases |videos|
  {
    if videos == [] then 0 else videos[0].view_count + TotalViews(videos[1..])
  }

  function CountId(videos: seq<Video>, id: string): nat
    decreases |videos|
  {
    if videos == [] then 0 else (if videos[0].id == id then 1 else 0) + CountId(videos[1..], id)
  }

  /** The total view count grows by the number of documents carrying the id: by exactly one for a unique id. */
  lemma {:induction false} IncrementViewsTotal(videos: seq<Video>, id: string)
    ensures TotalViews(IncrementViews(videos, id)) == TotalViews(videos) + CountId(videos, id)
    decreases |videos|
  {
    if videos != [] {
      IncrementViewsTotal(videos[1..], id);
      assert IncrementViews(videos, id)[1..] == IncrementViews(videos[1..], id);
    }
  }
}
