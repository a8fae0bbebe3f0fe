/**
 * The search page: the filter form, the store query it builds clause by clause,
 * the keyword filter applied to the query result in the browser, and the page
 * state (`results`, `loading`, `error`) that a search updates.
 */
module Search {
  import opened Common
  import opened Text
  import opened Seqs
  import opened Records
  import opened Catalog
  import opened Store

  /** The four form fields; the empty string means "all". */
  datatype SearchFilters = SearchFilters(grade: string, semester: string, lectureName: string, keyword: string)

  const NO_FILTERS := SearchFilters("", "", "", "")

  const SEARCH_ERROR := "検索中にエラーが発生しました。"

  datatype FilterKey = GradeKey | SemesterKey | LectureNameKey | KeywordKey

  /** `setFilters(prev => ({ ...prev, [key]: value }))`. */
  function WithFilter(f: SearchFilters, key: FilterKey, value: string): (r: SearchFilters)
    ensures (key == GradeKey ==> r.grade == value) && (key != GradeKey ==> r.grade == f.grade)
    ensures (key == SemesterKey ==> r.semester == value) && (key != SemesterKey ==> r.semester == f.semester)
    ensures (key == LectureNameKey ==> r.lectureName == value) && (key != LectureNameKey ==> r.lectureName == f.lectureName)
    ensures (key == KeywordKey ==> r.keyword == value) && (key != KeywordKey ==> r.keyword == f.keyword)
  {
    match key
    case GradeKey => f.(grade := value)
    case SemesterKey => f.(semester := value)
    case LectureNameKey => f.(lectureName := value)
    case KeywordKey => f.(keyword := value)
  }

  /** What a document must satisfy to come back from the store, field by field. */
  predicate SearchMatch(f: SearchFilters, v: Video) {
    && v.status == Ready
    && (f.grade != "" ==> v.grade == ParseInt(f.grade))
    && (f.semester != "" ==> v.semester == f.semester)
    && (Trim(f.lectureName) != "" ==> InLectureRange(Trim(f.lectureName), v.lecture_name))
  }

  function Matcher(f: SearchFilters): Video -> bool {
    v => SearchMatch(f, v)
  }

  /** The `where` clauses of `handleSearch`, pushed one by one. */
  method BuildSearchQuery(f: SearchFilters) returns (cs: seq<Condition>)
    ensures forall v :: HoldsAll(cs, v) <==> SearchMatch(f, v)
  {
    cs := [StatusIs(Ready)];
    forall v ensures HoldsAll(cs, v) <==> v.status == Ready {
      assert Holds(cs[0], v) <==> v.status == Ready;
    }
    if f.grade != "" {
      forall v ensures HoldsAll(cs + [GradeIs(ParseInt(f.grade))], v) <==> HoldsAll(cs, v) && v.grade == ParseInt(f.grade) {
        HoldsAllPush(cs, GradeIs(ParseInt(f.grade)), v);
      }
      cs := cs + [GradeIs(ParseInt(f.grade))];
    }
    assert forall v :: HoldsAll(cs, v) <==> v.status == Ready && (f.grade != "" ==> v.grade == ParseInt(f.grade));
    if f.semester != "" {
      forall v ensures HoldsAll(cs + [SemesterIs(f.semester)], v) <==> HoldsAll(cs, v) && v.semester == f.semester {
        HoldsAllPush(cs, SemesterIs(f.semester), v);
      }
      cs := cs + [SemesterIs(f.semester)];
    }
    if Trim(f.lectureName) != "" {
      var lectureName := Trim(f.lectureName);
      var lower, upper := LectureAtLeast(lectureName), LectureAtMost(lectureName + [RANGE_END]);
      forall v ensures HoldsAll(cs + [lower] + [upper], v) <==> HoldsAll(cs, v) && InLectureRange(lectureName, v.lecture_name) {
        HoldsAllPush(cs, lower, v);
        HoldsAllPush(cs + [lower], upper, v);
      }
      cs := cs + [lower] + [upper];
    }
  }

  /** The keyword test: one of the three lower-cased text fields contains the keyword. */
  predicate MatchesKeyword(v: Video, keyword: string) {
    || Contains(ToLower(v.title), keyword)
    || Contains(ToLower(v.description), keyword)
    || Contains(ToLower(v.lecture_name), keyword)
  }

  /** The client-side keyword filter: nothing to do for a blank keyword. */
  function KeywordFilter(results: seq<Video>, keyword: string): seq<Video> {
    if Trim(keyword) == [] then results
    else Filter(results, v => MatchesKeyword(v, Trim(ToLower(keyword))))
  }

  /** The keyword filter only removes results and keeps the order of the rest. */
  lemma KeywordFilterIsSubsequence(results: seq<Video>, keyword: string)
    ensures IsSubsequence(KeywordFilter(results, keyword), results)
  {
    if Trim(keyword) == [] {
      SubsequenceRefl(results);
    } else {
      FilterIsSubsequence(results, v => MatchesKeyword(v, Trim(ToLower(keyword))));
    }
  }

  lemma {:induction false} SubsequenceRefl<T>(s: seq<T>)
    ensures IsSubsequence(s, s)
    decreases |s|
  {
    if s != [] {
      SubsequenceRefl(s[1..]);
    }
  }

  /** With a keyword that is not blank, a result is kept exactly when it matches the lower-cased, trimmed keyword. */
  lemma KeywordFilterMembership(results: seq<Video>, keyword: string, v: Video)
    requires !AllSpace(keyword)
    ensures v in KeywordFilter(results, keyword) <==> v in results && MatchesKeyword(v, ToLower(Trim(keyword)))
  {
    TrimEmptyIff(keyword);
    TrimOfLower(keyword);
    FilterMembership(results, v => MatchesKeyword(v, Trim(ToLower(keyword))), v);
  }

  /** An empty or all-whitespace keyword leaves the query result as it is. */
  lemma BlankKeywordKeepsAll(results: seq<Video>, keyword: string)
    requires AllSpace(keyword)
    ensures KeywordFilter(results, keyword) == results
  {
    TrimEmptyIff(keyword);
  }

  /** The list a successful search shows. */
  ghost function SearchResult(videos: seq<Video>, f: SearchFilters): seq<Video> {
    KeywordFilter(SortDesc(Filter(videos, Matcher(f)), CreatedAt), f.keyword)
  }

  /** Every result is a ready video meeting the grade, semester and lecture filters, the results are
      newest first, and the lecture filter works as a prefix test. */
  lemma SearchResultSound(videos: seq<Video>, f: SearchFilters, i: nat)
    requires i < |SearchResult(videos, f)|
    ensures var v := SearchResult(videos, f)[i];
      && v in videos
      && v.status == Ready
      && (f.grade != "" ==> v.grade == ParseInt(f.grade))
      && (f.semester != "" ==> v.semester == f.semester)
      && (Trim(f.lectureName) != "" ==> StartsWith(v.lecture_name, Trim(f.lectureName)))
  {
    var sorted := SortDesc(Filter(videos, Matcher(f)), CreatedAt);
    var v := SearchResult(videos, f)[i];
    KeywordFilterIsSubsequence(sorted, f.keyword);
    SubsequenceMembers(SearchResult(videos, f), sorted, i);
    assert v in sorted;
    SortDescMembership(Filter(videos, Matcher(f)), CreatedAt, v);
    FilterMembership(videos, Matcher(f), v);
    if Trim(f.lectureName) != "" {
      RangeImpliesPrefix(Trim(f.lectureName), v.lecture_name);
    }
  }

  lemma SearchResultSorted(videos: seq<Video>, f: SearchFilters)
    ensures SortedDesc(SearchResult(videos, f), CreatedAt)
  {
    var sorted := SortDesc(Filter(videos, Matcher(f)), CreatedAt);
    SortDescSorted(Filter(videos, Matcher(f)), CreatedAt);
    KeywordFilterIsSubsequence(sorted, f.keyword);
    SubsequenceSorted(SearchResult(videos, f), sorted, CreatedAt);
  }

  /** Nothing that qualifies is lost: a stored video meeting the filters and the keyword is listed. */
  lemma SearchResultComplete(videos: seq<Video>, f: SearchFilters, v: Video)
    requires v in videos && SearchMatch(f, v)
    requires !AllSpace(f.keyword) ==> MatchesKeyword(v, ToLower(Trim(f.keyword)))
    ensures v in SearchResult(videos, f)
  {
    var kept := Filter(videos, Matcher(f));
    FilterMembership(videos, Matcher(f), v);
    SortDescMembership(kept, CreatedAt, v);
    if AllSpace(f.keyword) {
      BlankKeywordKeepsAll(SortDesc(kept, CreatedAt), f.keyword);
    } else {
      KeywordFilterMembership(SortDesc(kept, CreatedAt), f.keyword, v);
    }
  }

  class SearchPage {
    var filters: SearchFilters
    var results: seq<Video>
    var loading: bool
    var error: string
    const db: Database

    constructor (db: Database)
      ensures filters == NO_FILTERS && results == [] && !loading && error == "" && this.db == db
    {
      filters := NO_FILTERS;
      results := [];
      loading := false;
      error := "";
      this.db := db;
    }

    /** `handleFilterChange` */
    method HandleFilterChange(key: FilterKey, value: string)
      modifies this`filters
      ensures filters == WithFilter(old(filters), key, value)
    {
      filters := WithFilter(filters, key, value);
    }

    /** `handleSearch`; `fetchOk` says whether the store answered the query. */
    method HandleSearch(fetchOk: bool)
      modifies this`results, this`loading, this`error
      ensures !loading
      ensures fetchOk ==> results == SearchResult(db.videos, filters) && error == ""
      ensures !fetchOk ==> results == old(results) && error == SEARCH_ERROR
    {
      loading := true;
      error := "";
      var cs := BuildSearchQuery(filters);
      if fetchOk {
        RunQueryExtensional(db.videos, cs, Matcher(filters));
        results := KeywordFilter(RunQuery(db.videos, cs), filters.keyword);
      } else {
        error := SEARCH_ERROR;
      }
      loading := false;
    }
  }
}
