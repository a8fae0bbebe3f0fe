/**
 * The browse page: one query for the ready videos, newest first, and the
 * `loading` / `error` state that decides what the page shows.
 */
module Home {
  import opened Common
  import opened Seqs
  import opened Records
  import opened Catalog
  import opened Store

  const FETCH_ERROR := "動画の取得中にエラーが発生しました。"

  /** `where('status', '==', 'ready'), orderBy('created_at', 'desc')`. */
  const HOME_QUERY: seq<Condition> := [StatusIs(Ready)]

  /** What the page renders. */
  datatype View = Loading | ErrorText(message: string) | VideoList(videos: seq<Video>)

  lemma HomeQueryIsReady(v: Video)
    ensures HoldsAll(HOME_QUERY, v) <==> v.status == Ready
  {
    assert Holds(HOME_QUERY[0], v) <==> v.status == Ready;
  }

  /** The list holds exactly the ready videos, each as often as stored, newest first. */
  lemma HomeListSpec(videos: seq<Video>, v: Video)
    ensures SortedDesc(RunQuery(videos, HOME_QUERY), CreatedAt)
    ensures multiset(RunQuery(videos, HOME_QUERY))[v] == if v.status == Ready then multiset(videos)[v] else 0
  {
    HomeQueryIsReady(v);
  }

  /** The page as rendered: the spinner first, then the error if any, else the list. */
  function Render(loading: bool, error: string, videos: seq<Video>): (r: View)
    ensures loading <==> r == Loading
    ensures !loading && error != "" <==> r == ErrorText(error) && error != ""
    ensures !loading && error == "" <==> r == VideoList(videos)
  {
    if loading then Loading else if error != "" then ErrorText(error) else VideoList(videos)
  }

  class HomePage {
    var videos: seq<Video>
    var loading: bool
    var error: string
    const db: Database

    constructor (db: Database)
      ensures videos == [] && loading && error == "" && this.db == db
    {
      videos := [];
      loading := true;
      error := "";
      this.db := db;
    }

    function Shown(): View
      reads this
    {
      Render(loading, error, videos)
    }

    /** `fetchVideos`; `fetchOk` says whether the store answered the query. */
    method FetchVideos(fetchOk: bool)
      modifies this`videos, this`loading, this`error
      ensures !loading
      ensures fetchOk ==> videos == RunQuery(db.videos, HOME_QUERY) && error == old(error)
      ensures fetchOk && old(error) == "" ==> Shown() == VideoList(videos)
      ensures !fetchOk ==> videos == old(videos) && error == FETCH_ERROR && Shown() == ErrorText(FETCH_ERROR)
    {
      if fetchOk {
        videos := RunQuery(db.videos, HOME_QUERY);
      } else {
        error := FETCH_ERROR;
      }
      loading := false;
    }
  }
}
