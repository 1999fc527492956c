/**
  The video collector: ten fixed search queries against the video
  platform's search endpoint, then one statistics request for the videos
  each search found. A video below the view floor is skipped; the others
  become records with like and comment ratios rounded to four places. Each
  query has its own try block, so a failing query leaves the others intact.
 */
module YouTubeCollector {
  import opened Wrappers
  import opened Json
  import opened Schema
  import opened Numbers

  const SearchQueries: seq<string> := [
    "n8n workflow automation",
    "n8n tutorial workflow",
    "n8n integration workflow",
    "n8n slack automation",
    "n8n google sheets workflow",
    "n8n email automation",
    "n8n webhook workflow",
    "n8n database automation",
    "n8n api integration",
    "n8n zapier alternative"
  ]

  /** Videos with fewer views are skipped. */
  const MinViews: int := 100

  /** Digits kept by round() for both ratios. */
  const RatioDigits: nat := 4

  /**
    _parse_video_data. Missing snippet or statistics read as empty
    dictionaries and missing counts as 0; int() of each count, a
    statistics or snippet value that is not a dictionary, or a video that is
    not one, raises inside the function's own try block and gives None.
    Since views >= 100 holds when the ratios are computed, their `views > 0`
    guard always holds.
   */
  function ParseVideoData(video: Value, country: string, now: string): (r: Option<WorkflowMetrics>)
    ensures r.Some? ==> video.Obj? && Get(video.fields, "statistics", Obj(map[])).Obj?
    ensures r.Some? ==> var stats := Get(video.fields, "statistics", Obj(map[])).fields;
      var views := PyInt(Get(stats, "viewCount", Int(0)));
      var likes := PyInt(Get(stats, "likeCount", Int(0)));
      var comments := PyInt(Get(stats, "commentCount", Int(0)));
      views.Some? && likes.Some? && comments.Some? && views.value >= MinViews &&
      r.value.popularityMetrics == map[
        "views" := Int(views.value),
        "likes" := Int(likes.value),
        "comments" := Int(comments.value),
        "like_to_view_ratio" := Real(Round(likes.value as real / views.value as real, RatioDigits)),
        "comment_to_view_ratio" := Real(Round(comments.value as real / views.value as real, RatioDigits))]
    ensures r.Some? ==>
      r.value.platform == "YouTube" && r.value.country == country && r.value.lastUpdated == Some(now) &&
      Get(video.fields, "snippet", Obj(map[])).Obj? &&
      Get(Get(video.fields, "snippet", Obj(map[])).fields, "title", Text("")) == Text(r.value.workflow)
    ensures (video.Obj? && Get(video.fields, "statistics", Obj(map[])).Obj? &&
             "viewCount" !in Get(video.fields, "statistics", Obj(map[])).fields) ==> r.None?
  {
    if !video.Obj? then None
    else
      var snippet := Get(video.fields, "snippet", Obj(map[]));
      var stats := Get(video.fields, "statistics", Obj(map[]));
      if !stats.Obj? then None
      else
        var views := PyInt(Get(stats.fields, "viewCount", Int(0)));
        var likes := PyInt(Get(stats.fields, "likeCount", Int(0)));
        var comments := PyInt(Get(stats.fields, "commentCount", Int(0)));
        if views.None? || likes.None? || comments.None? then None
        else if views.value < MinViews then None
        else if !snippet.Obj? then None
        else
          var title := Get(snippet.fields, "title", Text(""));
          if !title.Text? then None
          else
            var v := views.value as real;
            Some(WorkflowMetrics(
              title.s,
              "YouTube",
              map[
                "views" := Int(views.value),
                "likes" := Int(likes.value),
                "comments" := Int(comments.value),
                "like_to_view_ratio" := Real(Round(likes.value as real / v, RatioDigits)),
                "comment_to_view_ratio" := Real(Round(comments.value as real / v, RatioDigits))
              ],
              country,
              Some(now)))
  }

  /** A count int() cannot parse makes the video yield None, never an exception. */
  lemma NonNumericCountRejected(video: Value, country: string, now: string, field: string)
    requires video.Obj? && Get(video.fields, "statistics", Obj(map[])).Obj?
    requires field == "viewCount" || field == "likeCount" || field == "commentCount"
    requires PyInt(Get(Get(video.fields, "statistics", Obj(map[])).fields, field, Int(0))).None?
    ensures ParseVideoData(video, country, now) == None
  {
  }

  /**
    The converse of the floor: a video whose counts are decimal strings, as
    the statistics endpoint sends them, with at least 100 views is kept;
    100 itself passes.
   */
  lemma VideoAboveFloorKept(title: string, views: nat, likes: nat, comments: nat, country: string, now: string)
    requires views >= MinViews
    ensures ParseVideoData(
      Obj(map[
        "snippet" := Obj(map["title" := Text(title)]),
        "statistics" := Obj(map[
          "viewCount" := Text(Show(views)),
          "likeCount" := Text(Show(likes)),
          "commentCount" := Text(Show(comments))])]),
      country, now).Some?
  {
    ParseShow(views);
    ParseShow(likes);
    ParseShow(comments);
  }

  /** The stored ratios are within half a unit of the fourth place of likes/views and comments/views. */
  lemma RatiosNearExact(video: Value, country: string, now: string)
    requires ParseVideoData(video, country, now).Some?
    ensures var stats := Get(video.fields, "statistics", Obj(map[])).fields;
      var views := PyInt(Get(stats, "viewCount", Int(0))).value as real;
      var likes := PyInt(Get(stats, "likeCount", Int(0))).value as real;
      var comments := PyInt(Get(stats, "commentCount", Int(0))).value as real;
      var m := ParseVideoData(video, country, now).value.popularityMetrics;
      -0.5 <= (m["like_to_view_ratio"].r - likes / views) * 10000.0 <= 0.5 &&
      -0.5 <= (m["comment_to_view_ratio"].r - comments / views) * 10000.0 <= 0.5
  {
    var stats := Get(video.fields, "statistics", Obj(map[])).fields;
    var views := PyInt(Get(stats, "viewCount", Int(0))).value as real;
    var likes := PyInt(Get(stats, "likeCount", Int(0))).value as real;
    var comments := PyInt(Get(stats, "commentCount", Int(0))).value as real;
    assert Pow10(4) == 10000;
    RoundError(likes / views, RatioDigits);
    RoundError(comments / views, RatioDigits);
  }

  /** `item['id']['videoId']` can be read, and joined as a string. */
  predicate HasVideoId(item: Value)
  {
    item.Obj? && "id" in item.fields && item.fields["id"].Obj? &&
    "videoId" in item.fields["id"].fields && item.fields["id"].fields["videoId"].Text?
  }

  function VideoIdOf(item: Value): string
    requires HasVideoId(item)
  {
    item.fields["id"].fields["videoId"].s
  }

  /** The ids `[item['id']['videoId'] for item in items]` joined by ','; None where that raises. */
  function IdsOf(items: seq<Value>): (r: Option<seq<string>>)
    ensures r.Some? <==> forall i :: 0 <= i < |items| ==> HasVideoId(items[i])
    ensures r.Some? ==> |r.value| == |items| && forall i :: 0 <= i < |items| ==> r.value[i] == VideoIdOf(items[i])
  {
    if items == [] then Some([])
    else
      var last := items[|items| - 1];
      assert forall i :: 0 <= i < |items| - 1 ==> items[..|items| - 1][i] == items[i];
      match IdsOf(items[..|items| - 1])
      case None => None
      case Some(ids) =>
        if HasVideoId(last) then Some(ids + [VideoIdOf(last)]) else None
  }

  /**
    The video ids of a search reply's body, `search_data.get('items', [])`;
    None where that raises. A dictionary or string in place of the list
    yields strings, and indexing a string by 'id' raises, so only an empty
    one passes.
   */
  function VideoIds(body: Value): (r: Option<seq<string>>)
    ensures !body.Obj? ==> r.None?
    ensures body.Obj? && Get(body.fields, "items", List([])).List? ==> r == IdsOf(Get(body.fields, "items", List([])).items)
    ensures body.Obj? && !Get(body.fields, "items", List([])).List? ==>
      (r.Some? <==> Get(body.fields, "items", List([])) in {Obj(map[]), Text("")})
    ensures r.Some? && !Get(body.fields, "items", List([])).List? ==> r.value == []
  {
    if !body.Obj? then None
    else
      match Get(body.fields, "items", List([]))
      case List(items) => IdsOf(items)
      case Obj(fields) => if fields == map[] then Some([]) else None
      case Text(s) => if s == "" then Some([]) else None
      case _ => None
  }

  /** The videos of a statistics reply's body, `stats_data.get('items', [])`; as for feeds, strings yield nothing. */
  function VideoItems(body: Value): (r: Option<seq<Value>>)
    ensures r.Some? <==> body.Obj? && var items := Get(body.fields, "items", List([]));
      items.List? || items.Obj? || items.Text?
    ensures r.Some? ==> var items := Get(body.fields, "items", List([]));
      r.value == if items.List? then items.items else []
  {
    if !body.Obj? then None
    else
      match Get(body.fields, "items", List([]))
      case List(items) => Some(items)
      case Obj(_) => Some([])
      case Text(_) => Some([])
      case _ => None
  }

  /**
    The videos one query hands to the parser: none when the search or the
    statistics request raised or answered other than 200, when the ids cannot
    be read, or when the search found no video.
   */
  function QueryItems(query: string, country: string, search: (string, string) -> HttpReply, videos: seq<string> -> HttpReply): (items: seq<Value>)
    ensures items != [] ==>
      search(query, country).Response? && search(query, country).status == 200 &&
      var ids := VideoIds(search(query, country).body);
      ids.Some? && ids.value != [] &&
      videos(ids.value).Response? && videos(ids.value).status == 200 &&
      VideoItems(videos(ids.value).body) == Some(items)
  {
    match search(query, country)
    case Raised => []
    case Response(status, body) =>
      if status != 200 then []
      else
        match VideoIds(body)
        case None => []
        case Some(ids) =>
          if ids == [] then []
          else
            match videos(ids)
            case Raised => []
            case Response(statsStatus, statsBody) =>
              if statsStatus != 200 then []
              else
                match VideoItems(statsBody)
                case None => []
                case Some(items) => items
  }

  /** The records one query contributes. */
  function QueryRecords(query: string, country: string, search: (string, string) -> HttpReply, videos: seq<string> -> HttpReply, now: string): (rs: seq<WorkflowMetrics>)
    ensures forall w :: w in rs ==> w.platform == "YouTube" && w.country == country && w.lastUpdated == Some(now)
  {
    ParseVideos(QueryItems(query, country, search, videos), country, now)
  }

  /** The records the videos yield, in order. */
  function ParseVideos(items: seq<Value>, country: string, now: string): (rs: seq<WorkflowMetrics>)
    ensures forall w :: w in rs ==> w.platform == "YouTube" && w.country == country && w.lastUpdated == Some(now)
  {
    if items == [] then []
    else
      var rest := ParseVideos(items[..|items| - 1], country, now);
      match ParseVideoData(items[|items| - 1], country, now)
      case Some(w) => rest + [w]
      case None => rest
  }

  /** The records of the given queries, query by query, given what each query contributes. */
  function Gather(queries: seq<string>, perQuery: string -> seq<WorkflowMetrics>): seq<WorkflowMetrics>
  {
    if queries == [] then []
    else Gather(queries[..|queries| - 1], perQuery) + perQuery(queries[|queries| - 1])
  }

  /** Output order is query order: the records of joined query lists are those of the first, then those of the second. */
  lemma {:induction false} GatherAppend(qs1: seq<string>, qs2: seq<string>, perQuery: string -> seq<WorkflowMetrics>)
    ensures Gather(qs1 + qs2, perQuery) == Gather(qs1, perQuery) + Gather(qs2, perQuery)
  {
    if qs2 == [] {
      assert qs1 + qs2 == qs1;
    } else {
      var init := qs2[..|qs2| - 1];
      assert (qs1 + qs2)[..|qs1 + qs2| - 1] == qs1 + init;
      assert (qs1 + qs2)[|qs1 + qs2| - 1] == qs2[|qs2| - 1];
      GatherAppend(qs1, init, perQuery);
    }
  }

  /**
    Failure isolation: a query that contributes nothing leaves the records
    of the queries before and after it as they would be anyway.
   */
  lemma GatherSkip(queries: seq<string>, k: nat, perQuery: string -> seq<WorkflowMetrics>)
    requires k < |queries| && perQuery(queries[k]) == []
    ensures Gather(queries, perQuery) == Gather(queries[..k], perQuery) + Gather(queries[k + 1..], perQuery)
  {
    var before, q, after := queries[..k], [queries[k]], queries[k + 1..];
    assert queries == before + q + after;
    GatherAppend(before + q, after, perQuery);
    GatherAppend(before, q, perQuery);
    assert [queries[k]][..0] == [];
    assert Gather(q, perQuery) == [];
    assert Gather(before, perQuery) + [] == Gather(before, perQuery);
  }

  /** A query whose search raises contributes nothing. */
  lemma FailedQuerySilent(query: string, country: string, search: (string, string) -> HttpReply, videos: seq<string> -> HttpReply, now: string)
    requires search(query, country).Raised?
    ensures QueryRecords(query, country, search, videos, now) == []
  {
  }

  /** A query whose search answers other than 200 contributes nothing; neither does a search that finds no video. */
  lemma UnansweredQuerySilent(query: string, country: string, search: (string, string) -> HttpReply, videos: seq<string> -> HttpReply, now: string)
    requires search(query, country).Response?
    requires search(query, country).status != 200 || VideoIds(search(query, country).body) == Some([])
    ensures QueryRecords(query, country, search, videos, now) == []
  {
  }

  /** A query whose statistics request raises or answers other than 200 contributes nothing. */
  lemma StatsFailureSilent(query: string, country: string, search: (string, string) -> HttpReply, videos: seq<string> -> HttpReply, now: string, ids: seq<string>)
    requires search(query, country).Response? && search(query, country).status == 200
    requires VideoIds(search(query, country).body) == Some(ids) && ids != []
    requires videos(ids).Raised? || videos(ids).status != 200
    ensures QueryRecords(query, country, search, videos, now) == []
  {
  }

  /**
    The body of one query's try block: the search, the statistics request
    for the ids it found, and the loop over the videos returned.
   */
  method CollectQuery(query: string, country: string, search: (string, string) -> HttpReply, videos: seq<string> -> HttpReply, now: string)
    returns (found: seq<WorkflowMetrics>)
    ensures found == QueryRecords(query, country, search, videos, now)
  {
    found := [];
    var response := search(query, country);
    if response.Raised? || response.status != 200 {
      return;
    }
    var videoIds := VideoIds(response.body);
    if videoIds.None? || videoIds.value == [] {
      return;
    }
    var statsResponse := videos(videoIds.value);
    if statsResponse.Raised? || statsResponse.status != 200 {
      return;
    }
    var items := VideoItems(statsResponse.body);
    if items.None? {
      return;
    }
    var stats := items.value;
    assert stats == QueryItems(query, country, search, videos);
    var j := 0;
    while j < |stats|
      invariant 0 <= j <= |stats|
      invariant found == ParseVideos(stats[..j], country, now)
    {
      assert stats[..j + 1][..j] == stats[..j];
      var workflow := ParseVideoData(stats[j], country, now);
      if workflow.Some? {
        found := found + [workflow.value];
      }
      j := j + 1;
    }
    assert stats[..j] == stats;
  }

  /** The loop of search_n8n_workflows over a list of queries, one query at a time. */
  method CollectQueries(queries: seq<string>, country: string, search: (string, string) -> HttpReply, videos: seq<string> -> HttpReply, now: string)
    returns (workflows: seq<WorkflowMetrics>)
    ensures workflows == Gather(queries, q => QueryRecords(q, country, search, videos, now))
    ensures forall w :: w in workflows ==> w.platform == "YouTube" && w.country == country && w.lastUpdated == Some(now)
  {
    ghost var perQuery := q => QueryRecords(q, country, search, videos, now);
    workflows := [];
    var n := 0;
    while n < |queries|
      invariant 0 <= n <= |queries|
      invariant workflows == Gather(queries[..n], perQuery)
      invariant forall w :: w in workflows ==> w.platform == "YouTube" && w.country == country && w.lastUpdated == Some(now)
    {
      assert queries[..n + 1][..n] == queries[..n];
      var found := CollectQuery(queries[n], country, search, videos, now);
      workflows := workflows + found;
      n := n + 1;
    }
    assert queries[..n] == queries;
  }

  /** search_n8n_workflows(country), given the replies of the search and statistics endpoints. */
  method SearchN8nWorkflows(country: string, search: (string, string) -> HttpReply, videos: seq<string> -> HttpReply, now: string)
    returns (workflows: seq<WorkflowMetrics>)
    ensures workflows == Gather(SearchQueries, q => QueryRecords(q, country, search, videos, now))
    ensures forall w :: w in workflows ==> w.platform == "YouTube" && w.country == country && w.lastUpdated == Some(now)
  {
    workflows := CollectQueries(SearchQueries, country, search, videos, now);
  }
}
