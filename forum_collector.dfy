/**
  The forum collector: two topic feeds of the community forum (top and
  latest), each topic filtered by title keywords and a view floor and turned
  into a record with an engagement score. Both feeds are read inside one
  try block; records from the latest feed are added only when no equal
  record (all five fields, timestamp included) was collected before.
 */
module ForumCollector {
  import opened Wrappers
  import opened Json
  import opened Schema
  import Text

  const TitleKeywords: seq<string> := ["workflow", "automation", "integration", "template", "tutorial"]

  /** Topics with fewer views are skipped. */
  const MinViews: real := 50.0

  /** `any(keyword in title.lower() for keyword in workflow_keywords)` */
  predicate MentionsKeyword(title: string)
  {
    exists k :: k in TitleKeywords && Text.Contains(Text.Lower(title), k)
  }

  function Max(a: real, b: real): real { if a < b then b else a }

  /** (likes*2 + replies*3) / max(views, 1) */
  function EngagementScore(views: real, likes: real, replies: real): real
  {
    (likes * 2.0 + replies * 3.0) / Max(views, 1.0)
  }

  /**
    _parse_forum_topic. Missing fields read as "" (title) or 0 (counts); a
    topic that is not a dictionary, a title that is not a string, or a count
    the comparison or the score cannot use raises inside the function's own
    try block, which turns into None.
   */
  function ParseForumTopic(topic: Value, now: string): (r: Option<WorkflowMetrics>)
    ensures r.Some? ==> topic.Obj? && Get(topic.fields, "title", Text("")) == Text(r.value.workflow)
    ensures r.Some? ==> MentionsKeyword(r.value.workflow)
    ensures r.Some? ==> var views := Number(Get(topic.fields, "views", Int(0)));
      views.Some? && views.value >= MinViews
    ensures topic.Obj? && "views" !in topic.fields ==> r.None?
    ensures r.Some? ==>
      r.value.platform == "Forum" && r.value.country == "Global" && r.value.lastUpdated == Some(now)
    ensures r.Some? ==> var m := r.value.popularityMetrics;
      m.Keys == {"views", "likes", "replies", "posts_count", "engagement_score"} &&
      m["views"] == Get(topic.fields, "views", Int(0)) &&
      m["likes"] == Get(topic.fields, "like_count", Int(0)) &&
      m["replies"] == Get(topic.fields, "reply_count", Int(0)) &&
      m["posts_count"] == Get(topic.fields, "posts_count", Int(0)) &&
      Number(m["views"]).Some? && Number(m["likes"]).Some? && Number(m["replies"]).Some? &&
      m["engagement_score"] ==
        Real(EngagementScore(Number(m["views"]).value, Number(m["likes"]).value, Number(m["replies"]).value))
  {
    if !topic.Obj? then None
    else
      var title := Get(topic.fields, "title", Text(""));
      var views := Get(topic.fields, "views", Int(0));
      var likes := Get(topic.fields, "like_count", Int(0));
      var replies := Get(topic.fields, "reply_count", Int(0));
      var postsCount := Get(topic.fields, "posts_count", Int(0));
      if !title.Text? || !MentionsKeyword(title.s) then None
      else if Number(views).None? || Number(views).value < MinViews then None
      else if Number(likes).None? || Number(replies).None? then None
      else
        Some(WorkflowMetrics(
          title.s,
          "Forum",
          map[
            "views" := views,
            "likes" := likes,
            "replies" := replies,
            "posts_count" := postsCount,
            "engagement_score" := Real(EngagementScore(Number(views).value, Number(likes).value, Number(replies).value))
          ],
          "Global",
          Some(now)))
  }

  /** The converse of the filter: a topic with a keyword title, enough views and numeric counts is kept. */
  lemma ParseForumTopicAccepts(topic: Value, now: string)
    requires topic.Obj?
    requires Get(topic.fields, "title", Text("")).Text?
    requires MentionsKeyword(Get(topic.fields, "title", Text("")).s)
    requires Number(Get(topic.fields, "views", Int(0))).Some?
    requires Number(Get(topic.fields, "views", Int(0))).value >= MinViews
    requires Number(Get(topic.fields, "like_count", Int(0))).Some?
    requires Number(Get(topic.fields, "reply_count", Int(0))).Some?
    ensures ParseForumTopic(topic, now).Some?
  {
  }

  /** With at least 50 views, max(views, 1) is the view count itself. */
  lemma EngagementOverViews(views: real, likes: real, replies: real)
    requires views >= MinViews
    ensures EngagementScore(views, likes, replies) == (likes * 2.0 + replies * 3.0) / views
  {
  }

  /**
    The topics `data.get('topic_list', {}).get('topics', [])` hands to the
    loop; None where that raises. A dictionary or a string in place of the
    list yields strings only, and the parser makes nothing of a string, so
    those count as no topics.
   */
  function FeedTopics(body: Value): (r: Option<seq<Value>>)
    ensures r.Some? ==> body.Obj? && Get(body.fields, "topic_list", Obj(map[])).Obj?
    ensures r.Some? ==> var topics := Get(Get(body.fields, "topic_list", Obj(map[])).fields, "topics", List([]));
      (topics.List? && r.value == topics.items) || ((topics.Obj? || topics.Text?) && r.value == [])
    ensures (body.Obj? && Get(body.fields, "topic_list", Obj(map[])).Obj? &&
             Get(Get(body.fields, "topic_list", Obj(map[])).fields, "topics", List([])).List?) ==> r.Some?
    ensures body.Obj? && "topic_list" !in body.fields ==> r == Some([])
  {
    if !body.Obj? then None
    else
      var topicList := Get(body.fields, "topic_list", Obj(map[]));
      if !topicList.Obj? then None
      else
        match Get(topicList.fields, "topics", List([]))
        case List(items) => Some(items)
        case Obj(_) => Some([])
        case Text(_) => Some([])
        case _ => None
  }

  /** The parser turns a string into nothing (str has no .get), which FeedTopics relies on. */
  lemma ParseForumTopicString(s: string, now: string)
    ensures ParseForumTopic(Text(s), now) == None
  {
  }

  /** One feed's topics: None when its request raised (the rest of the try block is skipped), none unless the status is 200. */
  function FeedItems(reply: HttpReply): (r: Option<seq<Value>>)
    ensures reply.Raised? ==> r.None?
    ensures reply.Response? && reply.status != 200 ==> r == Some([])
    ensures reply.Response? && reply.status == 200 ==> r == FeedTopics(reply.body)
  {
    match reply
    case Raised => None
    case Response(status, body) => if status != 200 then Some([]) else FeedTopics(body)
  }

  /** The records the topics yield in order; topic i is parsed at time clock(i). */
  function ParseAll(topics: seq<Value>, clock: nat -> string): (rs: seq<WorkflowMetrics>)
    ensures |rs| <= |topics|
    ensures forall w :: w in rs ==> w.platform == "Forum" && w.country == "Global"
    ensures forall w :: w in rs ==> exists i :: 0 <= i < |topics| && w.lastUpdated == Some(clock(i))
  {
    if topics == [] then []
    else
      var n := |topics| - 1;
      var rest := ParseAll(topics[..n], clock);
      match ParseForumTopic(topics[n], clock(n))
      case Some(w) => rest + [w]
      case None => rest
  }

  /** `workflow in workflows`: some collected record is equal to it under the dataclass's __eq__. */
  predicate Present(ws: seq<WorkflowMetrics>, w: WorkflowMetrics)
  {
    exists p :: p in ws && SameRecord(p, w)
  }

  /** `if workflow and workflow not in workflows: workflows.append(workflow)`, for each record in turn. */
  function AppendNew(acc: seq<WorkflowMetrics>, recs: seq<WorkflowMetrics>): (r: seq<WorkflowMetrics>)
    ensures acc <= r
    ensures forall w :: w in r ==> w in acc || w in recs
    ensures forall w :: w in recs ==> Present(r, w)
    ensures forall j :: |acc| <= j < |r| ==> !Present(r[..j], r[j])
  {
    if recs == [] then acc
    else
      var init := recs[..|recs| - 1];
      var prev := AppendNew(acc, init);
      var w := recs[|recs| - 1];
      assert recs == init + [w];
      assert forall x :: x in recs <==> x in init || x == w;
      if Present(prev, w) then prev
      else
        AppendFresh(acc, prev, w);
        prev + [w]
  }

  /** Appending a record no earlier one equals keeps the tail free of repeats, and everything present stays present. */
  lemma AppendFresh(acc: seq<WorkflowMetrics>, prev: seq<WorkflowMetrics>, w: WorkflowMetrics)
    requires acc <= prev && !Present(prev, w)
    requires forall j :: |acc| <= j < |prev| ==> !Present(prev[..j], prev[j])
    ensures forall x :: Present(prev, x) ==> Present(prev + [w], x)
    ensures Present(prev + [w], w)
    ensures acc <= prev + [w]
    ensures forall x :: x in prev + [w] <==> x in prev || x == w
    ensures forall j :: |acc| <= j < |prev + [w]| ==> !Present((prev + [w])[..j], (prev + [w])[j])
  {
    PresentAppend(prev, w);
    var next := prev + [w];
    forall j | |acc| <= j < |next|
      ensures !Present(next[..j], next[j])
    {
      if j < |prev| {
        assert next[..j] == prev[..j] && next[j] == prev[j];
      } else {
        assert next[..j] == prev;
      }
    }
  }

  /** What is present stays present when a record is appended, and the appended record is present. */
  lemma PresentAppend(prev: seq<WorkflowMetrics>, w: WorkflowMetrics)
    ensures forall x :: Present(prev, x) ==> Present(prev + [w], x)
    ensures Present(prev + [w], w)
    ensures forall x :: x in prev + [w] <==> x in prev || x == w
  {
    var next := prev + [w];
    SameRecordReflexive(w);
    assert w in next;
    forall x | Present(prev, x)
      ensures Present(next, x)
    {
      var p :| p in prev && SameRecord(p, x);
      assert p in next;
    }
  }


  /** A latest record that equals a collected one under __eq__ is dropped, even where the two differ as values (100 and 100.0). */
  lemma EqualRecordDropped(a: WorkflowMetrics, b: WorkflowMetrics)
    requires SameRecord(a, b)
    ensures AppendNew([a], [b]) == [a]
  {
    assert [b][..0] == [];
    assert a in [a];
  }

  /** collect_popular_topics, in terms of what each feed returned. */
  function Collected(top: HttpReply, latest: HttpReply, topClock: nat -> string, latestClock: nat -> string): (ws: seq<WorkflowMetrics>)
    ensures FeedItems(top).None? ==> ws == []
  {
    match FeedItems(top)
    case None => []
    case Some(topTopics) =>
      var first := ParseAll(topTopics, topClock);
      match FeedItems(latest)
      case None => first
      case Some(latestTopics) => AppendNew(first, ParseAll(latestTopics, latestClock))
  }

  /** The records of the top feed, all of them and in order. */
  function TopRecords(top: HttpReply, topClock: nat -> string): seq<WorkflowMetrics>
  {
    match FeedItems(top)
    case None => []
    case Some(topTopics) => ParseAll(topTopics, topClock)
  }

  /**
    What the feeds make of the result: every record is a Forum/Global one, the
    top feed's records come first without any deduplication, no later record
    equals an earlier one, a failed top request means nothing at all, and a
    failed latest request leaves the top feed's records alone.
   */
  lemma CollectedShape(top: HttpReply, latest: HttpReply, topClock: nat -> string, latestClock: nat -> string)
    ensures var ws := Collected(top, latest, topClock, latestClock);
      (forall w :: w in ws ==> w.platform == "Forum" && w.country == "Global") &&
      TopRecords(top, topClock) <= ws &&
      (forall j :: |TopRecords(top, topClock)| <= j < |ws| ==> !Present(ws[..j], ws[j])) &&
      (top.Raised? ==> ws == []) &&
      (FeedItems(top).Some? && FeedItems(latest).None? ==> ws == TopRecords(top, topClock)) &&
      (forall w :: w in ws ==>
        w in TopRecords(top, topClock) || (FeedItems(latest).Some? && w in ParseAll(FeedItems(latest).value, latestClock)))
  {
    var ws := Collected(top, latest, topClock, latestClock);
    if FeedItems(top).Some? && FeedItems(latest).Some? {
      var first := ParseAll(FeedItems(top).value, topClock);
      var second := ParseAll(FeedItems(latest).value, latestClock);
      assert forall w :: w in ws ==> w in first || w in second;
    }
  }

  /** Every record of the latest feed is kept unless an equal one was collected. */
  lemma CollectedKeepsLatest(top: HttpReply, latest: HttpReply, topClock: nat -> string, latestClock: nat -> string)
    requires FeedItems(top).Some? && FeedItems(latest).Some?
    ensures forall w :: w in ParseAll(FeedItems(latest).value, latestClock) ==> Present(Collected(top, latest, topClock, latestClock), w)
  {
  }

  predicate StampsDistinct(ws: seq<WorkflowMetrics>)
  {
    forall a, b :: 0 <= a < b < |ws| ==> ws[a].lastUpdated != ws[b].lastUpdated
  }

  /** With pairwise distinct timestamps, no record equals an earlier one, so nothing is dropped. */
  lemma {:induction false} AppendNewDistinct(acc: seq<WorkflowMetrics>, recs: seq<WorkflowMetrics>)
    requires StampsDistinct(acc + recs)
    ensures AppendNew(acc, recs) == acc + recs
  {
    if recs != [] {
      var init := recs[..|recs| - 1];
      var w := recs[|recs| - 1];
      assert acc + recs == (acc + init) + [w];
      assert StampsDistinct(acc + init) by {
        forall a, b | 0 <= a < b < |acc + init|
          ensures (acc + init)[a].lastUpdated != (acc + init)[b].lastUpdated
        {
          assert (acc + init)[a] == (acc + recs)[a] && (acc + init)[b] == (acc + recs)[b];
        }
      }
      AppendNewDistinct(acc, init);
      forall a | 0 <= a < |acc + init|
        ensures (acc + init)[a].lastUpdated != w.lastUpdated
      {
        assert (acc + init)[a] == (acc + recs)[a];
        assert (acc + recs)[|acc + recs| - 1] == w;
      }
      assert !Present(acc + init, w);
    }
  }

  /** With an injective clock, the records of one feed carry pairwise distinct timestamps. */
  lemma {:induction false} ParseAllDistinct(topics: seq<Value>, clock: nat -> string)
    requires forall i, j :: 0 <= i < j < |topics| ==> clock(i) != clock(j)
    ensures StampsDistinct(ParseAll(topics, clock))
  {
    if topics != [] {
      var n := |topics| - 1;
      var rest := ParseAll(topics[..n], clock);
      ParseAllDistinct(topics[..n], clock);
      var r := ParseForumTopic(topics[n], clock(n));
      if r.Some? {
        var ws := rest + [r.value];
        forall a, b | 0 <= a < b < |ws|
          ensures ws[a].lastUpdated != ws[b].lastUpdated
        {
          assert ws[a] == rest[a];
          if b < |rest| {
            assert ws[b] == rest[b];
          } else {
            assert rest[a] in rest;
          }
        }
      }
    }
  }

  /**
    Deduplication compares timestamps too: when no two parse calls of a run
    share a timestamp, a topic present in both feeds is collected twice and
    the result is the two feeds' records end to end.
   */
  lemma DistinctStampsKeepBoth(top: HttpReply, latest: HttpReply, topClock: nat -> string, latestClock: nat -> string)
    requires FeedItems(top).Some? && FeedItems(latest).Some?
    requires forall i, j :: 0 <= i < j < |FeedItems(top).value| ==> topClock(i) != topClock(j)
    requires forall i, j :: 0 <= i < j < |FeedItems(latest).value| ==> latestClock(i) != latestClock(j)
    requires forall i, j :: topClock(i) != latestClock(j)
    ensures Collected(top, latest, topClock, latestClock) ==
      ParseAll(FeedItems(top).value, topClock) + ParseAll(FeedItems(latest).value, latestClock)
  {
    var first := ParseAll(FeedItems(top).value, topClock);
    var second := ParseAll(FeedItems(latest).value, latestClock);
    ParseAllDistinct(FeedItems(top).value, topClock);
    ParseAllDistinct(FeedItems(latest).value, latestClock);
    forall x, y | x in first && y in second
      ensures x.lastUpdated != y.lastUpdated
    {
      var i :| 0 <= i < |FeedItems(top).value| && x.lastUpdated == Some(topClock(i));
      var j :| 0 <= j < |FeedItems(latest).value| && y.lastUpdated == Some(latestClock(j));
    }
    StampsDistinctJoin(first, second);
    AppendNewDistinct(first, second);
  }

  /** Two runs of distinct timestamps, no stamp shared between them, join into one. */
  lemma StampsDistinctJoin(first: seq<WorkflowMetrics>, second: seq<WorkflowMetrics>)
    requires StampsDistinct(first) && StampsDistinct(second)
    requires forall x, y :: x in first && y in second ==> x.lastUpdated != y.lastUpdated
    ensures StampsDistinct(first + second)
  {
    var all := first + second;
    forall a, b | 0 <= a < b < |all|
      ensures all[a].lastUpdated != all[b].lastUpdated
    {
      if b < |first| {
        assert all[a] == first[a] && all[b] == first[b];
      } else if a >= |first| {
        assert all[a] == second[a - |first|] && all[b] == second[b - |first|];
      } else {
        assert all[a] == first[a] && all[a] in first;
        assert all[b] == second[b - |first|] && all[b] in second;
      }
    }
  }

  /** The loop over the top feed's topics: every topic that parses is appended. */
  method ParseTopFeed(topics: seq<Value>, clock: nat -> string) returns (workflows: seq<WorkflowMetrics>)
    ensures workflows == ParseAll(topics, clock)
  {
    workflows := [];
    var i := 0;
    while i < |topics|
      invariant 0 <= i <= |topics|
      invariant workflows == ParseAll(topics[..i], clock)
    {
      assert topics[..i + 1][..i] == topics[..i];
      var workflow := ParseForumTopic(topics[i], clock(i));
      if workflow.Some? {
        workflows := workflows + [workflow.value];
      }
      i := i + 1;
    }
    assert topics[..i] == topics;
  }

  /** One more topic of the latest feed: its record, if any, is appended unless an equal one is already there. */
  lemma MergeStep(first: seq<WorkflowMetrics>, topics: seq<Value>, j: nat, clock: nat -> string)
    requires j < |topics|
    ensures var prev := AppendNew(first, ParseAll(topics[..j], clock));
      AppendNew(first, ParseAll(topics[..j + 1], clock)) ==
        match ParseForumTopic(topics[j], clock(j))
        case Some(w) => if Present(prev, w) then prev else prev + [w]
        case None => prev
  {
    var parsed := ParseAll(topics[..j], clock);
    assert topics[..j + 1][..j] == topics[..j];
    var r := ParseForumTopic(topics[j], clock(j));
    if r.Some? {
      assert ParseAll(topics[..j + 1], clock) == parsed + [r.value];
      assert (parsed + [r.value])[..|parsed|] == parsed;
    }
  }

  /** The body of the latest feed's loop for topic j: `if workflow and workflow not in workflows`. */
  method MergeTopic(workflows: seq<WorkflowMetrics>, first: seq<WorkflowMetrics>, topics: seq<Value>, j: nat, clock: nat -> string)
    returns (next: seq<WorkflowMetrics>)
    requires j < |topics| && workflows == AppendNew(first, ParseAll(topics[..j], clock))
    ensures next == AppendNew(first, ParseAll(topics[..j + 1], clock))
  {
    MergeStep(first, topics, j, clock);
    next := workflows;
    var workflow := ParseForumTopic(topics[j], clock(j));
    if workflow.Some? && !Present(workflows, workflow.value) {
      next := workflows + [workflow.value];
    }
  }

  /** The loop over the latest feed's topics: a topic that parses is appended unless an equal record is already there. */
  method MergeLatestFeed(first: seq<WorkflowMetrics>, topics: seq<Value>, clock: nat -> string) returns (workflows: seq<WorkflowMetrics>)
    ensures workflows == AppendNew(first, ParseAll(topics, clock))
  {
    workflows := first;
    var j := 0;
    while j < |topics|
      invariant 0 <= j <= |topics|
      invariant workflows == AppendNew(first, ParseAll(topics[..j], clock))
    {
      workflows := MergeTopic(workflows, first, topics, j, clock);
      j := j + 1;
    }
    assert topics[..j] == topics;
  }

  /** collect_popular_topics, given the two feed replies and the clock each parse call reads. */
  method CollectPopularTopics(top: HttpReply, latest: HttpReply, topClock: nat -> string, latestClock: nat -> string)
    returns (workflows: seq<WorkflowMetrics>)
    ensures workflows == Collected(top, latest, topClock, latestClock)
    ensures TopRecords(top, topClock) <= workflows
    ensures forall j :: |TopRecords(top, topClock)| <= j < |workflows| ==> !Present(workflows[..j], workflows[j])
  {
    CollectedShape(top, latest, topClock, latestClock);
    workflows := [];
    var topItems := FeedItems(top);
    if topItems.None? {
      return;
    }
    workflows := ParseTopFeed(topItems.value, topClock);
    var latestItems := FeedItems(latest);
    if latestItems.None? {
      return;
    }
    workflows := MergeLatestFeed(workflows, latestItems.value, latestClock);
  }
}
