/**
  The collection orchestrator: every collector is asked in a fixed order
  (video platform for US then IN, the forum once, search interest for US
  then IN), each call absorbing its own failure; the per-platform results
  are then flattened and saved in one batch, unless there is nothing to
  save.
 */
module WorkflowService {
  import opened Wrappers
  import opened Schema
  import opened Database

  /** What one collector call ends in: the records it returned, or an exception. */
  datatype Attempt = Returned(records: seq<WorkflowMetrics>) | Raised

  /** The try/except around each call: an exception contributes no record. */
  function Absorbed(a: Attempt): (rs: seq<WorkflowMetrics>)
    ensures a.Raised? ==> rs == []
    ensures a.Returned? ==> rs == a.records
  {
    match a
    case Returned(records) => records
    case Raised => []
  }

  const Countries: seq<string> := ["US", "IN"]

  /** One entry of the all_workflows dictionary, in insertion order. */
  datatype Entry = Entry(platform: string, workflows: seq<WorkflowMetrics>)

  /** The records one collector yields over the countries, country by country. */
  function PerCountry(collect: string -> Attempt, countries: seq<string>): seq<WorkflowMetrics>
  {
    if countries == [] then []
    else PerCountry(collect, countries[..|countries| - 1]) + Absorbed(collect(countries[|countries| - 1]))
  }

  /** The records of the country loop are exactly those that some country's call returned. */
  lemma {:induction false} PerCountryMembers(collect: string -> Attempt, countries: seq<string>)
    ensures forall w :: w in PerCountry(collect, countries) <==>
      exists i :: 0 <= i < |countries| && w in Absorbed(collect(countries[i]))
  {
    if countries != [] {
      var init := countries[..|countries| - 1];
      PerCountryMembers(collect, init);
      assert forall i :: 0 <= i < |init| ==> init[i] == countries[i];
    }
  }

  /** The dictionary collect_all_workflows returns, given what each collector call ends in. */
  function Expected(youtube: string -> Attempt, forum: Attempt, trends: string -> Attempt): (all: seq<Entry>)
    ensures |all| == 3
    ensures all[0].platform == "YouTube" && all[1].platform == "Forum" && all[2].platform == "Google"
    ensures all[0].workflows == Absorbed(youtube("US")) + Absorbed(youtube("IN"))
    ensures all[1].workflows == Absorbed(forum)
    ensures all[2].workflows == Absorbed(trends("US")) + Absorbed(trends("IN"))
  {
    assert Countries[..1] == ["US"] && ["US"][..0] == [];
    [Entry("YouTube", PerCountry(youtube, Countries)),
     Entry("Forum", Absorbed(forum)),
     Entry("Google", PerCountry(trends, Countries))]
  }

  /** The concatenation of the entries' records, in dictionary order. */
  function Flatten(all: seq<Entry>): seq<WorkflowMetrics>
  {
    if all == [] then [] else Flatten(all[..|all| - 1]) + all[|all| - 1].workflows
  }

  /** The flattened list holds exactly the records of the entries. */
  lemma {:induction false} FlattenMembers(all: seq<Entry>)
    ensures forall w :: w in Flatten(all) <==> exists i :: 0 <= i < |all| && w in all[i].workflows
  {
    if all != [] {
      var init := all[..|all| - 1];
      FlattenMembers(init);
      assert forall i :: 0 <= i < |init| ==> init[i] == all[i];
    }
  }

  /** Three entries flatten to their records end to end. */
  lemma FlattenThree(all: seq<Entry>)
    requires |all| == 3
    ensures Flatten(all) == all[0].workflows + all[1].workflows + all[2].workflows
  {
    assert all[..2][..1] == all[..1] && all[..1][..0] == [];
    assert Flatten(all[..1]) == [] + all[0].workflows == all[0].workflows;
    assert Flatten(all[..2]) == all[0].workflows + all[1].workflows;
  }

  /** The batch handed to the store: the video records, then the forum's, then the search-interest ones. */
  lemma FlattenExpected(youtube: string -> Attempt, forum: Attempt, trends: string -> Attempt)
    ensures Flatten(Expected(youtube, forum, trends)) ==
      Absorbed(youtube("US")) + Absorbed(youtube("IN")) + Absorbed(forum) +
      Absorbed(trends("US")) + Absorbed(trends("IN"))
  {
    FlattenThree(Expected(youtube, forum, trends));
  }

  /**
    Two videos for US, one for IN, three forum topics and nothing from
    search interest: the dictionary holds 3, 3 and 0 records and six are saved.
   */
  lemma EndToEndCounts(youtube: string -> Attempt, forum: Attempt, trends: string -> Attempt)
    requires youtube("US").Returned? && |youtube("US").records| == 2
    requires youtube("IN").Returned? && |youtube("IN").records| == 1
    requires forum.Returned? && |forum.records| == 3
    requires Absorbed(trends("US")) == [] && Absorbed(trends("IN")) == []
    ensures var all := Expected(youtube, forum, trends);
      |all[0].workflows| == 3 && |all[1].workflows| == 3 && |all[2].workflows| == 0 &&
      |Flatten(all)| == 6
  {
    FlattenExpected(youtube, forum, trends);
  }

  /** `for country in countries: try: records.extend(collect(country))`, an exception skipping that country. */
  method ExtendPerCountry(records: seq<WorkflowMetrics>, collect: string -> Attempt, countries: seq<string>)
    returns (extended: seq<WorkflowMetrics>)
    ensures extended == records + PerCountry(collect, countries)
  {
    extended := records;
    var i := 0;
    while i < |countries|
      invariant 0 <= i <= |countries|
      invariant extended == records + PerCountry(collect, countries[..i])
    {
      assert countries[..i + 1][..i] == countries[..i];
      var found := Absorbed(collect(countries[i]));
      extended := extended + found;
      i := i + 1;
    }
    assert countries[..i] == countries;
  }

  /** The loop joining the entries' records into the one list that is saved. */
  method FlattenEntries(all: seq<Entry>) returns (list: seq<WorkflowMetrics>)
    ensures list == Flatten(all)
  {
    list := [];
    var j := 0;
    while j < |all|
      invariant 0 <= j <= |all|
      invariant list == Flatten(all[..j])
    {
      assert all[..j + 1][..j] == all[..j];
      list := list + all[j].workflows;
      j := j + 1;
    }
    assert all[..j] == all;
  }

  /** WorkflowCollectorService: the collectors are the parameters of each run; the store is its own. */
  class WorkflowCollectorService {
    const db: DatabaseManager

    ghost predicate Valid()
      reads this, db
    {
      db.Valid() && db.tableExists
    }

    /** The service over a store on the given database file. */
    constructor (file: Option<Table>)
      requires file.Some? ==> WellFormed(file.value)
      ensures Valid() && fresh(db)
      ensures db.State() == (if file.Some? then file.value else FreshTable) && db.batches == []
    {
      db := new DatabaseManager(file);
    }

    /**
      collect_all_workflows. Every collector call has its own try block, so
      the run never raises; the joined batch is saved once, stamped `now`,
      and only if it holds a record.
     */
    method CollectAllWorkflows(youtube: string -> Attempt, forum: Attempt, trends: string -> Attempt, now: string)
      returns (all: seq<Entry>)
      requires Valid()
      modifies db
      ensures Valid()
      ensures all == Expected(youtube, forum, trends)
      ensures Flatten(all) != [] ==>
        db.State() == SaveAll(old(db.State()), Flatten(all), now) && db.batches == old(db.batches) + [Flatten(all)]
      ensures Flatten(all) == [] ==> db.State() == old(db.State()) && db.batches == old(db.batches)
    {
      all := [Entry("YouTube", []), Entry("Forum", []), Entry("Google", [])];

      var youtubeRecords := ExtendPerCountry(all[0].workflows, youtube, Countries);
      all := all[0 := Entry("YouTube", youtubeRecords)];
      all := all[1 := Entry("Forum", all[1].workflows + Absorbed(forum))];
      var trendsRecords := ExtendPerCountry(all[2].workflows, trends, Countries);
      all := all[2 := Entry("Google", trendsRecords)];
      assert [] + Absorbed(forum) == Absorbed(forum);

      ghost var expected := Expected(youtube, forum, trends);
      assert all == expected by {
        assert Countries[..1] == ["US"] && ["US"][..0] == [];
        assert all[0] == expected[0] && all[1] == expected[1] && all[2] == expected[2];
      }
      var allWorkflowList := FlattenEntries(all);

      if allWorkflowList != [] {
        db.SaveWorkflows(allWorkflowList, now);
      }
    }

    /** get_workflows_from_db(platform, country): the store's answer, unchanged. */
    method GetWorkflowsFromDb(platform: Option<string>, country: Option<string>) returns (results: seq<View>)
      requires Valid()
      ensures results == Select(db.rows, platform, country)
    {
      results := db.GetWorkflows(platform, country);
    }
  }
}
