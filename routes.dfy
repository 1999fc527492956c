/**
  The two read endpoints of the HTTP layer: the /workflows envelope around
  a filtered read, and /workflows/stats, which counts the stored rows by
  platform and by country (grouping on the exact strings, unlike the
  store's case-insensitive filter) and reports the greatest timestamp.
 */
module Routes {
  import opened Wrappers
  import opened Database
  import opened WorkflowService
  import Text

  /** The body of GET /workflows. */
  datatype WorkflowsResponse = WorkflowsResponse(
    totalCount: nat,
    platform: Option<string>,
    country: Option<string>,
    workflows: seq<View>)

  /** get_workflows(platform, country): the store's rows with their count and the filters echoed. */
  method GetWorkflows(service: WorkflowCollectorService, platform: Option<string>, country: Option<string>)
    returns (response: WorkflowsResponse)
    requires service.Valid()
    ensures response.workflows == Select(service.db.rows, platform, country)
    ensures response.totalCount == |response.workflows|
    ensures response.platform == platform && response.country == country
  {
    var workflows := service.GetWorkflowsFromDb(platform, country);
    response := WorkflowsResponse(|workflows|, platform, country, workflows);
  }

  /** The body of GET /workflows/stats. */
  datatype Stats = Stats(
    totalWorkflows: nat,
    byPlatform: map<string, nat>,
    byCountry: map<string, nat>,
    lastUpdated: Option<string>)

  /** `counts[k] = counts.get(k, 0) + 1` */
  function Bump(counts: map<string, nat>, k: string): (r: map<string, nat>)
    ensures r.Keys == counts.Keys + {k}
    ensures r[k] == (if k in counts then counts[k] else 0) + 1
    ensures forall j :: j in counts && j != k ==> r[j] == counts[j]
  {
    counts[k := (if k in counts then counts[k] else 0) + 1]
  }

  /** The counts the loop leaves for the given keys, met in order. */
  function Tally(xs: seq<string>): (counts: map<string, nat>)
    ensures forall k :: k in counts <==> k in xs
    ensures forall k :: k in counts ==> counts[k] == multiset(xs)[k]
  {
    if xs == [] then map[]
    else
      var init := xs[..|xs| - 1];
      assert xs == init + [xs[|xs| - 1]];
      Bump(Tally(init), xs[|xs| - 1])
  }

  lemma TallySnoc(xs: seq<string>, k: string)
    ensures Tally(xs + [k]) == Bump(Tally(xs), k)
  {
    assert (xs + [k])[..|xs|] == xs;
  }

  /** Extending the prefix of the rows by one extends both tallies by one key. */
  lemma PrefixStep(vs: seq<View>, i: nat)
    requires i < |vs|
    ensures Tally(PlatformsOf(vs[..i + 1])) == Bump(Tally(PlatformsOf(vs[..i])), vs[i].platform)
    ensures Tally(CountriesOf(vs[..i + 1])) == Bump(Tally(CountriesOf(vs[..i])), vs[i].country)
  {
    assert vs[..i + 1][..i] == vs[..i];
    TallySnoc(PlatformsOf(vs[..i]), vs[i].platform);
    TallySnoc(CountriesOf(vs[..i]), vs[i].country);
  }

  /** Some key of a non-empty map. */
  ghost function Pick(m: map<string, nat>): (k: string)
    requires m != map[]
    ensures k in m
  {
    var k :| k in m; k
  }

  /** sum(m.values()) */
  ghost function SumValues(m: map<string, nat>): nat
    decreases |m|
  {
    if m == map[] then 0
    else
      var k := Pick(m);
      assert |m - {k}| < |m| by {
        assert m.Keys == (m - {k}).Keys + {k};
      }
      m[k] + SumValues(m - {k})
  }

  /** The sum does not depend on which key is taken out first. */
  lemma {:induction false} SumValuesRemove(m: map<string, nat>, k: string)
    requires k in m
    ensures SumValues(m) == m[k] + SumValues(m - {k})
    decreases |m|
  {
    var j := Pick(m);
    assert |m - {j}| < |m| by {
      assert m.Keys == (m - {j}).Keys + {j};
    }
    if j != k {
      assert |m - {k}| < |m| by {
        assert m.Keys == (m - {k}).Keys + {k};
      }
      SumValuesRemove(m - {j}, k);
      SumValuesRemove(m - {k}, j);
      assert m - {j} - {k} == m - {k} - {j};
    }
  }

  /** One more occurrence of k adds one to the sum. */
  lemma SumValuesBump(m: map<string, nat>, k: string)
    ensures SumValues(Bump(m, k)) == SumValues(m) + 1
  {
    var b := Bump(m, k);
    SumValuesRemove(b, k);
    if k in m {
      SumValuesRemove(m, k);
      assert b - {k} == m - {k};
    } else {
      assert b - {k} == m;
    }
  }

  /** The counts of a tally add up to the number of keys counted. */
  lemma {:induction false} TallySum(xs: seq<string>)
    ensures SumValues(Tally(xs)) == |xs|
  {
    if xs != [] {
      TallySum(xs[..|xs| - 1]);
      SumValuesBump(Tally(xs[..|xs| - 1]), xs[|xs| - 1]);
    }
  }

  function PlatformsOf(vs: seq<View>): (ps: seq<string>)
    ensures |ps| == |vs| && forall i :: 0 <= i < |vs| ==> ps[i] == vs[i].platform
  {
    if vs == [] then [] else PlatformsOf(vs[..|vs| - 1]) + [vs[|vs| - 1].platform]
  }

  function CountriesOf(vs: seq<View>): (cs: seq<string>)
    ensures |cs| == |vs| && forall i :: 0 <= i < |vs| ==> cs[i] == vs[i].country
  {
    if vs == [] then [] else CountriesOf(vs[..|vs| - 1]) + [vs[|vs| - 1].country]
  }

  function TimestampsOf(vs: seq<View>): (ts: seq<string>)
    ensures |ts| == |vs| && forall i :: 0 <= i < |vs| ==> ts[i] == vs[i].lastUpdated
  {
    if vs == [] then [] else TimestampsOf(vs[..|vs| - 1]) + [vs[|vs| - 1].lastUpdated]
  }

  /** Both groupings of the stats count every row exactly once. */
  lemma StatsSums(vs: seq<View>)
    ensures SumValues(Tally(PlatformsOf(vs))) == |vs|
    ensures SumValues(Tally(CountriesOf(vs))) == |vs|
  {
    TallySum(PlatformsOf(vs));
    TallySum(CountriesOf(vs));
  }

  /** m is one of the rows' timestamps and no smaller than any of them. */
  ghost predicate IsLatest(rows: seq<Row>, m: string)
  {
    (exists r :: r in rows && r.lastUpdated == m) &&
    forall r :: r in rows ==> Text.LexLe(r.lastUpdated, m)
  }

  /** The greatest timestamp of the rows' views is the latest timestamp of the rows. */
  lemma LatestTimestamp(rows: seq<Row>)
    requires rows != []
    ensures IsLatest(rows, Text.MaxString(TimestampsOf(Views(rows))))
  {
    var ts := TimestampsOf(Views(rows));
    var m := Text.MaxString(ts);
    var k :| 0 <= k < |ts| && ts[k] == m;
    assert rows[k] in rows && rows[k].lastUpdated == m;
    forall r | r in rows
      ensures Text.LexLe(r.lastUpdated, m)
    {
      var j :| 0 <= j < |rows| && rows[j] == r;
      assert ts[j] in ts;
    }
  }

  /**
    get_workflow_stats: every stored row, counted by its exact platform and
    country; last_updated is the greatest stored timestamp as a string, or
    none when the table is empty.
   */
  method GetWorkflowStats(service: WorkflowCollectorService) returns (stats: Stats)
    requires service.Valid()
    ensures var all := Select(service.db.rows, None, None);
      stats.totalWorkflows == |all| == |service.db.rows| &&
      stats.byPlatform == Tally(PlatformsOf(all)) &&
      stats.byCountry == Tally(CountriesOf(all))
    ensures SumValues(stats.byPlatform) == stats.totalWorkflows
    ensures SumValues(stats.byCountry) == stats.totalWorkflows
    ensures stats.lastUpdated.None? <==> service.db.rows == []
    ensures stats.lastUpdated.Some? ==> IsLatest(service.db.rows, stats.lastUpdated.value)
  {
    var allWorkflows := service.GetWorkflowsFromDb(None, None);
    var lastUpdated := if allWorkflows != [] then Some(Text.MaxString(TimestampsOf(allWorkflows))) else None;
    var byPlatform: map<string, nat> := map[];
    var byCountry: map<string, nat> := map[];

    var i := 0;
    assert allWorkflows[..i] == [];
    while i < |allWorkflows|
      invariant 0 <= i <= |allWorkflows|
      invariant byPlatform == Tally(PlatformsOf(allWorkflows[..i]))
      invariant byCountry == Tally(CountriesOf(allWorkflows[..i]))
    {
      var workflow := allWorkflows[i];
      PrefixStep(allWorkflows, i);
      byPlatform := Bump(byPlatform, workflow.platform);
      byCountry := Bump(byCountry, workflow.country);
      i := i + 1;
    }
    assert allWorkflows[..i] == allWorkflows;
    stats := Stats(|allWorkflows|, byPlatform, byCountry, lastUpdated);
    SelectEverything(service.db.rows, None, None);
    StatsSums(allWorkflows);
    if lastUpdated.Some? {
      LatestTimestamp(service.db.rows);
    }
  }
}
