/**
  The record every part of the pipeline exchanges: one popularity
  observation of one workflow, on one platform, in one country.
 */
module Schema {
  import opened Wrappers
  import opened Json

  /** popularity_metrics: a source-defined map of JSON values, opaque to the store. */
  type Metrics = map<string, Value>

  /**
    The dataclass WorkflowMetrics; lastUpdated is None when the record was
    built without a timestamp. Dafny's equality on it is structural, which
    is finer than the dataclass's generated __eq__ (SameRecord below).
   */
  datatype WorkflowMetrics = WorkflowMetrics(
    workflow: string,
    platform: string,
    popularityMetrics: Metrics,
    country: string,
    lastUpdated: Option<string>)

  /** WorkflowMetrics(workflow, platform, metrics, country), relying on the default of last_updated. */
  function Create(workflow: string, platform: string, metrics: Metrics, country: string): (r: WorkflowMetrics)
    ensures r.lastUpdated == None
    ensures r.workflow == workflow && r.platform == platform
    ensures r.popularityMetrics == metrics && r.country == country
  {
    WorkflowMetrics(workflow, platform, metrics, country, None)
  }

  const FieldNames: set<string> := {"workflow", "platform", "popularity_metrics", "country", "last_updated"}

  /** to_dict(): dataclasses.asdict, a dictionary with one entry per field. */
  function ToDict(r: WorkflowMetrics): (d: map<string, Value>)
    ensures d.Keys == FieldNames
    ensures d["workflow"] == Text(r.workflow) && d["platform"] == Text(r.platform)
    ensures d["popularity_metrics"] == Obj(r.popularityMetrics) && d["country"] == Text(r.country)
    ensures d["last_updated"] == (if r.lastUpdated.Some? then Text(r.lastUpdated.value) else Null)
  {
    map[
      "workflow" := Text(r.workflow),
      "platform" := Text(r.platform),
      "popularity_metrics" := Obj(r.popularityMetrics),
      "country" := Text(r.country),
      "last_updated" := match r.lastUpdated case Some(s) => Text(s) case None => Null
    ]
  }

  /** Reads a record back from a dictionary shaped like to_dict()'s; None for any other shape. */
  function FromDict(d: map<string, Value>): (r: Option<WorkflowMetrics>)
    ensures r.Some? ==> d.Keys == FieldNames
  {
    if d.Keys == FieldNames && d["workflow"].Text? && d["platform"].Text? &&
       d["popularity_metrics"].Obj? && d["country"].Text? &&
       (d["last_updated"].Text? || d["last_updated"].Null?)
    then
      Some(WorkflowMetrics(
        d["workflow"].s, d["platform"].s, d["popularity_metrics"].fields, d["country"].s,
        if d["last_updated"].Text? then Some(d["last_updated"].s) else None))
    else None
  }

  /** to_dict() loses nothing: FromDict inverts it. */
  lemma FromToDict(r: WorkflowMetrics)
    ensures FromDict(ToDict(r)) == Some(r)
  {
  }

  /** Two records are equal exactly when their dictionaries are, so equality is field-wise equality. */
  lemma ToDictInjective(a: WorkflowMetrics, b: WorkflowMetrics)
    ensures ToDict(a) == ToDict(b) <==> a == b
  {
    if ToDict(a) == ToDict(b) {
      FromToDict(a);
      FromToDict(b);
    }
  }

  /**
    The dataclass's generated __eq__: the five fields compared as a tuple,
    so the metrics dictionaries are compared with Python's `==`.
   */
  predicate SameRecord(a: WorkflowMetrics, b: WorkflowMetrics)
  {
    a.workflow == b.workflow && a.platform == b.platform && a.country == b.country &&
    a.lastUpdated == b.lastUpdated && FieldsEq(a.popularityMetrics, b.popularityMetrics)
  }

  lemma SameRecordReflexive(a: WorkflowMetrics)
    ensures SameRecord(a, a)
  {
    FieldsEqReflexive(a.popularityMetrics);
  }

  /** __eq__ agrees with comparing the to_dict() dictionaries with Python's `==`, and equal records are __eq__. */
  lemma SameRecordAsDicts(a: WorkflowMetrics, b: WorkflowMetrics)
    ensures SameRecord(a, b) <==> FieldsEq(ToDict(a), ToDict(b))
    ensures a == b ==> SameRecord(a, b)
  {
    FieldsEqReflexive(a.popularityMetrics);
    var da, db := ToDict(a), ToDict(b);
    assert PyEq(da["popularity_metrics"], db["popularity_metrics"]) <==>
      FieldsEq(a.popularityMetrics, b.popularityMetrics);
    assert PyEq(da["last_updated"], db["last_updated"]) <==> a.lastUpdated == b.lastUpdated;
    assert FieldsEq(da, db) <==>
      PyEq(da["workflow"], db["workflow"]) && PyEq(da["platform"], db["platform"]) &&
      PyEq(da["popularity_metrics"], db["popularity_metrics"]) && PyEq(da["country"], db["country"]) &&
      PyEq(da["last_updated"], db["last_updated"]);
  }
}
