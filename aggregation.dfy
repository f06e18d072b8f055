/**
 * The aggregation helpers of utils.py at the level of column names:
 * `agrupar` (group and aggregate under prefixed names) and the default-column
 * rule of `obter_qtd_ausentes` and `obter_qtd_distintos`.
 */
module Aggregation {
  import opened Results
  import opened Frame

  /** `[f"{prefix}{c}" for c in names]` */
  function Prefixed(prefix: string, names: seq<string>): (r: seq<string>)
    ensures |r| == |names|
    ensures forall i :: 0 <= i < |names| ==> r[i] == prefix + names[i]
  {
    if names == [] then [] else [prefix + names[0]] + Prefixed(prefix, names[1..])
  }

  /** An optional list argument: `None` counts as the empty list. */
  function OrEmpty(l: Option<seq<string>>): (r: seq<string>)
    ensures l.None? ==> r == []
    ensures l.Some? ==> r == l.value
  {
    l.GetOr([])
  }

  /**
   * The names of the aggregate columns: the counts, then the sums, then the
   * maxima, then the minima, each group in its list's order.
   */
  function AggregateNames(counted: seq<string>, summed: seq<string>,
                          maxed: seq<string>, mined: seq<string>): (r: seq<string>)
    ensures |r| == |counted| + |summed| + |maxed| + |mined|
    ensures forall i :: 0 <= i < |counted| ==> r[i] == "cont_" + counted[i]
    ensures forall i :: 0 <= i < |summed| ==> r[|counted| + i] == "soma_" + summed[i]
    ensures forall i :: 0 <= i < |maxed| ==> r[|counted| + |summed| + i] == "max_" + maxed[i]
    ensures forall i :: 0 <= i < |mined| ==>
              r[|counted| + |summed| + |maxed| + i] == "min_" + mined[i]
  {
    Prefixed("cont_", counted) + Prefixed("soma_", summed)
    + Prefixed("max_", maxed) + Prefixed("min_", mined)
  }

  /** Every aggregate list of `agrupar` is empty or missing. */
  predicate NoAggregates(counted: Option<seq<string>>, summed: Option<seq<string>>,
                         maxed: Option<seq<string>>, mined: Option<seq<string>>) {
    OrEmpty(counted) == [] && OrEmpty(summed) == [] && OrEmpty(maxed) == [] && OrEmpty(mined) == []
  }

  /**
   * `agrupar`: `df.groupBy(keys).agg(...)` with a count, a sum, a maximum and
   * a minimum per column of the respective lists. The engine refuses an
   * aggregation without aggregate expressions before it resolves any name;
   * otherwise the grouping keys and every aggregated column must resolve, and
   * the output holds the keys followed by the aggregate columns.
   */
  function Aggregate(schema: Columns, keys: seq<string>,
                     counted: Option<seq<string>>, summed: Option<seq<string>>,
                     maxed: Option<seq<string>>, mined: Option<seq<string>>): (r: Result<Columns, Error>)
    ensures r == Err(EmptyAggregation) <==> NoAggregates(counted, summed, maxed, mined)
    ensures r.Ok? <==> !NoAggregates(counted, summed, maxed, mined)
                       && AllResolve(schema, keys + OrEmpty(counted) + OrEmpty(summed)
                                             + OrEmpty(maxed) + OrEmpty(mined))
    ensures r.Ok? ==> |keys| <= |r.value| && r.value[..|keys|] == keys
    ensures r.Ok? ==> r.value[|keys|..]
                      == AggregateNames(OrEmpty(counted), OrEmpty(summed), OrEmpty(maxed), OrEmpty(mined))
  {
    var c, s, mx, mn := OrEmpty(counted), OrEmpty(summed), OrEmpty(maxed), OrEmpty(mined);
    var aggs := AggregateNames(c, s, mx, mn);
    if aggs == [] then Err(EmptyAggregation)
    else
      var resolved := Select(schema, keys + c + s + mx + mn);
      if resolved.Err? then Err(resolved.error)
      else
        assert (keys + aggs)[..|keys|] == keys && (keys + aggs)[|keys|..] == aggs;
        Ok(keys + aggs)
  }

  /** Passing `None` for a list is the same as passing the empty list. */
  lemma AggregateNoneIsEmpty(schema: Columns, keys: seq<string>,
                             counted: Option<seq<string>>, summed: Option<seq<string>>,
                             maxed: Option<seq<string>>, mined: Option<seq<string>>)
    ensures Aggregate(schema, keys, counted, summed, maxed, mined)
         == Aggregate(schema, keys, Some(OrEmpty(counted)), Some(OrEmpty(summed)),
                      Some(OrEmpty(maxed)), Some(OrEmpty(mined)))
  {
  }

  /**
   * `obter_qtd_ausentes` and `obter_qtd_distintos`: one aggregate per listed
   * column, named after that column; with no list, every column of the
   * dataframe is listed.
   */
  function CountPerColumn(schema: Columns, listed: Option<seq<string>>): (r: Result<Columns, Error>)
    ensures listed.None? ==> (r.Ok? <==> schema != [] && NoDuplicates(schema))
    ensures listed.None? && r.Ok? ==> r.value == schema
    ensures listed.Some? ==> (r.Ok? <==> listed.value != [] && AllResolve(schema, listed.value))
    ensures listed.Some? && r.Ok? ==> r.value == listed.value
    ensures r.Err? ==> (r.error == EmptyAggregation <==> (if listed.None? then schema else listed.value) == [])
  {
    var cols := if listed.None? then schema else listed.value;
    SelfResolveIff(schema);
    if cols == [] then Err(EmptyAggregation)
    else
      var r := Select(schema, cols);
      if r.Err? then
        var i :| 0 <= i < |cols| && AllResolve(schema, cols[..i]) && Resolve(schema, cols[i]) == Err(r.error);
        r
      else r
  }

  /** `obter_qtd_ausentes`: the null count of each listed column, under that column's name. */
  function CountMissing(schema: Columns, listed: Option<seq<string>>): (r: Result<Columns, Error>)
    ensures r.Ok? ==> r.value == listed.GetOr(schema)
    ensures listed.None? ==> (r.Ok? <==> schema != [] && NoDuplicates(schema))
  {
    CountPerColumn(schema, listed)
  }

  /** `obter_qtd_distintos`: the distinct count of each listed column, under that column's name. */
  function CountDistinct(schema: Columns, listed: Option<seq<string>>): (r: Result<Columns, Error>)
    ensures r.Ok? ==> r.value == listed.GetOr(schema)
    ensures listed.None? ==> (r.Ok? <==> schema != [] && NoDuplicates(schema))
  {
    CountPerColumn(schema, listed)
  }
}
