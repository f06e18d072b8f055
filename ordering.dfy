/**
 * `orderBy_dict` of utils.py: validates every sort direction of a dict of
 * column to direction, then sorts by one key per entry, in dict order.
 */
module Ordering {
  import opened Results
  import opened Frame
  import opened Dicts

  datatype Direction = Ascending | Descending

  /** One sort key: `asc(col(column))` or `desc(col(column))`. */
  datatype SortKey = SortKey(column: string, direction: Direction)

  /** A sorted dataframe: its (unchanged) columns and the keys it is sorted by. */
  datatype Sorted = Sorted(columns: Columns, keys: seq<SortKey>)

  /** The only directions the validation loop accepts. */
  predicate ValidOrder(order: string) {
    order == "asc" || order == "desc"
  }

  /** The position of the first entry whose direction is rejected, if any. */
  function FirstInvalidOrder(d: Dictionary): (r: Option<nat>)
    ensures r.None? <==> forall i :: 0 <= i < |d| ==> ValidOrder(d[i].1)
    ensures r.Some? ==> r.value < |d| && !ValidOrder(d[r.value].1)
    ensures r.Some? ==> forall k :: 0 <= k < r.value ==> ValidOrder(d[k].1)
  {
    if d == [] then None
    else if !ValidOrder(d[0].1) then Some(0)
    else
      match FirstInvalidOrder(d[1..])
      case None => None
      case Some(k) => Some(k + 1)
  }

  /**
   * The sort key the list comprehension builds for one entry, as written:
   * the "desc" branch builds an ascending key too, and `None` is left for a
   * direction that the validation has already rejected.
   */
  function SortKeyAsWritten(column: string, order: string): (r: Option<SortKey>)
    ensures r.Some? <==> ValidOrder(order)
    ensures r.Some? ==> r.value == SortKey(column, Ascending)
  {
    if order == "asc" then Some(SortKey(column, Ascending))
    else if order == "desc" then Some(SortKey(column, Ascending))
    else None
  }

  /** The sort key the docstring's example `{'coluna2': 'desc'}` calls for. */
  function IntendedSortKey(column: string, order: string): (r: Option<SortKey>)
    ensures r.Some? <==> ValidOrder(order)
    ensures r.Some? ==> r.value.column == column
    ensures r.Some? ==> (r.value.direction == Descending <==> order == "desc")
  {
    if order == "asc" then Some(SortKey(column, Ascending))
    else if order == "desc" then Some(SortKey(column, Descending))
    else None
  }

  /** The keys built for a dict whose directions all passed the validation, as written. */
  function AsWrittenKeys(d: Dictionary): (r: seq<SortKey>)
    requires forall i :: 0 <= i < |d| ==> ValidOrder(d[i].1)
    ensures |r| == |d|
    ensures forall i :: 0 <= i < |d| ==> r[i] == SortKey(d[i].0, Ascending)
  {
    seq(|d|, i requires 0 <= i < |d| => SortKeyAsWritten(d[i].0, d[i].1).value)
  }

  /** The keys the corrected comprehension builds. */
  function IntendedKeys(d: Dictionary): (r: seq<SortKey>)
    requires forall i :: 0 <= i < |d| ==> ValidOrder(d[i].1)
    ensures |r| == |d|
    ensures forall i :: 0 <= i < |d| ==>
              r[i].column == d[i].0 && (r[i].direction == Descending <==> d[i].1 == "desc")
  {
    seq(|d|, i requires 0 <= i < |d| => IntendedSortKey(d[i].0, d[i].1).value)
  }

  /** `orderBy_dict` as written, as a function of its arguments. */
  function OrderByAsWritten(schema: Columns, d: Dictionary): (r: Result<Sorted, Error>)
    ensures r.Ok? <==> (forall i :: 0 <= i < |d| ==> ValidOrder(d[i].1)) && AllResolve(schema, Keys(d))
    ensures r.Ok? ==> r.value.columns == schema && |r.value.keys| == |d|
    ensures r.Ok? ==> forall i :: 0 <= i < |d| ==> r.value.keys[i] == SortKey(d[i].0, Ascending)
  {
    match FirstInvalidOrder(d)
    case Some(i) => Err(InvalidOrder(d[i].1))
    case None =>
      match Select(schema, Keys(d))
      case Err(e) => Err(e)
      case Ok(_) => Ok(Sorted(schema, AsWrittenKeys(d)))
  }

  /** `orderBy_dict` with the "desc" branch building a descending key. */
  function OrderByIntended(schema: Columns, d: Dictionary): (r: Result<Sorted, Error>)
    ensures r.Ok? <==> (forall i :: 0 <= i < |d| ==> ValidOrder(d[i].1)) && AllResolve(schema, Keys(d))
    ensures r.Ok? ==> r.value.columns == schema && |r.value.keys| == |d|
    ensures r.Ok? ==> forall i :: 0 <= i < |d| ==>
              r.value.keys[i].column == d[i].0 && (r.value.keys[i].direction == Descending <==> d[i].1 == "desc")
  {
    match FirstInvalidOrder(d)
    case Some(i) => Err(InvalidOrder(d[i].1))
    case None =>
      match Select(schema, Keys(d))
      case Err(e) => Err(e)
      case Ok(_) => Ok(Sorted(schema, IntendedKeys(d)))
  }

  /**
   * `orderBy_dict`: a loop that raises ValueError at the first direction other
   * than "asc" or "desc", then one sort key per entry, in dict order.
   */
  method OrderByDict(schema: Columns, d: Dictionary) returns (r: Result<Sorted, Error>)
    ensures r.Ok? <==> (forall i :: 0 <= i < |d| ==> ValidOrder(d[i].1)) && AllResolve(schema, Keys(d))
    ensures r.Ok? ==> r.value.columns == schema && |r.value.keys| == |d|
    ensures r.Ok? ==> forall i :: 0 <= i < |d| ==> r.value.keys[i] == SortKey(d[i].0, Ascending)
    ensures r == OrderByAsWritten(schema, d)
  {
    var i := 0;
    while i < |d|
      invariant 0 <= i <= |d|
      invariant forall k :: 0 <= k < i ==> ValidOrder(d[k].1)
    {
      var order := d[i].1;
      if order != "asc" && order != "desc" {
        assert FirstInvalidOrder(d) == Some(i);
        return Err(InvalidOrder(order));
      }
      i := i + 1;
    }
    var keys: seq<SortKey> := [];
    for j := 0 to |d|
      invariant keys == AsWrittenKeys(d)[..j]
    {
      var key := SortKeyAsWritten(d[j].0, d[j].1);
      keys := keys + [key.value];
    }
    assert keys == AsWrittenKeys(d);
    match Select(schema, Keys(d))
    case Err(e) =>
      r := Err(e);
    case Ok(_) =>
      r := Ok(Sorted(schema, keys));
  }

  /** When some direction is rejected, the first rejected one is reported, whatever the schema. */
  lemma ValidationComesFirst(schema: Columns, d: Dictionary, i: nat)
    requires i < |d| && !ValidOrder(d[i].1)
    requires forall k :: 0 <= k < i ==> ValidOrder(d[k].1)
    ensures OrderByAsWritten(schema, d) == Err(InvalidOrder(d[i].1))
  {
    var f := FirstInvalidOrder(d);
    assert f.Some?;
    assert f.value == i by {
      assert !(f.value < i);
    }
  }

  /**
   * The correction succeeds exactly where the code as written does, and it
   * changes exactly the keys of the entries marked "desc": each of them
   * becomes the descending key on the same column.
   */
  lemma IntendedDirections(schema: Columns, d: Dictionary)
    requires OrderByAsWritten(schema, d).Ok?
    ensures OrderByIntended(schema, d).Ok?
    ensures forall i :: 0 <= i < |d| ==>
              (OrderByIntended(schema, d).value.keys[i] == OrderByAsWritten(schema, d).value.keys[i] <==> d[i].1 == "asc")
    ensures forall i :: 0 <= i < |d| && d[i].1 == "desc" ==>
              OrderByIntended(schema, d).value.keys[i] == SortKey(d[i].0, Descending)
  {
  }

  /**
   * The code as written agrees with the corrected version on a dict exactly
   * when no entry asks for "desc".
   */
  lemma AsWrittenAgreesIff(schema: Columns, d: Dictionary)
    requires OrderByAsWritten(schema, d).Ok?
    ensures OrderByAsWritten(schema, d) == OrderByIntended(schema, d)
        <==> forall i :: 0 <= i < |d| ==> d[i].1 == "asc"
  {
    var w, n := AsWrittenKeys(d), IntendedKeys(d);
    if w == n {
      forall i | 0 <= i < |d| ensures d[i].1 == "asc" {
        assert w[i] == n[i];
      }
    }
    if forall i :: 0 <= i < |d| ==> d[i].1 == "asc" {
      assert w == n;
    }
  }

  /** `{'x': 'desc'}` sorts by `x` ascending. */
  lemma DescendingSortsAscending()
    ensures OrderByAsWritten(["x"], [("x", "desc")]) == Ok(Sorted(["x"], [SortKey("x", Ascending)]))
    ensures OrderByIntended(["x"], [("x", "desc")]) == Ok(Sorted(["x"], [SortKey("x", Descending)]))
  {
    var d := [("x", "desc")];
    assert Keys(d) == ["x"];
    assert multiset(["x"])["x"] == 1;
    assert AsWrittenKeys(d) == [SortKey("x", Ascending)];
    assert IntendedKeys(d) == [SortKey("x", Descending)];
  }
}
