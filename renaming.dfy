/**
 * The renaming helpers of utils.py: `renomear_cols` (rename through a
 * dictionary), `remover_cols_hudi` (drop the leading metadata columns) and
 * `renomear_cols_para_minusculo` (lower-case every name).
 */
module Renaming {
  import opened Results
  import opened Frame
  import Text
  import opened Dicts

  /**
   * The new name of column `c`: the value of the entry whose key is `c`, or
   * `c` itself when the lookup fails and the bare `except` keeps the name.
   */
  function RenamedName(d: Dictionary, c: string): (r: string)
    ensures c !in Keys(d) ==> r == c
    ensures c in Keys(d) ==> (c, r) in d
  {
    match IndexOf(Keys(d), c)
    case Some(j) =>
      assert d[j] == (c, d[j].1);
      d[j].1
    case None => c
  }

  /** The names `renomear_cols` gives the columns of `schema`, position by position. */
  function RenameAll(schema: Columns, d: Dictionary): (r: Columns)
    ensures |r| == |schema|
    ensures forall i :: 0 <= i < |schema| && schema[i] !in Keys(d) ==> r[i] == schema[i]
    ensures forall i :: 0 <= i < |schema| && schema[i] in Keys(d) ==> (schema[i], r[i]) in d
  {
    seq(|schema|, i requires 0 <= i < |schema| => RenamedName(d, schema[i]))
  }

  /**
   * `renomear_cols`: copies the column list, overwrites each position with its
   * new name, then selects every original column under its new name.
   */
  method RenameColumns(schema: Columns, d: Dictionary) returns (r: Result<Columns, Error>)
    ensures r.Ok? <==> NoDuplicates(schema)
    ensures r.Err? ==> r.error.AmbiguousReference?
    ensures r.Ok? ==> r.value == RenameAll(schema, d)
  {
    var colsFinal := new string[|schema|](i requires 0 <= i < |schema| => schema[i]);
    var keys := Keys(d);
    for i := 0 to |schema|
      invariant forall k :: 0 <= k < i ==> colsFinal[k] == RenamedName(d, schema[k])
    {
      var c := schema[i];
      var found := IndexOf(keys, c);
      match found
      case Some(j) =>
        colsFinal[i] := d[j].1;
      case None =>
        colsFinal[i] := c;
    }
    assert colsFinal[..] == RenameAll(schema, d);
    SelectSelf(schema);
    r := SelectAs(schema, schema, colsFinal[..]);
  }

  /** The first entry whose key is `c` decides the new name of `c`. */
  lemma RenamedNameAt(d: Dictionary, c: string, m: nat)
    requires m < |d| && d[m].0 == c
    requires forall k :: 0 <= k < m ==> d[k].0 != c
    ensures RenamedName(d, c) == d[m].1
  {
    var keys := Keys(d);
    assert keys[m] == c;
    assert forall k :: 0 <= k < m ==> keys[k] != c;
    var f := IndexOf(keys, c);
    assert f.value == m;
  }

  /** With distinct keys, as a Python dict has, the column named by a key takes that key's value. */
  lemma RenamedNameOfEntry(d: Dictionary, j: nat)
    requires NoDuplicates(Keys(d))
    requires j < |d|
    ensures RenamedName(d, d[j].0) == d[j].1
  {
    assert forall k :: 0 <= k < |d| ==> Keys(d)[k] == d[k].0;
    RenamedNameAt(d, d[j].0, j);
  }

  /** Removing an entry whose key is not `c` leaves the new name of `c` unchanged. */
  lemma RenamedNameWithout(d: Dictionary, j: nat, c: string)
    requires j < |d| && d[j].0 != c
    ensures RenamedName(d[..j] + d[j + 1..], c) == RenamedName(d, c)
  {
    var e := d[..j] + d[j + 1..];
    var f := IndexOf(Keys(d), c);
    if f.Some? {
      var m := f.value;
      assert forall k :: 0 <= k <= m ==> Keys(d)[k] == d[k].0;
      RenamedNameAt(d, c, m);
      var m' := if m < j then m else m - 1;
      forall k | 0 <= k <= m' ensures e[k] == d[if k < j then k else k + 1] {
        RemovedEntry(d, j, k);
      }
      RenamedNameAt(e, c, m');
    } else {
      forall k | 0 <= k < |e| ensures Keys(e)[k] != c {
        RemovedEntry(d, j, k);
        assert Keys(d)[if k < j then k else k + 1] == e[k].0;
      }
    }
  }

  /** The entries of a dict after removing its entry `j`. */
  lemma RemovedEntry(d: Dictionary, j: nat, k: nat)
    requires j < |d| && k < |d| - 1
    ensures (d[..j] + d[j + 1..])[k] == d[if k < j then k else k + 1]
  {
  }

  /** Dictionary entries whose key names no column have no effect. */
  lemma UnusedKeyIgnored(schema: Columns, d: Dictionary, j: nat)
    requires j < |d| && d[j].0 !in schema
    ensures RenameAll(schema, d[..j] + d[j + 1..]) == RenameAll(schema, d)
  {
    forall i | 0 <= i < |schema|
      ensures RenamedName(d[..j] + d[j + 1..], schema[i]) == RenamedName(d, schema[i])
    {
      RenamedNameWithout(d, j, schema[i]);
    }
  }

  /** The number of Hudi metadata columns that lead every Hudi table's schema. */
  const HudiMetadataColumns: nat := 5

  /** Python's slice `s[k:]` for a non-negative `k`: empty when `k` is past the end. */
  function SliceFrom(s: Columns, k: nat): (r: Columns)
    ensures k >= |s| ==> r == []
    ensures k <= |s| ==> s[..k] + r == s
  {
    if k >= |s| then [] else s[k..]
  }

  /** `remover_cols_hudi`: selects `df.columns[5:]`. */
  function DropHudiColumns(schema: Columns): (r: Result<Columns, Error>)
    ensures r.Ok? <==> forall i :: HudiMetadataColumns <= i < |schema| ==> Unique(schema, schema[i])
    ensures r.Ok? ==> |r.value| == if |schema| <= HudiMetadataColumns then 0 else |schema| - HudiMetadataColumns
    ensures r.Ok? ==> forall i :: 0 <= i < |r.value| ==> r.value[i] == schema[i + HudiMetadataColumns]
  {
    var kept := SliceFrom(schema, HudiMetadataColumns);
    assert forall i :: 0 <= i < |kept| ==> kept[i] == schema[i + HudiMetadataColumns];
    Select(schema, kept)
  }

  /**
   * The five dropped columns followed by the kept ones give back the schema;
   * a schema of at most five columns keeps nothing.
   */
  lemma DropHudiReassembles(schema: Columns)
    requires DropHudiColumns(schema).Ok?
    ensures |schema| <= HudiMetadataColumns ==> DropHudiColumns(schema).value == []
    ensures |schema| >= HudiMetadataColumns ==>
              schema[..HudiMetadataColumns] + DropHudiColumns(schema).value == schema
  {
    var kept := DropHudiColumns(schema).value;
    if |schema| >= HudiMetadataColumns {
      assert kept == schema[HudiMetadataColumns..];
    }
  }

  /** A schema without repeated names always loses its metadata columns without error. */
  lemma DropHudiSucceeds(schema: Columns)
    requires NoDuplicates(schema)
    ensures DropHudiColumns(schema).Ok?
  {
    SelfResolveIff(schema);
  }

  /** The names `renomear_cols_para_minusculo` gives, position by position. */
  function LowerAll(schema: Columns): (r: Columns)
    ensures |r| == |schema|
    ensures forall i :: 0 <= i < |schema| ==> r[i] == Text.Lower(schema[i])
    ensures forall i, k :: 0 <= i < |r| && 0 <= k < |r[i]| ==> !Text.IsUpper(r[i][k])
  {
    seq(|schema|, i requires 0 <= i < |schema| => Text.Lower(schema[i]))
  }

  /** `renomear_cols_para_minusculo`: every column under its lower-cased name. */
  function LowercaseColumns(schema: Columns): (r: Result<Columns, Error>)
    ensures r.Ok? <==> NoDuplicates(schema)
    ensures r.Err? ==> r.error.AmbiguousReference?
    ensures r.Ok? ==> |r.value| == |schema|
    ensures r.Ok? ==> forall i :: 0 <= i < |schema| ==> r.value[i] == Text.Lower(schema[i])
  {
    SelectSelf(schema);
    SelectAs(schema, schema, LowerAll(schema))
  }

  /** Lower-casing lower-cased names gives the same names. */
  lemma {:induction false} LowerAllIdempotent(schema: Columns)
    ensures LowerAll(LowerAll(schema)) == LowerAll(schema)
  {
    forall i | 0 <= i < |schema|
      ensures Text.Lower(Text.Lower(schema[i])) == Text.Lower(schema[i])
    {
      Text.LowerIdempotent(schema[i]);
    }
  }

  /**
   * Applying `renomear_cols_para_minusculo` to its own output changes nothing,
   * provided lower-casing did not merge two names into one.
   */
  lemma LowercaseTwice(schema: Columns)
    requires LowercaseColumns(schema).Ok?
    requires NoDuplicates(LowercaseColumns(schema).value)
    ensures LowercaseColumns(LowercaseColumns(schema).value) == LowercaseColumns(schema)
  {
    assert LowercaseColumns(schema).value == LowerAll(schema);
    LowerAllIdempotent(schema);
  }

  /** Lower-casing can merge two names, after which a second application fails. */
  lemma LowercaseMayMerge()
    ensures LowercaseColumns(["A", "a"]) == Ok(["a", "a"])
    ensures LowercaseColumns(["a", "a"]) == Err(AmbiguousReference("a"))
  {
    assert Text.Lower("A") == "a" && Text.Lower("a") == "a";
    assert NoDuplicates(["A", "a"]);
    assert LowerAll(["A", "a"]) == ["a", "a"];
    assert multiset(["a", "a"])["a"] == 2;
  }
}
