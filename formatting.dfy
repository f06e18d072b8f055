/**
 * The column-formatting helpers of utils.py. Each one builds "the columns not
 * listed, then the listed columns"; `formatar_cols_decimal`,
 * `formatar_cols_float` and `formatar_cols_zeros_a_esquerda` then select the
 * original columns again, while `formatar_cols_moeda`, `formatar_cols_int`
 * and `remover_espacos_extra` do not. Only names are modelled: the currency,
 * cast, padding and trimming expressions keep the name of their column.
 */
module Formatting {
  import opened Results
  import opened Frame

  /** `[c for c in df.columns if c not in listed]` */
  function Unlisted(schema: Columns, listed: seq<string>): (r: Columns)
    ensures |r| <= |schema|
    ensures forall i :: 0 <= i < |r| ==> r[i] !in listed
  {
    if schema == [] then []
    else (if schema[0] in listed then [] else [schema[0]]) + Unlisted(schema[1..], listed)
  }

  /** A listed name is gone from `Unlisted`; every other name occurs as often as in the schema. */
  lemma {:induction false} UnlistedCounts(schema: Columns, listed: seq<string>, c: string)
    ensures multiset(Unlisted(schema, listed))[c] == if c in listed then 0 else multiset(schema)[c]
  {
    if schema != [] {
      assert schema == [schema[0]] + schema[1..];
      UnlistedCounts(schema[1..], listed, c);
    }
  }

  /** The unlisted columns are exactly the schema's names that are not listed. */
  lemma UnlistedMembers(schema: Columns, listed: seq<string>)
    ensures forall c :: c in Unlisted(schema, listed) <==> c in schema && c !in listed
  {
    forall c ensures c in Unlisted(schema, listed) <==> c in schema && c !in listed {
      UnlistedCounts(schema, listed, c);
    }
  }

  /** Filtering distributes over concatenation: the original order is kept. */
  lemma {:induction false} UnlistedAppend(a: Columns, b: Columns, listed: seq<string>)
    ensures Unlisted(a + b, listed) == Unlisted(a, listed) + Unlisted(b, listed)
  {
    if a != [] {
      assert (a + b)[0] == a[0] && (a + b)[1..] == a[1..] + b;
      UnlistedAppend(a[1..], b, listed);
    } else {
      assert a + b == b;
    }
  }

  /** Columns none of which is listed are kept as they are. */
  lemma {:induction false} UnlistedNoneListed(a: Columns, listed: seq<string>)
    requires forall c :: c in a ==> c !in listed
    ensures Unlisted(a, listed) == a
  {
    if a != [] {
      UnlistedNoneListed(a[1..], listed);
    }
  }

  /** Filtering the listed names out of the list itself leaves nothing. */
  lemma {:induction false} UnlistedOfListed(a: seq<string>, listed: seq<string>)
    requires forall c :: c in a ==> c in listed
    ensures Unlisted(a, listed) == []
  {
    if a != [] {
      UnlistedOfListed(a[1..], listed);
    }
  }

  /** Every listed name, and every column left unlisted, refers to exactly one column. */
  predicate ListedLastResolves(schema: Columns, listed: seq<string>) {
    && (forall c :: c in listed ==> Unique(schema, c))
    && (forall c :: c in schema && c !in listed ==> Unique(schema, c))
  }

  /**
   * `df.select(*lst_cols_rest, *[f(c).alias(c) for c in listed])`: the columns
   * not listed, in their original order, then the listed columns in list order.
   */
  function ListedLast(schema: Columns, listed: seq<string>): (r: Result<Columns, Error>)
    ensures r.Ok? <==> ListedLastResolves(schema, listed)
    ensures r.Ok? ==> r.value == Unlisted(schema, listed) + listed
  {
    var rest := Unlisted(schema, listed);
    AllResolveIn(schema, rest + listed);
    UnlistedMembers(schema, listed);
    Select(schema, rest + listed)
  }

  /**
   * When it succeeds and nothing is listed twice, `ListedLast` only reorders:
   * the output holds the input's columns, each as often as before.
   */
  lemma ListedLastPermutes(schema: Columns, listed: seq<string>)
    requires ListedLast(schema, listed).Ok?
    requires NoDuplicates(listed)
    ensures multiset(ListedLast(schema, listed).value) == multiset(schema)
  {
    var rest := Unlisted(schema, listed);
    CountsOneIff(listed);
    forall c ensures multiset(rest + listed)[c] == multiset(schema)[c] {
      UnlistedCounts(schema, listed, c);
      if c in listed {
        assert Unique(schema, c);
      }
    }
  }

  /**
   * When `ListedLast` succeeds, its output is the input schema exactly when
   * the listed columns already come last, in list order.
   */
  lemma ListedLastKeepsOrderIff(schema: Columns, listed: seq<string>)
    requires ListedLast(schema, listed).Ok?
    ensures ListedLast(schema, listed).value == schema
        <==> |listed| <= |schema| && schema[|schema| - |listed|..] == listed
  {
    var rest := Unlisted(schema, listed);
    assert ListedLast(schema, listed).value == rest + listed;
    if rest + listed == schema {
      assert schema[|rest|..] == listed;
    }
    if |listed| <= |schema| && schema[|schema| - |listed|..] == listed {
      assert ListedLastResolves(schema, listed);
      SuffixListedKeepsOrder(schema, listed);
    }
  }

  /** Listed columns that already come last, each once, stay where they are. */
  lemma SuffixListedKeepsOrder(schema: Columns, listed: seq<string>)
    requires forall c :: c in listed ==> Unique(schema, c)
    requires |listed| <= |schema| && schema[|schema| - |listed|..] == listed
    ensures Unlisted(schema, listed) + listed == schema
  {
    var front := schema[..|schema| - |listed|];
    assert schema == front + listed;
    FrontNotListed(front, listed);
    calc {
      Unlisted(schema, listed);
    == { UnlistedAppend(front, listed, listed); }
      Unlisted(front, listed) + Unlisted(listed, listed);
    == { UnlistedNoneListed(front, listed); UnlistedOfListed(listed, listed); }
      front + [];
    }
    assert front + [] == front;
  }

  /** Names that occur once in `front + listed` and are listed do not occur in `front`. */
  lemma FrontNotListed(front: Columns, listed: seq<string>)
    requires forall c :: c in listed ==> Unique(front + listed, c)
    ensures forall c :: c in front ==> c !in listed
  {
    forall c | c in front ensures c !in listed {
      assert multiset(front + listed)[c] == multiset(front)[c] + multiset(listed)[c];
      assert multiset(front)[c] >= 1;
    }
  }

  /**
   * The second `.select(df.columns)` after `ListedLast` succeeds exactly when
   * the first one did and no name is listed twice; it then restores the
   * original schema.
   */
  lemma ReselectOk(schema: Columns, listed: seq<string>)
    requires ListedLast(schema, listed).Ok?
    ensures Select(ListedLast(schema, listed).value, schema).Ok? <==> NoDuplicates(listed)
  {
    var mid := ListedLast(schema, listed).value;
    var rest := Unlisted(schema, listed);
    assert mid == rest + listed;
    CountsOneIff(listed);
    if NoDuplicates(listed) {
      forall i | 0 <= i < |schema| ensures Unique(mid, schema[i]) {
        UnlistedCounts(schema, listed, schema[i]);
        assert schema[i] in schema;
      }
    }
    if Select(mid, schema).Ok? {
      forall c | c in listed ensures multiset(listed)[c] == 1 {
        assert Unique(schema, c);
        var i :| 0 <= i < |schema| && schema[i] == c;
        assert Unique(mid, schema[i]);
        UnlistedCounts(schema, listed, c);
      }
    }
  }

  /** `... .select(df.columns)` after `ListedLast`: the original columns again. */
  function ReselectOriginal(schema: Columns, listed: seq<string>): (r: Result<Columns, Error>)
    ensures r.Ok? <==> ListedLastResolves(schema, listed) && NoDuplicates(listed)
    ensures r.Ok? ==> r.value == schema
  {
    match ListedLast(schema, listed)
    case Err(e) => Err(e)
    case Ok(mid) =>
      ReselectOk(schema, listed);
      Select(mid, schema)
  }

  /** A name listed twice: `ListedLast` repeats the column, the re-selection fails. */
  lemma ListedTwice()
    ensures ListedLast(["a"], ["a", "a"]) == Ok(["a", "a"])
    ensures ReselectOriginal(["a"], ["a", "a"]) == Err(AmbiguousReference("a"))
  {
    assert Unlisted(["a"], ["a", "a"]) == [];
    assert multiset(["a"])["a"] == 1;
    assert ListedLastResolves(["a"], ["a", "a"]);
    var r := ListedLast(["a"], ["a", "a"]);
    assert r.Ok? && r.value == ["a", "a"];
    assert multiset(["a", "a"])["a"] == 2;
  }

  /**
   * `formatar_cols_moeda`: the listed columns are formatted as Brazilian Real
   * and moved to the end. The output equals the input schema only when the
   * listed columns were already last and in list order.
   */
  function FormatCurrency(schema: Columns, listed: seq<string>): (r: Result<Columns, Error>)
    ensures r.Ok? <==> ListedLastResolves(schema, listed)
    ensures r.Ok? ==> r.value == Unlisted(schema, listed) + listed
    ensures r.Ok? ==> (r.value == schema <==> |listed| <= |schema| && schema[|schema| - |listed|..] == listed)
  {
    if ListedLast(schema, listed).Ok? then ListedLastKeepsOrderIff(schema, listed); ListedLast(schema, listed)
    else ListedLast(schema, listed)
  }

  /** Formatting the first of two columns as currency moves it behind the second. */
  lemma CurrencyMovesColumns()
    ensures FormatCurrency(["valor", "id"], ["valor"]) == Ok(["id", "valor"])
  {
    assert Unlisted(["valor", "id"], ["valor"]) == ["id"];
    assert multiset(["valor", "id"])["valor"] == 1 && multiset(["valor", "id"])["id"] == 1;
    assert ListedLastResolves(["valor", "id"], ["valor"]);
    var r := ListedLast(["valor", "id"], ["valor"]);
    assert r.Ok? && r.value == ["id", "valor"];
  }

  /**
   * `formatar_cols_moeda` as its docstring describes it: the currency columns
   * formatted in place, followed by the same `.select(df.columns)` that
   * `formatar_cols_decimal` uses.
   */
  function FormatCurrencyInPlace(schema: Columns, listed: seq<string>): (r: Result<Columns, Error>)
    ensures r.Ok? <==> ListedLastResolves(schema, listed) && NoDuplicates(listed)
    ensures r.Ok? ==> r.value == schema
  {
    ReselectOriginal(schema, listed)
  }

  /** The precision of `DecimalType(18, n_digitos)`. */
  const DecimalPrecision: int := 18

  /**
   * `formatar_cols_decimal`: the original columns, in the original order.
   * Building `DecimalType(18, digits)` for a listed column is refused when
   * the scale is negative or exceeds the precision, before any name is
   * resolved; with nothing listed no decimal type is built.
   */
  function FormatDecimal(schema: Columns, listed: seq<string>, digits: int): (r: Result<Columns, Error>)
    ensures listed != [] && !(0 <= digits <= DecimalPrecision) ==> r == Err(InvalidDecimalScale(digits))
    ensures r.Ok? <==> (listed == [] || 0 <= digits <= DecimalPrecision)
                       && ListedLastResolves(schema, listed) && NoDuplicates(listed)
    ensures r.Ok? ==> r.value == schema
  {
    if listed != [] && !(0 <= digits <= DecimalPrecision) then Err(InvalidDecimalScale(digits))
    else ReselectOriginal(schema, listed)
  }

  /** `formatar_cols_float`: the original columns, in the original order. */
  function FormatFloat(schema: Columns, listed: seq<string>): (r: Result<Columns, Error>)
    ensures r.Ok? <==> ListedLastResolves(schema, listed) && NoDuplicates(listed)
    ensures r.Ok? ==> r.value == schema
  {
    ReselectOriginal(schema, listed)
  }

  /** `formatar_cols_int`: the unlisted columns, then the listed ones cast to integer. */
  function FormatInt(schema: Columns, listed: seq<string>): (r: Result<Columns, Error>)
    ensures r.Ok? <==> ListedLastResolves(schema, listed)
    ensures r.Ok? ==> r.value == Unlisted(schema, listed) + listed
    ensures r.Ok? ==> |listed| <= |r.value| && r.value[|r.value| - |listed|..] == listed
    ensures r.Ok? && NoDuplicates(listed) ==> multiset(r.value) == multiset(schema)
  {
    if ListedLast(schema, listed).Ok? && NoDuplicates(listed) then
      ListedLastPermutes(schema, listed); ListedLast(schema, listed)
    else ListedLast(schema, listed)
  }

  /** `formatar_cols_zeros_a_esquerda`: the original columns, in the original order. */
  function FormatZeroPadded(schema: Columns, listed: seq<string>, width: int): (r: Result<Columns, Error>)
    ensures r.Ok? <==> ListedLastResolves(schema, listed) && NoDuplicates(listed)
    ensures r.Ok? ==> r.value == schema
  {
    ReselectOriginal(schema, listed)
  }

  /** `remover_espacos_extra`: the unlisted columns, then the listed ones trimmed. */
  function TrimColumns(schema: Columns, listed: seq<string>): (r: Result<Columns, Error>)
    ensures r.Ok? <==> ListedLastResolves(schema, listed)
    ensures r.Ok? ==> r.value == Unlisted(schema, listed) + listed
    ensures r.Ok? ==> |listed| <= |r.value| && r.value[|r.value| - |listed|..] == listed
    ensures r.Ok? && NoDuplicates(listed) ==> multiset(r.value) == multiset(schema)
  {
    if ListedLast(schema, listed).Ok? && NoDuplicates(listed) then
      ListedLastPermutes(schema, listed); ListedLast(schema, listed)
    else ListedLast(schema, listed)
  }
}
