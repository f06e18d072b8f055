/**
 * The part of the dataframe engine the helpers rely on, seen at the level of
 * column names: a schema is the list of its column names, and selecting
 * columns by name resolves every name against the schema.
 */
module Frame {
  import opened Results

  /** A dataframe's schema: its column names, in order. */
  type Columns = seq<string>

  /** The exceptions the modelled helpers can raise. */
  datatype Error =
    | ColumnNotFound(name: string)      // the engine cannot resolve a referenced name
    | AmbiguousReference(name: string)  // the referenced name matches several columns
    | EmptyAggregation                  // an aggregation was given no aggregate expressions
    | InvalidOrder(order: string)       // a sort direction other than "asc" or "desc"
    | UnknownPeriod(code: string)       // a period code missing from the lookup dictionaries
    | InvalidDecimalScale(scale: int)   // a decimal type whose scale is negative or above its precision

  /** No name occurs twice. */
  predicate NoDuplicates(s: seq<string>) {
    forall i, j :: 0 <= i < j < |s| ==> s[i] != s[j]
  }

  /** `name` refers to exactly one column of `schema`. */
  predicate Unique(schema: Columns, name: string) {
    multiset(schema)[name] == 1
  }

  /** Every name in `refs` refers to exactly one column of `schema`. */
  predicate AllResolve(schema: Columns, refs: seq<string>) {
    forall i :: 0 <= i < |refs| ==> Unique(schema, refs[i])
  }

  /** Resolving one column reference against a schema. */
  function Resolve(schema: Columns, name: string): Result<string, Error> {
    var n := multiset(schema)[name];
    if n == 0 then Err(ColumnNotFound(name))
    else if n == 1 then Ok(name)
    else Err(AmbiguousReference(name))
  }

  /**
   * Selecting the columns `refs` by name: every reference must resolve, and
   * the failure reported is that of the first reference that does not.
   */
  function Select(schema: Columns, refs: seq<string>): (r: Result<Columns, Error>)
    ensures r.Ok? <==> AllResolve(schema, refs)
    ensures r.Ok? ==> r.value == refs
    ensures r.Err? ==> r.error.ColumnNotFound? || r.error.AmbiguousReference?
    ensures r.Err? ==> exists i :: 0 <= i < |refs| && AllResolve(schema, refs[..i])
                                 && Resolve(schema, refs[i]) == Err(r.error)
  {
    if refs == [] then Ok([])
    else
      match Resolve(schema, refs[0])
      case Err(e) =>
        assert AllResolve(schema, refs[..0]);
        Err(e)
      case Ok(c) =>
        match Select(schema, refs[1..])
        case Err(e) =>
          var i :| 0 <= i < |refs[1..]| && AllResolve(schema, refs[1..][..i])
                   && Resolve(schema, refs[1..][i]) == Err(e);
          assert refs[..i + 1] == [refs[0]] + refs[1..][..i];
          Err(e)
        case Ok(rest) =>
          assert refs == [c] + rest;
          Ok([c] + rest)
  }

  /**
   * Selecting `refs` and giving the selected columns the names `aliases`,
   * as `col(ref).alias(name)` does for each position.
   */
  function SelectAs(schema: Columns, refs: seq<string>, aliases: seq<string>): (r: Result<Columns, Error>)
    requires |refs| == |aliases|
    ensures r.Ok? <==> AllResolve(schema, refs)
    ensures r.Ok? ==> r.value == aliases
    ensures r.Err? ==> Select(schema, refs) == Err(r.error)
  {
    match Select(schema, refs)
    case Err(e) => Err(e)
    case Ok(_) => Ok(aliases)
  }

  /**
   * A schema can select all of its own columns by name exactly when no name
   * occurs twice in it.
   */
  lemma {:induction false} SelfResolveIff(s: Columns)
    ensures AllResolve(s, s) <==> NoDuplicates(s)
  {
    CountsOneIff(s);
  }

  /**
   * Selecting a schema's own columns fails only on a name that occurs twice:
   * every name of the schema is found.
   */
  lemma SelectSelf(s: Columns)
    ensures Select(s, s).Ok? <==> NoDuplicates(s)
    ensures Select(s, s).Err? ==> Select(s, s).error.AmbiguousReference?
  {
    SelfResolveIff(s);
    if Select(s, s).Err? {
      var i :| 0 <= i < |s| && AllResolve(s, s[..i]) && Resolve(s, s[i]) == Err(Select(s, s).error);
      assert s[i] in multiset(s);
    }
  }

  /** Every element occurs once exactly when no element repeats. */
  lemma {:induction false} CountsOneIff(s: seq<string>)
    ensures (forall x :: x in s ==> multiset(s)[x] == 1) <==> NoDuplicates(s)
  {
    if s != [] {
      var a, t := s[0], s[1..];
      assert s == [a] + t;
      CountsOneIff(t);
      if forall x :: x in s ==> multiset(s)[x] == 1 {
        assert multiset(s)[a] == 1 + multiset(t)[a];
        assert a !in t;
        forall x | x in t ensures multiset(t)[x] == 1 {
          assert x in s && x != a;
          assert multiset(s)[x] == multiset(t)[x];
        }
        forall i, j | 0 <= i < j < |s| ensures s[i] != s[j] {
          if i == 0 {
            assert s[j] == t[j - 1];
          } else {
            assert s[i] == t[i - 1] && s[j] == t[j - 1];
          }
        }
      }
      if NoDuplicates(s) {
        assert forall j :: 0 <= j < |t| ==> t[j] == s[j + 1];
        assert a !in t;
        assert NoDuplicates(t) by {
          forall i, j | 0 <= i < j < |t| ensures t[i] != t[j] {
            assert t[i] == s[i + 1] && t[j] == s[j + 1];
          }
        }
        forall x | x in s ensures multiset(s)[x] == 1 {
          if x == a {
            assert multiset(s)[x] == 1 + multiset(t)[x];
          } else {
            assert multiset(s)[x] == multiset(t)[x];
          }
        }
      }
    }
  }

  /** `AllResolve` over an element-wise condition. */
  lemma AllResolveIn(schema: Columns, refs: seq<string>)
    ensures AllResolve(schema, refs) <==> forall c :: c in refs ==> Unique(schema, c)
  {
  }
}
