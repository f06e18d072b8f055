/**
 * `obter_tab_freq_periodo` of utils.py at the level of column names: the
 * period code picks the name of the grouped column, and the table has that
 * column, the occurrence count and its percentage.
 */
module Frequency {
  import opened Results
  import opened Frame

  /** The codes the two period dictionaries accept. */
  predicate KnownPeriod(code: string) {
    code == "d" || code == "m" || code == "a"
  }

  /** `{'d': 'data', 'm': 'mes', 'a': 'ano'}[periodo]`; KeyError for any other code. */
  function PeriodColumn(code: string): (r: Result<string, Error>)
    ensures r.Ok? <==> KnownPeriod(code)
    ensures r.Err? ==> r.error == UnknownPeriod(code)
  {
    if code == "d" then Ok("data")
    else if code == "m" then Ok("mes")
    else if code == "a" then Ok("ano")
    else Err(UnknownPeriod(code))
  }

  /** The code a grouped-column name stands for: the inverse of `PeriodColumn`. */
  function PeriodCode(name: string): Option<string> {
    if name == "data" then Some("d")
    else if name == "mes" then Some("m")
    else if name == "ano" then Some("a")
    else None
  }

  /** Every accepted code names a column from which the code can be read back. */
  lemma PeriodRoundTrip(code: string)
    requires KnownPeriod(code)
    ensures PeriodCode(PeriodColumn(code).value) == Some(code)
  {
  }

  /**
   * `obter_tab_freq_periodo`: groups by the period expression aliased to the
   * period's name, counts (the `count` column renamed `qtd_ocorrencias`) and
   * adds the percentage column `%`. The period lookup fails before the date
   * column is resolved.
   */
  function FrequencyByPeriod(schema: Columns, dateColumn: string, code: string): (r: Result<Columns, Error>)
    ensures r.Ok? <==> KnownPeriod(code) && Unique(schema, dateColumn)
    ensures !KnownPeriod(code) ==> r == Err(UnknownPeriod(code))
    ensures r.Ok? ==> |r.value| == 3 && PeriodCode(r.value[0]) == Some(code)
    ensures r.Ok? ==> r.value[1..] == ["qtd_ocorrencias", "%"]
  {
    var period :- PeriodColumn(code);
    var _ :- Resolve(schema, dateColumn);
    Ok([period, "qtd_ocorrencias", "%"])
  }
}
