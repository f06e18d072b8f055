# Schema bookkeeping of the spark_functions helpers

`utils.py` is a set of PySpark helpers for exploratory data analysis and data
cleaning. The engine does all row-level work: aggregation, counting, casts,
formatting and sorting. What the helpers themselves decide is which columns
the resulting dataframe has, under which names and in which order, and which
arguments they reject. This project models that bookkeeping and proves
properties about it.

A dataframe is modelled by its schema: the list of its column names
(`Frame.Columns`, a `seq<string>`). Every helper is a function, or a method
where the source loops, from the input schema and the helper's arguments to
`Ok(output schema)` or `Err(the exception raised)`. Python dicts whose order
matters are `seq<(string, string)>` in insertion order (`Dicts.Dictionary`).

The engine's behaviour is modelled as far as the helpers' outcome depends on
it (module `Frame`):

- Selecting columns by name (`Frame.Select`) requires each referenced name to
  match exactly one column. A name that matches no column fails with
  `ColumnNotFound`. A name that matches several columns fails with
  `AmbiguousReference`. The failure reported is that of the first such
  reference.
- An aliased expression (`f(col(c)).alias(n)`) is named `n`.
- A bare cast (`col(c).cast(T)`) keeps the name of its column.
- `agg()` with no aggregate expressions fails (`EmptyAggregation`) before any
  name is resolved. PySpark asserts that the expression list is not empty.
- `DecimalType(precision, scale)` with a negative scale or a scale above the
  precision is refused (`InvalidDecimalScale`) when the cast is built, before
  any name is resolved.

Modules, one per group of helpers:

- `Renaming`: `renomear_cols` as a method with the source's loop over a
  copied column array. Also `remover_cols_hudi` and
  `renomear_cols_para_minusculo`.
- `Text`: Python's `str.lower()`.
- `Formatting`: `formatar_cols_moeda/decimal/float/int/zeros_a_esquerda` and
  `remover_espacos_extra`. They share one shape: the unlisted columns, then
  the listed ones (`ListedLast`). Some helpers then select the original
  columns again (`ReselectOriginal`).
- `Aggregation`: the output names of `agrupar`, and the default-column rule
  of `obter_qtd_ausentes` and `obter_qtd_distintos`.
- `Ordering`: `orderBy_dict`, a method with the source's validation loop.
- `Frequency`: the period lookup of `obter_tab_freq_periodo` and the table's
  column names.

Observable consequences that the proofs make precise:

- `formatar_cols_decimal`, `formatar_cols_float` and
  `formatar_cols_zeros_a_esquerda` return exactly the input schema. They fail
  when a name is listed twice, because the second select is then ambiguous.
- `formatar_cols_moeda`, `formatar_cols_int` and `remover_espacos_extra` move
  the listed columns to the end. A name listed twice gives a repeated column.
- `renomear_cols_para_minusculo` can merge two names such as `A` and `a`
  when name resolution is case-sensitive (`spark.sql.caseSensitive` set to
  true). Applying it again then fails. Under the engine's default
  case-insensitive resolution, `col("A")` on `["A", "a"]` is already
  ambiguous on the first application. So applying it twice equals applying it once
  only when the first application produced distinct names.
- `agrupar` with every list missing or empty fails, although each list is
  optional.
- `orderBy_dict` sorts every key ascending, including the keys marked
  `"desc"`.

## Model

| member | source | states |
|---|---|---|
| `Dicts.Keys` | utils.py:180 | `list(dict_cols.keys())`: one key per entry, in insertion order |
| `Dicts.KeysMembership` | utils.py:180 | a name is among the keys exactly when some entry has it as its key |
| `Dicts.IndexOf` | utils.py:180 | `list.index`: the first position holding the name, or none (where Python raises ValueError) exactly when the name is absent |
| `Renaming.RenamedName` | utils.py:179-182 | a column that is no key keeps its name (the bare `except`); a column that is a key takes the value of an entry for that key |
| `Renaming.RenameColumns` | utils.py:177-188 | the loop over the copied column list computes `RenameAll` position by position; the final select succeeds exactly when no column name repeats, and otherwise fails as ambiguous |
| `Renaming.RenameAll` | utils.py:177-182 | the renamed list has one name per column; a column that is no key keeps its name, a keyed one takes a value of its key |
| `Renaming.RenamedNameAt` | utils.py:180 | the first entry whose key is the column decides its new name |
| `Renaming.RenamedNameOfEntry` | utils.py:180 | with distinct keys, as in a dict, the column named by a key gets exactly that key's value |
| `Renaming.RenamedNameWithout` | utils.py:179-182 | removing an entry for another key does not change a column's new name |
| `Renaming.UnusedKeyIgnored` | utils.py:177-188 | a dictionary entry whose key names no column has no effect on the result |
| `Renaming.SliceFrom` | utils.py:191 | the slice `[5:]`: empty when the list has at most five names, otherwise the names after the first five, which put back behind them give the list again |
| `Renaming.DropHudiColumns` | utils.py:190-191 | the result holds the columns from index 5 onward, none when there are at most five; it succeeds exactly when each kept name is unique in the schema |
| `Renaming.DropHudiReassembles` | utils.py:191 | the five dropped columns followed by the result give back the schema; with at most five columns the result is empty |
| `Renaming.DropHudiSucceeds` | utils.py:191 | a schema without repeated names always succeeds |
| `Renaming.LowercaseColumns` | utils.py:193-206 | same length and order, each name the lower-case of the input name at that position; succeeds exactly when no input name repeats |
| `Renaming.LowerAll` | utils.py:206 | one name per column, position by position: the lower-case of that column's name, so none holds an upper-case letter |
| `Renaming.LowerAllIdempotent` | utils.py:206 | lower-casing the lower-cased names changes nothing |
| `Renaming.LowercaseTwice` | utils.py:206 | applying the helper to its own output gives the same result, provided lower-casing merged no two names |
| `Renaming.LowercaseMayMerge` | utils.py:206 | `["A", "a"]` becomes `["a", "a"]`, on which a second application fails as ambiguous |
| `Text.LowerChar` | utils.py:206 | a lower-cased character is never upper-case; non-upper-case characters are unchanged; upper-case letters move 32 code points |
| `Text.Lower` | utils.py:206 | `str.lower()` keeps the length and lower-cases each character in place |
| `Text.LowerIdempotent` | utils.py:206 | lower-casing twice equals lower-casing once |
| `Formatting.Unlisted` | utils.py:249 | the comprehension `[c for c in df.columns if c not in listed]` (also lines 269, 289, 310, 330, 348) keeps no listed name and is never longer than the schema |
| `Formatting.UnlistedCounts` | utils.py:249 | the comprehension removes every occurrence of each listed name and keeps every other name as often as it occurs |
| `Formatting.UnlistedMembers` | utils.py:249 | a name is kept exactly when it is a column and is not listed |
| `Formatting.UnlistedAppend` | utils.py:249 | the comprehension distributes over concatenation, so the original order is kept |
| `Formatting.UnlistedNoneListed` | utils.py:249 | columns none of which is listed are kept unchanged |
| `Formatting.UnlistedOfListed` | utils.py:249 | filtering the listed names out of the listed names leaves nothing |
| `Formatting.ListedLast` | utils.py:249-252 | the output is the unlisted columns in original order, then the listed columns in list order; it succeeds exactly when every listed name and every unlisted column is unique in the schema |
| `Formatting.ListedLastPermutes` | utils.py:249-252 | with no name listed twice, the output is a permutation of the input schema |
| `Formatting.ListedLastKeepsOrderIff` | utils.py:237-252 | the output equals the input schema exactly when the listed columns were already last and in list order |
| `Formatting.SuffixListedKeepsOrder` | utils.py:249-251 | listed columns that already come last, each once, stay where they are |
| `Formatting.FrontNotListed` | utils.py:249 | a listed name that occurs once in the schema, in the trailing listed part, does not occur before it |
| `Formatting.ReselectOk` | utils.py:269-273 | the second `.select(df.columns)` succeeds exactly when no name is listed twice |
| `Formatting.ReselectOriginal` | utils.py:269-273 | select then re-select returns exactly the input schema, and succeeds exactly when the first select does and no name is listed twice |
| `Formatting.ListedTwice` | utils.py:249-273 | listing `a` twice repeats the column in the moved shape, and makes the re-selected shape fail as ambiguous |
| `Formatting.FormatCurrency` | utils.py:234-252 | `formatar_cols_moeda` returns the unlisted columns in original order, then the listed columns in list order; so it keeps the input order only when the listed columns were already last and in list order, contrary to its docstring |
| `Formatting.CurrencyMovesColumns` | utils.py:249-252 | formatting `valor` in `["valor", "id"]` yields `["id", "valor"]` |
| `Formatting.FormatCurrencyInPlace` | utils.py:237 | the docstring's promise, with the re-selection of `formatar_cols_decimal`: the output is the input schema |
| `Formatting.FormatDecimal` | utils.py:255-273 | `formatar_cols_decimal` fails on a scale outside 0..18 as soon as a column is listed, before any name is resolved; otherwise it returns the original names in the original order, failing exactly on an unresolved name or a name listed twice |
| `Formatting.FormatFloat` | utils.py:276-293 | `formatar_cols_float` returns the original names in the original order |
| `Formatting.FormatInt` | utils.py:296-313 | `formatar_cols_int` returns the unlisted columns in original order, then the listed columns in list order; with no name listed twice it only reorders the input |
| `Formatting.FormatZeroPadded` | utils.py:316-333 | `formatar_cols_zeros_a_esquerda` returns the original names in the original order |
| `Formatting.TrimColumns` | utils.py:336-351 | `remover_espacos_extra` returns the unlisted columns in original order, then the listed columns in list order; with no name listed twice it only reorders the input |
| `Aggregation.Prefixed` | utils.py:392-395 | each aggregate name is the prefix followed by the column name, one per column, in list order |
| `Aggregation.AggregateNames` | utils.py:392-398 | the aggregate columns are `cont_` names, then `soma_`, then `max_`, then `min_`, each group in its list's order |
| `Aggregation.Aggregate` | utils.py:383-399 | `agrupar` fails with no aggregate exactly when every list is missing or empty; otherwise it succeeds exactly when keys and aggregated columns resolve, and returns the keys followed by the aggregate names |
| `Aggregation.OrEmpty` | utils.py:383-390 | a missing list is the empty list; a given list is used as it is |
| `Aggregation.AggregateNoneIsEmpty` | utils.py:383-390 | a missing list behaves as the empty list |
| `Aggregation.CountPerColumn` | utils.py:550-553 | with no list, every column is aggregated; one output column per listed column, same name and order; an empty list fails |
| `Aggregation.CountMissing` | utils.py:533-553 | `obter_qtd_ausentes` names its outputs after the listed columns, defaulting to every column |
| `Aggregation.CountDistinct` | utils.py:643-662 | `obter_qtd_distintos` names its outputs after the listed columns, defaulting to every column |
| `Ordering.FirstInvalidOrder` | utils.py:469-471 | finds the first entry whose direction is neither `"asc"` nor `"desc"`, and finds none exactly when all are valid |
| `Ordering.SortKeyAsWritten` | utils.py:475-479 | the comprehension yields a key exactly for a valid direction, and that key is ascending for both `"asc"` and `"desc"` |
| `Ordering.IntendedSortKey` | utils.py:459 | the corrected key is descending exactly for `"desc"` |
| `Ordering.AsWrittenKeys` | utils.py:473-481 | the sort-key comprehension as written: one key per entry, in dict order, on the entry's column and ascending |
| `Ordering.IntendedKeys` | utils.py:459 | the corrected comprehension: one key per entry, in dict order, on the entry's column and descending exactly for `"desc"` |
| `Ordering.OrderByDict` | utils.py:451-482 | ValueError for the first invalid direction before any key is built; otherwise one ascending key per entry in dict order, provided every column resolves; the columns are unchanged |
| `Ordering.OrderByAsWritten` | utils.py:451-482 | `orderBy_dict` as a function: succeeds exactly when every direction is valid and every column resolves, and then keeps the columns and sorts by one ascending key per entry, in dict order |
| `Ordering.OrderByIntended` | utils.py:459 | the corrected `orderBy_dict`: same success condition, one key per entry in dict order, descending exactly for `"desc"` |
| `Ordering.ValidationComesFirst` | utils.py:469-471 | an invalid direction is reported whatever the schema, and it is the first one |
| `Ordering.IntendedDirections` | utils.py:473-482 | the corrected version succeeds exactly where the code as written does, and changes exactly the keys marked `"desc"`, each into the descending key on the same column |
| `Ordering.AsWrittenAgreesIff` | utils.py:473-482 | the code as written and the corrected version agree exactly when every direction is `"asc"` |
| `Ordering.DescendingSortsAscending` | utils.py:475-478 | `{'x': 'desc'}` sorts `x` ascending as written, descending when corrected |
| `Frequency.PeriodColumn` | utils.py:774-776 | only `d`, `m` and `a` are accepted; any other code fails the dictionary lookup |
| `Frequency.PeriodRoundTrip` | utils.py:774-776 | the grouped column's name gives back the period code (the lookup is injective) |
| `Frequency.FrequencyByPeriod` | utils.py:767-783 | the table has the period column, `qtd_ocorrencias` and `%`; an unknown code fails before the date column is resolved |

## Findings

| source | as written | input that shows it | evidently intended | confidence | as-written member | corrected member |
|---|---|---|---|---|---|---|
| utils.py:477 | the `"desc"` branch builds `asc(col(coluna))` | `{'x': 'desc'}` sorts `x` ascending | `desc(col(coluna))`, as the docstring's `{'coluna2': 'desc'}` example implies | high; not executed | `Ordering.DescendingSortsAscending` (on `Ordering.OrderByDict`) | `Ordering.IntendedDirections` (on `Ordering.OrderByIntended`) |
| utils.py:250-252 | `formatar_cols_moeda` moves the listed columns to the end, while its docstring (line 237) says order and names are unchanged | `["valor", "id"]` with `["valor"]` gives `["id", "valor"]` | the trailing `.select(df.columns)` of `formatar_cols_decimal` | medium; not executed | `Formatting.CurrencyMovesColumns` (on `Formatting.FormatCurrency`) | `Formatting.FormatCurrencyInPlace` |

`Ordering.OrderByDict` reproduces the code as written. The corrected
behaviour is `Ordering.OrderByIntended`. Likewise `Formatting.FormatCurrency`
is the code as written, and `Formatting.FormatCurrencyInPlace` the corrected
form.

## Left out

- Row values and every engine computation: `groupBy`, `agg`, `count`,
  `distinct`, `summary`, `fillna`, `orderBy`, `limit` and `collect`. Only
  their effect on column names and their failures are modelled.
- Date handling: `datetime.now()` (utils.py:58), `add_months`/`sparkMax`
  (utils.py:99) and the `unix_timestamp`/`from_unixtime` round trip
  (utils.py:116-119). These depend on the wall clock and on engine date
  functions.
- Percentages and rounding in `obter_pct`, `obter_tab_freq` and
  `obter_tab_freq_periodo` (utils.py:230, 745, 782). This is floating-point
  arithmetic done by the engine. So `obter_pct_ausentes`,
  `obter_pct_distintos` and `obter_pct_zeros` are not modelled beyond the
  default-column rule they share.
- What the casts to Decimal, Float, Integer and String, `lpad`, `trim` and
  `length` do to values. `Formatting.FormatDecimal` uses `n_digitos` only
  for the scale check of `DecimalType(18, n_digitos)`. `tam_pad` only reaches
  the `lpad` expressions, so `Formatting.FormatZeroPadded` takes it and
  ignores it.
- The `babel.numbers.format_currency` UDF (utils.py:247). It is a third-party
  library call.
- The printing helpers `mostrar_visao_geral` and
  `mostrar_teste_granularidade` (utils.py:402-448). They are console output
  over engine counts.
- Name resolution is exact and case-sensitive, as with
  `spark.sql.caseSensitive` set to true. The engine's default
  case-insensitive matching is not modelled. Neither is its parsing of dots
  and backticks inside a referenced name.
- `Ordering.OrderByDict`, `Ordering.OrderByAsWritten`: sort keys are resolved
  against the dataframe's schema only. The engine's analyzer may also resolve
  a sort key from the plan below a projection, so sorting
  `df.select("a")` by `{"b": "asc"}` can succeed when `b` was a column before
  that select, where the model reports `ColumnNotFound`. The model sees only
  the schema, not the plan that produced it.
- Which unresolvable name the engine's error message names: the model always
  reports the first one in reference order.
- `count("*")` in `agrupar`: the engine accepts `*` as a counted column, but
  the model treats it as an ordinary name.
- `Text.LowerChar`, `Text.Lower`: they lower-case ASCII and Latin-1 letters
  only. Python's `str.lower()` covers all of Unicode, and for a few
  characters (such as U+0130) it lengthens the string, which `Text.Lower`'s
  "keeps the length" does not capture.
- `chv_agrup`, `lst_cols_*` and `d_order` are modelled as lists and dicts of
  strings. A bare string key for `agrupar` is the one-element list. Column
  objects in place of names are not modelled.
