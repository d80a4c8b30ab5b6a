# Charge cleaning pipeline and `Primeros100Nat`, modelled in Dafny

This project models two pieces of the repository `prueba-tecnica-etl`.

**The cleaning and validation pipeline of `fuente/etl.py`.** Raw charge rows from the
database are typed (`transformar`, with the date cleaner `limpiar_fecha`). A catalog of
companies is built from them (`limpiar_nombres_empresas`). The charges are then validated
against that catalog (`limpiar_charges`) in four ordered stages:

- A: rows without an `id` are alerted;
- B: rows whose `company_id` is NULL or not 40 characters long are repaired by joining
  on the normalised company name (`normalizar_nombre`), and alerted when no catalog name
  matches;
- C: amounts that are missing or do not fit DECIMAL(16,2) are alerted;
- D: statuses outside the eight accepted values are alerted.

The alerts go to an append-only ledger file. A final `dropna` removes the rows that
still miss a required column.

**The class `Primeros100Nat` of `main.py`.** It holds the set {1, ..., 100} and a
running sum. One number can be extracted, and the difference between the original and
the current sum recovers the missing number.

Layout, one Dafny module per file:

- `wrappers.dfy` holds `Option` and `Result`.
- `seqs.dfy` holds `Filter` and `Map` over sequences (the boolean-mask selection and
  `apply` of pandas).
- `py_strings.dfy` holds Python's `isspace`, `strip` and code-point string order.
- `decimal.dfy` holds digit strings and `str(int)`.
- `name_normalizer.dfy` holds `normalizar_nombre`.
- `coercion.dfy` holds the record types, `limpiar_fecha`, the `to_numeric` coercion and
  `transformar`.
- `company_resolver.dfy` holds `limpiar_nombres_empresas`.
- `charge_validator.dfy` holds stages A to D and the method `Validate`, which runs them
  the way `limpiar_charges` does. It also holds a per-row reference definition `Route`
  and the proof that the two agree.
- `charge_pipeline.dfy` holds the alert ledger (a class), the final `dropna` and the
  order `main` calls the cleaning functions in.
- `missing_number.dfy` holds the class `Primeros100Nat`.

Two points where the code behaves otherwise than a reader might expect; the model
follows the code:

- **Tie-break of the company name.** The comment at `fuente/etl.py:117-118` says that
  when there is no mode the first non-null name is taken, which suggests that ties go
  to the first name seen. The code at `fuente/etl.py:114-116` takes `mode().iloc[0]`
  instead. `mode` returns every tied value, sorted, so the smallest name wins, and the
  fallback after it is never reached on a group with a non-null name
  (`CompanyResolver.TieGoesToSmallest`).
- **Kept rows and alerts need not add up to the input.** The left merge of stage B
  copies a row once per catalog company sharing its normalised name
  (`ChargePipeline.SharedNameDuplicatesCharge`). The final `dropna` also removes rows
  without `created_at` and writes no alert for them (`ChargePipeline.DropnaDropsUndated`,
  `ChargePipeline.SilentDrops`).
  Kept rows plus alerts equal the input rows only when catalog names normalise
  distinctly, and only before that `dropna` (`ChargeValidator.StagesAccountForEveryRow`).

## Model

| member | source | states |
|---|---|---|
| NameNormalizer.Normalize | prueba_docker/fuente/etl.py:9-19 | a null name gives `""`; every result holds only `a`-`z`, `0`-`9` and single spaces, with no space at either end |
| NameNormalizer.NormalizeDropsAccents | prueba_docker/fuente/etl.py:13-15 | for every name, replacing any character by its NFD base letter (`É` by `E`) leaves the key unchanged |
| NameNormalizer.NormalizeLowersCase | prueba_docker/fuente/etl.py:16 | for every name, lower-casing any one ASCII capital leaves the key unchanged |
| NameNormalizer.NormalizeLowersAll | prueba_docker/fuente/etl.py:13-16 | a name below U+00C0 has the same key as its lower-cased form |
| NameNormalizer.NormalizeDropsSymbol | prueba_docker/fuente/etl.py:17 | for every name and every position, deleting a character whose lower-cased NFD base is outside `[a-z0-9\s]` (a comma, a dot) leaves the key unchanged |
| NameNormalizer.NormalizeDropsText | prueba_docker/fuente/etl.py:13-19 | for every name, deleting any text that folds to nothing `[a-z0-9\s]` keeps, wherever it stands, leaves the key unchanged |
| NameNormalizer.NormalizeAsFolded | prueba_docker/fuente/etl.py:13-19 | the key of every name is the pattern removal, whitespace collapse and strip of its fold: the inner `strip()` makes no difference |
| NameNormalizer.StripAbsorbed | prueba_docker/fuente/etl.py:16-19 | stripping before the pattern removal changes nothing, since the regex keeps whitespace and the collapse and final strip absorb it |
| NameNormalizer.NormalizeTrimmedFolded | prueba_docker/fuente/etl.py:17-19 | on already folded text without outer spaces, the key is the regex removal, whitespace collapse and strip of the text |
| NameNormalizer.NormalizeSameFold | prueba_docker/fuente/etl.py:13-19 | two characters that fold alike give names the same key wherever they stand |
| NameNormalizer.CafeExample | prueba_docker/fuente/etl.py:9-19 | `"CAFÉ, S.A."`, `"Café, S.A."` and `"Cafe S.A."` all normalise to `"cafe sa"` |
| NameNormalizer.FoldChar | prueba_docker/fuente/etl.py:13-16 | a non-mark character folds to the lower case of its NFD base letter |
| NameNormalizer.FoldConcat | prueba_docker/fuente/etl.py:13-16 | NFD, mark removal and lower-casing work character by character: folding a concatenation concatenates the folds |
| NameNormalizer.NfdConcat | prueba_docker/fuente/etl.py:13 | NFD of a concatenation is the concatenation of the NFDs |
| NameNormalizer.MarksDropped | prueba_docker/fuente/etl.py:14-15 | removing combining marks from a base letter followed by marks leaves the base letter |
| NameNormalizer.FoldBelowLatin1Letters | prueba_docker/fuente/etl.py:13-16 | below U+00C0, folding is lower-casing |
| NameNormalizer.FoldFixedText | prueba_docker/fuente/etl.py:13-16 | lower-case text below U+00C0 without marks is its own fold |
| NameNormalizer.DecompositionTable | prueba_docker/fuente/etl.py:13 | characters below U+00C0 and combining marks do not decompose; every decomposition has a base letter below U+00C0, and an accented one a combining mark |
| NameNormalizer.NormalizeIdempotent | prueba_docker/fuente/etl.py:13-19 | normalising a normalised name changes nothing |
| NameNormalizer.NormalizeFixesKeys | prueba_docker/fuente/etl.py:13-19 | every string of the output form is its own normal form, so the output form is exactly the image of the normaliser |
| NameNormalizer.CollapseGivesKeyChars | prueba_docker/fuente/etl.py:17-18 | after the `[^a-z0-9\s]` removal, collapsing whitespace leaves key characters only, no two spaces in a row, and keeps a leading non-space |
| NameNormalizer.CollapseSpaces | prueba_docker/fuente/etl.py:18 | `re.sub(r'\s+', ' ', s)`; characterised by `CollapseGivesKeyChars`, `CollapseFixesKeys` and `CollapseAppendSpace` |
| NameNormalizer.CollapseAppendSpace | prueba_docker/fuente/etl.py:18 | one more whitespace character at the end adds at most one space to the collapsed text |
| NameNormalizer.StripKeepsKey | prueba_docker/fuente/etl.py:19 | the final `strip` of a collapsed string gives the output form |
| NameNormalizer.NfdFixesBelowLatin1Letters | prueba_docker/fuente/etl.py:13 | NFD leaves text below U+00C0 unchanged |
| NameNormalizer.Decomposition | prueba_docker/fuente/etl.py:13 | every character decomposes to a base character followed by combining marks only; the base is the character itself or a letter below U+00C0, and is a mark only when the character is |
| NameNormalizer.CollapseFixesKeys | prueba_docker/fuente/etl.py:18 | collapsing whitespace fixes a string of the output form |
| NameNormalizer.FoldFixesKeys | prueba_docker/fuente/etl.py:13-16 | NFD, mark removal, lower-casing and strip fix a string of the output form |
| NameNormalizer.CleanFixesKeys | prueba_docker/fuente/etl.py:17-19 | the regex removal, whitespace collapse and strip fix a string of the output form |
| PyStrings.LStrip | prueba_docker/fuente/etl.py:16 | removes exactly the leading whitespace: the result is a suffix, starts with a non-space, and only whitespace was dropped |
| PyStrings.RStrip | prueba_docker/fuente/etl.py:16 | removes exactly the trailing whitespace |
| PyStrings.Strip | prueba_docker/fuente/etl.py:16 | the result is the input with its leading and trailing whitespace removed: a contiguous slice with only whitespace before and after it, and neither starting nor ending with whitespace |
| PyStrings.StripTrims | prueba_docker/fuente/etl.py:16 | removing leading, then trailing whitespace leaves a slice with only whitespace around it |
| PyStrings.StripTrimmed | prueba_docker/fuente/etl.py:19 | stripping removes whitespace at both ends |
| PyStrings.LStripAppend | prueba_docker/fuente/etl.py:16 | `lstrip()` of a concatenation strips the second part only when the first is all whitespace, and otherwise keeps it whole |
| PyStrings.StripAppendSpace | prueba_docker/fuente/etl.py:19 | a trailing space makes no difference to `strip()` |
| PyStrings.StrLtIrreflexive | prueba_docker/fuente/etl.py:115-116 | the code-point order of strings that `mode` and `groupby` sort by is irreflexive |
| PyStrings.StrLtTransitive | prueba_docker/fuente/etl.py:115-116 | that order is transitive |
| PyStrings.StrLtTotal | prueba_docker/fuente/etl.py:115-116 | any two distinct strings are ordered one way |
| PyStrings.StrLtAsymmetric | prueba_docker/fuente/etl.py:115-116 | no two strings are ordered both ways |
| Coercion.CoerceDate | prueba_docker/fuente/etl.py:59-74 | null gives null; a cleaned 8-digit text gives a date exactly when its fields form a calendar date within the timestamp range |
| Coercion.ParseBasicDate | prueba_docker/fuente/etl.py:70-71 | `YYYYMMDD` parses exactly when the fields form a real calendar date within the timestamp range, to midnight of that date; otherwise missing, never an error |
| Coercion.FormatBasicDate | prueba_docker/fuente/etl.py:70-71 | writing a date in basic format gives 8 digits |
| Coercion.BasicDateRoundTrip | prueba_docker/fuente/etl.py:63-71 | a representable date written as `YYYYMMDD`, with or without a trailing `.0`, coerces back to that date |
| Coercion.BasicDateText | prueba_docker/fuente/etl.py:69-71 | an 8-digit text coerces through the basic-format branch, and a parsed date writes back to the same text |
| Coercion.FieldsRoundTrip | prueba_docker/fuente/etl.py:70-71 | the fields read from 8 digits write back to the same digits |
| Coercion.FloatSuffixIgnored | prueba_docker/fuente/etl.py:65-67 | `"20190121.0"` and `"20190121"` coerce alike |
| Coercion.CleanDigitText | prueba_docker/fuente/etl.py:62-67 | cleaning leaves a digit string alone and removes one trailing `.0` from it |
| Coercion.CleanDateText | prueba_docker/fuente/etl.py:63-67 | the cleaned text is the stripped text, or the stripped text without a trailing `.0` |
| Coercion.CoerceAmount | prueba_docker/fuente/etl.py:80 | a null amount stays null |
| Coercion.Transform | prueba_docker/fuente/etl.py:52-82 | one typed row per raw row, in order: id, names, ids and status carried over; `created_at` and `updated_at` are the date coercion of the raw columns, `amount` the numeric coercion |
| Coercion.TransformRow | prueba_docker/fuente/etl.py:76-80 | one typed row: id and status carried over, the name and id columns renamed, and a null date or amount stays null |
| Coercion.TransformConcat | prueba_docker/fuente/etl.py:76-82 | typing is row by row: typing two batches joined equals joining the typed batches |
| Coercion.TransformReadsBasicDates | prueba_docker/fuente/etl.py:63-78 | a row whose `created_at` is a representable date written `YYYYMMDD`, with or without `.0`, is typed to midnight of that date |
| CompanyResolver.Resolve | prueba_docker/fuente/etl.py:86-133 | ids strictly ascending; the ids are exactly the 40-character `company_id`s of the input; each name is a most frequent non-null name of its group, or `"Desconocido"` if the group has none |
| CompanyResolver.ResolveUnique | prueba_docker/fuente/etl.py:122-128 | no two catalog rows share an id |
| CompanyResolver.MostCommon | prueba_docker/fuente/etl.py:110-119 | no name exactly when the group has no non-null name; otherwise the most frequent name, the smallest among equally frequent ones |
| CompanyResolver.ModeUnique | prueba_docker/fuente/etl.py:114-116 | that choice is unique |
| CompanyResolver.MajorityWins | prueba_docker/fuente/etl.py:114-116 | `["Acme", "Acme", "Beta"]` gives `"Acme"` |
| CompanyResolver.TieGoesToSmallest | prueba_docker/fuente/etl.py:114-116 | `["Beta", "Acme"]` gives `"Acme"`, the smaller name, not the first seen |
| CompanyResolver.Best | prueba_docker/fuente/etl.py:114-116 | the chosen candidate is at least as frequent as every other, and smallest among equals |
| CompanyResolver.PreferredIsBest | prueba_docker/fuente/etl.py:114-116 | comparing one more candidate keeps the best choice |
| CompanyResolver.GroupNames | prueba_docker/fuente/etl.py:111-112 | each name occurs among the group's names exactly as often as rows of the group carry it, so the names are the group's non-null names with their multiplicities |
| CompanyResolver.RowIds | prueba_docker/fuente/etl.py:107 | the listed ids are exactly the 40-character `company_id`s |
| CompanyResolver.SortedKeys | prueba_docker/fuente/etl.py:123 | `groupby` keys: strictly ascending, holding exactly the given ids |
| CompanyResolver.Insert | prueba_docker/fuente/etl.py:123 | inserting into a strictly ascending list keeps it so and adds exactly one id |
| ChargeValidator.KeyedCatalog | prueba_docker/fuente/etl.py:175-176 | the catalog with each company's normalised name, row for row |
| ChargeValidator.MotivoText | prueba_docker/fuente/etl.py:159-245 | the reason texts of the ledger; an overflowing amount, formatted, and a rejected status are written into their texts |
| ChargeValidator.MotivoTextsDistinct | prueba_docker/fuente/etl.py:159-245 | two different reasons never share a text, whatever amounts, statuses and formatting they carry |
| ChargeValidator.StageA | prueba_docker/fuente/etl.py:156-161 | kept rows and alerts of stage A together number the input rows; the rows kept and alerted are given by `StagesOutcome` and `NothingToAlertInA` |
| ChargeValidator.MatchingIds | prueba_docker/fuente/etl.py:181-186 | the ids the merge pairs with a name are catalog ids, and there are none exactly when no catalog name normalises alike |
| ChargeValidator.MatchingIdsExact | prueba_docker/fuente/etl.py:181-186 | an id is paired with a name exactly when a catalog company with that id has that normalised name |
| ChargeValidator.Candidates | prueba_docker/fuente/etl.py:181-192 | one copy of the row per matching company, identical except for a `company_id` taken from a matching company |
| ChargeValidator.CandidatesInOrder | prueba_docker/fuente/etl.py:181-192 | the `i`-th copy carries the `i`-th matching id, in catalog order |
| ChargeValidator.StageB | prueba_docker/fuente/etl.py:166-209 | rows with a valid `company_id` come first, unchanged and in order, before the repaired rows |
| ChargeValidator.StageBOutcome | prueba_docker/fuente/etl.py:166-209 | after the valid rows, stage B keeps every copy of every doubtful row under every matching catalog id and nothing else; it alerts exactly the doubtful rows no catalog name matches, each with its reason |
| ChargeValidator.RepairsMembers | prueba_docker/fuente/etl.py:181-192 | the repaired rows are exactly the copies of doubtful rows under their matching ids |
| ChargeValidator.Repairs | prueba_docker/fuente/etl.py:181-194 | `df_corregidos_validos`; characterised by `RepairsMembers`, `RepairsCover`, `RepairsFrom` and `RepairsConcat` |
| ChargeValidator.Unmatched | prueba_docker/fuente/etl.py:196-205 | `df_no_corregidos` with its reason; characterised by `UnmatchedMembers` and `UnmatchedConcat` |
| ChargeValidator.RepairsCover | prueba_docker/fuente/etl.py:181-192 | every copy of a doubtful row under one of its matching ids is among the repaired rows |
| ChargeValidator.RepairsFrom | prueba_docker/fuente/etl.py:181-192 | every repaired row is a doubtful row carrying one of its matching ids |
| ChargeValidator.RepairsConcat | prueba_docker/fuente/etl.py:181-192 | repairing two batches joined equals joining their repairs |
| ChargeValidator.UnmatchedConcat | prueba_docker/fuente/etl.py:194-205 | alerting two batches joined equals joining their alerts |
| ChargeValidator.UnmatchedMembers | prueba_docker/fuente/etl.py:181-205 | exactly the doubtful rows without a matching catalog name are alerted, with the reason their `company_id` calls for |
| ChargeValidator.AmountMotivo | prueba_docker/fuente/etl.py:224-231 | a null amount gives "amount es nulo o NaN"; an amount past the bound gives the positive or negative overflow reason with the amount |
| ChargeValidator.StageC | prueba_docker/fuente/etl.py:214-235 | kept rows and alerts of stage C together number its input rows; which ones is given by `CheckAllOutcome` and `NothingToAlertInC` |
| ChargeValidator.StageD | prueba_docker/fuente/etl.py:240-248 | kept rows and alerts of stage D together number its input rows; which ones is given by `CheckAllOutcome` and `NothingToAlertInD` |
| ChargeValidator.Stages | prueba_docker/fuente/etl.py:156-248 | stages A to D in order, alerts in stage order; characterised by `StagesOutcome`, `StagesMatchRoute` and `StagesAccountForEveryRow` |
| ChargeValidator.CheckAllOutcome | prueba_docker/fuente/etl.py:214-248 | after stages C and D every kept row has a valid amount and status, every alert names the first of the two its row fails, and no row is lost or duplicated |
| ChargeValidator.Route | prueba_docker/fuente/etl.py:156-248 | one row under rules A to D: what is kept passes every rule and is the row itself or its repair; each alert names the first rule broken and is about the row or one of its repaired copies; one outcome when at most one catalog name matches |
| ChargeValidator.RouteAll | prueba_docker/fuente/etl.py:156-248 | the same for a sequence of rows: kept rows pass and come from an input row, alerts are explained and are about an input row or a repaired copy of one, and outcomes equal input rows when every row matches at most one catalog name |
| ChargeValidator.CandidatesOutcome | prueba_docker/fuente/etl.py:181-248 | the repaired copies of a row pass stages C and D or are alerted there |
| ChargeValidator.StagesMatchRoute | prueba_docker/fuente/etl.py:156-248 | the stage-by-stage batch keeps the same rows and raises the same alerts as the per-row rules, up to order |
| ChargeValidator.StagesConcat | prueba_docker/fuente/etl.py:156-248 | running the stages on two batches joined equals joining their results, up to order |
| ChargeValidator.StagesSingle | prueba_docker/fuente/etl.py:156-248 | on a single row, the stages and the per-row rules agree |
| ChargeValidator.StagesOutcome | prueba_docker/fuente/etl.py:156-248 | every row the stages keep passes all four rules and comes from an input row; every alert carries the reason of the first rule its row broke and is about an input row or a repaired copy of one |
| ChargeValidator.AtMostOneMatch | prueba_docker/fuente/etl.py:181-186 | with distinct normalised catalog names, a row matches at most one company |
| ChargeValidator.StagesAccountForEveryRow | prueba_docker/fuente/etl.py:181-207 | with distinct normalised catalog names, kept rows plus alerts equal the input rows |
| ChargeValidator.RepairDuplicates | prueba_docker/fuente/etl.py:181-192 | a repairable row with valid amount and status is kept once per matching company, with no alert |
| ChargeValidator.Validate | prueba_docker/fuente/etl.py:144-248 | the method's outputs are those of stages A to D; kept rows pass every rule and come from an input row; alerts are explained and are about an input row or a repaired copy of one; outcomes equal input rows under distinct catalog names |
| ChargeValidator.RunStageA | prueba_docker/fuente/etl.py:156-161 | the guarded mask of stage A computes exactly `StageA` |
| ChargeValidator.RunStageB | prueba_docker/fuente/etl.py:166-209 | the guarded repair of stage B computes exactly `StageB` |
| ChargeValidator.RunStageC | prueba_docker/fuente/etl.py:214-235 | the guarded mask of stage C computes exactly `StageC` |
| ChargeValidator.RunStageD | prueba_docker/fuente/etl.py:240-248 | the guarded mask of stage D computes exactly `StageD` |
| ChargeValidator.NothingToAlertInA | prueba_docker/fuente/etl.py:156-162 | when no row lacks an `id`, stage A keeps every row and raises no alert, so the `if` guard changes nothing |
| ChargeValidator.NothingToRepairInB | prueba_docker/fuente/etl.py:166-207 | when no row is doubtful, stage B keeps exactly the rows with a 40-character `company_id` and raises no alert |
| ChargeValidator.NothingToAlertInC | prueba_docker/fuente/etl.py:214-235 | when no amount is out of bounds or missing, stage C keeps every row and raises no alert |
| ChargeValidator.NothingToAlertInD | prueba_docker/fuente/etl.py:238-248 | when every status is known, stage D keeps every row and raises no alert |
| ChargePipeline.NewLinesRoundTrip | prueba_docker/fuente/etl.py:257-270 | the lines one run appends read back as exactly its alerts, with a header only on the line that creates the file |
| ChargePipeline.NewLines | prueba_docker/fuente/etl.py:257-267 | no line exactly when there are no alerts; a header exactly when the file did not exist and there are alerts; one line per alert besides |
| ChargePipeline.Entries | prueba_docker/fuente/etl.py:264-270 | an alert is read back from a ledger exactly when one of its lines holds it |
| ChargePipeline.EntriesOfAlerts | prueba_docker/fuente/etl.py:264-270 | the alert lines of a batch read back as that batch |
| ChargePipeline.EntriesConcat | prueba_docker/fuente/etl.py:264-270 | reading an appended ledger reads the old part, then the new |
| ChargePipeline.AlertLedger.constructor | prueba_docker/fuente/etl.py:262 | a ledger file that does not exist yet holds no line |
| ChargePipeline.AlertLedger.Append | prueba_docker/fuente/etl.py:257-270 | nothing is written for no alerts; otherwise the header is written iff the file did not exist, then the alerts; the ledger only grows, holds one header at its top, and reads back as the old alerts then the new |
| ChargePipeline.SilentDrops | prueba_docker/fuente/etl.py:257-287 | under distinct catalog names, clean rows, alerts and the rows the final `dropna` drops silently add up to the input (with a shared name they need not: `SharedNameDuplicatesCharge`) |
| ChargePipeline.DropnaDropsUndated | prueba_docker/fuente/etl.py:287 | for every catalog, among the rows the stages keep, the final `dropna` removes exactly those without `created_at` |
| ChargePipeline.CleanCharges | prueba_docker/fuente/etl.py:135-291 | the ledger gains exactly the lines of one append of the stage alerts (none when there are none, a header only when the file is created), its file exists afterwards iff it did or there were alerts, it reads back as the old alerts then the stage alerts, and the result is the stage survivors that have every required column |
| ChargePipeline.KeyedIdsOfCatalog | prueba_docker/fuente/etl.py:175-176 | normalising the catalog's names keeps its ids |
| ChargePipeline.CleanRowsReferenceCatalog | prueba_docker/fuente/etl.py:166-289 | every clean row is complete, with a valid amount and status and a 40-character `company_id` of the resolved catalog |
| ChargePipeline.RunPipeline | prueba_docker/fuente/etl.py:401-408 | the catalog is that of the typed rows; the ledger gains exactly the lines of one append of the stage alerts of the typed rows (none when there are none, a header only when the file is created), its file exists afterwards iff it did or there were alerts, and it reads back as its old alerts then those alerts; the charges are exactly the complete stage survivors; every clean charge references a catalog company by a 40-character id and meets every rule |
| ChargePipeline.BothMatch | prueba_docker/fuente/etl.py:181-186 | two catalog companies of one normalised name both match it, in catalog order |
| ChargePipeline.SharedNameDuplicatesCharge | prueba_docker/fuente/etl.py:181-207 | a charge with NULL `company_id` whose name matches two catalog companies is kept twice and alerted never, so outcomes outnumber the input |
| MissingNumber.Range | prueba_docker/main.py:6 | `range(1, 101)` as a set holds exactly 1 to 100 |
| MissingNumber.SumFirst | prueba_docker/main.py:7 | 1 + ... + n equals n(n + 1)/2 |
| MissingNumber.UniverseSum | prueba_docker/main.py:7 | 5050 is the sum of 1 to 100 |
| MissingNumber.SumUpToRemove | prueba_docker/main.py:22-23 | removing `n` from the set lowers its sum by `n` |
| MissingNumber.SumUpToSplit | prueba_docker/main.py:30 | the original sum is the current sum plus the sum of the numbers removed |
| MissingNumber.SumSingleton | prueba_docker/main.py:30 | a single number sums to itself |
| MissingNumber.OneMissing | prueba_docker/main.py:27-30 | when only `n` is missing, the sum difference is `n` |
| MissingNumber.Primeros100Nat.constructor | prueba_docker/main.py:5-9 | starts with {1..100}, both sums 5050 and nothing extracted, so the sum invariant holds |
| MissingNumber.Primeros100Nat.Extract | prueba_docker/main.py:12-25 | a non-int, an out-of-range number or a number no longer in the set fails with its message and changes nothing; otherwise exactly `n` leaves the set, the sum drops by `n`, `extraido` becomes `n`, it returns True, and the sum invariant holds; after the first extraction the missing number is `n` |
| MissingNumber.Primeros100Nat.NumeroFaltante | prueba_docker/main.py:27-30 | fails exactly before any extraction; otherwise returns the sum of the numbers removed so far |
| MissingNumber.Primeros100Nat.ToString | prueba_docker/main.py:32-35 | the "Aún no" message before any extraction, otherwise the extracted number and the sum of the numbers removed |
| MissingNumber.ExtractTwice | prueba_docker/main.py:19-20 | extracting the same number twice succeeds once, then fails with "no está en el conjunto" |
| MissingNumber.ExtractAndReport | prueba_docker/main.py:54-56 | for 1 to 100 the report names the extracted number as the missing one; otherwise the range error |
| Decimal.IntToString | prueba_docker/main.py:20 | `str(n)` is non-empty and starts with `-` exactly for negative numbers; its digits, after the sign, read back as the absolute value |
| Decimal.NatToString | prueba_docker/main.py:34 | `str(n)` of a natural number: digits only, no leading zero |
| Decimal.NatToStringRoundTrip | prueba_docker/main.py:34 | reading back `str(n)` gives `n` |
| Decimal.FixedDigitsRoundTrip | prueba_docker/fuente/etl.py:70-71 | a zero-padded field that fits its width reads back to its value |
| Decimal.DigitsValueRoundTrip | prueba_docker/fuente/etl.py:70-71 | a digit string writes back from its value at its own width |

## Left out

- Database and file I/O: `traer_raw_df`, `load_companies`, `load_charges`, `main()`'s
  connection handling, `utils/db_config.py` and `carga_data.py`. The cleaning order of
  `main()` is modelled (`RunPipeline`), its reading and upserts are not.
- `print` diagnostics and the `sys.argv` parsing, `int()` conversion and `sys.exit` of
  `main.py`'s `main()`; `ExtractAndReport` models only its extract-and-report part.
- The general date parser (`pd.to_datetime(valor, errors="coerce")`) and
  `pd.to_numeric(errors="coerce")` are parameters: any total function to an optional
  instant or number.
- Coercion.CoerceAmount: only the null case is stated, because the parse of a
  non-null amount is the `to_numeric` parameter.
- NameNormalizer.Decomposition: a table covering Latin-1 Supplement letters, Latin
  Extended-A and the Kelvin and Angstrom signs, not the full Unicode NFD table. Combining
  marks are U+0300..U+036F, not every character of category `Mn`. Lower-casing covers
  ASCII only, which the `[^a-z0-9\s]` removal makes equivalent for every character the
  table leaves undecomposed except the few outside it whose lower case is ASCII.
- Coercion.CoerceDate: the `YYYYMMDD` branch is taken for ASCII digits only. Python's
  `str.isdigit` also accepts other Unicode decimal digits (Arabic-Indic, fullwidth), so
  such a text takes the format branch in the source but the general-parser parameter here.
- ChargePipeline.AlertLedger: a ledger file that exists but holds no line (created
  elsewhere, then appended to with `header=False`) cannot be represented: the model
  ties the file's existence to its having lines.
- `normalizar_nombre` on a non-string, non-null value (a number) is not modelled: the
  typed names are strings or null.
- Amounts are exact reals. Floating-point rounding, infinities and the `{:,.2f}`
  thousands formatting inside alert reasons are not modelled; `MotivoText` takes the
  formatter as a parameter.
- The `ValueError` of `limpiar_nombres_empresas` for missing columns: records always
  have both columns here.
- The CSV layout of the ledger (columns, encoding): a ledger line is the header or one
  alert record.
- `ChargeValidator.Validate` runs one method per stage and joins the four alert
  sequences; the source appends each stage's DataFrame to a list and concatenates it
  once, which gives the same sequence.
- MissingNumber.Primeros100Nat.Extract: a `bool` argument, which Python accepts as an
  `int` and prints as `True`/`False`, is not modelled; `main` only passes `int`s.
- MissingNumber.ExtractAndReport: does not model the exits and messages of `main`
  (`"Error:"` prefix, exit status).
