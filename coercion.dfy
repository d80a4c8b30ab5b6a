/** `transformar`: the raw text columns become typed values. Dates go through
    `limpiar_fecha`, amounts through `pd.to_numeric(..., errors="coerce")`; neither ever
    fails, a value that cannot be read becomes missing. */
module Coercion {
  import opened Wrappers
  import opened Seqs
  import opened PyStrings
  import opened Decimal

  /** A proleptic Gregorian calendar date. */
  datatype Date = Date(year: int, month: int, day: int)

  /** A pandas `Timestamp`: a date and the nanoseconds since its midnight. */
  datatype Instant = Instant(date: Date, nanosOfDay: nat)

  /** A row of the raw table, every column as text or NULL, named after the positional
      rename of the ingestion step. */
  datatype RawRecord = RawRecord(
    id: Option<string>,
    nameCompany: Option<string>,
    idCompany: Option<string>,
    amount: Option<string>,
    status: Option<string>,
    createdAt: Option<string>,
    updatedAt: Option<string>)

  /** A row after `transformar`: dates and amount coerced, a missing value as `None`
      (NaN for the amount, NaT for a date). */
  datatype TypedRecord = TypedRecord(
    id: Option<string>,
    companyName: Option<string>,
    companyId: Option<string>,
    amount: Option<real>,
    status: Option<string>,
    createdAt: Option<Instant>,
    updatedAt: Option<Instant>)

  predicate IsLeapYear(y: int) {
    y % 4 == 0 && (y % 100 != 0 || y % 400 == 0)
  }

  function DaysInMonth(y: int, m: int): int
    requires 1 <= m <= 12
  {
    if m == 2 then (if IsLeapYear(y) then 29 else 28)
    else if m == 4 || m == 6 || m == 9 || m == 11 then 30
    else 31
  }

  predicate IsCalendarDate(d: Date) {
    1 <= d.month <= 12 && 1 <= d.day <= DaysInMonth(d.year, d.month)
  }

  predicate DateLe(a: Date, b: Date) {
    a.year < b.year
    || (a.year == b.year && (a.month < b.month || (a.month == b.month && a.day <= b.day)))
  }

  /** The first and last days whose midnight a nanosecond `Timestamp` can hold
      (1677-09-21T00:12:43.145224193 to 2262-04-11T23:47:16.854775807). */
  const EarliestDate := Date(1677, 9, 22)
  const LatestDate := Date(2262, 4, 11)

  /** A date that `pd.to_datetime` can return at midnight rather than coercing to NaT. */
  predicate IsTimestampDate(d: Date) {
    IsCalendarDate(d) && DateLe(EarliestDate, d) && DateLe(d, LatestDate)
  }

  /** `len(valor) == 8 and valor.isdigit()`, with ASCII digits. */
  predicate IsBasicDateText(s: string) {
    |s| == 8 && IsDigitString(s)
  }

  /** The `%Y%m%d` fields of an eight-digit string (ISO 8601:2004, section 4.1.2.2,
      basic format). */
  function BasicDateFields(s: string): Date
    requires IsBasicDateText(s)
  {
    Date(DigitsValue(s[..4]), DigitsValue(s[4..6]), DigitsValue(s[6..]))
  }

  /** `pd.to_datetime(valor, format="%Y%m%d", errors="coerce")`. */
  function ParseBasicDate(s: string): (r: Option<Instant>)
    requires IsBasicDateText(s)
    ensures r.Some? <==> IsTimestampDate(BasicDateFields(s))
    ensures r.Some? ==> r.value.date == BasicDateFields(s) && r.value.nanosOfDay == 0
  {
    var d := BasicDateFields(s);
    if IsTimestampDate(d) then Some(Instant(d, 0)) else None
  }

  /** `d` written as `YYYYMMDD`. */
  function FormatBasicDate(d: Date): (s: string)
    requires 0 <= d.year < 10000 && 0 <= d.month < 100 && 0 <= d.day < 100
    ensures IsBasicDateText(s)
  {
    FixedDigits(d.year, 4) + FixedDigits(d.month, 2) + FixedDigits(d.day, 2)
  }

  /** `str(valor).strip()` followed by the removal of one trailing `.0`. */
  function CleanDateText(raw: string): (t: string)
    ensures Strip(raw) == t || Strip(raw) == t + ".0"
  {
    var v := Strip(raw);
    if |v| >= 2 && v[|v| - 2..] == ".0" then
      assert v == v[..|v| - 2] + v[|v| - 2..];
      v[..|v| - 2]
    else v
  }

  /** `limpiar_fecha(valor)`. The general parser `pd.to_datetime(valor, errors="coerce")`
      is the parameter `parse`. */
  function CoerceDate(v: Option<string>, parse: string -> Option<Instant>): (r: Option<Instant>)
    ensures v.None? ==> r.None?
    ensures v.Some? && IsBasicDateText(CleanDateText(v.value)) ==>
              (r.Some? <==> IsTimestampDate(BasicDateFields(CleanDateText(v.value))))
  {
    match v
    case None => None
    case Some(raw) =>
      var t := CleanDateText(raw);
      if IsBasicDateText(t) then ParseBasicDate(t) else parse(t)
  }

  /** `pd.to_numeric(valor, errors="coerce")` on one cell; the parser is the parameter
      `numeric`, and a NULL cell becomes NaN. */
  function CoerceAmount(v: Option<string>, numeric: string -> Option<real>): (r: Option<real>)
    ensures v.None? ==> r.None?
  {
    match v
    case None => None
    case Some(raw) => numeric(raw)
  }

  /** `TransformRow` with the two coercions fixed, as `apply` takes it. */
  function RowTyper(parse: string -> Option<Instant>, numeric: string -> Option<real>): RawRecord -> TypedRecord {
    (raw: RawRecord) => TransformRow(raw, parse, numeric)
  }

  /** `transformar` on one row: the two name/id columns are renamed, the dates and the
      amount coerced, everything else carried over. */
  function TransformRow(raw: RawRecord, parse: string -> Option<Instant>, numeric: string -> Option<real>): (r: TypedRecord)
    ensures r.id == raw.id && r.status == raw.status
    ensures r.companyName == raw.nameCompany && r.companyId == raw.idCompany
    ensures raw.amount.None? ==> r.amount.None?
    ensures raw.createdAt.None? ==> r.createdAt.None?
    ensures raw.updatedAt.None? ==> r.updatedAt.None?
  {
    TypedRecord(
      raw.id, raw.nameCompany, raw.idCompany,
      CoerceAmount(raw.amount, numeric),
      raw.status,
      CoerceDate(raw.createdAt, parse),
      CoerceDate(raw.updatedAt, parse))
  }

  /** `transformar(df)`: one typed row per raw row, in the same order. */
  function Transform(rows: seq<RawRecord>, parse: string -> Option<Instant>, numeric: string -> Option<real>): (typed: seq<TypedRecord>)
    ensures |typed| == |rows|
    ensures forall i :: 0 <= i < |rows| ==>
              && typed[i].id == rows[i].id
              && typed[i].companyName == rows[i].nameCompany
              && typed[i].companyId == rows[i].idCompany
              && typed[i].status == rows[i].status
              && typed[i].amount == CoerceAmount(rows[i].amount, numeric)
              && typed[i].createdAt == CoerceDate(rows[i].createdAt, parse)
              && typed[i].updatedAt == CoerceDate(rows[i].updatedAt, parse)
  {
    Map(RowTyper(parse, numeric), rows)
  }

  /** Trimming and the `.0` removal leave a digit string alone, and undo one appended `.0`. */
  lemma CleanDigitText(s: string)
    requires s != [] && IsDigitString(s)
    ensures CleanDateText(s) == s
    ensures CleanDateText(s + ".0") == s
  {
    CleanPlainDigits(s);
    CleanFloatDigits(s);
  }

  lemma CleanPlainDigits(s: string)
    requires s != [] && IsDigitString(s)
    ensures CleanDateText(s) == s
  {
    assert !IsSpace(s[0]) && !IsSpace(s[|s| - 1]);
    StripTrimmed(s);
    if |s| >= 2 {
      assert s[|s| - 2] != '.';
      assert s[|s| - 2..][0] == s[|s| - 2];
    }
  }

  lemma CleanFloatDigits(s: string)
    requires s != [] && IsDigitString(s)
    ensures CleanDateText(s + ".0") == s
  {
    var f := s + ".0";
    assert f[0] == s[0] && f[|f| - 1] == '0';
    assert !IsSpace(f[0]) && !IsSpace(f[|f| - 1]);
    StripTrimmed(f);
    assert f[|f| - 2..] == ".0";
    assert f[..|f| - 2] == s;
  }

  /** Every date `pd.to_datetime` can hold at midnight is read back from its `YYYYMMDD`
      text, and from the same text with a trailing `.0` (a float column). */
  lemma BasicDateRoundTrip(d: Date, parse: string -> Option<Instant>)
    requires IsTimestampDate(d)
    ensures CoerceDate(Some(FormatBasicDate(d)), parse) == Some(Instant(d, 0))
    ensures CoerceDate(Some(FormatBasicDate(d) + ".0"), parse) == Some(Instant(d, 0))
  {
    var s := FormatBasicDate(d);
    assert Pow10(4) == 10000 && Pow10(2) == 100;
    FixedDigitsRoundTrip(d.year, 4);
    FixedDigitsRoundTrip(d.month, 2);
    FixedDigitsRoundTrip(d.day, 2);
    assert s[..4] == FixedDigits(d.year, 4);
    assert s[4..6] == FixedDigits(d.month, 2);
    assert s[6..] == FixedDigits(d.day, 2);
    assert BasicDateFields(s) == d;
    CleanDigitText(s);
  }

  /** An eight-digit text is read as a date exactly when it names a representable
      calendar date, and that date prints back as the same text; any other eight-digit
      text (`20190230`, `20191301`) coerces to missing. */
  lemma BasicDateText(s: string, parse: string -> Option<Instant>)
    requires IsBasicDateText(s)
    ensures CoerceDate(Some(s), parse) == ParseBasicDate(s)
    ensures ParseBasicDate(s).Some? ==> FormatBasicDate(ParseBasicDate(s).value.date) == s
  {
    CleanDigitText(s);
    if ParseBasicDate(s).Some? {
      FieldsRoundTrip(s);
    }
  }

  lemma FieldsRoundTrip(s: string)
    requires IsBasicDateText(s)
    ensures FormatBasicDate(BasicDateFields(s)) == s
  {
    var y, m, d := s[..4], s[4..6], s[6..];
    FieldSlices(s);
    calc {
      FormatBasicDate(BasicDateFields(s));
    ==
      FixedDigits(DigitsValue(y), 4) + FixedDigits(DigitsValue(m), 2) + FixedDigits(DigitsValue(d), 2);
    == { DigitsValueRoundTrip(y); DigitsValueRoundTrip(m); DigitsValueRoundTrip(d); }
      y + m + d;
    == { assert s == y + m + d; }
      s;
    }
  }

  /** The three fields of an eight-digit string are digit strings of widths 4, 2, 2. */
  lemma FieldSlices(s: string)
    requires IsBasicDateText(s)
    ensures IsDigitString(s[..4]) && IsDigitString(s[4..6]) && IsDigitString(s[6..])
    ensures |s[..4]| == 4 && |s[4..6]| == 2 && |s[6..]| == 2
  {
    assert forall i :: 0 <= i < 4 ==> s[..4][i] == s[i];
    assert forall i :: 0 <= i < 2 ==> s[4..6][i] == s[4 + i] && s[6..][i] == s[6 + i];
  }

  /** A trailing `.0` does not change how an eight-digit date is read:
      `"20190121.0"` and `"20190121"` give the same value. */
  lemma FloatSuffixIgnored(s: string, parse: string -> Option<Instant>)
    requires IsBasicDateText(s)
    ensures CoerceDate(Some(s + ".0"), parse) == CoerceDate(Some(s), parse)
  {
    CleanDigitText(s);
  }

  /** `transformar` works row by row: transforming two batches one after the other is
      transforming their concatenation. */
  lemma TransformConcat(a: seq<RawRecord>, b: seq<RawRecord>,
                        parse: string -> Option<Instant>, numeric: string -> Option<real>)
    ensures Transform(a + b, parse, numeric) == Transform(a, parse, numeric) + Transform(b, parse, numeric)
  {
    MapConcat(RowTyper(parse, numeric), a, b);
  }

  /** A `created_at` stored as `YYYYMMDD` text, or as that text with a trailing `.0`,
      comes out of `transformar` as midnight of that date whenever pandas can hold it. */
  lemma TransformReadsBasicDates(raw: RawRecord, d: Date,
                                 parse: string -> Option<Instant>, numeric: string -> Option<real>)
    requires IsTimestampDate(d)
    requires raw.createdAt == Some(FormatBasicDate(d))
          || raw.createdAt == Some(FormatBasicDate(d) + ".0")
    ensures Transform([raw], parse, numeric)[0].createdAt == Some(Instant(d, 0))
  {
    BasicDateRoundTrip(d, parse);
  }
}
