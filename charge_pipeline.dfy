/** The side of `limpiar_charges` that leaves the function: the alert ledger
    `alertas_charges_invalidos.csv`, appended to on every run, and the final `dropna`.
    Also the order `main` runs the cleaning functions in. */
module ChargePipeline {
  import opened Wrappers
  import opened Seqs
  import opened Coercion
  import opened NameNormalizer
  import opened CompanyResolver
  import opened ChargeValidator

  /** A line of the ledger file: the CSV header, or one alert. */
  datatype LedgerLine = Header | Entry(alert: Alert)

  function ToEntry(a: Alert): LedgerLine {
    Entry(a)
  }

  /** The alerts a ledger holds, in order, without its header: an alert is read back
      exactly when a line holds it. */
  function Entries(lines: seq<LedgerLine>): (alerts: seq<Alert>)
    ensures |alerts| <= |lines|
    ensures forall a :: a in alerts <==> Entry(a) in lines
  {
    if lines == [] then []
    else
      var head := if lines[0].Entry? then [lines[0].alert] else [];
      var alerts := head + Entries(lines[1..]);
      assert forall l :: l in lines <==> l == lines[0] || l in lines[1..];
      assert forall a :: a in alerts <==> a in head || a in Entries(lines[1..]);
      alerts
  }

  /** The lines one run writes: nothing when there are no alerts, otherwise the header
      when the file did not exist yet, then one line per alert. */
  function NewLines(existed: bool, alerts: seq<Alert>): (lines: seq<LedgerLine>)
    ensures lines == [] <==> alerts == []
    ensures Header in lines <==> !existed && alerts != []
    ensures |lines| == (if alerts == [] then 0 else if existed then |alerts| else |alerts| + 1)
  {
    if alerts == [] then [] else (if existed then [] else [Header]) + Map(ToEntry, alerts)
  }

  lemma {:induction false} EntriesConcat(a: seq<LedgerLine>, b: seq<LedgerLine>)
    ensures Entries(a + b) == Entries(a) + Entries(b)
  {
    if a == [] {
      assert a + b == b;
    } else {
      var head := if a[0].Entry? then [a[0].alert] else [];
      assert (a + b)[0] == a[0] && (a + b)[1..] == a[1..] + b;
      assert Entries(a + b) == head + Entries(a[1..] + b);
      EntriesConcat(a[1..], b);
      assert head + (Entries(a[1..]) + Entries(b)) == (head + Entries(a[1..])) + Entries(b);
    }
  }

  lemma {:induction false} EntriesOfAlerts(alerts: seq<Alert>)
    ensures Entries(Map(ToEntry, alerts)) == alerts
  {
    if alerts != [] {
      assert Map(ToEntry, alerts)[1..] == Map(ToEntry, alerts[1..]);
      EntriesOfAlerts(alerts[1..]);
    }
  }

  /** Reading back what one run wrote gives exactly that run's alerts; the header is
      written once, on the line that creates the file. */
  lemma NewLinesRoundTrip(existed: bool, alerts: seq<Alert>)
    ensures Entries(NewLines(existed, alerts)) == alerts
    ensures forall i :: 0 <= i < |NewLines(existed, alerts)| ==>
              (NewLines(existed, alerts)[i] == Header <==> i == 0 && !existed)
  {
    if alerts != [] {
      EntriesOfAlerts(alerts);
      if !existed {
        EntriesConcat([Header], Map(ToEntry, alerts));
        assert Entries([Header]) == [];
      } else {
        assert NewLines(existed, alerts) == Map(ToEntry, alerts);
      }
    }
  }

  /** The ledger file: whether it exists and its lines. */
  class AlertLedger {
    var fileExists: bool
    var lines: seq<LedgerLine>

    /** The file exists once something was written, starts with the header, and holds
        no other header. */
    ghost predicate Valid()
      reads this
    {
      (fileExists <==> lines != [])
      && (lines != [] ==> lines[0] == Header)
      && (forall i :: 0 < i < |lines| ==> lines[i].Entry?)
    }

    /** A ledger whose file does not exist yet. */
    constructor ()
      ensures Valid() && !fileExists && lines == []
    {
      fileExists := false;
      lines := [];
    }

    /** `to_csv(archivo, mode='a', header=not file_exists(archivo))` on a non-empty batch. */
    method Append(alerts: seq<Alert>)
      requires Valid()
      modifies this
      ensures Valid()
      ensures lines == old(lines) + NewLines(old(fileExists), alerts)
      ensures fileExists == (old(fileExists) || alerts != [])
      ensures Entries(lines) == Entries(old(lines)) + alerts
    {
      NewLinesRoundTrip(fileExists, alerts);
      EntriesConcat(lines, NewLines(fileExists, alerts));
      if alerts != [] {
        var header := !fileExists;
        var written := (if header then [Header] else []) + Map(ToEntry, alerts);
        assert written == NewLines(fileExists, alerts);
        assert forall i :: 0 <= i < |alerts| ==> Map(ToEntry, alerts)[i].Entry?;
        lines := lines + written;
        fileExists := true;
      }
    }
  }

  /** The columns the final `dropna` requires. */
  predicate Complete(x: TypedRecord) {
    x.id.Some? && x.companyId.Some? && x.amount.Some? && x.status.Some? && x.createdAt.Some?
  }

  predicate Incomplete(x: TypedRecord) {
    !Complete(x)
  }

  /** Among the rows stages A to D keep, whatever the catalog, the final `dropna`
      removes exactly those without `created_at`: the stages have already checked every
      other required column. */
  lemma DropnaDropsUndated(rows: seq<TypedRecord>, keyed: seq<KeyedCompany>)
    ensures forall x :: x in Stages(rows, keyed).kept ==> (Incomplete(x) <==> x.createdAt.None?)
  {
    StagesOutcome(rows, keyed);
  }

  /** The final `dropna` writes no alert for the rows it removes: with a catalog of
      distinct names, the clean rows, the alerts and these silent drops add up to the
      input. (With a shared name they can add up to more; see
      `SharedNameDuplicatesCharge`.) */
  lemma SilentDrops(rows: seq<TypedRecord>, keyed: seq<KeyedCompany>)
    requires UniqueKeys(keyed)
    ensures forall x :: x in Stages(rows, keyed).kept ==> (Incomplete(x) <==> x.createdAt.None?)
    ensures |Filter(Complete, Stages(rows, keyed).kept)| + |Stages(rows, keyed).alerts|
            + |Filter(Incomplete, Stages(rows, keyed).kept)| == |rows|
  {
    var kept := Stages(rows, keyed).kept;
    DropnaDropsUndated(rows, keyed);
    StagesAccountForEveryRow(rows, keyed);
    FilterPartition(Complete, Incomplete, kept);
    assert |multiset(Filter(Complete, kept))| + |multiset(Filter(Incomplete, kept))|
        == |multiset(kept)|;
  }

  /** `limpiar_charges(df, df_companies)`: normalise the catalog names, run stages A to D,
      append the alerts to the ledger, and drop rows that miss a required column. */
  method CleanCharges(rows: seq<TypedRecord>, catalog: seq<Company>, ledger: AlertLedger)
    returns (clean: seq<TypedRecord>)
    requires ledger.Valid()
    modifies ledger
    ensures ledger.Valid()
    ensures ledger.lines
         == old(ledger.lines)
          + NewLines(old(ledger.fileExists), Stages(rows, KeyedCatalog(catalog)).alerts)
    ensures ledger.fileExists
         == (old(ledger.fileExists) || Stages(rows, KeyedCatalog(catalog)).alerts != [])
    ensures Entries(ledger.lines)
         == Entries(old(ledger.lines)) + Stages(rows, KeyedCatalog(catalog)).alerts
    ensures clean == Filter(Complete, Stages(rows, KeyedCatalog(catalog)).kept)
  {
    var keyed := KeyedCatalog(catalog);
    var survivors, alerts := Validate(rows, keyed);
    ledger.Append(alerts);
    clean := Filter(Complete, survivors);
  }

  lemma KeyedIdsOfCatalog(catalog: seq<Company>)
    ensures KeyedIds(KeyedCatalog(catalog)) == CompanyIds(catalog)
  {
    var keyed := KeyedCatalog(catalog);
    forall id | id in CompanyIds(catalog)
      ensures id in KeyedIds(keyed)
    {
      var i :| 0 <= i < |catalog| && catalog[i].companyId == id;
      assert keyed[i].companyId == id;
    }
  }

  /** Every row the cleaning keeps references a company of the resolved catalog, by a
      40-character id: the charges can be loaded under the companies. */
  lemma CleanRowsReferenceCatalog(typed: seq<TypedRecord>)
    ensures var catalog := Resolve(typed);
            forall x :: x in Filter(Complete, Stages(typed, KeyedCatalog(catalog)).kept) ==>
              Complete(x) && x.companyId.value in CompanyIds(catalog)
              && |x.companyId.value| == IdLength && AmountOk(x) && StatusOk(x)
  {
    var catalog := Resolve(typed);
    var keyed := KeyedCatalog(catalog);
    KeyedIdsOfCatalog(catalog);
    StagesOutcome(typed, keyed);
    forall x | x in Filter(Complete, Stages(typed, keyed).kept)
      ensures x.companyId.value in CompanyIds(catalog)
    {
      var y :| y in typed && FromRow(x, y, keyed);
      if HasCatalogId(y) {
        assert y.companyId.value in GroupIds(typed);
      }
    }
  }

  /** `main`'s cleaning order: `transformar`, then `limpiar_nombres_empresas` on the
      transformed rows, then `limpiar_charges` against the resolved catalog. */
  method RunPipeline(raw: seq<RawRecord>, parse: string -> Option<Instant>,
                     numeric: string -> Option<real>, ledger: AlertLedger)
    returns (companies: seq<Company>, charges: seq<TypedRecord>)
    requires ledger.Valid()
    modifies ledger
    ensures ledger.Valid()
    ensures companies == Resolve(Transform(raw, parse, numeric))
    ensures ledger.lines
         == old(ledger.lines)
          + NewLines(old(ledger.fileExists),
                     Stages(Transform(raw, parse, numeric), KeyedCatalog(companies)).alerts)
    ensures ledger.fileExists
         == (old(ledger.fileExists)
             || Stages(Transform(raw, parse, numeric), KeyedCatalog(companies)).alerts != [])
    ensures Entries(ledger.lines)
         == Entries(old(ledger.lines))
          + Stages(Transform(raw, parse, numeric), KeyedCatalog(companies)).alerts
    ensures charges
         == Filter(Complete, Stages(Transform(raw, parse, numeric), KeyedCatalog(companies)).kept)
    ensures forall x :: x in charges ==>
              Complete(x) && x.companyId.value in CompanyIds(companies)
              && |x.companyId.value| == IdLength && AmountOk(x) && StatusOk(x)
  {
    var typed := Transform(raw, parse, numeric);
    companies := Resolve(typed);
    charges := CleanCharges(typed, companies, ledger);
    CleanRowsReferenceCatalog(typed);
  }

  /** Both companies of a two-row catalog whose names normalise to `k` match `k`. */
  lemma BothMatch(k: string, a: string, b: string)
    ensures MatchingIds(k, [KeyedCompany(a, k), KeyedCompany(b, k)]) == [a, b]
  {
    var keyed := [KeyedCompany(a, k), KeyedCompany(b, k)];
    assert keyed[1..] == [KeyedCompany(b, k)];
    assert [KeyedCompany(b, k)][1..] == [];
    assert MatchingIds(k, [KeyedCompany(b, k)]) == [b] + MatchingIds(k, []);
  }

  /** Two catalog companies whose names normalise to the name of a charge whose
      `company_id` is NULL and whose amount and status are valid: the cleaning keeps the
      charge twice, once per company, and writes no alert for it, so kept rows and
      alerts outnumber the input rows. */
  lemma SharedNameDuplicatesCharge(y: TypedRecord, a: string, b: string)
    requires y.id.Some? && y.companyId.None? && AmountOk(y) && StatusOk(y)
    ensures var out := Stages([y], [KeyedCompany(a, NameKey(y)), KeyedCompany(b, NameKey(y))]);
            multiset(out.kept) == multiset{y.(companyId := Some(a)), y.(companyId := Some(b))}
            && out.alerts == [] && |out.kept| + |out.alerts| == 2
  {
    var keyed := [KeyedCompany(a, NameKey(y)), KeyedCompany(b, NameKey(y))];
    BothMatch(NameKey(y), a, b);
    RepairDuplicates(y, keyed);
    var ids := MatchingIds(NameKey(y), keyed);
    assert ids == [a, b];
    var cands := Candidates(y, keyed);
    assert cands == Map((id: string) => y.(companyId := Some(id)), ids);
    assert cands == [y.(companyId := Some(a)), y.(companyId := Some(b))];
  }
}
