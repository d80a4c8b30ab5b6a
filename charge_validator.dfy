/** `limpiar_charges`: the ordered validation of the charges. Stage A drops rows without
    an `id`; stage B keeps rows with a 40-character `company_id` and tries to repair the
    others through the normalised company name; stage C bounds the amount to what
    DECIMAL(16,2) holds; stage D checks the status. Each stage moves the rows it rejects
    to the alert list with a `motivo`; the alerts are appended to a ledger and a final
    `dropna` removes rows that still miss a required column. */
module ChargeValidator {
  import opened Wrappers
  import opened Seqs
  import opened Coercion
  import opened NameNormalizer
  import opened CompanyResolver

  /** `STATUS_VALIDOS`. */
  const ValidStatuses: set<string> := {
    "expired", "paid", "voided", "pending_payment",
    "partially_refunded", "pre_authorized", "charged_back", "refunded"
  }

  /** `MAX_DECIMAL_16_2`, the largest magnitude a DECIMAL(16,2) column holds. */
  const MaxDecimal16_2: real := 99999999999999.99

  /** The reason (`motivo`) an alert records. */
  datatype Motivo =
    | NullId
    | NameNotInCatalog
    | BadIdLength
    | AmountMissing
    | AmountTooLarge(amount: real)
    | AmountTooSmall(amount: real)
    | AmountInvalid
    | StatusInvalid(status: Option<string>)

  /** A rejected row with its reason. Rows rejected in stage B also carry the
      `company_name_norm` column the join added. */
  datatype Alert = Alert(rec: TypedRecord, nameKey: Option<string>, motivo: Motivo)

  /** `part` occurs in `text`. */
  predicate Contains(text: string, part: string) {
    exists i, j :: 0 <= i <= j <= |text| && text[i..j] == part
  }

  /** The text of a `motivo`; `fmt` writes an amount with thousands separators and two
      decimals. An amount or a status that failed its check is written into the text. */
  function MotivoText(m: Motivo, fmt: real -> string): (text: string)
    ensures (m.AmountTooLarge? || m.AmountTooSmall?) ==> Contains(text, fmt(m.amount))
    ensures m.StatusInvalid? && m.status.Some? ==> Contains(text, m.status.value)
  {
    match m
    case NullId => "ID de transacción nulo"
    case NameNotInCatalog => "company_id inválido " + "y nombre no encontrado en catálogo"
    case BadIdLength => "company_id inválido " + "(longitud ≠ 40)"
    case AmountMissing => "amount es nulo o NaN"
    case AmountTooLarge(a) => Enclosed("amount excede DECIMAL(16,2) (positivo: ", fmt(a), ")")
    case AmountTooSmall(a) => Enclosed("amount excede DECIMAL(16,2) (negativo: ", fmt(a), ")")
    case AmountInvalid => "amount inválido"
    case StatusInvalid(s) =>
      Enclosed("status inválido o desconocido: '", match s case Some(v) => v case None => "None", "'")
  }

  function Enclosed(pre: string, part: string, post: string): (text: string)
    ensures |text| >= |pre| && text[..|pre|] == pre
    ensures Contains(text, part)
  {
    assert (pre + part + post)[|pre|..|pre| + |part|] == part;
    pre + part + post
  }

  /** Which of the eight reasons `m` is, whatever amount or status it carries. */
  function MotivoKind(m: Motivo): nat {
    match m
    case NullId => 0
    case NameNotInCatalog => 1
    case BadIdLength => 2
    case AmountMissing => 3
    case AmountTooLarge(_) => 4
    case AmountTooSmall(_) => 5
    case AmountInvalid => 6
    case StatusInvalid(_) => 7
  }

  /** The ledger's `motivo` column tells the reasons apart: two different reasons never
      share a text, whatever amounts, statuses and formatting they carry. */
  lemma MotivoTextsDistinct(m1: Motivo, m2: Motivo, fmt: real -> string)
    requires MotivoKind(m1) != MotivoKind(m2)
    ensures MotivoText(m1, fmt) != MotivoText(m2, fmt)
  {
    if MotivoText(m1, fmt) == MotivoText(m2, fmt) {
      MotivoTextMarks(m1, fmt);
      MotivoTextMarks(m2, fmt);
      MarksDetermineKind(MotivoText(m1, fmt), MotivoKind(m1), MotivoKind(m2));
    }
  }

  /** A few characters of the text of a reason of kind `k` that set it apart. */
  predicate HasMarks(t: string, k: nat) {
    && |t| >= 15
    && t[0] == (if k == 0 then 'I' else if k <= 2 then 'c' else if k <= 6 then 'a' else 's')
    && (k == 1 || k == 2 ==> |t| > 20 && t[20] == (if k == 1 then 'y' else '('))
    && (3 <= k <= 6 ==> t[8] == (if k == 3 then 's' else if k == 6 then 'n' else 'x'))
    && (k == 4 || k == 5 ==> |t| > 29 && t[29] == (if k == 4 then 'p' else 'n'))
    && k <= 7
  }

  lemma MarksDetermineKind(t: string, k1: nat, k2: nat)
    requires HasMarks(t, k1) && HasMarks(t, k2)
    ensures k1 == k2
  {
  }

  lemma MotivoTextMarks(m: Motivo, fmt: real -> string)
    ensures HasMarks(MotivoText(m, fmt), MotivoKind(m))
  {
    var t := MotivoText(m, fmt);
    match m
    case NullId =>
      assert t == "ID de transacción nulo";
    case NameNotInCatalog =>
      CatalogTextMarks(fmt);
    case BadIdLength =>
      BadIdTextMarks(fmt);
    case AmountMissing =>
      assert t == "amount es nulo o NaN";
    case AmountTooLarge(a) =>
      EnclosedMarks(t, "amount excede DECIMAL(16,2) (positivo: ", 4);
    case AmountTooSmall(a) =>
      EnclosedMarks(t, "amount excede DECIMAL(16,2) (negativo: ", 5);
    case AmountInvalid =>
      assert t == "amount inválido";
    case StatusInvalid(_) =>
      EnclosedMarks(t, "status inválido o desconocido: '", 7);
  }

  lemma CatalogTextMarks(fmt: real -> string)
    ensures HasMarks(MotivoText(NameNotInCatalog, fmt), 1)
  {
    var t, pre := MotivoText(NameNotInCatalog, fmt), "company_id inválido ";
    assert t[0] == pre[0] && t[20] == 'y';
  }

  lemma BadIdTextMarks(fmt: real -> string)
    ensures HasMarks(MotivoText(BadIdLength, fmt), 2)
  {
    var t, pre := MotivoText(BadIdLength, fmt), "company_id inválido ";
    assert t[0] == pre[0] && t[20] == '(';
  }

  /** A text that starts with the marked prefix `pre` carries its marks. */
  lemma EnclosedMarks(t: string, pre: string, k: nat)
    requires |t| >= |pre| && t[..|pre|] == pre && HasMarks(pre, k)
    ensures HasMarks(t, k)
  {
    assert forall i :: 0 <= i < |pre| ==> t[i] == pre[i];
  }

  /** What is left of a batch after some stages, and what they rejected. */
  datatype Split = Split(kept: seq<TypedRecord>, alerts: seq<Alert>)

  function Join(x: Split, y: Split): Split {
    Split(x.kept + y.kept, x.alerts + y.alerts)
  }

  /** The same rows and the same alerts, each as often, in whatever order. */
  predicate SameSplit(x: Split, y: Split) {
    multiset(x.kept) == multiset(y.kept) && multiset(x.alerts) == multiset(y.alerts)
  }

  // ---------------------------------------------------------------- stage A

  predicate HasId(r: TypedRecord) {
    r.id.Some?
  }

  predicate LacksId(r: TypedRecord) {
    r.id.None?
  }

  function NullIdAlert(r: TypedRecord): Alert {
    Alert(r, None, NullId)
  }

  /** Stage A: rows without `id` are alerted. */
  function StageA(s: seq<TypedRecord>): (a: Split)
    ensures |a.kept| + |a.alerts| == |s|
  {
    FilterSizes(HasId, LacksId, s);
    Split(Filter(HasId, s), Map(NullIdAlert, Filter(LacksId, s)))
  }

  // ---------------------------------------------------------------- stage B

  /** A row whose `company_id` must be repaired: NULL or not 40 characters long. */
  predicate IsDoubtful(r: TypedRecord) {
    !HasCatalogId(r)
  }

  /** `company_name_norm` of a charge. */
  function NameKey(r: TypedRecord): string {
    Normalize(r.companyName)
  }

  /** A catalog row with its `company_name_norm` column. */
  datatype KeyedCompany = KeyedCompany(companyId: string, key: string)

  /** `df_companies_norm`: the catalog with each name normalised. */
  function KeyedCatalog(catalog: seq<Company>): (keyed: seq<KeyedCompany>)
    ensures |keyed| == |catalog|
    ensures forall i :: 0 <= i < |catalog| ==>
              keyed[i] == KeyedCompany(catalog[i].companyId, Normalize(Some(catalog[i].companyName)))
  {
    Map((c: Company) => KeyedCompany(c.companyId, Normalize(Some(c.companyName))), catalog)
  }

  function KeyedIds(keyed: seq<KeyedCompany>): set<string> {
    set k | k in keyed :: k.companyId
  }

  /** The ids of the catalog companies whose normalised name is `key`, in catalog
      order: the right-hand rows the left merge pairs with a row of that key. */
  function MatchingIds(key: string, keyed: seq<KeyedCompany>): (ids: seq<string>)
    ensures forall id :: id in ids ==> id in KeyedIds(keyed)
    ensures ids == [] <==> forall k :: k in keyed ==> k.key != key
  {
    if keyed == [] then []
    else
      assert forall k :: k in keyed ==> k == keyed[0] || k in keyed[1..];
      (if keyed[0].key == key then [keyed[0].companyId] else []) + MatchingIds(key, keyed[1..])
  }

  /** An id is paired with `key` exactly when a catalog company with that id has that
      normalised name. */
  lemma {:induction false} MatchingIdsExact(key: string, keyed: seq<KeyedCompany>)
    ensures forall id :: id in MatchingIds(key, keyed) <==> KeyedCompany(id, key) in keyed
  {
    if keyed != [] {
      MatchingIdsExact(key, keyed[1..]);
      assert forall k :: k in keyed <==> k == keyed[0] || k in keyed[1..];
    }
  }

  /** The rows the merge makes of a doubtful row `r`: one copy per matching company,
      carrying that company's id. */
  function Candidates(r: TypedRecord, keyed: seq<KeyedCompany>): (cands: seq<TypedRecord>)
    ensures |cands| == |MatchingIds(NameKey(r), keyed)|
    ensures forall x :: x in cands ==>
              x.companyId.Some? && x.companyId.value in MatchingIds(NameKey(r), keyed)
              && x == r.(companyId := x.companyId)
  {
    Map((id: string) => r.(companyId := Some(id)), MatchingIds(NameKey(r), keyed))
  }

  /** The copies come in catalog order: the `i`-th carries the `i`-th matching id. */
  lemma CandidatesInOrder(r: TypedRecord, keyed: seq<KeyedCompany>)
    ensures forall i :: 0 <= i < |Candidates(r, keyed)| ==>
              Candidates(r, keyed)[i] == r.(companyId := Some(MatchingIds(NameKey(r), keyed)[i]))
  {
  }

  /** `df_corregidos_validos`: the repaired rows, in the order of the doubtful rows. */
  function Repairs(doubtful: seq<TypedRecord>, keyed: seq<KeyedCompany>): seq<TypedRecord> {
    if doubtful == [] then []
    else Candidates(doubtful[0], keyed) + Repairs(doubtful[1..], keyed)
  }

  /** The reason for a doubtful row no catalog name matches. */
  function UnmatchedAlert(r: TypedRecord): Alert {
    Alert(r, Some(NameKey(r)), if r.companyId.None? then NameNotInCatalog else BadIdLength)
  }

  /** `df_no_corregidos` with its `motivo`. */
  function Unmatched(doubtful: seq<TypedRecord>, keyed: seq<KeyedCompany>): seq<Alert> {
    if doubtful == [] then []
    else
      UnmatchedHead(doubtful[0], keyed) + Unmatched(doubtful[1..], keyed)
  }

  /** Every copy of every doubtful row under every matching id is repaired, and every
      repaired row is such a copy. */
  lemma RepairsMembers(d: seq<TypedRecord>, keyed: seq<KeyedCompany>)
    ensures forall y, id :: y in d && id in MatchingIds(NameKey(y), keyed) ==>
              y.(companyId := Some(id)) in Repairs(d, keyed)
    ensures forall x :: x in Repairs(d, keyed) ==>
              exists y :: y in d && x.companyId.Some?
                && x.companyId.value in MatchingIds(NameKey(y), keyed)
                && x == y.(companyId := x.companyId)
  {
    RepairsCover(d, keyed);
    RepairsFrom(d, keyed);
  }

  lemma {:induction false} RepairsCover(d: seq<TypedRecord>, keyed: seq<KeyedCompany>)
    ensures forall y, id :: y in d && id in MatchingIds(NameKey(y), keyed) ==>
              y.(companyId := Some(id)) in Repairs(d, keyed)
  {
    if d != [] {
      RepairsCover(d[1..], keyed);
      var c := Candidates(d[0], keyed);
      assert Repairs(d, keyed) == c + Repairs(d[1..], keyed);
      forall y, id | y in d && id in MatchingIds(NameKey(y), keyed)
        ensures y.(companyId := Some(id)) in Repairs(d, keyed)
      {
        if y == d[0] {
          var ids := MatchingIds(NameKey(y), keyed);
          CandidatesInOrder(y, keyed);
          var i :| 0 <= i < |ids| && ids[i] == id;
          assert c[i] == y.(companyId := Some(id));
        } else {
          assert y in d[1..];
        }
      }
    }
  }

  lemma {:induction false} RepairsFrom(d: seq<TypedRecord>, keyed: seq<KeyedCompany>)
    ensures forall x :: x in Repairs(d, keyed) ==>
              exists y :: y in d && x.companyId.Some?
                && x.companyId.value in MatchingIds(NameKey(y), keyed)
                && x == y.(companyId := x.companyId)
  {
    if d != [] {
      RepairsFrom(d[1..], keyed);
      var c := Candidates(d[0], keyed);
      assert Repairs(d, keyed) == c + Repairs(d[1..], keyed);
      forall x | x in Repairs(d, keyed)
        ensures exists y :: y in d && x.companyId.Some?
                  && x.companyId.value in MatchingIds(NameKey(y), keyed)
                  && x == y.(companyId := x.companyId)
      {
        if x in c {
          assert d[0] in d;
        } else {
          var y :| y in d[1..] && x.companyId.Some?
                   && x.companyId.value in MatchingIds(NameKey(y), keyed)
                   && x == y.(companyId := x.companyId);
          assert y in d;
        }
      }
    }
  }

  /** Exactly the doubtful rows no catalog name matches are alerted, each with the
      reason its `company_id` calls for. */
  lemma {:induction false} UnmatchedMembers(d: seq<TypedRecord>, keyed: seq<KeyedCompany>)
    ensures forall y :: y in d && MatchingIds(NameKey(y), keyed) == [] ==>
              UnmatchedAlert(y) in Unmatched(d, keyed)
    ensures forall a :: a in Unmatched(d, keyed) ==>
              a.rec in d && MatchingIds(NameKey(a.rec), keyed) == [] && a == UnmatchedAlert(a.rec)
  {
    if d != [] {
      UnmatchedMembers(d[1..], keyed);
    }
  }

  /** Stage B. The rows with a valid `company_id` come first, untouched and in order;
      the repaired rows follow them (see `StageBOutcome`). */
  function StageB(s: seq<TypedRecord>, keyed: seq<KeyedCompany>): (b: Split)
    ensures |Filter(HasCatalogId, s)| <= |b.kept|
    ensures b.kept[..|Filter(HasCatalogId, s)|] == Filter(HasCatalogId, s)
  {
    var doubtful := Filter(IsDoubtful, s);
    Split(Filter(HasCatalogId, s) + Repairs(doubtful, keyed), Unmatched(doubtful, keyed))
  }

  /** After the untouched valid rows, stage B keeps every copy of a doubtful row under
      the id of a catalog company with its normalised name, and nothing else. It alerts
      the doubtful rows no catalog name matches, and nothing else. */
  lemma StageBOutcome(s: seq<TypedRecord>, keyed: seq<KeyedCompany>)
    ensures forall y, id :: y in s && IsDoubtful(y) && id in MatchingIds(NameKey(y), keyed) ==>
              y.(companyId := Some(id)) in StageB(s, keyed).kept[|Filter(HasCatalogId, s)|..]
    ensures forall x :: x in StageB(s, keyed).kept[|Filter(HasCatalogId, s)|..] ==>
              exists y :: y in s && IsDoubtful(y) && FromRow(x, y, keyed)
    ensures forall y :: y in s && IsDoubtful(y) && MatchingIds(NameKey(y), keyed) == [] ==>
              UnmatchedAlert(y) in StageB(s, keyed).alerts
    ensures forall a :: a in StageB(s, keyed).alerts ==>
              a.rec in s && IsDoubtful(a.rec) && MatchingIds(NameKey(a.rec), keyed) == []
              && a == UnmatchedAlert(a.rec)
  {
    var valid := Filter(HasCatalogId, s);
    var doubtful := Filter(IsDoubtful, s);
    RepairsMembers(doubtful, keyed);
    UnmatchedMembers(doubtful, keyed);
    var b := StageB(s, keyed);
    assert b.kept[|valid|..] == Repairs(doubtful, keyed);
  }

  // ---------------------------------------------------------------- stage C

  function Abs(x: real): real {
    if x < 0.0 then -x else x
  }

  predicate AmountOk(r: TypedRecord) {
    r.amount.Some? && Abs(r.amount.value) <= MaxDecimal16_2
  }

  predicate AmountBad(r: TypedRecord) {
    !AmountOk(r)
  }

  /** `get_motivo_amount`. Its last branch, "amount inválido", is taken by no amount that
      fails the check. */
  function AmountMotivo(a: Option<real>): (m: Motivo)
    ensures a.None? ==> m == AmountMissing
    ensures a.Some? && Abs(a.value) > MaxDecimal16_2 ==>
              m == (if a.value > 0.0 then AmountTooLarge(a.value) else AmountTooSmall(a.value))
  {
    if a.None? then AmountMissing
    else if a.value > MaxDecimal16_2 then AmountTooLarge(a.value)
    else if a.value < -MaxDecimal16_2 then AmountTooSmall(a.value)
    else AmountInvalid
  }

  function AmountAlert(r: TypedRecord): Alert {
    Alert(r, None, AmountMotivo(r.amount))
  }

  /** Stage C. */
  function StageC(s: seq<TypedRecord>): (c: Split)
    ensures |c.kept| + |c.alerts| == |s|
  {
    FilterSizes(AmountOk, AmountBad, s);
    Split(Filter(AmountOk, s), Map(AmountAlert, Filter(AmountBad, s)))
  }

  // ---------------------------------------------------------------- stage D

  predicate StatusOk(r: TypedRecord) {
    r.status.Some? && r.status.value in ValidStatuses
  }

  predicate StatusBad(r: TypedRecord) {
    !StatusOk(r)
  }

  function StatusAlert(r: TypedRecord): Alert {
    Alert(r, None, StatusInvalid(r.status))
  }

  /** Stage D. */
  function StageD(s: seq<TypedRecord>): (d: Split)
    ensures |d.kept| + |d.alerts| == |s|
  {
    FilterSizes(StatusOk, StatusBad, s);
    Split(Filter(StatusOk, s), Map(StatusAlert, Filter(StatusBad, s)))
  }

  /** Stages A to D in order, each on what the previous one kept; the alerts in stage
      order, as `pd.concat(alertas)` lists them. */
  function Stages(rows: seq<TypedRecord>, keyed: seq<KeyedCompany>): Split {
    var a := StageA(rows);
    var b := StageB(a.kept, keyed);
    var c := StageC(b.kept);
    var d := StageD(c.kept);
    Split(d.kept, a.alerts + b.alerts + c.alerts + d.alerts)
  }

  // ------------------------------------------- the rules, one row at a time

  /** A row that got past stages A and B: an `id`, and a `company_id` that is either
      40 characters long or taken from the catalog. */
  predicate ResolvedCompany(r: TypedRecord, keyed: seq<KeyedCompany>) {
    r.id.Some? && r.companyId.Some? && (HasCatalogId(r) || r.companyId.value in KeyedIds(keyed))
  }

  /** A row that meets every rule. */
  predicate Passes(r: TypedRecord, keyed: seq<KeyedCompany>) {
    ResolvedCompany(r, keyed) && AmountOk(r) && StatusOk(r)
  }

  /** The alert names the first rule, in the order A, B, C, D, that its row breaks,
      and the row met every rule before that one. */
  predicate Explained(a: Alert, keyed: seq<KeyedCompany>) {
    match a.motivo
    case NullId => a.rec.id.None? && a.nameKey.None?
    case NameNotInCatalog =>
      a.rec.id.Some? && a.rec.companyId.None?
      && a.nameKey == Some(NameKey(a.rec)) && MatchingIds(NameKey(a.rec), keyed) == []
    case BadIdLength =>
      a.rec.id.Some? && a.rec.companyId.Some? && |a.rec.companyId.value| != IdLength
      && a.nameKey == Some(NameKey(a.rec)) && MatchingIds(NameKey(a.rec), keyed) == []
    case AmountMissing =>
      ResolvedCompany(a.rec, keyed) && a.rec.amount.None? && a.nameKey.None?
    case AmountTooLarge(v) =>
      ResolvedCompany(a.rec, keyed) && a.rec.amount == Some(v) && v > MaxDecimal16_2
      && a.nameKey.None?
    case AmountTooSmall(v) =>
      ResolvedCompany(a.rec, keyed) && a.rec.amount == Some(v) && v < -MaxDecimal16_2
      && a.nameKey.None?
    case AmountInvalid => false
    case StatusInvalid(s) =>
      ResolvedCompany(a.rec, keyed) && AmountOk(a.rec) && a.rec.status == s
      && !StatusOk(a.rec) && a.nameKey.None?
  }

  /** Stages C and D on one row that got past stage B. */
  function CheckRest(x: TypedRecord): Split {
    if !AmountOk(x) then Split([], [AmountAlert(x)])
    else if !StatusOk(x) then Split([], [StatusAlert(x)])
    else Split([x], [])
  }

  /** Stages C and D on each of several rows. */
  function CheckAll(s: seq<TypedRecord>): Split
  {
    if s == [] then Split([], []) else Join(CheckRest(s[0]), CheckAll(s[1..]))
  }

  /** Every row `CheckAll` keeps meets stages C and D; every alert names the first of
      the two its row breaks; no row is lost or duplicated. */
  lemma {:induction false} CheckAllOutcome(s: seq<TypedRecord>)
    ensures forall x :: x in CheckAll(s).kept ==> x in s && AmountOk(x) && StatusOk(x)
    ensures forall a :: a in CheckAll(s).alerts ==>
              a.rec in s && a.nameKey.None?
              && ((!AmountOk(a.rec) && a.motivo == AmountMotivo(a.rec.amount))
                  || (AmountOk(a.rec) && !StatusOk(a.rec) && a.motivo == StatusInvalid(a.rec.status)))
    ensures |CheckAll(s).kept| + |CheckAll(s).alerts| == |s|
  {
    if s != [] {
      CheckAllOutcome(s[1..]);
    }
  }

  /** `x` is what the rules keep of input row `y`: `y` itself when its `company_id`
      was valid, otherwise `y` with the id of a catalog company of the same
      normalised name. */
  predicate FromRow(x: TypedRecord, y: TypedRecord, keyed: seq<KeyedCompany>) {
    if HasCatalogId(y) then x == y
    else x.companyId.Some? && x.companyId.value in MatchingIds(NameKey(y), keyed)
         && x == y.(companyId := x.companyId)
  }

  /** Where one input row ends up when the rules are applied to it alone, in order:
      alerted at the first rule it breaks, otherwise kept (as one copy per matching
      catalog company when its `company_id` had to be repaired). */
  function Route(y: TypedRecord, keyed: seq<KeyedCompany>): (r: Split)
    ensures forall x :: x in r.kept ==> Passes(x, keyed) && FromRow(x, y, keyed)
    ensures forall a :: a in r.alerts ==> Explained(a, keyed) && Origin(a.rec, y, keyed)
    ensures |MatchingIds(NameKey(y), keyed)| <= 1 ==> |r.kept| + |r.alerts| == 1
  {
    if y.id.None? then Split([], [NullIdAlert(y)])
    else if HasCatalogId(y) then CheckRest(y)
    else if MatchingIds(NameKey(y), keyed) == [] then Split([], [UnmatchedAlert(y)])
    else
      CandidatesOutcome(y, keyed);
      CheckAll(Candidates(y, keyed))
  }

  /** The repaired copies of a row with an `id` either pass or are explained. */
  lemma CandidatesOutcome(y: TypedRecord, keyed: seq<KeyedCompany>)
    requires y.id.Some? && !HasCatalogId(y)
    ensures forall x :: x in CheckAll(Candidates(y, keyed)).kept ==>
              Passes(x, keyed) && FromRow(x, y, keyed)
    ensures forall a :: a in CheckAll(Candidates(y, keyed)).alerts ==>
              Explained(a, keyed) && FromRow(a.rec, y, keyed)
    ensures |CheckAll(Candidates(y, keyed)).kept| + |CheckAll(Candidates(y, keyed)).alerts|
         == |MatchingIds(NameKey(y), keyed)|
  {
    CandidatesKept(y, keyed);
    CandidatesAlerted(y, keyed);
    CheckAllOutcome(Candidates(y, keyed));
  }

  lemma CandidatesKept(y: TypedRecord, keyed: seq<KeyedCompany>)
    requires y.id.Some? && !HasCatalogId(y)
    ensures forall x :: x in CheckAll(Candidates(y, keyed)).kept ==>
              Passes(x, keyed) && FromRow(x, y, keyed)
  {
    CheckAllOutcome(Candidates(y, keyed));
    CandidatesFrom(y, keyed);
  }

  lemma CandidatesAlerted(y: TypedRecord, keyed: seq<KeyedCompany>)
    requires y.id.Some? && !HasCatalogId(y)
    ensures forall a :: a in CheckAll(Candidates(y, keyed)).alerts ==>
              Explained(a, keyed) && FromRow(a.rec, y, keyed)
  {
    var cands := Candidates(y, keyed);
    CheckAllOutcome(cands);
    CandidatesFrom(y, keyed);
    forall a | a in CheckAll(cands).alerts
      ensures Explained(a, keyed)
    {
      assert a.rec in cands;
    }
  }

  /** Every repaired copy of a row with an `id` has a resolved company and comes from
      that row. */
  lemma CandidatesFrom(y: TypedRecord, keyed: seq<KeyedCompany>)
    requires y.id.Some? && !HasCatalogId(y)
    ensures forall x :: x in Candidates(y, keyed) ==> ResolvedCompany(x, keyed) && FromRow(x, y, keyed)
  {
  }

  /** The row an alert is about is input row `y` itself, or a repaired copy of it. */
  predicate Origin(x: TypedRecord, y: TypedRecord, keyed: seq<KeyedCompany>) {
    x == y || FromRow(x, y, keyed)
  }

  /** `Route` on every row. */
  function RouteAll(rows: seq<TypedRecord>, keyed: seq<KeyedCompany>): (r: Split)
    ensures forall x :: x in r.kept ==> Passes(x, keyed) && exists y :: y in rows && FromRow(x, y, keyed)
    ensures forall a :: a in r.alerts ==>
              Explained(a, keyed) && exists y :: y in rows && Origin(a.rec, y, keyed)
    ensures (forall y :: y in rows ==> |MatchingIds(NameKey(y), keyed)| <= 1) ==>
              |r.kept| + |r.alerts| == |rows|
  {
    if rows == [] then Split([], []) else Join(Route(rows[0], keyed), RouteAll(rows[1..], keyed))
  }
  // ------------------------------- the stages agree with the per-row rules

  /** Stages C and D on a sequence of rows. */
  function StagesCD(s: seq<TypedRecord>): Split {
    var c := StageC(s);
    var d := StageD(c.kept);
    Split(d.kept, c.alerts + d.alerts)
  }

  /** Stages B, C and D on what stage A kept. */
  function StagesBCD(h: seq<TypedRecord>, keyed: seq<KeyedCompany>): Split {
    var b := StageB(h, keyed);
    var t := StagesCD(b.kept);
    Split(t.kept, b.alerts + t.alerts)
  }

  lemma StagesLayered(rows: seq<TypedRecord>, keyed: seq<KeyedCompany>)
    ensures Stages(rows, keyed)
         == Split(StagesBCD(StageA(rows).kept, keyed).kept,
                  StageA(rows).alerts + StagesBCD(StageA(rows).kept, keyed).alerts)
  {
    StagesUnfold(rows, keyed);
    StagesBCDUnfold(StageA(rows).kept, keyed);
    AppendAssoc4(StageA(rows).alerts, StageB(StageA(rows).kept, keyed).alerts,
                 StageC(StageB(StageA(rows).kept, keyed).kept).alerts,
                 StageD(StageC(StageB(StageA(rows).kept, keyed).kept).kept).alerts);
  }

  lemma AppendAssoc4(a: seq<Alert>, b: seq<Alert>, c: seq<Alert>, d: seq<Alert>)
    ensures a + b + c + d == a + (b + (c + d))
  {
  }

  lemma StagesUnfold(rows: seq<TypedRecord>, keyed: seq<KeyedCompany>)
    ensures Stages(rows, keyed).kept
         == StageD(StageC(StageB(StageA(rows).kept, keyed).kept).kept).kept
    ensures Stages(rows, keyed).alerts
         == StageA(rows).alerts + StageB(StageA(rows).kept, keyed).alerts
          + StageC(StageB(StageA(rows).kept, keyed).kept).alerts
          + StageD(StageC(StageB(StageA(rows).kept, keyed).kept).kept).alerts
  {
  }

  lemma StagesBCDUnfold(h: seq<TypedRecord>, keyed: seq<KeyedCompany>)
    ensures StagesBCD(h, keyed).kept == StageD(StageC(StageB(h, keyed).kept).kept).kept
    ensures StagesBCD(h, keyed).alerts
         == StageB(h, keyed).alerts
          + (StageC(StageB(h, keyed).kept).alerts + StageD(StageC(StageB(h, keyed).kept).kept).alerts)
  {
  }

  lemma {:induction false} RepairsConcat(s: seq<TypedRecord>, t: seq<TypedRecord>, keyed: seq<KeyedCompany>)
    ensures Repairs(s + t, keyed) == Repairs(s, keyed) + Repairs(t, keyed)
  {
    if s == [] {
      assert s + t == t;
    } else {
      var c := Candidates(s[0], keyed);
      calc {
        Repairs(s + t, keyed);
      == { RepairsCons(s, t, keyed); }
        c + Repairs(s[1..] + t, keyed);
      == { RepairsConcat(s[1..], t, keyed); }
        c + (Repairs(s[1..], keyed) + Repairs(t, keyed));
      == { AppendAssoc(c, Repairs(s[1..], keyed), Repairs(t, keyed)); }
        (c + Repairs(s[1..], keyed)) + Repairs(t, keyed);
      == { RepairsCons(s, t, keyed); }
        Repairs(s, keyed) + Repairs(t, keyed);
      }
    }
  }

  lemma RepairsCons(s: seq<TypedRecord>, t: seq<TypedRecord>, keyed: seq<KeyedCompany>)
    requires s != []
    ensures Repairs(s + t, keyed) == Candidates(s[0], keyed) + Repairs(s[1..] + t, keyed)
    ensures Repairs(s, keyed) == Candidates(s[0], keyed) + Repairs(s[1..], keyed)
  {
    assert (s + t)[0] == s[0] && (s + t)[1..] == s[1..] + t;
  }

  lemma AppendAssoc<T>(a: seq<T>, b: seq<T>, c: seq<T>)
    ensures a + (b + c) == a + b + c
  {
  }

  lemma {:induction false} UnmatchedConcat(s: seq<TypedRecord>, t: seq<TypedRecord>, keyed: seq<KeyedCompany>)
    ensures Unmatched(s + t, keyed) == Unmatched(s, keyed) + Unmatched(t, keyed)
  {
    if s == [] {
      assert s + t == t;
    } else {
      var h := UnmatchedHead(s[0], keyed);
      calc {
        Unmatched(s + t, keyed);
      == { UnmatchedCons(s, t, keyed); }
        h + Unmatched(s[1..] + t, keyed);
      == { UnmatchedConcat(s[1..], t, keyed); }
        h + (Unmatched(s[1..], keyed) + Unmatched(t, keyed));
      == { AppendAssoc(h, Unmatched(s[1..], keyed), Unmatched(t, keyed)); }
        (h + Unmatched(s[1..], keyed)) + Unmatched(t, keyed);
      == { UnmatchedCons(s, t, keyed); }
        Unmatched(s, keyed) + Unmatched(t, keyed);
      }
    }
  }

  /** The alert, if any, that `Unmatched` raises for one doubtful row. */
  function UnmatchedHead(y: TypedRecord, keyed: seq<KeyedCompany>): seq<Alert> {
    if MatchingIds(NameKey(y), keyed) == [] then [UnmatchedAlert(y)] else []
  }

  lemma UnmatchedCons(s: seq<TypedRecord>, t: seq<TypedRecord>, keyed: seq<KeyedCompany>)
    requires s != []
    ensures Unmatched(s + t, keyed) == UnmatchedHead(s[0], keyed) + Unmatched(s[1..] + t, keyed)
    ensures Unmatched(s, keyed) == UnmatchedHead(s[0], keyed) + Unmatched(s[1..], keyed)
  {
    assert (s + t)[0] == s[0] && (s + t)[1..] == s[1..] + t;
  }

  lemma StagesCDConcat(s: seq<TypedRecord>, t: seq<TypedRecord>)
    ensures SameSplit(StagesCD(s + t), Join(StagesCD(s), StagesCD(t)))
  {
    FilterConcat(AmountOk, s, t);
    FilterConcat(AmountBad, s, t);
    FilterConcat(StatusOk, Filter(AmountOk, s), Filter(AmountOk, t));
    FilterConcat(StatusBad, Filter(AmountOk, s), Filter(AmountOk, t));
    MapConcat(AmountAlert, Filter(AmountBad, s), Filter(AmountBad, t));
    MapConcat(StatusAlert, Filter(StatusBad, Filter(AmountOk, s)), Filter(StatusBad, Filter(AmountOk, t)));
  }

  lemma {:induction false} CheckAllConcat(s: seq<TypedRecord>, t: seq<TypedRecord>)
    ensures CheckAll(s + t) == Join(CheckAll(s), CheckAll(t))
  {
    if s == [] {
      assert s + t == t;
    } else {
      assert (s + t)[0] == s[0] && (s + t)[1..] == s[1..] + t;
      CheckAllConcat(s[1..], t);
      JoinAssoc(CheckRest(s[0]), CheckAll(s[1..]), CheckAll(t));
    }
  }

  lemma JoinAssoc(x: Split, y: Split, z: Split)
    ensures Join(Join(x, y), z) == Join(x, Join(y, z))
  {
  }

  lemma StagesCDSingle(x: TypedRecord)
    ensures StagesCD([x]) == CheckRest(x)
  {
    assert Filter(AmountOk, [x]) == if AmountOk(x) then [x] else [];
    assert Filter(AmountBad, [x]) == if AmountOk(x) then [] else [x];
    if AmountOk(x) {
      assert Filter(StatusOk, [x]) == if StatusOk(x) then [x] else [];
      assert Filter(StatusBad, [x]) == if StatusOk(x) then [] else [x];
    }
  }

  lemma {:induction false} StagesCDMatchesCheckAll(s: seq<TypedRecord>)
    ensures SameSplit(StagesCD(s), CheckAll(s))
  {
    if s != [] {
      assert s == [s[0]] + s[1..];
      StagesCDConcat([s[0]], s[1..]);
      StagesCDSingle(s[0]);
      StagesCDMatchesCheckAll(s[1..]);
    }
  }

  /** Stages B, C and D regrouped: the rows kept with a valid `company_id`, the repaired
      rows, and the unmatched alerts, each through the per-row checks. */
  function Regrouped(h: seq<TypedRecord>, keyed: seq<KeyedCompany>): Split {
    var v := CheckAll(Filter(HasCatalogId, h));
    var r := CheckAll(Repairs(Filter(IsDoubtful, h), keyed));
    Split(v.kept + r.kept, Unmatched(Filter(IsDoubtful, h), keyed) + (v.alerts + r.alerts))
  }

  lemma StagesBCDAsRegrouped(h: seq<TypedRecord>, keyed: seq<KeyedCompany>)
    ensures SameSplit(StagesBCD(h, keyed), Regrouped(h, keyed))
  {
    var v := Filter(HasCatalogId, h);
    var r := Repairs(Filter(IsDoubtful, h), keyed);
    StagesCDMatchesCheckAll(v + r);
    CheckAllConcat(v, r);
  }

  lemma RegroupedConcatKept(h: seq<TypedRecord>, g: seq<TypedRecord>, keyed: seq<KeyedCompany>)
    ensures multiset(Regrouped(h + g, keyed).kept)
         == multiset(Regrouped(h, keyed).kept) + multiset(Regrouped(g, keyed).kept)
  {
    var vh, vg := Filter(HasCatalogId, h), Filter(HasCatalogId, g);
    var dh, dg := Filter(IsDoubtful, h), Filter(IsDoubtful, g);
    var rh, rg := Repairs(dh, keyed), Repairs(dg, keyed);
    FilterConcat(HasCatalogId, h, g);
    FilterConcat(IsDoubtful, h, g);
    RepairsConcat(dh, dg, keyed);
    CheckAllConcat(vh, vg);
    CheckAllConcat(rh, rg);
    assert Regrouped(h + g, keyed).kept
        == CheckAll(vh).kept + CheckAll(vg).kept + (CheckAll(rh).kept + CheckAll(rg).kept);
  }

  lemma RegroupedConcatAlerts(h: seq<TypedRecord>, g: seq<TypedRecord>, keyed: seq<KeyedCompany>)
    ensures multiset(Regrouped(h + g, keyed).alerts)
         == multiset(Regrouped(h, keyed).alerts) + multiset(Regrouped(g, keyed).alerts)
  {
    var vh, vg := Filter(HasCatalogId, h), Filter(HasCatalogId, g);
    var dh, dg := Filter(IsDoubtful, h), Filter(IsDoubtful, g);
    var rh, rg := Repairs(dh, keyed), Repairs(dg, keyed);
    FilterConcat(HasCatalogId, h, g);
    FilterConcat(IsDoubtful, h, g);
    RepairsConcat(dh, dg, keyed);
    UnmatchedConcat(dh, dg, keyed);
    CheckAllConcat(vh, vg);
    CheckAllConcat(rh, rg);
    assert Regrouped(h + g, keyed).alerts
        == Unmatched(dh, keyed) + Unmatched(dg, keyed)
           + (CheckAll(vh).alerts + CheckAll(vg).alerts + (CheckAll(rh).alerts + CheckAll(rg).alerts));
  }

  lemma StagesBCDConcat(h: seq<TypedRecord>, g: seq<TypedRecord>, keyed: seq<KeyedCompany>)
    ensures SameSplit(StagesBCD(h + g, keyed), Join(StagesBCD(h, keyed), StagesBCD(g, keyed)))
  {
    StagesBCDAsRegrouped(h + g, keyed);
    StagesBCDAsRegrouped(h, keyed);
    StagesBCDAsRegrouped(g, keyed);
    RegroupedConcatKept(h, g, keyed);
    RegroupedConcatAlerts(h, g, keyed);
  }

  lemma StagesConcat(p: seq<TypedRecord>, q: seq<TypedRecord>, keyed: seq<KeyedCompany>)
    ensures SameSplit(Stages(p + q, keyed), Join(Stages(p, keyed), Stages(q, keyed)))
  {
    StagesLayered(p + q, keyed);
    StagesLayered(p, keyed);
    StagesLayered(q, keyed);
    FilterConcat(HasId, p, q);
    FilterConcat(LacksId, p, q);
    MapConcat(NullIdAlert, Filter(LacksId, p), Filter(LacksId, q));
    StagesBCDConcat(Filter(HasId, p), Filter(HasId, q), keyed);
  }

  lemma StagesSingleNoId(y: TypedRecord, keyed: seq<KeyedCompany>)
    requires y.id.None?
    ensures Stages([y], keyed) == Route(y, keyed)
  {
    StagesLayered([y], keyed);
    assert Filter(HasId, [y]) == [];
    assert Filter(LacksId, [y]) == [y];
    assert Filter(HasCatalogId, []) == [] && Filter(IsDoubtful, []) == [];
    assert Filter(AmountOk, []) == [] && Filter(AmountBad, []) == [];
    assert Filter(StatusOk, []) == [] && Filter(StatusBad, []) == [];
  }

  lemma RegroupedSingleValid(y: TypedRecord, keyed: seq<KeyedCompany>)
    requires y.id.Some? && HasCatalogId(y)
    ensures Regrouped([y], keyed) == Route(y, keyed)
  {
    assert Filter(HasCatalogId, [y]) == [y];
    assert Filter(IsDoubtful, [y]) == [];
    assert CheckAll([y]) == Join(CheckRest(y), CheckAll([]));
  }

  lemma RegroupedSingleDoubtful(y: TypedRecord, keyed: seq<KeyedCompany>)
    requires y.id.Some? && !HasCatalogId(y)
    ensures Regrouped([y], keyed) == Route(y, keyed)
  {
    assert Filter(HasCatalogId, [y]) == [];
    assert Filter(IsDoubtful, [y]) == [y];
    assert Repairs([y], keyed) == Candidates(y, keyed) + Repairs([], keyed);
    assert Repairs([y], keyed) == Candidates(y, keyed);
    var unmatched := Unmatched([y], keyed);
    assert unmatched
        == (if MatchingIds(NameKey(y), keyed) == [] then [UnmatchedAlert(y)] else [])
           + Unmatched([], keyed);
    if MatchingIds(NameKey(y), keyed) == [] {
      assert Candidates(y, keyed) == [];
      assert unmatched == [UnmatchedAlert(y)];
    } else {
      assert unmatched == [];
      var c := CheckAll(Candidates(y, keyed));
      assert CheckAll([]) == Split([], []);
      assert Regrouped([y], keyed) == Split([] + c.kept, [] + ([] + c.alerts));
      assert [] + c.kept == c.kept && [] + ([] + c.alerts) == c.alerts;
    }
  }

  lemma StagesSingle(y: TypedRecord, keyed: seq<KeyedCompany>)
    ensures SameSplit(Stages([y], keyed), Route(y, keyed))
  {
    if y.id.None? {
      StagesSingleNoId(y, keyed);
    } else {
      StagesLayered([y], keyed);
      assert Filter(HasId, [y]) == [y];
      assert Filter(LacksId, [y]) == [];
      StagesBCDAsRegrouped([y], keyed);
      if HasCatalogId(y) {
        RegroupedSingleValid(y, keyed);
      } else {
        RegroupedSingleDoubtful(y, keyed);
      }
    }
  }

  /** The stage-by-stage batch and the per-row rules give the same rows and the same
      alerts; only the order differs (a batch lists stage A's alerts first). */
  lemma {:induction false} StagesMatchRoute(rows: seq<TypedRecord>, keyed: seq<KeyedCompany>)
    ensures SameSplit(Stages(rows, keyed), RouteAll(rows, keyed))
  {
    if rows != [] {
      assert rows == [rows[0]] + rows[1..];
      StagesConcat([rows[0]], rows[1..], keyed);
      StagesSingle(rows[0], keyed);
      StagesMatchRoute(rows[1..], keyed);
    }
  }

  /** What the batch keeps meets every rule and comes from an input row; every alert
      names the first rule its row breaks. */
  lemma StagesOutcome(rows: seq<TypedRecord>, keyed: seq<KeyedCompany>)
    ensures forall x :: x in Stages(rows, keyed).kept ==>
              Passes(x, keyed) && exists y :: y in rows && FromRow(x, y, keyed)
    ensures forall a :: a in Stages(rows, keyed).alerts ==>
              Explained(a, keyed) && exists y :: y in rows && Origin(a.rec, y, keyed)
  {
    StagesMatchRoute(rows, keyed);
    var s, r := Stages(rows, keyed), RouteAll(rows, keyed);
    forall x | x in s.kept
      ensures x in r.kept
    {
      assert x in multiset(s.kept);
    }
    forall a | a in s.alerts
      ensures a in r.alerts
    {
      assert a in multiset(s.alerts);
    }
  }

  // ------------------------------------------------ counting rows and alerts

  /** No two catalog companies share a normalised name. */
  predicate UniqueKeys(keyed: seq<KeyedCompany>) {
    forall i, j :: 0 <= i < j < |keyed| ==> keyed[i].key != keyed[j].key
  }

  lemma {:induction false} AtMostOneMatch(key: string, keyed: seq<KeyedCompany>)
    requires UniqueKeys(keyed)
    ensures |MatchingIds(key, keyed)| <= 1
  {
    if keyed != [] {
      var rest := keyed[1..];
      if keyed[0].key == key {
        forall k | k in rest
          ensures k.key != key
        {
          var j :| 0 <= j < |rest| && rest[j] == k;
          assert keyed[j + 1] == k;
        }
      } else {
        AtMostOneMatch(key, rest);
      }
    }
  }

  /** When no two catalog names normalise alike, every input row yields exactly one
      kept row or one alert. */
  lemma StagesAccountForEveryRow(rows: seq<TypedRecord>, keyed: seq<KeyedCompany>)
    requires UniqueKeys(keyed)
    ensures |Stages(rows, keyed).kept| + |Stages(rows, keyed).alerts| == |rows|
  {
    forall y | y in rows
      ensures |MatchingIds(NameKey(y), keyed)| <= 1
    {
      AtMostOneMatch(NameKey(y), keyed);
    }
    StagesMatchRoute(rows, keyed);
    var s, r := Stages(rows, keyed), RouteAll(rows, keyed);
    assert |s.kept| == |multiset(s.kept)| == |multiset(r.kept)| == |r.kept|;
    assert |s.alerts| == |multiset(s.alerts)| == |multiset(r.alerts)| == |r.alerts|;
  }

  lemma {:induction false} CheckAllKeepsPassing(s: seq<TypedRecord>)
    requires forall i :: 0 <= i < |s| ==> AmountOk(s[i]) && StatusOk(s[i])
    ensures CheckAll(s) == Split(s, [])
  {
    if s != [] {
      CheckAllKeepsPassing(s[1..]);
    }
  }

  /** A row with a bad `company_id` whose name matches several catalog companies comes
      out once per company: the left merge duplicates it. */
  lemma RepairDuplicates(y: TypedRecord, keyed: seq<KeyedCompany>)
    requires y.id.Some? && !HasCatalogId(y) && AmountOk(y) && StatusOk(y)
    requires MatchingIds(NameKey(y), keyed) != []
    ensures multiset(Stages([y], keyed).kept) == multiset(Candidates(y, keyed))
    ensures |Stages([y], keyed).kept| == |MatchingIds(NameKey(y), keyed)|
    ensures Stages([y], keyed).alerts == []
  {
    var cands := Candidates(y, keyed);
    CheckAllKeepsPassing(cands);
    StagesSingle(y, keyed);
    assert |Stages([y], keyed).kept| == |multiset(Stages([y], keyed).kept)|;
  }

  // ------------------------------------------------------- the method itself

  /** Stages A to D as `limpiar_charges` runs them: `df` is rebound after each stage and
      the stage's rejected rows are appended to `alerts`; a stage with nothing to
      reject leaves both alone. */
  method Validate(rows: seq<TypedRecord>, keyed: seq<KeyedCompany>)
    returns (survivors: seq<TypedRecord>, alerts: seq<Alert>)
    ensures survivors == Stages(rows, keyed).kept && alerts == Stages(rows, keyed).alerts
    ensures forall x :: x in survivors ==>
              Passes(x, keyed) && exists y :: y in rows && FromRow(x, y, keyed)
    ensures forall a :: a in alerts ==>
              Explained(a, keyed) && exists y :: y in rows && Origin(a.rec, y, keyed)
    ensures UniqueKeys(keyed) ==> |survivors| + |alerts| == |rows|
  {
    var keptA, alertsA := RunStageA(rows);
    var keptB, alertsB := RunStageB(keptA, keyed);
    var keptC, alertsC := RunStageC(keptB);
    var keptD, alertsD := RunStageD(keptC);
    survivors := keptD;
    alerts := alertsA + alertsB + alertsC + alertsD;
    StagesUnfold(rows, keyed);
    StagesOutcome(rows, keyed);
    if UniqueKeys(keyed) {
      StagesAccountForEveryRow(rows, keyed);
    }
  }

  /** Stage A: rows without `id` are alerted and dropped; the mask is applied only
      when it selects something. */
  method RunStageA(df: seq<TypedRecord>) returns (kept: seq<TypedRecord>, alerts: seq<Alert>)
    ensures kept == StageA(df).kept && alerts == StageA(df).alerts
  {
    var withoutId := Filter(LacksId, df);
    if withoutId != [] {
      alerts := Map(NullIdAlert, withoutId);
      kept := Filter(HasId, df);
    } else {
      NothingToAlertInA(df);
      kept, alerts := df, [];
    }
  }

  /** Stage B: rows whose `company_id` is not in the catalog are repaired through the
      catalog by name, or alerted and dropped. */
  method RunStageB(df: seq<TypedRecord>, keyed: seq<KeyedCompany>)
    returns (kept: seq<TypedRecord>, alerts: seq<Alert>)
    ensures kept == StageB(df, keyed).kept && alerts == StageB(df, keyed).alerts
  {
    var valid := Filter(HasCatalogId, df);
    var doubtful := Filter(IsDoubtful, df);
    if doubtful != [] {
      alerts := Unmatched(doubtful, keyed);
      kept := valid + Repairs(doubtful, keyed);
    } else {
      NothingToRepairInB(df, keyed);
      kept, alerts := valid, [];
    }
  }

  /** Stage C: amounts `DECIMAL(16,2)` cannot hold are alerted and dropped. */
  method RunStageC(df: seq<TypedRecord>) returns (kept: seq<TypedRecord>, alerts: seq<Alert>)
    ensures kept == StageC(df).kept && alerts == StageC(df).alerts
  {
    var badAmount := Filter(AmountBad, df);
    if badAmount != [] {
      alerts := Map(AmountAlert, badAmount);
      kept := Filter(AmountOk, df);
    } else {
      NothingToAlertInC(df);
      kept, alerts := df, [];
    }
  }

  /** Stage D: unknown statuses are alerted and dropped. */
  method RunStageD(df: seq<TypedRecord>) returns (kept: seq<TypedRecord>, alerts: seq<Alert>)
    ensures kept == StageD(df).kept && alerts == StageD(df).alerts
  {
    var badStatus := Filter(StatusBad, df);
    if badStatus != [] {
      alerts := Map(StatusAlert, badStatus);
      kept := Filter(StatusOk, df);
    } else {
      NothingToAlertInD(df);
      kept, alerts := df, [];
    }
  }

  /** A stage with no row to reject keeps every row and raises no alert, so skipping it
      when its mask is empty changes nothing. */
  lemma NothingToAlertInA(s: seq<TypedRecord>)
    requires Filter(LacksId, s) == []
    ensures StageA(s) == Split(s, [])
  {
    FilterComplementEmpty(HasId, LacksId, s);
  }

  lemma NothingToRepairInB(s: seq<TypedRecord>, keyed: seq<KeyedCompany>)
    requires Filter(IsDoubtful, s) == []
    ensures StageB(s, keyed) == Split(Filter(HasCatalogId, s), [])
  {
    assert Repairs([], keyed) == [] && Unmatched([], keyed) == [];
  }

  lemma NothingToAlertInC(s: seq<TypedRecord>)
    requires Filter(AmountBad, s) == []
    ensures StageC(s) == Split(s, [])
  {
    FilterComplementEmpty(AmountOk, AmountBad, s);
  }

  lemma NothingToAlertInD(s: seq<TypedRecord>)
    requires Filter(StatusBad, s) == []
    ensures StageD(s) == Split(s, [])
  {
    FilterComplementEmpty(StatusOk, StatusBad, s);
  }
}
