/** `limpiar_nombres_empresas`: the company catalog. Rows whose `company_id` is not 40
    characters long are set aside, the rest are grouped by `company_id`, and each group
    gets its most frequent non-null name, or `"Desconocido"` when it has none. */
module CompanyResolver {
  import opened Wrappers
  import opened Seqs
  import opened PyStrings
  import opened Coercion

  /** One catalog row. */
  datatype Company = Company(companyId: string, companyName: string)

  /** The only accepted length of a `company_id`. */
  const IdLength := 40

  /** The name given to a company none of whose rows carries a name. */
  const Placeholder := "Desconocido"

  /** `df["company_id"].str.len() == 40` (a NULL id has no length and fails). */
  predicate HasCatalogId(r: TypedRecord) {
    r.companyId.Some? && |r.companyId.value| == IdLength
  }

  /** The ids of the groups: every 40-character `company_id` in the input. */
  function GroupIds(rows: seq<TypedRecord>): set<string> {
    set r | r in rows && HasCatalogId(r) :: r.companyId.value
  }

  function CompanyIds(catalog: seq<Company>): set<string> {
    set c | c in catalog :: c.companyId
  }

  /** The rows of the group of `id` that carry the name `n`. */
  function NamedIn(id: string, n: string): TypedRecord -> bool {
    (r: TypedRecord) => r.companyId == Some(id) && r.companyName == Some(n)
  }

  /** The non-null names of the group of `id`, in row order: each name as often as the
      group's rows carry it. */
  function GroupNames(rows: seq<TypedRecord>, id: string): (names: seq<string>)
    ensures forall n :: Count(names, n) == |Filter(NamedIn(id, n), rows)|
    ensures forall n :: n in names ==>
              exists r :: r in rows && r.companyId == Some(id) && r.companyName == Some(n)
  {
    if rows == [] then []
    else
      var tail := GroupNames(rows[1..], id);
      GroupNamesStep(rows, id, tail);
      NameOf(rows[0], id) + tail
  }

  /** The name a single row adds to the group of `id`: none when the row is of
      another group or has no name. */
  function NameOf(r: TypedRecord, id: string): seq<string> {
    if r.companyId == Some(id) && r.companyName.Some? then [r.companyName.value] else []
  }

  /** The inductive step of `GroupNames`: prepending the first row's name to the names
      of the other rows keeps the counts and the provenance. */
  lemma GroupNamesStep(rows: seq<TypedRecord>, id: string, tail: seq<string>)
    requires rows != []
    requires forall n :: Count(tail, n) == |Filter(NamedIn(id, n), rows[1..])|
    requires forall n :: n in tail ==>
               exists r :: r in rows[1..] && r.companyId == Some(id) && r.companyName == Some(n)
    ensures forall n :: Count(NameOf(rows[0], id) + tail, n) == |Filter(NamedIn(id, n), rows)|
    ensures forall n :: n in NameOf(rows[0], id) + tail ==>
              exists r :: r in rows && r.companyId == Some(id) && r.companyName == Some(n)
  {
    var head := NameOf(rows[0], id);
    forall n
      ensures Count(head + tail, n) == |Filter(NamedIn(id, n), rows)|
    {
      assert multiset(head + tail) == multiset(head) + multiset(tail);
      assert Filter(NamedIn(id, n), rows)
          == (if NamedIn(id, n)(rows[0]) then [rows[0]] else []) + Filter(NamedIn(id, n), rows[1..]);
    }
    forall n | n in head + tail
      ensures exists r :: r in rows && r.companyId == Some(id) && r.companyName == Some(n)
    {
      if n in head {
        assert rows[0] in rows;
      } else {
        var r :| r in rows[1..] && r.companyId == Some(id) && r.companyName == Some(n);
        assert r in rows;
      }
    }
  }

  function Count(names: seq<string>, n: string): nat {
    multiset(names)[n]
  }

  /** `m` is what `names.mode().iloc[0]` picks: a most frequent value, and the smallest
      one in code-point order among the values tied with it. */
  predicate IsMode(m: string, names: seq<string>) {
    && m in names
    && forall n :: n in names ==>
         Count(names, n) < Count(names, m) || (Count(names, n) == Count(names, m) && StrLe(m, n))
  }

  /** `b` is a member of `cands` that is at least as frequent in `names` as any other,
      and not larger than any equally frequent one. */
  predicate IsBestOf(b: string, cands: seq<string>, names: seq<string>) {
    && b in cands
    && forall n :: n in cands ==>
         Count(names, n) < Count(names, b) || (Count(names, n) == Count(names, b) && StrLe(b, n))
  }

  /** Of two candidates, the more frequent one, and the smaller one on a tie. */
  function Preferred(c: string, d: string, names: seq<string>): string {
    if Count(names, c) > Count(names, d) || (Count(names, c) == Count(names, d) && StrLt(c, d))
    then c else d
  }

  lemma PreferredIsBest(c: string, tail: seq<string>, rest: string, names: seq<string>)
    requires IsBestOf(rest, tail, names)
    ensures IsBestOf(Preferred(c, rest, names), [c] + tail, names)
  {
    var b := Preferred(c, rest, names);
    forall n | n in [c] + tail
      ensures Count(names, n) < Count(names, b) || (Count(names, n) == Count(names, b) && StrLe(b, n))
    {
      if b == c && n != c && n in tail && n != rest && StrLt(c, rest) && StrLt(rest, n) {
        StrLtTransitive(c, rest, n);
      }
      if b == rest && n == c && c != rest && Count(names, c) == Count(names, rest) {
        StrLtTotal(c, rest);
      }
    }
  }

  /** The best of `cands` under "more frequent in `names`, then smaller". */
  function Best(cands: seq<string>, names: seq<string>): (b: string)
    requires cands != []
    ensures IsBestOf(b, cands, names)
  {
    if |cands| == 1 then cands[0]
    else
      var rest := Best(cands[1..], names);
      PreferredIsBest(cands[0], cands[1..], rest, names);
      assert cands == [cands[0]] + cands[1..];
      Preferred(cands[0], rest, names)
  }

  /** `get_most_common_name` on the names of one group: `None` when the group has no
      non-null name. */
  function MostCommon(names: seq<string>): (r: Option<string>)
    ensures r.None? <==> names == []
    ensures r.Some? ==> IsMode(r.value, names)
  {
    if names == [] then None else Some(Best(names, names))
  }

  /** There is at most one such name: the mode of a group is determined by the group. */
  lemma ModeUnique(a: string, b: string, names: seq<string>)
    requires IsMode(a, names) && IsMode(b, names)
    ensures a == b
  {
    if a != b {
      assert StrLt(a, b) && StrLt(b, a);
      StrLtAsymmetric(a, b);
    }
  }

  predicate StrictlySorted(ids: seq<string>) {
    forall i, j :: 0 <= i < j < |ids| ==> StrLt(ids[i], ids[j])
  }

  /** `x` put in its place in a strictly sorted sequence, unless it is there already. */
  function Insert(x: string, sorted: seq<string>): (r: seq<string>)
    requires StrictlySorted(sorted)
    ensures StrictlySorted(r)
    ensures forall y :: y in r <==> y == x || y in sorted
  {
    if sorted == [] then [x]
    else if x == sorted[0] then sorted
    else if StrLt(x, sorted[0]) then
      assert forall j :: 0 <= j < |sorted| ==> StrLt(x, sorted[j]) by {
        forall j | 0 <= j < |sorted| ensures StrLt(x, sorted[j]) {
          if j > 0 {
            StrLtTransitive(x, sorted[0], sorted[j]);
          }
        }
      }
      [x] + sorted
    else
      StrLtTotal(x, sorted[0]);
      var tail := Insert(x, sorted[1..]);
      assert forall y :: y in tail ==> StrLt(sorted[0], y);
      [sorted[0]] + tail
  }

  /** The distinct values of `xs` in ascending order: the keys of a `groupby`. */
  function SortedKeys(xs: seq<string>): (r: seq<string>)
    ensures StrictlySorted(r)
    ensures forall y :: y in r <==> y in xs
  {
    if xs == [] then [] else Insert(xs[0], SortedKeys(xs[1..]))
  }

  /** The 40-character ids of the rows, in row order, repeats included. */
  function RowIds(rows: seq<TypedRecord>): (ids: seq<string>)
    ensures forall id :: id in ids <==> id in GroupIds(rows)
  {
    if rows == [] then []
    else
      (if HasCatalogId(rows[0]) then [rows[0].companyId.value] else []) + RowIds(rows[1..])
  }

  /** The name a group gets: its mode, or the placeholder (`fillna("Desconocido")`). */
  function GroupName(rows: seq<TypedRecord>, id: string): string {
    MostCommon(GroupNames(rows, id)).GetOr(Placeholder)
  }

  /** `limpiar_nombres_empresas(df)`: one row per distinct 40-character `company_id`,
      ascending by id as `groupby` orders its keys. */
  function Resolve(rows: seq<TypedRecord>): (catalog: seq<Company>)
    ensures forall i, j :: 0 <= i < j < |catalog| ==> StrLt(catalog[i].companyId, catalog[j].companyId)
    ensures CompanyIds(catalog) == GroupIds(rows)
    ensures forall c :: c in catalog ==> |c.companyId| == IdLength
    ensures forall c :: c in catalog ==>
              if GroupNames(rows, c.companyId) == [] then c.companyName == Placeholder
              else IsMode(c.companyName, GroupNames(rows, c.companyId))
  {
    var ids := SortedKeys(RowIds(rows));
    var catalog := Map((id: string) => Company(id, GroupName(rows, id)), ids);
    CatalogOfIds(rows, ids, catalog);
    catalog
  }

  /** One company per id of a strictly sorted list of the group ids, named after its
      group. */
  lemma CatalogOfIds(rows: seq<TypedRecord>, ids: seq<string>, catalog: seq<Company>)
    requires StrictlySorted(ids) && forall y :: y in ids <==> y in GroupIds(rows)
    requires |catalog| == |ids|
    requires forall i :: 0 <= i < |ids| ==> catalog[i] == Company(ids[i], GroupName(rows, ids[i]))
    ensures forall i, j :: 0 <= i < j < |catalog| ==> StrLt(catalog[i].companyId, catalog[j].companyId)
    ensures CompanyIds(catalog) == GroupIds(rows)
    ensures forall c :: c in catalog ==> |c.companyId| == IdLength
    ensures forall c :: c in catalog ==>
              if GroupNames(rows, c.companyId) == [] then c.companyName == Placeholder
              else IsMode(c.companyName, GroupNames(rows, c.companyId))
  {
    assert forall c :: c in catalog ==> c.companyId in ids;
    assert forall id :: id in ids ==> Company(id, GroupName(rows, id)) in catalog;
  }

  /** No two catalog rows share a `company_id`. */
  lemma ResolveUnique(rows: seq<TypedRecord>, i: int, j: int)
    requires 0 <= i < j < |Resolve(rows)|
    ensures Resolve(rows)[i].companyId != Resolve(rows)[j].companyId
  {
    var c := Resolve(rows);
    if c[i].companyId == c[j].companyId {
      StrLtIrreflexive(c[i].companyId);
    }
  }

  /** The majority name wins: `["Acme", "Acme", "Beta"]` gives `"Acme"`. */
  lemma MajorityWins()
    ensures MostCommon(["Acme", "Acme", "Beta"]) == Some("Acme")
  {
    var names := ["Acme", "Acme", "Beta"];
    assert Count(names, "Acme") == 2 && Count(names, "Beta") == 1;
    assert IsMode("Acme", names);
    ModeUnique(MostCommon(names).value, "Acme", names);
  }

  /** A tie goes to the smallest name, not to the first one seen: `["Beta", "Acme"]`
      gives `"Acme"`. */
  lemma TieGoesToSmallest()
    ensures MostCommon(["Beta", "Acme"]) == Some("Acme")
  {
    var names := ["Beta", "Acme"];
    assert Count(names, "Acme") == 1 && Count(names, "Beta") == 1;
    assert StrLt("Acme", "Beta");
    assert IsMode("Acme", names);
    ModeUnique(MostCommon(names).value, "Acme", names);
  }
}
