/**
 * `GET /admin/activation-keys/variants`: the variant picker's search. It selects the variants
 * whose product is not deleted, with a display name built in SQL, optionally narrowed by a
 * case-insensitive search over product title, variant title and SKU, ordered by product title
 * then variant title and cut to a limit; the rows then get display defaults. Any failure answers
 * with a fixed list of two demonstration variants.
 *
 * The statement is modelled by its parameter array and the placeholders that refer into it;
 * `Run` is what PostgreSQL does with it. `ilike(value, pattern)` is `value ILIKE pattern`.
 */
module VariantsRoute {
  import opened Wrappers
  import opened Seqs
  import opened Text
  import opened Ordering
  import opened Catalog
  import R = AdminKeysRoute

  // ---------- the rows of the SELECT ----------

  /** One selected row: the variant's columns, the product's title, and `display_name`. */
  datatype SelectedRow = SelectedRow(id: string, title: Option<string>, sku: Option<string>,
                                     productId: string, productTitle: Option<string>,
                                     displayName: string)

  /**
   * `CONCAT(p.title, CASE WHEN pv.title IS NOT NULL AND pv.title != 'Default' THEN ' - ' ||
   * pv.title ELSE '' END)`; CONCAT reads a NULL product title as the empty string.
   */
  function DisplayName(productTitle: Option<string>, variantTitle: Option<string>): (s: string)
    ensures (variantTitle.None? || variantTitle.value == "Default") ==> s == productTitle.GetOr("")
    ensures variantTitle.Some? && variantTitle.value != "Default" ==>
      s == productTitle.GetOr("") + " - " + variantTitle.value
  {
    productTitle.GetOr("")
      + if variantTitle.Some? && variantTitle.value != "Default" then " - " + variantTitle.value else ""
  }

  /**
   * `LEFT JOIN product p ON pv.product_id = p.id WHERE p.deleted_at IS NULL`: a variant whose
   * product is missing passes too, since the join leaves `p.deleted_at` NULL.
   */
  predicate Visible(c: Catalog, v: Variant) {
    var p := ProductOf(c, v);
    p.None? || p.value.deletedAt.None?
  }

  function SelectRow(c: Catalog, v: Variant): (r: SelectedRow)
    ensures r.id == v.id && r.title == v.title && r.sku == v.sku && r.productId == v.productId
    ensures r.productTitle == (if v.productId in c.products then c.products[v.productId].title else None)
  {
    var p := ProductOf(c, v);
    var pt := if p.Some? then p.value.title else None;
    SelectedRow(v.id, v.title, v.sku, v.productId, pt, DisplayName(pt, v.title))
  }

  function VisibleFor(c: Catalog): Variant -> bool {
    (v: Variant) => Visible(c, v)
  }

  function SelectFor(c: Catalog): Variant -> SelectedRow {
    (v: Variant) => SelectRow(c, v)
  }

  /** The rows of the unfiltered SELECT, in catalog order. */
  function Candidates(c: Catalog): seq<SelectedRow> {
    Map(Filter(c.variants, VisibleFor(c)), SelectFor(c))
  }

  /** `column ILIKE pattern`, which is NULL (not true) for a NULL column. */
  predicate LikeOpt(ilike: (string, string) -> bool, v: Option<string>, pattern: string) {
    v.Some? && ilike(v.value, pattern)
  }

  /** `p.title ILIKE $1 OR pv.title ILIKE $1 OR pv.sku ILIKE $1`. */
  predicate Searched(ilike: (string, string) -> bool, r: SelectedRow, pattern: string) {
    LikeOpt(ilike, r.productTitle, pattern) || LikeOpt(ilike, r.title, pattern)
      || LikeOpt(ilike, r.sku, pattern)
  }

  function SearchFor(ilike: (string, string) -> bool, pattern: Option<string>): SelectedRow -> bool {
    (r: SelectedRow) => pattern.None? || Searched(ilike, r, pattern.value)
  }

  function TextOrNull(s: Option<string>): Value {
    if s.Some? then VText(s.value) else VNull
  }

  /** `ORDER BY p.title ASC, pv.title ASC`. */
  function SortKeyOf(r: SelectedRow): seq<SortKey> {
    [Asc(TextOrNull(r.productTitle)), Asc(TextOrNull(r.title))]
  }

  /** `LIMIT n` for n >= 0: the first n rows. */
  function Take<T>(s: seq<T>, n: nat): (r: seq<T>)
    ensures |r| == R.Min(n, |s|) && r == s[..|r|]
  {
    if n < |s| then s[..n] else s
  }

  /** The matching rows in order, cut to the limit; `None` for a negative limit, which fails. */
  function Selection(c: Catalog, ilike: (string, string) -> bool, pattern: Option<string>, limit: int)
    : Option<seq<SelectedRow>>
  {
    if limit < 0 then None
    else Some(Take(SortBy(Filter(Candidates(c), SearchFor(ilike, pattern)), SortKeyOf), limit))
  }

  // ---------- the statement ----------

  /** The statement's variable parts: whether the search clause is in, its `LIMIT $n`, the params. */
  datatype Statement = Statement(search: bool, limitPlaceholder: nat, params: seq<R.Param>)

  /** `%${q.trim()}%`. */
  function Pattern(q: string): string {
    "%" + Trim(q) + "%"
  }

  /** `parseInt(limit) || 50`, with `limit` defaulting to "50" when absent. */
  function LimitOf(limit: Option<string>): (n: int)
    ensures var p := ParseIntAuto(limit.GetOr("50"));
      (p.None? || p.value == 0 ==> n == 50) && (p.Some? && p.value != 0 ==> n == p.value)
  {
    OrDefault(ParseIntAuto(limit.GetOr("50")), 50)
  }

  /**
   * What PostgreSQL does with the statement: the search clause reads its pattern from `$1`, the
   * limit from its own placeholder; a placeholder with no parameter of the right type, or a
   * negative limit, is an error.
   */
  function Run(c: Catalog, ilike: (string, string) -> bool, st: Statement): Option<seq<SelectedRow>> {
    if st.limitPlaceholder < 1 || st.limitPlaceholder > |st.params| then None
    else if !st.params[st.limitPlaceholder - 1].PInt? then None
    else if st.search && !st.params[0].PText? then None
    else Selection(c, ilike, if st.search then Some(st.params[0].s) else None,
                   st.params[st.limitPlaceholder - 1].n)
  }

  /** Pushes the search parameter for a non-blank `q` and then the limit, numbering as it goes. */
  method BuildStatement(q: Option<string>, limit: Option<string>) returns (st: Statement)
    ensures st.search <==> q.Some? && !IsBlank(q.value)
    ensures st.search ==> |st.params| == 2 && st.params[0] == R.PText(Pattern(q.value))
    ensures !st.search ==> |st.params| == 1
    ensures st.limitPlaceholder == |st.params| && st.params[|st.params| - 1] == R.PInt(LimitOf(limit))
    ensures forall c: Catalog, ilike: (string, string) -> bool ::
              Run(c, ilike, st) == Selection(c, ilike, if st.search then Some(Pattern(q.value)) else None,
                                             LimitOf(limit))
  {
    var params: seq<R.Param> := [];
    var search := false;
    if q.Some? && !IsBlank(q.value) {
      search := true;
      params := params + [R.PText(Pattern(q.value))];
    }
    var limitNum := LimitOf(limit);
    var placeholder := |params| + 1;
    params := params + [R.PInt(limitNum)];
    st := Statement(search, placeholder, params);
    forall c: Catalog, ilike: (string, string) -> bool
      ensures Run(c, ilike, st) == Selection(c, ilike, if st.search then Some(Pattern(q.value)) else None,
                                             limitNum)
    {
      RunReadsPlaceholders(c, ilike, st, if st.search then Some(Pattern(q.value)) else None, limitNum);
    }
  }

  /**
   * A statement whose `$1` holds the pattern (when the search clause is in) and whose limit
   * placeholder is its last parameter runs as the selection for that pattern and limit.
   */
  lemma RunReadsPlaceholders(c: Catalog, ilike: (string, string) -> bool, st: Statement,
                             pattern: Option<string>, limit: int)
    requires st.limitPlaceholder == |st.params| >= 1 && st.params[|st.params| - 1] == R.PInt(limit)
    requires st.search <==> pattern.Some?
    requires st.search ==> |st.params| == 2 && st.params[0] == R.PText(pattern.value)
    ensures Run(c, ilike, st) == Selection(c, ilike, pattern, limit)
  {
    var last := st.params[st.limitPlaceholder - 1];
    assert last == R.PInt(limit);
    var p := if st.search then Some(st.params[0].s) else None;
    assert p == pattern;
    assert Run(c, ilike, st) == Selection(c, ilike, p, last.n);
  }

  // ---------- the response ----------

  /** One entry of the response. */
  datatype VariantOption = VariantOption(id: string, title: string, sku: Option<string>,
                                         productId: string, productTitle: string,
                                         displayName: string)

  /** The row mapping: `title || "Default"`, `sku || null`, `product_title || "Unknown Product"`. */
  function Shape(r: SelectedRow): (v: VariantOption)
    ensures v.id == r.id && v.productId == r.productId
    ensures v.title == OrText(r.title, "Default")
    ensures v.sku == (if r.sku.Some? && r.sku.value != [] then r.sku else None)
    ensures v.productTitle == OrText(r.productTitle, "Unknown Product")
    ensures v.displayName == (if r.displayName != [] then r.displayName else v.productTitle)
  {
    VariantOption(r.id, OrText(r.title, "Default"), if r.sku.Some? && r.sku.value != [] then r.sku else None,
                  r.productId, OrText(r.productTitle, "Unknown Product"),
                  if r.displayName != [] then r.displayName else OrText(r.productTitle, "Unknown Product"))
  }

  /** The fallback answer: two fixed demonstration variants. */
  const MockVariants: seq<VariantOption> := [
    VariantOption("variant_mock_001", "Default", Some("DEMO-SKU-001"), "product_mock_001",
                  "Demo Product", "Demo Product"),
    VariantOption("variant_mock_002", "Size M", Some("DEMO-SKU-002"), "product_mock_002",
                  "Demo T-Shirt", "Demo T-Shirt - Size M")
  ]

  /**
   * The handler: `dbFails` is a connection or query failure outside the model; both it and a
   * failing statement give the mock list.
   */
  method Get(c: Catalog, ilike: (string, string) -> bool, dbFails: bool, q: Option<string>,
             limit: Option<string>) returns (variants: seq<VariantOption>)
    ensures var sel := Selection(c, ilike, if q.Some? && !IsBlank(q.value) then Some(Pattern(q.value)) else None,
                                 LimitOf(limit));
      variants == if dbFails || sel.None? then MockVariants else Map(sel.value, Shape)
  {
    if dbFails {
      return MockVariants;
    }
    var st := BuildStatement(q, limit);
    var result := Run(c, ilike, st);
    if result.None? {
      return MockVariants;
    }
    variants := Map(result.value, Shape);
  }

  // ---------- properties ----------

  /** Every listed entry has a title, a product title and a display name; a SKU is never "". */
  lemma ShapeFillsDefaults(r: SelectedRow)
    ensures var v := Shape(r);
      v.title != [] && v.productTitle != [] && v.displayName != [] && (v.sku.Some? ==> v.sku.value != [])
  {
  }

  /**
   * The display name the client sees for a visible variant: the product title (or "Unknown
   * Product" when there is none to show), and " - " plus the variant title unless that title is
   * missing or "Default".
   */
  lemma ShownDisplayName(c: Catalog, v: Variant)
    ensures var pt := SelectRow(c, v).productTitle;
      var shown := Shape(SelectRow(c, v)).displayName;
      (v.title.Some? && v.title.value != "Default" ==> shown == pt.GetOr("") + " - " + v.title.value)
      && ((v.title.None? || v.title.value == "Default") ==> shown == OrText(pt, "Unknown Product"))
  {
  }

  /** The limit: absent it is 50, and a decimal number is taken as given except 0, which gives 50. */
  lemma LimitOfNat(n: nat)
    ensures LimitOf(None) == 50
    ensures LimitOf(Some(NatToString(n))) == if n == 0 then 50 else n
  {
    ParseIntAutoOfNat(50);
    ParseIntAutoOfNat(n);
    assert NatToString(50) == "50" by {
      assert NatToString(5) == "5";
    }
  }

  /** A negative limit makes the statement fail. */
  lemma NegativeLimitFails(c: Catalog, ilike: (string, string) -> bool, pattern: Option<string>,
                           limit: int)
    requires limit < 0
    ensures Selection(c, ilike, pattern, limit).None?
  {
  }

  /** A row of the unfiltered SELECT comes from a visible variant of the catalog. */
  lemma CandidateFrom(c: Catalog, r: SelectedRow)
    requires r in Candidates(c)
    ensures exists v :: v in c.variants && Visible(c, v) && r == SelectRow(c, v)
  {
    var visible := Filter(c.variants, VisibleFor(c));
    var k :| 0 <= k < |Candidates(c)| && Candidates(c)[k] == r;
    assert visible[k] in c.variants && Visible(c, visible[k]);
  }

  /**
   * `ORDER BY ... LIMIT n` over any rows: at most n of them, in order, each one of the rows, and
   * all of them when there are no more than n.
   */
  lemma SortedPrefix(rows: seq<SelectedRow>, n: nat)
    ensures var r := Take(SortBy(rows, SortKeyOf), n);
      |r| == R.Min(n, |rows|) && SortedBy(r, SortKeyOf) && (forall i :: 0 <= i < |r| ==> r[i] in rows)
      && (n >= |rows| ==> multiset(r) == multiset(rows))
  {
    var sorted := SortBy(rows, SortKeyOf);
    var r := Take(sorted, n);
    SortByPermutes(rows, SortKeyOf);
    forall i, j | 0 <= i < j < |r| ensures KeysLe(SortKeyOf(r[i]), SortKeyOf(r[j])) {
      assert r[i] == sorted[i] && r[j] == sorted[j];
    }
    forall i | 0 <= i < |r| ensures r[i] in rows {
      assert r[i] == sorted[i];
      assert sorted[i] in multiset(rows);
    }
  }

  /**
   * Every listed row is a visible variant of the catalog that satisfies the search, the rows are
   * in product-title then variant-title order, there are at most `limit` of them, and when no
   * more than `limit` match, all of them are listed.
   */
  lemma SelectionRows(c: Catalog, ilike: (string, string) -> bool, pattern: Option<string>, limit: int)
    requires limit >= 0
    ensures var rows := Selection(c, ilike, pattern, limit).value;
      var matches := Filter(Candidates(c), SearchFor(ilike, pattern));
      |rows| == R.Min(limit, |matches|) && SortedBy(rows, SortKeyOf)
      && (forall i :: 0 <= i < |rows| ==> Listable(c, ilike, pattern, rows[i]))
      && (limit >= |matches| ==> multiset(rows) == multiset(matches))
  {
    var matches := Filter(Candidates(c), SearchFor(ilike, pattern));
    var rows := Take(SortBy(matches, SortKeyOf), limit);
    SortedPrefix(matches, limit);
    forall i | 0 <= i < |rows| ensures Listable(c, ilike, pattern, rows[i]) {
      MatchFrom(c, ilike, pattern, rows[i]);
    }
  }

  /** A row the listing may hold: a visible variant of the catalog, satisfying the search if any. */
  ghost predicate Listable(c: Catalog, ilike: (string, string) -> bool, pattern: Option<string>,
                           r: SelectedRow)
  {
    (exists v :: v in c.variants && Visible(c, v) && r == SelectRow(c, v))
    && (pattern.Some? ==> Searched(ilike, r, pattern.value))
  }

  /** A matching row comes from a visible variant and satisfies the search. */
  lemma MatchFrom(c: Catalog, ilike: (string, string) -> bool, pattern: Option<string>, r: SelectedRow)
    requires r in Filter(Candidates(c), SearchFor(ilike, pattern))
    ensures Listable(c, ilike, pattern, r)
  {
    var m := Filter(Candidates(c), SearchFor(ilike, pattern));
    var k :| 0 <= k < |m| && m[k] == r;
    CandidateFrom(c, r);
  }

  /** With the search text absent or blank, every visible variant matches. */
  lemma NoSearchMatchesAll(c: Catalog, ilike: (string, string) -> bool)
    ensures Filter(Candidates(c), SearchFor(ilike, None)) == Candidates(c)
  {
    FilterOfAll(Candidates(c), SearchFor(ilike, None));
  }
}
