/**
 * The admin endpoint `/admin/activation-keys-simple`: listing with filters, sorting and paging
 * (GET), creating keys (POST) and deleting one key (DELETE).
 *
 * The SQL statements the handlers build are kept as data (clauses over numbered `$n`
 * placeholders and a parameter list) and executed over the key table joined with the catalog.
 * How PostgreSQL reads a text literal for a non-text column and how `ILIKE` matches are
 * parameters of the environment.
 */
module AdminKeysRoute {
  import opened Wrappers
  import opened Seqs
  import opened Text
  import opened Json
  import opened Ordering
  import opened ActivationKey
  import opened Catalog
  import opened KeyService

  // ---------- sort column, direction, limit and offset ----------

  /** The columns a listing may be sorted by, named as the query string names them. */
  datatype Column =
    | Id | Key | ProductVariantId | IsUsed | OrderId | UsedAt | CreatedAt | UpdatedAt
    | Cost | CreatedBy | ProductTitle | VariantTitle | VariantSku

  function ColumnName(c: Column): string {
    match c
    case Id => "id"
    case Key => "key"
    case ProductVariantId => "product_variant_id"
    case IsUsed => "is_used"
    case OrderId => "order_id"
    case UsedAt => "used_at"
    case CreatedAt => "created_at"
    case UpdatedAt => "updated_at"
    case Cost => "cost"
    case CreatedBy => "created_by"
    case ProductTitle => "product_title"
    case VariantTitle => "variant_title"
    case VariantSku => "variant_sku"
  }

  const Sortable: seq<Column> := [Id, Key, ProductVariantId, IsUsed, OrderId, UsedAt, CreatedAt,
                                  UpdatedAt, Cost, CreatedBy, ProductTitle, VariantTitle, VariantSku]

  /** The whitelist lookup: the column with that exact name, if there is one. */
  function ColumnNamed(name: string): (r: Option<Column>)
    ensures r.Some? ==> ColumnName(r.value) == name
    ensures r.None? ==> forall c: Column :: ColumnName(c) != name
  {
    var i := FirstNamed(name, 0);
    if i < |Sortable| then Some(Sortable[i]) else None
  }

  function FirstNamed(name: string, from: nat): (i: nat)
    requires from <= |Sortable|
    ensures from <= i <= |Sortable|
    ensures i < |Sortable| ==> ColumnName(Sortable[i]) == name
    ensures forall k :: from <= k < i ==> ColumnName(Sortable[k]) != name
    decreases |Sortable| - from
  {
    if from == |Sortable| || ColumnName(Sortable[from]) == name then from else FirstNamed(name, from + 1)
  }

  /** `sort || "created_at"`, with the query default for an absent parameter. */
  function SortText(sort: Option<string>): string {
    OrText(sort, "created_at")
  }

  /**
   * The effective sort column: the lower-cased parameter when it names a whitelisted column,
   * `created_at` otherwise.
   */
  function NormalizeSort(sort: Option<string>): (c: Column)
    ensures ColumnName(c) == Lower(SortText(sort))
      || (c == CreatedAt && forall k: Column :: ColumnName(k) != Lower(SortText(sort)))
  {
    ColumnNamed(Lower(SortText(sort))).GetOr(CreatedAt)
  }

  /** Every column name is already lower case. */
  lemma ColumnNameLower(c: Column)
    ensures Lower(ColumnName(c)) == ColumnName(c)
  {
  }

  /** The column names are distinct. */
  lemma ColumnNameInjective(a: Column, b: Column)
    requires ColumnName(a) == ColumnName(b)
    ensures a == b
  {
    assert ColumnName(a)[..2] == ColumnName(b)[..2];
    assert ColumnName(a)[|ColumnName(a)| - 2..] == ColumnName(b)[|ColumnName(b)| - 2..];
  }

  /** Naming a column selects it, in any letter case. */
  lemma NormalizeSortOfName(c: Column)
    ensures NormalizeSort(Some(ColumnName(c))) == c
    ensures NormalizeSort(Some(Upper(ColumnName(c)))) == c
  {
    ColumnNameLower(c);
    LowerOfUpper(ColumnName(c));
    ColumnNameInjective(NormalizeSort(Some(ColumnName(c))), c);
    assert |Upper(ColumnName(c))| == |ColumnName(c)| > 0;
    ColumnNameInjective(NormalizeSort(Some(Upper(ColumnName(c)))), c);
  }

  /** `"\u212Aey".toLowerCase()` is "key", so a sort named with the Kelvin sign sorts by key. */
  lemma NormalizeSortKelvinKey()
    ensures NormalizeSort(Some("\U{212A}ey")) == Key
  {
    assert Lower("\U{212A}ey") == ColumnName(Key);
    ColumnNameInjective(NormalizeSort(Some("\U{212A}ey")), Key);
  }

  datatype Direction = ASC | DESC

  function DirectionName(d: Direction): string {
    if d == ASC then "ASC" else "DESC"
  }

  /** `ASC` exactly when the lower-cased parameter is `asc`; `DESC` otherwise, also when absent. */
  function NormalizeOrder(order: Option<string>): (d: Direction)
    ensures d == ASC <==> order.Some? && Lower(order.value) == "asc"
  {
    if Lower(OrText(order, "desc")) == "asc" then ASC else DESC
  }

  function Max(a: int, b: int): int {
    if a < b then b else a
  }

  function Min(a: int, b: int): int {
    if a < b then a else b
  }

  /** `max(0, min(1000, parseInt(limit, 10) || 100))`, with `"100"` for an absent parameter. */
  function EffectiveLimit(limit: Option<string>): (n: int)
    ensures 0 <= n <= 1000
    ensures var p := ParseInt10(limit.GetOr("100"));
      (p.None? || p.value == 0 ==> n == 100) && (p.Some? && 1 <= p.value <= 1000 ==> n == p.value)
    ensures var p := ParseInt10(limit.GetOr("100"));
      p.Some? && p.value != 0 ==> n == Max(0, Min(1000, p.value))
  {
    Max(0, Min(1000, OrDefault(ParseInt10(limit.GetOr("100")), 100)))
  }

  /** `max(0, parseInt(offset, 10) || 0)`. */
  function EffectiveOffset(offset: Option<string>): (n: int)
    ensures n >= 0
    ensures var p := ParseInt10(offset.GetOr("0")); p.Some? && p.value >= 0 ==> n == p.value
    ensures var p := ParseInt10(offset.GetOr("0")); p.None? || p.value <= 0 ==> n == 0
  {
    Max(0, OrDefault(ParseInt10(offset.GetOr("0")), 0))
  }

  /** A decimal limit within the cap is taken as given. */
  lemma EffectiveLimitOfNat(n: nat)
    requires 1 <= n <= 1000
    ensures EffectiveLimit(Some(NatToString(n))) == n
  {
    ParseInt10OfNat(n);
  }

  /** A decimal offset is taken as given. */
  lemma EffectiveOffsetOfNat(n: nat)
    ensures EffectiveOffset(Some(NatToString(n))) == n
  {
    ParseInt10OfNat(n);
  }

  // ---------- the joined rows ----------

  /** The query string: every parameter is optional. */
  datatype ListQuery = ListQuery(
    id: Option<string>, key: Option<string>, variantId: Option<string>, isUsed: Option<string>,
    orderId: Option<string>, usedAt: Option<string>, cost: Option<string>,
    createdBy: Option<string>, createdAt: Option<string>, updatedAt: Option<string>,
    q: Option<string>, sort: Option<string>, order: Option<string>,
    limit: Option<string>, offset: Option<string>)

  /** A key row with the product and variant columns of its `LEFT JOIN`s. */
  datatype Listed = Listed(row: Row, productTitle: Option<string>, variantTitle: Option<string>,
                           variantSku: Option<string>)

  function JoinRow(c: Catalog, r: Row): (l: Listed)
    ensures l.row == r
    ensures var v := FindVariant(c.variants, r.variantId);
      (v.None? ==> l.variantTitle.None? && l.variantSku.None? && l.productTitle.None?)
      && (v.Some? ==> l.variantTitle == v.value.title && l.variantSku == v.value.sku)
      && (v.Some? && v.value.productId in c.products ==>
            l.productTitle == c.products[v.value.productId].title)
  {
    var v := FindVariant(c.variants, r.variantId);
    if v.None? then Listed(r, None, None, None)
    else
      var p := ProductOf(c, v.value);
      Listed(r, if p.Some? then p.value.title else None, v.value.title, v.value.sku)
  }

  function JoinAll(c: Catalog, rows: seq<Row>): (r: seq<Listed>)
    ensures |r| == |rows| && forall i :: 0 <= i < |rows| ==> r[i] == JoinRow(c, rows[i])
  {
    Map(rows, (row: Row) => JoinRow(c, row))
  }

  function TextOrNull(s: Option<string>): Value {
    if s.Some? then VText(s.value) else VNull
  }

  function IntOrNull(n: Option<int>): Value {
    if n.Some? then VInt(n.value) else VNull
  }

  /** The SQL value of a column of a joined row. */
  function ColumnValue(l: Listed, c: Column): Value {
    match c
    case Id => VText(l.row.id)
    case Key => VText(l.row.key)
    case ProductVariantId => VText(l.row.variantId)
    case IsUsed => VBool(l.row.isUsed)
    case OrderId => TextOrNull(l.row.orderId)
    case UsedAt => StampValue(l.row.usedAt)
    case CreatedAt => VInt(l.row.createdAt)
    case UpdatedAt => VInt(l.row.updatedAt)
    case Cost => IntOrNull(l.row.cost)
    case CreatedBy => TextOrNull(l.row.createdBy)
    case ProductTitle => TextOrNull(l.productTitle)
    case VariantTitle => TextOrNull(l.variantTitle)
    case VariantSku => TextOrNull(l.variantSku)
  }

  /**
   * What the database does with text it is handed: `cast` reads a literal for a non-text
   * column (None: the literal is malformed and the statement fails); `ilike` is
   * `value ILIKE pattern`.
   */
  datatype Env = Env(cast: (Column, string) -> Option<Value>, ilike: (string, string) -> bool)

  predicate TextColumn(c: Column) {
    c.Id? || c.Key? || c.ProductVariantId? || c.OrderId? || c.CreatedBy?
      || c.ProductTitle? || c.VariantTitle? || c.VariantSku?
  }

  /** The value a text parameter takes when compared with column `c`. */
  function Literal(env: Env, c: Column, s: string): Option<Value> {
    if TextColumn(c) then Some(VText(s)) else env.cast(c, s)
  }

  /** `column = literal`; a NULL column matches nothing. */
  predicate EqualsLiteral(env: Env, l: Listed, c: Column, s: string) {
    var lit := Literal(env, c, s);
    lit.Some? && ColumnValue(l, c) != VNull && ColumnValue(l, c) == lit.value
  }

  predicate LikeColumn(env: Env, v: Option<string>, pattern: string) {
    v.Some? && env.ilike(v.value, pattern)
  }

  /** The free-text search over key, product title, variant title and SKU. */
  predicate AnyLike(env: Env, l: Listed, pattern: string) {
    env.ilike(l.row.key, pattern) || LikeColumn(env, l.productTitle, pattern)
      || LikeColumn(env, l.variantTitle, pattern) || LikeColumn(env, l.variantSku, pattern)
  }

  // ---------- WHERE clauses over numbered placeholders ----------

  datatype Param = PText(s: string) | PBool(b: bool) | PInt(n: int)

  /** `column = $index`, or the search group whose four `ILIKE`s share `$index`. */
  datatype Clause = Equals(column: Column, index: nat) | Search(index: nat)

  datatype Where = Where(clauses: seq<Clause>, params: seq<Param>)

  /** Clause `i` uses placeholder `$(i+1)`, and there is one parameter per clause. */
  predicate Numbered(w: Where) {
    |w.clauses| == |w.params| && forall i :: 0 <= i < |w.clauses| ==> w.clauses[i].index == i + 1
  }

  /** `addFilter(column, value)`: nothing for an absent value, else one clause and one parameter. */
  function WithFilter(w: Where, c: Column, value: Option<string>): Where {
    if value.None? then w
    else Where(w.clauses + [Equals(c, |w.params| + 1)], w.params + [PText(value.value)])
  }

  /** The `is_used` filter: its parameter is true iff the value is `"true"` or `"1"`. */
  function WithIsUsed(w: Where, value: Option<string>): Where {
    if value.None? then w
    else Where(w.clauses + [Equals(IsUsed, |w.params| + 1)],
               w.params + [PBool(value.value == "true" || value.value == "1")])
  }

  function SearchPattern(q: string): string {
    "%" + Trim(q) + "%"
  }

  /** The search group, only for a query that is not blank. */
  function WithSearch(w: Where, q: Option<string>): Where {
    if q.None? || IsBlank(q.value) then w
    else Where(w.clauses + [Search(|w.params| + 1)], w.params + [PText(SearchPattern(q.value))])
  }

  /** The first three filters: id, key and variant. */
  function IdentityStage(q: ListQuery): Where {
    WithFilter(WithFilter(WithFilter(Where([], []), Id, q.id), Key, q.key), ProductVariantId, q.variantId)
  }

  /** Then `is_used`, order, use time and cost. */
  function UsageStage(q: ListQuery): Where {
    WithFilter(WithFilter(WithFilter(WithIsUsed(IdentityStage(q), q.isUsed), OrderId, q.orderId),
                          UsedAt, q.usedAt), Cost, q.cost)
  }

  /** Then creator and the two timestamps. */
  function AuditStage(q: ListQuery): Where {
    WithFilter(WithFilter(WithFilter(UsageStage(q), CreatedBy, q.createdBy), CreatedAt, q.createdAt),
               UpdatedAt, q.updatedAt)
  }

  /** The clauses and parameters the handler builds, in its order: the filters, then the search. */
  function Filters(q: ListQuery): Where {
    WithSearch(AuditStage(q), q.q)
  }

  /** How the database evaluates one clause against a row, looking its parameter up by number. */
  predicate ClauseHolds(env: Env, c: Clause, params: seq<Param>, l: Listed) {
    1 <= c.index <= |params| &&
    match c
    case Equals(col, k) =>
      (match params[k - 1]
       case PText(s) => EqualsLiteral(env, l, col, s)
       case PBool(b) => ColumnValue(l, col) == VBool(b)
       case PInt(n) => ColumnValue(l, col) == VInt(n))
    case Search(k) => params[k - 1].PText? && AnyLike(env, l, params[k - 1].s)
  }

  /** A row passes `WHERE c1 AND c2 AND ...`. */
  predicate Holds(env: Env, clauses: seq<Clause>, params: seq<Param>, l: Listed) {
    forall i :: 0 <= i < |clauses| ==> ClauseHolds(env, clauses[i], params, l)
  }

  /** Some clause hands a malformed literal to a non-text column: the statement fails. */
  predicate CastFails(env: Env, clauses: seq<Clause>, params: seq<Param>) {
    exists i :: 0 <= i < |clauses| && clauses[i].Equals? && 1 <= clauses[i].index <= |params|
      && params[clauses[i].index - 1].PText?
      && Literal(env, clauses[i].column, params[clauses[i].index - 1].s).None?
  }

  // ---------- the listing, stated directly on the query ----------

  predicate FieldMatches(env: Env, l: Listed, c: Column, value: Option<string>) {
    value.None? || EqualsLiteral(env, l, c, value.value)
  }

  predicate LiteralFails(env: Env, c: Column, value: Option<string>) {
    value.Some? && Literal(env, c, value.value).None?
  }

  predicate IdentityMatches(env: Env, q: ListQuery, l: Listed) {
    FieldMatches(env, l, Id, q.id) && FieldMatches(env, l, Key, q.key)
    && FieldMatches(env, l, ProductVariantId, q.variantId)
  }

  predicate UsageMatches(env: Env, q: ListQuery, l: Listed) {
    (q.isUsed.None? || l.row.isUsed == (q.isUsed.value == "true" || q.isUsed.value == "1"))
    && FieldMatches(env, l, OrderId, q.orderId) && FieldMatches(env, l, UsedAt, q.usedAt)
    && FieldMatches(env, l, Cost, q.cost)
  }

  predicate AuditMatches(env: Env, q: ListQuery, l: Listed) {
    FieldMatches(env, l, CreatedBy, q.createdBy) && FieldMatches(env, l, CreatedAt, q.createdAt)
    && FieldMatches(env, l, UpdatedAt, q.updatedAt)
  }

  predicate SearchMatches(env: Env, q: ListQuery, l: Listed) {
    q.q.None? || IsBlank(q.q.value) || AnyLike(env, l, SearchPattern(q.q.value))
  }

  /** A row the listing keeps: it agrees with every supplied filter and the search. */
  predicate Matches(env: Env, q: ListQuery, l: Listed) {
    IdentityMatches(env, q, l) && UsageMatches(env, q, l) && AuditMatches(env, q, l)
    && SearchMatches(env, q, l)
  }

  /** A filter value the database cannot read for its column. */
  predicate QueryCastFails(env: Env, q: ListQuery) {
    LiteralFails(env, UsedAt, q.usedAt) || LiteralFails(env, Cost, q.cost)
    || LiteralFails(env, CreatedAt, q.createdAt) || LiteralFails(env, UpdatedAt, q.updatedAt)
  }

  function MatchesFor(env: Env, q: ListQuery): Listed -> bool {
    (l: Listed) => Matches(env, q, l)
  }

  function SortKeyFor(c: Column, d: Direction): Listed -> seq<SortKey> {
    (l: Listed) => [if d == ASC then Asc(ColumnValue(l, c)) else Desc(ColumnValue(l, c))]
  }

  /** `LIMIT limit OFFSET offset`. */
  function Page<T>(s: seq<T>, limit: nat, offset: nat): (r: seq<T>)
    ensures |r| == Max(0, Min(limit, |s| - offset))
    ensures forall i :: 0 <= i < |r| ==> r[i] == s[offset + i]
  {
    if offset >= |s| then [] else s[offset..Min(offset + limit, |s|)]
  }

  /** A listed row with the display defaults filled in. */
  datatype Enriched = Enriched(row: Row, productTitle: string, variantTitle: string, variantSku: string)

  function Enrich(l: Listed): (e: Enriched)
    ensures e.row == l.row
    ensures e.productTitle == OrText(l.productTitle, "Unknown Product")
    ensures e.variantTitle == OrText(l.variantTitle, "Default")
    ensures e.variantSku == OrText(l.variantSku, "N/A")
  {
    Enriched(l.row, OrText(l.productTitle, "Unknown Product"), OrText(l.variantTitle, "Default"),
             OrText(l.variantSku, "N/A"))
  }

  datatype ListResponse =
    | ListOk(count: nat, total: nat, limit: int, offset: int, sort: string, order: string,
             keys: seq<Enriched>)
    | ListFailed(status: nat, message: string)

  /** The joined rows that pass the filters and the search, in table order. */
  function Matched(rows: seq<Row>, c: Catalog, env: Env, q: ListQuery): seq<Listed> {
    Filter(JoinAll(c, rows), MatchesFor(env, q))
  }

  /** The matched rows in the requested order, cut to the requested page. */
  function ListedPage(rows: seq<Row>, c: Catalog, env: Env, q: ListQuery): (r: seq<Listed>)
    ensures |r| == Max(0, Min(EffectiveLimit(q.limit), |Matched(rows, c, env, q)| - EffectiveOffset(q.offset)))
    ensures forall i :: 0 <= i < |r| ==> r[i] in Matched(rows, c, env, q)
  {
    PageOfSorted(Matched(rows, c, env, q), SortKeyFor(NormalizeSort(q.sort), NormalizeOrder(q.order)),
                 EffectiveLimit(q.limit), EffectiveOffset(q.offset));
    Page(SortBy(Matched(rows, c, env, q), SortKeyFor(NormalizeSort(q.sort), NormalizeOrder(q.order))),
         EffectiveLimit(q.limit), EffectiveOffset(q.offset))
  }

  /** The GET response, computed from the query without any SQL text. */
  function Listing(rows: seq<Row>, c: Catalog, env: Env, q: ListQuery): ListResponse {
    if QueryCastFails(env, q) then ListFailed(500, "Failed to fetch activation keys")
    else
      ListingOf(Matched(rows, c, env, q), ListedPage(rows, c, env, q), EffectiveLimit(q.limit),
                EffectiveOffset(q.offset), ColumnName(NormalizeSort(q.sort)),
                DirectionName(NormalizeOrder(q.order)))
  }

  /** The JSON body of a successful listing: the enriched page and the echoed paging. */
  function ListingOf(matched: seq<Listed>, page: seq<Listed>, limit: int, offset: int, sort: string,
                     order: string): ListResponse {
    var keys := Map(page, Enrich);
    ListOk(|keys|, |matched|, limit, offset, sort, order, keys)
  }

  /**
   * A successful response for `limit` and `offset`: it echoes both, holds `min(limit, total -
   * offset)` rows (none past the end) and never more than 1000, and its `count` is its length.
   */
  predicate PagedAs(r: ListResponse, limit: int, offset: int) {
    r.ListOk? ==>
      r.limit == limit && r.offset == offset && r.count == |r.keys|
      && r.count == Max(0, Min(limit, r.total - offset)) && r.count <= 1000
  }

  /** Every listing is paged as its effective limit and offset say. */
  lemma ListingCount(rows: seq<Row>, c: Catalog, env: Env, q: ListQuery)
    ensures PagedAs(Listing(rows, c, env, q), EffectiveLimit(q.limit), EffectiveOffset(q.offset))
  {
    if !QueryCastFails(env, q) {
      var m, page := Matched(rows, c, env, q), ListedPage(rows, c, env, q);
      PagedListing(m, page, EffectiveLimit(q.limit), EffectiveOffset(q.offset),
                   ColumnName(NormalizeSort(q.sort)), DirectionName(NormalizeOrder(q.order)));
    }
  }

  /** A page of the sorted rows has the paged length and holds only rows of the sequence. */
  lemma PageOfSorted<T>(m: seq<T>, key: T -> seq<SortKey>, limit: nat, offset: nat)
    ensures |Page(SortBy(m, key), limit, offset)| == Max(0, Min(limit, |m| - offset))
    ensures forall i :: 0 <= i < |Page(SortBy(m, key), limit, offset)| ==>
              Page(SortBy(m, key), limit, offset)[i] in m
  {
    forall i | 0 <= i < |Page(SortBy(m, key), limit, offset)|
      ensures Page(SortBy(m, key), limit, offset)[i] in m
    {
      PagedFrom(m, key, limit, offset, i);
    }
  }

  lemma PagedListing(m: seq<Listed>, page: seq<Listed>, limit: int, offset: int, sort: string,
                     order: string)
    requires 0 <= limit <= 1000 && |page| == Max(0, Min(limit, |m| - offset))
    ensures PagedAs(ListingOf(m, page, limit, offset, sort, order), limit, offset)
  {
  }

  /** A page of a sorted sequence is sorted. */
  lemma PageSorted<T>(s: seq<T>, key: T -> seq<SortKey>, limit: nat, offset: nat)
    requires SortedBy(s, key)
    ensures SortedBy(Page(s, limit, offset), key)
  {
    var r := Page(s, limit, offset);
    forall i, j | 0 <= i < j < |r| ensures KeysLe(key(r[i]), key(r[j])) {
      assert r[i] == s[offset + i] && r[j] == s[offset + j];
    }
  }

  /** The listed page is in the order `ORDER BY` asks for: the sort column in its direction. */
  lemma ListedPageSorted(rows: seq<Row>, c: Catalog, env: Env, q: ListQuery)
    ensures SortedBy(ListedPage(rows, c, env, q), SortKeyFor(NormalizeSort(q.sort), NormalizeOrder(q.order)))
  {
    var key := SortKeyFor(NormalizeSort(q.sort), NormalizeOrder(q.order));
    PageSorted(SortBy(Matched(rows, c, env, q), key), key, EffectiveLimit(q.limit), EffectiveOffset(q.offset));
  }

  /** The filters do not look at limit and offset. */
  lemma MatchedIgnoresPaging(rows: seq<Row>, c: Catalog, env: Env, q: ListQuery,
                             limit: Option<string>, offset: Option<string>)
    ensures Matched(rows, c, env, q.(limit := limit, offset := offset)) == Matched(rows, c, env, q)
  {
    FilterCongruent(JoinAll(c, rows), MatchesFor(env, q.(limit := limit, offset := offset)), MatchesFor(env, q));
  }

  /** Limit and offset change the page, never the total. */
  lemma ListingTotalIgnoresPaging(rows: seq<Row>, c: Catalog, env: Env, q: ListQuery,
                                  limit: Option<string>, offset: Option<string>)
    requires Listing(rows, c, env, q).ListOk?
    ensures Listing(rows, c, env, q.(limit := limit, offset := offset)).ListOk?
    ensures Listing(rows, c, env, q.(limit := limit, offset := offset)).total == Listing(rows, c, env, q).total
  {
    MatchedIgnoresPaging(rows, c, env, q, limit, offset);
  }

  /** A row of a page of the sorted sequence is an element of the sequence. */
  lemma PagedFrom<T>(s: seq<T>, key: T -> seq<SortKey>, limit: nat, offset: nat, i: nat)
    requires i < |Page(SortBy(s, key), limit, offset)|
    ensures Page(SortBy(s, key), limit, offset)[i] in s
  {
    var sorted := SortBy(s, key);
    SortByPermutes(s, key);
    assert Page(sorted, limit, offset)[i] == sorted[offset + i];
    assert sorted[offset + i] in multiset(sorted);
  }

  /** A matched row joins a row of the table and passes the filters. */
  lemma MatchedRow(rows: seq<Row>, c: Catalog, env: Env, q: ListQuery, l: Listed)
    requires l in Matched(rows, c, env, q)
    ensures l.row in rows && Matches(env, q, l)
  {
    var k :| 0 <= k < |JoinAll(c, rows)| && JoinAll(c, rows)[k] == l;
    assert l.row == rows[k];
  }

  /**
   * Every listed key is a row of the table that passes the filters.
   */
  lemma ListingRowsMatch(rows: seq<Row>, c: Catalog, env: Env, q: ListQuery, i: nat)
    requires Listing(rows, c, env, q).ListOk? && i < |Listing(rows, c, env, q).keys|
    ensures Listing(rows, c, env, q).keys[i].row in rows
    ensures Matches(env, q, JoinRow(c, Listing(rows, c, env, q).keys[i].row))
  {
    var page := ListedPage(rows, c, env, q);
    KeyOfPage(Matched(rows, c, env, q), page, EffectiveLimit(q.limit), EffectiveOffset(q.offset),
              ColumnName(NormalizeSort(q.sort)), DirectionName(NormalizeOrder(q.order)), i);
    MatchedRow(rows, c, env, q, page[i]);
  }

  lemma KeyOfPage(m: seq<Listed>, page: seq<Listed>, limit: int, offset: int, sort: string,
                  order: string, i: nat)
    requires i < |ListingOf(m, page, limit, offset, sort, order).keys|
    ensures i < |page| && ListingOf(m, page, limit, offset, sort, order).keys[i].row == page[i].row
  {
  }

  /** An absent limit is 100 and an absent offset is 0. */
  lemma PagingDefaults()
    ensures EffectiveLimit(None) == 100 && EffectiveOffset(None) == 0
  {
    assert NatToString(100) == "100" by {
      assert NatToString(10) == "10";
    }
    ParseInt10OfNat(100);
    assert NatToString(0) == "0";
    ParseInt10OfNat(0);
  }

  /** A query without filters or search keeps every joined row. */
  lemma NoFiltersMatchAll(rows: seq<Row>, c: Catalog, env: Env, q: ListQuery)
    requires q.id.None? && q.key.None? && q.variantId.None? && q.isUsed.None? && q.orderId.None?
    requires q.usedAt.None? && q.cost.None? && q.createdBy.None? && q.createdAt.None?
    requires q.updatedAt.None? && q.q.None?
    ensures !QueryCastFails(env, q) && Matched(rows, c, env, q) == JoinAll(c, rows)
  {
    var all := JoinAll(c, rows);
    forall i | 0 <= i < |all|
      ensures MatchesFor(env, q)(all[i])
    {
      assert IdentityMatches(env, q, all[i]) && UsageMatches(env, q, all[i]);
      assert AuditMatches(env, q, all[i]) && SearchMatches(env, q, all[i]);
    }
    FilterOfAll(all, MatchesFor(env, q));
  }

  /** With no filters, no search and the default paging, the listing is the first 100 keys. */
  lemma UnfilteredListing(rows: seq<Row>, c: Catalog, env: Env, q: ListQuery)
    requires q.id.None? && q.key.None? && q.variantId.None? && q.isUsed.None? && q.orderId.None?
    requires q.usedAt.None? && q.cost.None? && q.createdBy.None? && q.createdAt.None?
    requires q.updatedAt.None? && q.q.None? && q.limit.None? && q.offset.None?
    ensures Listing(rows, c, env, q).ListOk?
    ensures Listing(rows, c, env, q).total == |rows|
    ensures Listing(rows, c, env, q).count == Min(100, |rows|)
    ensures Listing(rows, c, env, q).keys == Map(ListedPage(rows, c, env, q), Enrich)
    ensures ListedPage(rows, c, env, q)
         == Page(SortBy(JoinAll(c, rows), SortKeyFor(NormalizeSort(q.sort), NormalizeOrder(q.order))), 100, 0)
    ensures |rows| <= 100 ==> multiset(ListedPage(rows, c, env, q)) == multiset(JoinAll(c, rows))
  {
    NoFiltersMatchAll(rows, c, env, q);
    PagingDefaults();
    var sorted := SortBy(JoinAll(c, rows), SortKeyFor(NormalizeSort(q.sort), NormalizeOrder(q.order)));
    SortByPermutes(JoinAll(c, rows), SortKeyFor(NormalizeSort(q.sort), NormalizeOrder(q.order)));
    if |rows| <= 100 {
      assert |sorted| == |rows| by {
        assert |multiset(sorted)| == |multiset(JoinAll(c, rows))|;
      }
      assert Page(sorted, 100, 0) == sorted;
    }
  }

  // ---------- the builder and its connection to the direct statement ----------

  /** A clause keeps its meaning when parameters are appended after the ones it uses. */
  lemma ClauseHoldsExtended(env: Env, c: Clause, params: seq<Param>, extra: seq<Param>, l: Listed)
    requires 1 <= c.index <= |params|
    ensures ClauseHolds(env, c, params + extra, l) == ClauseHolds(env, c, params, l)
  {
    assert (params + extra)[c.index - 1] == params[c.index - 1];
  }

  lemma HoldsExtended(env: Env, w: Where, extra: seq<Param>, l: Listed)
    requires Numbered(w)
    ensures Holds(env, w.clauses, w.params + extra, l) == Holds(env, w.clauses, w.params, l)
    ensures CastFails(env, w.clauses, w.params + extra) == CastFails(env, w.clauses, w.params)
  {
    forall i | 0 <= i < |w.clauses|
      ensures ClauseHolds(env, w.clauses[i], w.params + extra, l) == ClauseHolds(env, w.clauses[i], w.params, l)
    {
      ClauseHoldsExtended(env, w.clauses[i], w.params, extra, l);
    }
    assert forall i :: 0 <= i < |w.params| ==> (w.params + extra)[i] == w.params[i];
  }

  /** Appending one clause on the next placeholder adds exactly that clause's condition. */
  lemma AppendClause(env: Env, w: Where, c: Clause, p: Param, l: Listed)
    requires Numbered(w) && c.index == |w.params| + 1
    ensures Numbered(Where(w.clauses + [c], w.params + [p]))
    ensures Holds(env, w.clauses + [c], w.params + [p], l)
      == (Holds(env, w.clauses, w.params, l) && ClauseHolds(env, c, w.params + [p], l))
    ensures CastFails(env, w.clauses + [c], w.params + [p])
      == (CastFails(env, w.clauses, w.params)
          || (c.Equals? && p.PText? && Literal(env, c.column, p.s).None?))
  {
    HoldsExtended(env, w, [p], l);
    AppendHolds(env, w, c, p, l);
    AppendCastFails(env, w, c, p);
  }

  lemma AppendHolds(env: Env, w: Where, c: Clause, p: Param, l: Listed)
    ensures Holds(env, w.clauses + [c], w.params + [p], l)
      == (Holds(env, w.clauses, w.params + [p], l) && ClauseHolds(env, c, w.params + [p], l))
  {
    var cs := w.clauses + [c];
    assert cs[|w.clauses|] == c;
    assert forall i :: 0 <= i < |w.clauses| ==> cs[i] == w.clauses[i];
  }

  lemma AppendCastFails(env: Env, w: Where, c: Clause, p: Param)
    requires Numbered(w) && c.index == |w.params| + 1
    requires CastFails(env, w.clauses, w.params + [p]) == CastFails(env, w.clauses, w.params)
    ensures CastFails(env, w.clauses + [c], w.params + [p])
      == (CastFails(env, w.clauses, w.params)
          || (c.Equals? && p.PText? && Literal(env, c.column, p.s).None?))
  {
    var cs := w.clauses + [c];
    var ps := w.params + [p];
    assert cs[|w.clauses|] == c && ps[|w.params|] == p;
    assert forall i :: 0 <= i < |w.clauses| ==> cs[i] == w.clauses[i];
    if CastFails(env, cs, ps) {
      var i :| 0 <= i < |cs| && cs[i].Equals? && 1 <= cs[i].index <= |ps| && ps[cs[i].index - 1].PText?
        && Literal(env, cs[i].column, ps[cs[i].index - 1].s).None?;
      if i < |w.clauses| {
        assert CastFails(env, w.clauses, ps);
      }
    }
  }

  lemma WithFilterMeaning(env: Env, w: Where, c: Column, value: Option<string>, l: Listed)
    requires Numbered(w)
    ensures Numbered(WithFilter(w, c, value))
    ensures |WithFilter(w, c, value).clauses| == |w.clauses| + Present(value)
    ensures Holds(env, WithFilter(w, c, value).clauses, WithFilter(w, c, value).params, l)
      == (Holds(env, w.clauses, w.params, l) && FieldMatches(env, l, c, value))
    ensures CastFails(env, WithFilter(w, c, value).clauses, WithFilter(w, c, value).params)
      == (CastFails(env, w.clauses, w.params) || LiteralFails(env, c, value))
  {
    if value.Some? {
      AppendClause(env, w, Equals(c, |w.params| + 1), PText(value.value), l);
    }
  }

  lemma WithIsUsedMeaning(env: Env, w: Where, value: Option<string>, l: Listed)
    requires Numbered(w)
    ensures Numbered(WithIsUsed(w, value))
    ensures |WithIsUsed(w, value).clauses| == |w.clauses| + Present(value)
    ensures Holds(env, WithIsUsed(w, value).clauses, WithIsUsed(w, value).params, l)
      == (Holds(env, w.clauses, w.params, l)
          && (value.None? || l.row.isUsed == (value.value == "true" || value.value == "1")))
    ensures CastFails(env, WithIsUsed(w, value).clauses, WithIsUsed(w, value).params)
      == CastFails(env, w.clauses, w.params)
  {
    if value.Some? {
      AppendClause(env, w, Equals(IsUsed, |w.params| + 1), PBool(value.value == "true" || value.value == "1"), l);
    }
  }

  lemma WithSearchMeaning(env: Env, w: Where, q: Option<string>, l: Listed)
    requires Numbered(w)
    ensures Numbered(WithSearch(w, q))
    ensures |WithSearch(w, q).clauses| == |w.clauses| + (if q.Some? && !IsBlank(q.value) then 1 else 0)
    ensures Holds(env, WithSearch(w, q).clauses, WithSearch(w, q).params, l)
      == (Holds(env, w.clauses, w.params, l)
          && (q.None? || IsBlank(q.value) || AnyLike(env, l, SearchPattern(q.value))))
    ensures CastFails(env, WithSearch(w, q).clauses, WithSearch(w, q).params)
      == CastFails(env, w.clauses, w.params)
  {
    if q.Some? && !IsBlank(q.value) {
      AppendClause(env, w, Search(|w.params| + 1), PText(SearchPattern(q.value)), l);
    }
  }

  /** 1 for a supplied parameter, 0 for an absent one. */
  function Present(o: Option<string>): nat {
    if o.Some? then 1 else 0
  }

  function IdentityCount(q: ListQuery): nat {
    Present(q.id) + Present(q.key) + Present(q.variantId)
  }

  function UsageCount(q: ListQuery): nat {
    IdentityCount(q) + Present(q.isUsed) + Present(q.orderId) + Present(q.usedAt) + Present(q.cost)
  }

  function AuditCount(q: ListQuery): nat {
    UsageCount(q) + Present(q.createdBy) + Present(q.createdAt) + Present(q.updatedAt)
  }

  /** How many filters the query supplies, a non-blank search counting as one: each becomes one clause. */
  function Supplied(q: ListQuery): nat {
    AuditCount(q) + (if q.q.Some? && !IsBlank(q.q.value) then 1 else 0)
  }

  lemma IdentityStageMeaning(env: Env, q: ListQuery, l: Listed)
    ensures var w := IdentityStage(q);
      Numbered(w) && !CastFails(env, w.clauses, w.params)
      && |w.clauses| == IdentityCount(q)
      && Holds(env, w.clauses, w.params, l) == IdentityMatches(env, q, l)
  {
    var w0 := Where([], []);
    var a := WithFilter(w0, Id, q.id);
    var b := WithFilter(a, Key, q.key);
    WithFilterMeaning(env, w0, Id, q.id, l);
    WithFilterMeaning(env, a, Key, q.key, l);
    WithFilterMeaning(env, b, ProductVariantId, q.variantId, l);
  }

  lemma UsageStageMeaning(env: Env, q: ListQuery, l: Listed)
    ensures var w := UsageStage(q);
      Numbered(w)
      && CastFails(env, w.clauses, w.params) == (LiteralFails(env, UsedAt, q.usedAt) || LiteralFails(env, Cost, q.cost))
      && |w.clauses| == UsageCount(q)
      && Holds(env, w.clauses, w.params, l) == (IdentityMatches(env, q, l) && UsageMatches(env, q, l))
  {
    IdentityStageMeaning(env, q, l);
    var w1 := WithIsUsed(IdentityStage(q), q.isUsed);
    var d := WithFilter(w1, OrderId, q.orderId);
    var e := WithFilter(d, UsedAt, q.usedAt);
    WithIsUsedMeaning(env, IdentityStage(q), q.isUsed, l);
    WithFilterMeaning(env, w1, OrderId, q.orderId, l);
    WithFilterMeaning(env, d, UsedAt, q.usedAt, l);
    WithFilterMeaning(env, e, Cost, q.cost, l);
  }

  lemma AuditStageMeaning(env: Env, q: ListQuery, l: Listed)
    ensures var w := AuditStage(q);
      Numbered(w)
      && CastFails(env, w.clauses, w.params) == QueryCastFails(env, q)
      && |w.clauses| == AuditCount(q)
      && Holds(env, w.clauses, w.params, l)
         == (IdentityMatches(env, q, l) && UsageMatches(env, q, l) && AuditMatches(env, q, l))
  {
    UsageStageMeaning(env, q, l);
    var f := WithFilter(UsageStage(q), CreatedBy, q.createdBy);
    var g := WithFilter(f, CreatedAt, q.createdAt);
    WithFilterMeaning(env, UsageStage(q), CreatedBy, q.createdBy, l);
    WithFilterMeaning(env, f, CreatedAt, q.createdAt, l);
    WithFilterMeaning(env, g, UpdatedAt, q.updatedAt, l);
  }

  /**
   * The built statement is numbered `$1..$n` with one parameter per clause and one clause per
   * supplied filter; a row passes it iff it matches the query, and it fails iff a filter value
   * cannot be read for its column.
   */
  lemma FiltersMeaning(env: Env, q: ListQuery, l: Listed)
    ensures Numbered(Filters(q)) && |Filters(q).clauses| == Supplied(q)
    ensures Holds(env, Filters(q).clauses, Filters(q).params, l) == Matches(env, q, l)
    ensures CastFails(env, Filters(q).clauses, Filters(q).params) == QueryCastFails(env, q)
  {
    AuditStageMeaning(env, q, l);
    WithSearchMeaning(env, AuditStage(q), q.q, l);
  }

  /** Evaluating the built clauses, with or without the paging parameters after them, keeps the matching rows. */
  lemma BuiltFilterIsMatched(rows: seq<Row>, c: Catalog, env: Env, q: ListQuery, extra: seq<Param>)
    ensures Filter(JoinAll(c, rows), HoldsFor(env, Filters(q).clauses, Filters(q).params + extra))
            == Matched(rows, c, env, q)
  {
    var listed := JoinAll(c, rows);
    var w := Filters(q);
    forall i | 0 <= i < |listed|
      ensures HoldsFor(env, w.clauses, w.params + extra)(listed[i]) == MatchesFor(env, q)(listed[i])
    {
      FiltersMeaning(env, q, listed[i]);
      HoldsExtended(env, w, extra, listed[i]);
    }
    FilterCongruent(listed, HoldsFor(env, w.clauses, w.params + extra), MatchesFor(env, q));
  }

  /** The two local lists the GET handler's `addFilter` closure pushes onto. */
  class WhereBuilder {
    var clauses: seq<Clause>
    var params: seq<Param>

    ghost predicate Valid()
      reads this
    {
      Numbered(Where(clauses, params))
    }

    constructor()
      ensures Valid() && clauses == [] && params == []
    {
      clauses := [];
      params := [];
    }

    method AddFilter(c: Column, value: Option<string>)
      requires Valid()
      modifies this
      ensures Valid()
      ensures Where(clauses, params) == WithFilter(old(Where(clauses, params)), c, value)
    {
      if value.Some? {
        var index := |params| + 1;
        clauses := clauses + [Equals(c, index)];
        params := params + [PText(value.value)];
      }
    }

    method AddIsUsed(value: Option<string>)
      requires Valid()
      modifies this
      ensures Valid()
      ensures Where(clauses, params) == WithIsUsed(old(Where(clauses, params)), value)
    {
      if value.Some? {
        var index := |params| + 1;
        clauses := clauses + [Equals(IsUsed, index)];
        params := params + [PBool(value.value == "true" || value.value == "1")];
      }
    }

    method AddSearch(q: Option<string>)
      requires Valid()
      modifies this
      ensures Valid()
      ensures Where(clauses, params) == WithSearch(old(Where(clauses, params)), q)
    {
      if q.Some? && !IsBlank(q.value) {
        var index := |params| + 1;
        clauses := clauses + [Search(index)];
        params := params + [PText(SearchPattern(q.value))];
      }
    }
  }

  function HoldsFor(env: Env, clauses: seq<Clause>, params: seq<Param>): Listed -> bool {
    (l: Listed) => Holds(env, clauses, params, l)
  }

  /**
   * The data statement: `WHERE ... ORDER BY col dir LIMIT $limitAt OFFSET $offsetAt`.
   * None when a placeholder of `LIMIT`/`OFFSET` is unbound, not a number, or negative.
   */
  function Select(env: Env, listed: seq<Listed>, clauses: seq<Clause>, params: seq<Param>,
                  col: Column, dir: Direction, limitAt: nat, offsetAt: nat): Option<seq<Listed>>
  {
    if !(1 <= limitAt <= |params| && 1 <= offsetAt <= |params|) then None
    else if !params[limitAt - 1].PInt? || !params[offsetAt - 1].PInt? then None
    else if params[limitAt - 1].n < 0 || params[offsetAt - 1].n < 0 then None
    else
      var matched := Filter(listed, HoldsFor(env, clauses, params));
      Some(Page(SortBy(matched, SortKeyFor(col, dir)), params[limitAt - 1].n, params[offsetAt - 1].n))
  }

  /** The built statement fails exactly when a filter value cannot be read for its column. */
  lemma FiltersCastFails(env: Env, q: ListQuery)
    ensures Numbered(Filters(q))
    ensures CastFails(env, Filters(q).clauses, Filters(q).params) == QueryCastFails(env, q)
  {
    FiltersMeaning(env, q, Listed(NewRow("", "", "", None, None, 0), None, None, None));
  }

  /**
   * The data statement, with limit and offset bound to the two placeholders after the
   * filters, returns the listed page.
   */
  lemma SelectIsListedPage(rows: seq<Row>, c: Catalog, env: Env, q: ListQuery)
    ensures var w := Filters(q);
      Select(env, JoinAll(c, rows), w.clauses, w.params + [PInt(EffectiveLimit(q.limit)), PInt(EffectiveOffset(q.offset))],
             NormalizeSort(q.sort), NormalizeOrder(q.order), |w.params| + 1, |w.params| + 2)
      == Some(ListedPage(rows, c, env, q))
  {
    BuiltFilterIsMatched(rows, c, env, q, [PInt(EffectiveLimit(q.limit)), PInt(EffectiveOffset(q.offset))]);
  }

  /** The count statement, run with the filter parameters alone, counts the matched rows. */
  lemma CountIsMatched(rows: seq<Row>, c: Catalog, env: Env, q: ListQuery)
    ensures |Filter(JoinAll(c, rows), HoldsFor(env, Filters(q).clauses, Filters(q).params))|
            == |Matched(rows, c, env, q)|
  {
    BuiltFilterIsMatched(rows, c, env, q, []);
    assert Filters(q).params + [] == Filters(q).params;
  }

  /** The handler's calls to `addFilter`, in its order, on fresh lists. */
  method BuildFilters(q: ListQuery) returns (w: Where)
    ensures w == Filters(q)
  {
    var b := new WhereBuilder();
    b.AddFilter(Id, q.id);
    b.AddFilter(Key, q.key);
    b.AddFilter(ProductVariantId, q.variantId);
    assert Where(b.clauses, b.params) == IdentityStage(q);
    b.AddIsUsed(q.isUsed);
    b.AddFilter(OrderId, q.orderId);
    b.AddFilter(UsedAt, q.usedAt);
    b.AddFilter(Cost, q.cost);
    assert Where(b.clauses, b.params) == UsageStage(q);
    b.AddFilter(CreatedBy, q.createdBy);
    b.AddFilter(CreatedAt, q.createdAt);
    b.AddFilter(UpdatedAt, q.updatedAt);
    assert Where(b.clauses, b.params) == AuditStage(q);
    b.AddSearch(q.q);
    w := Where(b.clauses, b.params);
  }

  /**
   * GET: builds the filters, counts the matches with the filter parameters alone, then runs
   * the data statement with limit and offset on the two placeholders after them.
   */
  method Get(store: KeyStore, c: Catalog, env: Env, q: ListQuery) returns (resp: ListResponse)
    ensures resp == Listing(store.rows, c, env, q)
  {
    var sortColumn := NormalizeSort(q.sort);
    var direction := NormalizeOrder(q.order);
    var w := BuildFilters(q);
    FiltersCastFails(env, q);
    if CastFails(env, w.clauses, w.params) {
      return ListFailed(500, "Failed to fetch activation keys");
    }
    var listed := JoinAll(c, store.rows);
    var matched := Filter(listed, HoldsFor(env, w.clauses, w.params));
    CountIsMatched(store.rows, c, env, q);
    var totalText := NatToString(|matched|);
    ParseInt10OfNat(|matched|);
    var total := ParseInt10(totalText).value;
    var limitNum := EffectiveLimit(q.limit);
    var offsetNum := EffectiveOffset(q.offset);
    var params := w.params + [PInt(limitNum), PInt(offsetNum)];
    var page := Select(env, listed, w.clauses, params, sortColumn, direction, |w.params| + 1, |w.params| + 2);
    SelectIsListedPage(store.rows, c, env, q);
    var enriched := Map(page.value, Enrich);
    resp := ListOk(|enriched|, total, limitNum, offsetNum, ColumnName(sortColumn),
                   DirectionName(direction), enriched);
  }

  // ---------- POST ----------

  /** The request body; each field may be missing. */
  datatype PostBody = PostBody(variantId: Option<Json>, keys: Option<Json>, cost: Option<Json>)

  datatype PostReply = PostReply(status: nat, message: string, keys: seq<Row>)

  /**
   * The text the database client sends for a JSON value (None for `null`); `render` is its
   * serialisation of anything but a string.
   */
  function PgText(render: Json -> string, j: Json): (r: Option<string>)
    ensures j.JNull? <==> r.None?
    ensures j.JStr? ==> r == Some(j.s)
  {
    match j
    case JNull => None
    case JStr(s) => Some(s)
    case _ => Some(render(j))
  }

  /** The reason a body is refused with 400, if it is. */
  function PostRejection(body: PostBody): (r: Option<string>)
    ensures r.None? <==> Truthy(body.variantId) && Truthy(body.keys)
                          && (body.keys.value.JArr? || body.keys.value.JStr?)
  {
    if !Truthy(body.variantId) then Some("product_variant_id is required")
    else if !Truthy(body.keys) || !(body.keys.value.JArr? || body.keys.value.JStr?) then
      Some("keys must be a string or array of strings")
    else None
  }

  /** `Array.isArray(keys) ? keys : [keys]`. */
  function KeysArray(keys: Json): seq<Json> {
    if keys.JArr? then keys.items else [keys]
  }

  /** `typeof cost === 'number' ? cost : null`. */
  function CostOf(cost: Option<Json>): Option<int> {
    if cost.Some? && cost.value.JNum? then Some(cost.value.n) else None
  }

  /** `auth_user_id || user?.id || null`. */
  function CreatedByOf(authUserId: Option<string>, userId: Option<string>): (r: Option<string>)
    ensures authUserId.Some? && authUserId.value != [] ==> r == authUserId
    ensures (authUserId.None? || authUserId.value == []) ==>
      r == (if userId.Some? && userId.value != [] then userId else None)
  {
    if authUserId.Some? && authUserId.value != [] then authUserId
    else if userId.Some? && userId.value != [] then userId
    else None
  }

  /** `ak_<Date.now()>_<i>_<random base-36 text>`. */
  function KeyId(millis: nat, i: nat, random: string): string {
    "ak_" + NatToString(millis) + "_" + NatToString(i) + "_" + random
  }

  /** The index of the first JSON `null` among the keys (their count when there is none). */
  function FirstNull(items: seq<Json>): (k: nat)
    ensures k <= |items| && (k < |items| ==> items[k].JNull?)
    ensures forall i :: 0 <= i < k ==> !items[i].JNull?
  {
    if items == [] || items[0].JNull? then 0
    else
      var k := FirstNull(items[1..]);
      assert forall i :: 1 <= i <= k ==> items[i] == items[1..][i - 1];
      1 + k
  }

  /** The rows the handler inserts for the non-null keys in front of the first null one. */
  function PostRows(variant: string, items: seq<Json>, cost: Option<int>, createdBy: Option<string>,
                    render: Json -> string, millis: nat -> nat, random: nat -> string,
                    clock: nat -> Stamp): (r: seq<Row>)
    ensures |r| == FirstNull(items)
    ensures forall i :: 0 <= i < |r| ==>
      r[i] == NewRow(KeyId(millis(i), i, random(i)), PgText(render, items[i]).value, variant, cost,
                     createdBy, clock(i))
  {
    var k := FirstNull(items);
    seq(k, i requires 0 <= i < k =>
      NewRow(KeyId(millis(i), i, random(i)), PgText(render, items[i]).value, variant, cost,
             createdBy, clock(i)))
  }

  /**
   * The insert loop's outcome: the inserts in front of the first null key, then, if they all
   * went through, the null key's `NOT NULL` violation.
   */
  function PostBatch(rows: seq<Row>, news: seq<Row>, items: seq<Json>): Batch {
    var b := InsertEach(rows, news);
    if b.error.None? && FirstNull(items) < |items| then b.(error := Some(NullKey)) else b
  }

  /** The table after a POST and the reply it sends. */
  datatype PostOutcome = PostOutcome(rows: seq<Row>, reply: PostReply)

  /**
   * POST: 400 for a missing variant or keys that are neither a string nor an array, with the
   * table unchanged; otherwise each key in order becomes one unused row of the variant, and the
   * reply is 201 with the inserted rows, or 500 at the first insert the database refuses, the
   * earlier inserts staying in the table.
   */
  function PostResult(rows: seq<Row>, body: PostBody, authUserId: Option<string>, userId: Option<string>,
                      render: Json -> string, millis: nat -> nat, random: nat -> string,
                      clock: nat -> Stamp): (o: PostOutcome)
    ensures PostRejection(body).Some? ==> o == PostOutcome(rows, PostReply(400, PostRejection(body).value, []))
    ensures PostRejection(body).None? ==> o.reply.status == 201 || o.reply.status == 500
    ensures o.reply.status == 201 ==>
      o.rows == rows + o.reply.keys && |o.reply.keys| == |KeysArray(body.keys.value)|
    ensures o.reply.status == 201 ==>
      PostRejection(body).None? &&
      o.reply.keys == PostRows(PgText(render, body.variantId.value).value, KeysArray(body.keys.value),
                               CostOf(body.cost), CreatedByOf(authUserId, userId), render, millis,
                               random, clock)
    ensures o.reply.status == 500 ==>
      o.reply == PostReply(500, "Failed to create activation keys", [])
      && |rows| <= |o.rows| <= |rows| + |KeysArray(body.keys.value)| && o.rows[..|rows|] == rows
  {
    if PostRejection(body).Some? then PostOutcome(rows, PostReply(400, PostRejection(body).value, []))
    else
      var items := KeysArray(body.keys.value);
      var news := PostRows(PgText(render, body.variantId.value).value, items, CostOf(body.cost),
                           CreatedByOf(authUserId, userId), render, millis, random, clock);
      var b := PostBatch(rows, news, items);
      PostOutcome(b.rows, if b.error.None? then PostReply(201, "", b.inserted)
                          else PostReply(500, "Failed to create activation keys", []))
  }

  /** The POST handler over the key table. */
  method Post(store: KeyStore, body: PostBody, authUserId: Option<string>, userId: Option<string>,
              render: Json -> string, millis: nat -> nat, random: nat -> string, clock: nat -> Stamp)
    returns (reply: PostReply)
    requires store.Valid()
    modifies store
    ensures store.Valid()
    ensures var o := PostResult(old(store.rows), body, authUserId, userId, render, millis, random, clock);
      store.rows == o.rows && reply == o.reply
  {
    var rejection := PostRejection(body);
    if rejection.Some? {
      return PostReply(400, rejection.value, []);
    }
    var variant := PgText(render, body.variantId.value).value;
    var items := KeysArray(body.keys.value);
    var createdBy := CreatedByOf(authUserId, userId);
    var news := PostRows(variant, items, CostOf(body.cost), createdBy, render, millis, random, clock);
    var r := store.InsertAll(news);
    if r.Failure? {
      return PostReply(500, "Failed to create activation keys", []);
    }
    if FirstNull(items) < |items| {
      return PostReply(500, "Failed to create activation keys", []);
    }
    reply := PostReply(201, "", r.value);
  }

  /** A body that passes validation with string keys and no null among them inserts every key. */
  lemma PostRowsAreTheKeys(variant: string, items: seq<Json>, cost: Option<int>, createdBy: Option<string>,
                           render: Json -> string, millis: nat -> nat, random: nat -> string,
                           clock: nat -> Stamp, i: nat)
    requires forall k :: 0 <= k < |items| ==> items[k].JStr?
    requires i < |items|
    ensures |PostRows(variant, items, cost, createdBy, render, millis, random, clock)| == |items|
    ensures var r := PostRows(variant, items, cost, createdBy, render, millis, random, clock)[i];
      r.key == items[i].s && r.variantId == variant && !r.isUsed && r.cost == cost
      && r.createdBy == createdBy && r.orderId.None?
  {
  }

  /** Base-36 text has no underscore, so the index can be read back from a generated id. */
  lemma {:induction false} KeyIdIndex(millis: nat, i: nat, random: string)
    requires '_' !in random
    ensures Split(KeyId(millis, i, random), '_') == ["ak", NatToString(millis), NatToString(i), random]
  {
    var parts := ["ak", NatToString(millis), NatToString(i), random];
    NoUnderscoreInDigits(NatToString(millis));
    NoUnderscoreInDigits(NatToString(i));
    assert Join(parts, "_") == KeyId(millis, i, random) by {
      assert parts[1..][1..][1..] == [random];
      assert Join(parts[1..][1..], "_") == NatToString(i) + "_" + random;
      assert Join(parts[1..], "_") == NatToString(millis) + "_" + (NatToString(i) + "_" + random);
    }
    SplitJoin(parts, '_');
  }

  lemma NoUnderscoreInDigits(s: string)
    requires AllDigitsIn(s, 10)
    ensures '_' !in s
  {
    assert CharValue('_') == 36;
  }

  /** Ids generated for different positions of one request differ. */
  lemma KeyIdsDistinct(m1: nat, m2: nat, i: nat, j: nat, r1: string, r2: string)
    requires '_' !in r1 && '_' !in r2 && i != j
    ensures KeyId(m1, i, r1) != KeyId(m2, j, r2)
  {
    KeyIdIndex(m1, i, r1);
    KeyIdIndex(m2, j, r2);
    if NatToString(i) == NatToString(j) {
      NatToStringValue(i);
      NatToStringValue(j);
    }
  }

  // ---------- DELETE ----------

  datatype DeleteReply = DeleteReply(status: nat, message: string)

  /** DELETE: 400 without an id, 404 when no row had it, 200 when its row was removed. */
  method Delete(store: KeyStore, id: Option<string>) returns (reply: DeleteReply)
    requires store.Valid()
    modifies store
    ensures store.Valid()
    ensures (id.None? || id.value == []) ==>
      reply == DeleteReply(400, "Key ID is required") && store.rows == old(store.rows)
    ensures id.Some? && id.value != [] ==>
      store.rows == Filter(old(store.rows), IdIsNot(id.value))
      && ((forall i :: 0 <= i < |old(store.rows)| ==> old(store.rows)[i].id != id.value) ==>
            reply == DeleteReply(404, "Activation key not found"))
      && ((exists i :: 0 <= i < |old(store.rows)| && old(store.rows)[i].id == id.value) ==>
            reply == DeleteReply(200, "Activation key deleted successfully")
            && |store.rows| == |old(store.rows)| - 1)
  {
    if id.None? || id.value == [] {
      return DeleteReply(400, "Key ID is required");
    }
    var removed := store.DeleteKey(id.value);
    if removed == 0 {
      reply := DeleteReply(404, "Activation key not found");
    } else {
      reply := DeleteReply(200, "Activation key deleted successfully");
    }
  }
}
