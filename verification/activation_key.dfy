/**
 * The `activation_key` record and the table it lives in.
 *
 * A row is one licence key for one product variant. The table's constraints are the primary
 * key on `id`, a unique index on `key` restricted to rows that are not soft-deleted, and the
 * `numeric(12,2)` type of `cost`. An insert that would break one of them is refused by the
 * database. Timestamps are abstract instants.
 */
module ActivationKey {
  import opened Wrappers
  import opened Seqs
  import opened Ordering

  type Stamp = int

  datatype Row = Row(
    id: string,
    key: string,
    variantId: string,
    isUsed: bool,
    orderId: Option<string>,
    usedAt: Option<Stamp>,
    cost: Option<int>,
    createdBy: Option<string>,
    createdAt: Stamp,
    updatedAt: Stamp,
    deletedAt: Option<Stamp>)

  /** Not soft-deleted: the rows the unique index on `key` covers. */
  predicate Live(r: Row) {
    r.deletedAt.None?
  }

  /** A key of `variant` that has not been handed out. */
  predicate UnusedFor(r: Row, variant: string) {
    r.variantId == variant && !r.isUsed
  }

  /** The largest magnitude `numeric(12,2)` holds is below 10^10. */
  const CostBound: int := 10_000_000_000

  predicate CostFits(cost: Option<int>) {
    cost.None? || -CostBound < cost.value < CostBound
  }

  /** Two distinct rows of one table: different ids, and different keys when both are live. */
  predicate Distinct(a: Row, b: Row) {
    a.id != b.id && (Live(a) && Live(b) ==> a.key != b.key)
  }

  /** The table satisfies its constraints. */
  predicate WellFormed(rows: seq<Row>) {
    Pairwise(rows, Distinct) && forall i :: 0 <= i < |rows| ==> CostFits(rows[i].cost)
  }

  /**
   * What the service itself keeps true of a row (the database does not enforce it): a row is
   * used exactly when it carries a use time, and only a used row carries an order.
   */
  predicate Stamped(r: Row) {
    r.isUsed == r.usedAt.Some? && (r.orderId.Some? ==> r.isUsed)
  }

  predicate AllStamped(rows: seq<Row>) {
    forall i :: 0 <= i < |rows| ==> Stamped(rows[i])
  }

  /** Why the database refused a statement. */
  datatype DbError = DuplicateId(id: string) | DuplicateKey(key: string) | NumericOverflow | NullKey

  /** The constraint an insert of `r` into `rows` would break, if any. */
  function Violation(rows: seq<Row>, r: Row): (e: Option<DbError>)
    ensures e.None? <==> CostFits(r.cost) && forall i :: 0 <= i < |rows| ==> Distinct(rows[i], r)
  {
    if !CostFits(r.cost) then Some(NumericOverflow)
    else if exists i :: 0 <= i < |rows| && rows[i].id == r.id then Some(DuplicateId(r.id))
    else if Live(r) && exists i :: 0 <= i < |rows| && Live(rows[i]) && rows[i].key == r.key then
      Some(DuplicateKey(r.key))
    else None
  }

  /** An insert the database accepts leaves a table that satisfies its constraints, and only such. */
  lemma InsertWellFormed(rows: seq<Row>, r: Row)
    requires WellFormed(rows)
    ensures Violation(rows, r).None? <==> WellFormed(rows + [r])
  {
    PairwiseAppend(rows, r, Distinct);
    var t := rows + [r];
    assert t[|rows|] == r;
    assert forall i :: 0 <= i < |rows| ==> t[i] == rows[i];
  }

  /**
   * A freshly inserted row: unused, no order and no use time, not deleted, created and updated
   * at `now`.
   */
  function NewRow(id: string, key: string, variant: string, cost: Option<int>,
                  createdBy: Option<string>, now: Stamp): (r: Row)
    ensures !r.isUsed && r.orderId.None? && r.usedAt.None? && Live(r) && Stamped(r)
    ensures r.id == id && r.key == key && r.variantId == variant
    ensures r.cost == cost && r.createdBy == createdBy && r.createdAt == now && r.updatedAt == now
  {
    Row(id, key, variant, false, None, None, cost, createdBy, now, now, None)
  }

  /** `orderId || null`: an absent or empty order id is stored as NULL. */
  function StoredOrderId(orderId: Option<string>): (r: Option<string>)
    ensures r.Some? <==> orderId.Some? && orderId.value != []
    ensures r.Some? ==> r == orderId
  {
    if orderId.Some? && orderId.value != [] then orderId else None
  }

  /** The row after `SET is_used = true, order_id = $1, used_at = NOW()`. */
  function MarkUsed(r: Row, orderId: Option<string>, now: Stamp): (u: Row)
    ensures u.isUsed && u.usedAt == Some(now) && u.orderId == StoredOrderId(orderId)
    ensures u.id == r.id && u.key == r.key && u.variantId == r.variantId && u.cost == r.cost
    ensures u.createdBy == r.createdBy && u.createdAt == r.createdAt
    ensures u.updatedAt == r.updatedAt && u.deletedAt == r.deletedAt
    ensures Stamped(u)
  {
    r.(isUsed := true, orderId := StoredOrderId(orderId), usedAt := Some(now))
  }

  /**
   * The record handed back to the caller: the row as it was selected, with the order id as the
   * caller gave it and the use time. It still says `is_used = false`, as the selected row did.
   */
  function Reported(r: Row, orderId: Option<string>, now: Stamp): (u: Row)
    ensures u.orderId == orderId && u.usedAt == Some(now) && u.isUsed == r.isUsed
    ensures u.id == r.id && u.key == r.key && u.variantId == r.variantId && u.cost == r.cost
    ensures u.createdBy == r.createdBy && u.createdAt == r.createdAt
    ensures u.updatedAt == r.updatedAt && u.deletedAt == r.deletedAt
  {
    r.(orderId := orderId, usedAt := Some(now))
  }

  /** `UPDATE activation_key SET ... WHERE id = $2`: every row with that id is marked used. */
  function MarkUsedWhereId(rows: seq<Row>, id: string, orderId: Option<string>, now: Stamp): (r: seq<Row>)
    ensures |r| == |rows|
    ensures forall i :: 0 <= i < |rows| ==>
      r[i] == if rows[i].id == id then MarkUsed(rows[i], orderId, now) else rows[i]
  {
    Map(rows, (row: Row) => if row.id == id then MarkUsed(row, orderId, now) else row)
  }

  /** Because ids are unique, the update by id changes exactly the selected row. */
  lemma MarkUsedWhereIdIsOneRow(rows: seq<Row>, i: nat, orderId: Option<string>, now: Stamp)
    requires WellFormed(rows) && i < |rows|
    ensures MarkUsedWhereId(rows, rows[i].id, orderId, now) == rows[i := MarkUsed(rows[i], orderId, now)]
  {
    var r := MarkUsedWhereId(rows, rows[i].id, orderId, now);
    forall j | 0 <= j < |rows| && j != i ensures rows[j].id != rows[i].id {
      if j < i {
        assert Distinct(rows[j], rows[i]);
      } else {
        assert Distinct(rows[i], rows[j]);
      }
    }
  }

  /** Marking one row used keeps the table's constraints and the stamping invariant. */
  lemma MarkUsedKeepsInvariants(rows: seq<Row>, i: nat, orderId: Option<string>, now: Stamp)
    requires i < |rows|
    ensures WellFormed(rows) ==> WellFormed(rows[i := MarkUsed(rows[i], orderId, now)])
    ensures AllStamped(rows) ==> AllStamped(rows[i := MarkUsed(rows[i], orderId, now)])
  {
    var t := rows[i := MarkUsed(rows[i], orderId, now)];
    if WellFormed(rows) {
      forall a, b | 0 <= a < b < |t| ensures Distinct(t[a], t[b]) {
        assert Distinct(rows[a], rows[b]);
      }
      assert forall a :: 0 <= a < |t| ==> t[a].cost == rows[a].cost;
    }
  }

  function UnusedOf(variant: string): Row -> bool {
    (r: Row) => UnusedFor(r, variant)
  }

  /** How many keys of `variant` are still free. */
  function CountUnused(rows: seq<Row>, variant: string): nat {
    Count(rows, UnusedOf(variant))
  }

  /**
   * Allocating a free key of `variant` lowers that variant's free count by one and leaves
   * every other variant's count as it was.
   */
  lemma MarkUsedCount(rows: seq<Row>, i: nat, variant: string, orderId: Option<string>, now: Stamp,
                      other: string)
    requires i < |rows| && UnusedFor(rows[i], variant)
    ensures CountUnused(rows[i := MarkUsed(rows[i], orderId, now)], variant) == CountUnused(rows, variant) - 1
    ensures other != variant ==>
      CountUnused(rows[i := MarkUsed(rows[i], orderId, now)], other) == CountUnused(rows, other)
  {
    CountUpdate(rows, i, MarkUsed(rows[i], orderId, now), UnusedOf(variant));
    CountUpdate(rows, i, MarkUsed(rows[i], orderId, now), UnusedOf(other));
  }

  /** There is no free key of `variant` iff its free count is zero. */
  lemma {:induction false} NoUnusedIffCountZero(rows: seq<Row>, variant: string)
    ensures CountUnused(rows, variant) == 0 <==> forall i :: 0 <= i < |rows| ==> !UnusedFor(rows[i], variant)
  {
    if rows != [] {
      NoUnusedIffCountZero(rows[1..], variant);
      assert forall i :: 1 <= i < |rows| ==> rows[i] == rows[1..][i - 1];
    }
  }

  // ---- Listings ----

  function StampValue(t: Option<Stamp>): Value {
    if t.Some? then VInt(t.value) else VNull
  }

  /** `ORDER BY used_at ASC`. */
  function ByUsedAt(r: Row): seq<SortKey> {
    [Asc(StampValue(r.usedAt))]
  }

  /** `ORDER BY id ASC`. */
  function ById(r: Row): seq<SortKey> {
    [Asc(VText(r.id))]
  }

  /** `ORDER BY product_variant_id ASC, id ASC`. */
  function ByVariantThenId(r: Row): seq<SortKey> {
    [Asc(VText(r.variantId)), Asc(VText(r.id))]
  }

  function OrderIs(orderId: string): Row -> bool {
    (r: Row) => r.orderId == Some(orderId)
  }

  function VariantIs(variant: string): Row -> bool {
    (r: Row) => r.variantId == variant
  }

  /** `WHERE order_id = $1 ORDER BY used_at ASC`: exactly the rows of that order, oldest use first. */
  function KeysForOrder(rows: seq<Row>, orderId: string): (r: seq<Row>)
    ensures SortedBy(r, ByUsedAt)
    ensures multiset(r) == multiset(Filter(rows, OrderIs(orderId)))
    ensures forall x :: x in r <==> x in rows && x.orderId == Some(orderId)
  {
    var f := Filter(rows, OrderIs(orderId));
    var r := SortBy(f, ByUsedAt);
    SortByPermutes(f, ByUsedAt);
    assert forall x :: x in r <==> x in multiset(f);
    r
  }

  /** `WHERE product_variant_id = $1 ORDER BY id ASC`. */
  function KeysForVariant(rows: seq<Row>, variant: string): (r: seq<Row>)
    ensures SortedBy(r, ById)
    ensures multiset(r) == multiset(Filter(rows, VariantIs(variant)))
    ensures forall x :: x in r <==> x in rows && x.variantId == variant
  {
    var f := Filter(rows, VariantIs(variant));
    var r := SortBy(f, ById);
    SortByPermutes(f, ById);
    assert forall x :: x in r <==> x in multiset(f);
    r
  }

  /** Every row, ordered by variant and then by id. */
  function AllKeys(rows: seq<Row>): (r: seq<Row>)
    ensures SortedBy(r, ByVariantThenId)
    ensures multiset(r) == multiset(rows)
  {
    SortByPermutes(rows, ByVariantThenId);
    SortBy(rows, ByVariantThenId)
  }

  // ---- Inserting a batch ----

  /** The outcome of inserting rows one statement at a time, stopping at the first refusal. */
  datatype Batch = Batch(rows: seq<Row>, inserted: seq<Row>, error: Option<DbError>)

  function InsertEach(rows: seq<Row>, news: seq<Row>): (b: Batch)
    ensures b.rows == rows + b.inserted
    ensures |b.inserted| <= |news| && b.inserted == news[..|b.inserted|]
    ensures b.error.None? <==> |b.inserted| == |news|
    ensures b.error.Some? ==> b.error == Violation(b.rows, news[|b.inserted|])
    decreases |news|
  {
    if news == [] then Batch(rows, [], None)
    else match Violation(rows, news[0])
      case Some(e) => Batch(rows, [], Some(e))
      case None =>
        var b := InsertEach(rows + [news[0]], news[1..]);
        assert news == [news[0]] + news[1..];
        Batch(b.rows, [news[0]] + b.inserted, b.error)
  }

  /** A batch insert keeps the table's constraints and the stamping invariant. */
  lemma {:induction false} InsertEachKeepsInvariants(rows: seq<Row>, news: seq<Row>)
    requires forall i :: 0 <= i < |news| ==> Stamped(news[i])
    ensures WellFormed(rows) ==> WellFormed(InsertEach(rows, news).rows)
    ensures AllStamped(rows) ==> AllStamped(InsertEach(rows, news).rows)
    decreases |news|
  {
    if news != [] && Violation(rows, news[0]).None? {
      if WellFormed(rows) {
        InsertWellFormed(rows, news[0]);
      }
      InsertEachKeepsInvariants(rows + [news[0]], news[1..]);
    }
  }

  /** The rows `addMultipleKeys` inserts: one per key, in key order, all for `variant`. */
  function ServiceRows(variant: string, keys: seq<string>, ids: nat -> string, clock: nat -> Stamp): (r: seq<Row>)
    ensures |r| == |keys|
    ensures forall i :: 0 <= i < |keys| ==> r[i] == NewRow(ids(i), keys[i], variant, None, None, clock(i))
  {
    seq(|keys|, i requires 0 <= i < |keys| => NewRow(ids(i), keys[i], variant, None, None, clock(i)))
  }

  /** Removing rows keeps the table's constraints and the stamping invariant. */
  lemma FilterKeepsInvariants(rows: seq<Row>, p: Row -> bool)
    ensures WellFormed(rows) ==> WellFormed(Filter(rows, p))
    ensures AllStamped(rows) ==> AllStamped(Filter(rows, p))
  {
    if WellFormed(rows) {
      FilterPairwise(rows, p, Distinct);
    }
  }

  function IdIsNot(id: string): Row -> bool {
    (r: Row) => r.id != id
  }

  function VariantIsNot(variant: string): Row -> bool {
    (r: Row) => r.variantId != variant
  }

  /** The tail of a well-formed table is well-formed. */
  lemma WellFormedTail(rows: seq<Row>)
    requires WellFormed(rows) && rows != []
    ensures WellFormed(rows[1..])
    ensures forall i :: 1 <= i < |rows| ==> Distinct(rows[0], rows[i])
  {
    var t := rows[1..];
    forall a, b | 0 <= a < b < |t| ensures Distinct(t[a], t[b]) {
      assert t[a] == rows[a + 1] && t[b] == rows[b + 1];
    }
    assert forall a :: 0 <= a < |t| ==> t[a] == rows[a + 1];
  }

  /** With unique ids, deleting by id removes at most one row, and none iff no row has that id. */
  lemma {:induction false} DeleteByIdRemovesAtMostOne(rows: seq<Row>, id: string)
    requires WellFormed(rows)
    ensures |rows| - 1 <= |Filter(rows, IdIsNot(id))| <= |rows|
    ensures |Filter(rows, IdIsNot(id))| == |rows| <==> forall i :: 0 <= i < |rows| ==> rows[i].id != id
  {
    if rows != [] {
      var tail := rows[1..];
      WellFormedTail(rows);
      DeleteByIdRemovesAtMostOne(tail, id);
      FilterHead(rows, IdIsNot(id));
      if rows[0].id == id {
        OnlyHeadHasId(rows, id);
        FilterOfAll(tail, IdIsNot(id));
      } else {
        IdsOfTail(rows, id);
      }
    }
  }

  lemma FilterHead(rows: seq<Row>, p: Row -> bool)
    requires rows != []
    ensures |Filter(rows, p)| == (if p(rows[0]) then 1 else 0) + |Filter(rows[1..], p)|
  {
    assert Filter(rows, p) == (if p(rows[0]) then [rows[0]] else []) + Filter(rows[1..], p);
  }

  /** In a well-formed table the first row's id occurs nowhere after it. */
  lemma OnlyHeadHasId(rows: seq<Row>, id: string)
    requires WellFormed(rows) && rows != [] && rows[0].id == id
    ensures forall i :: 0 <= i < |rows[1..]| ==> IdIsNot(id)(rows[1..][i])
  {
    WellFormedTail(rows);
    forall i | 0 <= i < |rows[1..]| ensures IdIsNot(id)(rows[1..][i]) {
      assert Distinct(rows[0], rows[i + 1]);
    }
  }

  lemma IdsOfTail(rows: seq<Row>, id: string)
    requires rows != [] && rows[0].id != id
    ensures (forall i :: 0 <= i < |rows| ==> rows[i].id != id) <==>
            (forall i :: 0 <= i < |rows[1..]| ==> rows[1..][i].id != id)
  {
    assert forall i :: 1 <= i < |rows| ==> rows[i] == rows[1..][i - 1];
  }
}
