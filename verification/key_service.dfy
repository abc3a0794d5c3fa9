/**
 * The activation-key service: each method runs one or more SQL statements against the
 * `activation_key` table, which the class holds as its `rows`.
 *
 * Ids produced by `gen_random_uuid()` and the values of `NOW()` are parameters. A refused
 * insert surfaces as a `Failure` carrying the broken constraint.
 */
module KeyService {
  import opened Wrappers
  import opened Seqs
  import opened ActivationKey

  class KeyStore {
    var rows: seq<Row>

    /** The table satisfies its database constraints. */
    ghost predicate Valid()
      reads this
    {
      WellFormed(rows)
    }

    constructor(initial: seq<Row>)
      requires WellFormed(initial)
      ensures Valid() && rows == initial
    {
      rows := initial;
    }

    /** One `INSERT ... RETURNING *`: appends `r` unless a constraint refuses it. */
    method Insert(r: Row) returns (e: Option<DbError>)
      requires Valid()
      modifies this
      ensures Valid()
      ensures e == Violation(old(rows), r)
      ensures e.None? ==> rows == old(rows) + [r]
      ensures e.Some? ==> rows == old(rows)
    {
      e := Violation(rows, r);
      if e.None? {
        InsertWellFormed(rows, r);
        rows := rows + [r];
      }
    }

    /**
     * `retrieveUnusedKey`: selects some unused row of `variant` (which one is unspecified),
     * marks it used for `orderId` at `now`, and returns the selected row with the order id and
     * use time filled in; returns None, changing nothing, when the variant has no free key.
     */
    method RetrieveUnusedKey(variant: string, orderId: Option<string>, now: Stamp) returns (r: Option<Row>)
      requires Valid()
      modifies this
      ensures Valid()
      ensures r.None? <==> forall i :: 0 <= i < |old(rows)| ==> !UnusedFor(old(rows)[i], variant)
      ensures r.None? ==> rows == old(rows)
      ensures r.Some? ==> exists i :: (0 <= i < |old(rows)| && UnusedFor(old(rows)[i], variant)
        && rows == old(rows)[i := MarkUsed(old(rows)[i], orderId, now)]
        && r.value == Reported(old(rows)[i], orderId, now))
      ensures r.Some? ==> CountUnused(rows, variant) == CountUnused(old(rows), variant) - 1
      ensures forall other :: other != variant ==> CountUnused(rows, other) == CountUnused(old(rows), other)
      ensures AllStamped(old(rows)) ==> AllStamped(rows)
    {
      if i :| 0 <= i < |rows| && UnusedFor(rows[i], variant) {
        var picked := rows[i];
        MarkUsedWhereIdIsOneRow(rows, i, orderId, now);
        MarkUsedKeepsInvariants(rows, i, orderId, now);
        MarkUsedCount(rows, i, variant, orderId, now, variant);
        forall other | true
          ensures other != variant ==>
            CountUnused(rows[i := MarkUsed(rows[i], orderId, now)], other) == CountUnused(rows, other)
        {
          MarkUsedCount(rows, i, variant, orderId, now, other);
        }
        rows := MarkUsedWhereId(rows, picked.id, orderId, now);
        r := Some(Reported(picked, orderId, now));
      } else {
        r := None;
      }
    }

    /** `listKeysForOrder`. */
    method ListKeysForOrder(orderId: string) returns (r: seq<Row>)
      ensures r == KeysForOrder(rows, orderId)
    {
      r := KeysForOrder(rows, orderId);
    }

    /** `listKeysForVariant`. */
    method ListKeysForVariant(variant: string) returns (r: seq<Row>)
      ensures r == KeysForVariant(rows, variant)
    {
      r := KeysForVariant(rows, variant);
    }

    /** `listAllKeys`. */
    method ListAllKeys() returns (r: seq<Row>)
      ensures r == AllKeys(rows)
    {
      r := AllKeys(rows);
    }

    /** `addKey`: inserts one unused key for `variant` with a generated id, created at `now`. */
    method AddKey(variant: string, key: string, id: string, now: Stamp) returns (r: Result<Row, DbError>)
      requires Valid()
      modifies this
      ensures Valid()
      ensures var n := NewRow(id, key, variant, None, None, now);
        match Violation(old(rows), n)
        case None => r == Success(n) && rows == old(rows) + [n]
        case Some(e) => r == Failure(e) && rows == old(rows)
    {
      var n := NewRow(id, key, variant, None, None, now);
      var e := Insert(n);
      if e.None? {
        r := Success(n);
      } else {
        r := Failure(e.value);
      }
    }

    /**
     * Inserts `news` one statement at a time. The first refused insert ends the loop with its
     * error; the rows inserted before it stay in the table.
     */
    method InsertAll(news: seq<Row>) returns (r: Result<seq<Row>, DbError>)
      requires Valid()
      modifies this
      ensures Valid()
      ensures var b := InsertEach(old(rows), news);
        rows == b.rows && r == if b.error.None? then Success(b.inserted) else Failure(b.error.value)
    {
      var results: seq<Row> := [];
      var i := 0;
      while i < |news|
        invariant 0 <= i <= |news| && Valid()
        invariant InsertEach(old(rows), news) == Prefixed(results, InsertEach(rows, news[i..]))
      {
        InsertEachStep(rows, news, i);
        PrefixedTwice(results, [news[i]], InsertEach(rows + [news[i]], news[i + 1..]));
        var e := Insert(news[i]);
        if e.Some? {
          assert InsertEach(old(rows), news) == Batch(rows, results, e);
          return Failure(e.value);
        }
        results := results + [news[i]];
        i := i + 1;
      }
      assert news[i..] == [];
      assert InsertEach(old(rows), news) == Batch(rows, results, None);
      r := Success(results);
    }

    /** `addMultipleKeys`: one unused row per key, in key order, all for `variant`. */
    method AddMultipleKeys(variant: string, keys: seq<string>, ids: nat -> string, clock: nat -> Stamp)
      returns (r: Result<seq<Row>, DbError>)
      requires Valid()
      modifies this
      ensures Valid()
      ensures var b := InsertEach(old(rows), ServiceRows(variant, keys, ids, clock));
        rows == b.rows && r == if b.error.None? then Success(b.inserted) else Failure(b.error.value)
    {
      r := InsertAll(ServiceRows(variant, keys, ids, clock));
    }

    /**
     * `DELETE FROM activation_key WHERE id = $1`; the number of rows removed is returned (the
     * service itself discards it, the admin route reports it).
     */
    method DeleteKey(id: string) returns (removed: nat)
      requires Valid()
      modifies this
      ensures Valid()
      ensures rows == Filter(old(rows), IdIsNot(id))
      ensures removed == |old(rows)| - |rows| && removed <= 1
      ensures removed == 0 <==> forall i :: 0 <= i < |old(rows)| ==> old(rows)[i].id != id
    {
      FilterKeepsInvariants(rows, IdIsNot(id));
      DeleteByIdRemovesAtMostOne(rows, id);
      var before := |rows|;
      rows := Filter(rows, IdIsNot(id));
      removed := before - |rows|;
    }

    /** `DELETE FROM activation_key WHERE product_variant_id = $1`. */
    method DeleteKeysForVariant(variant: string) returns (removed: nat)
      requires Valid()
      modifies this
      ensures Valid()
      ensures rows == Filter(old(rows), VariantIsNot(variant))
      ensures forall i :: 0 <= i < |rows| ==> rows[i].variantId != variant
      ensures removed == |old(rows)| - |rows|
    {
      FilterKeepsInvariants(rows, VariantIsNot(variant));
      var before := |rows|;
      rows := Filter(rows, VariantIsNot(variant));
      removed := before - |rows|;
    }
  }

  /** `b` with `pre` inserted in front of the rows it reports as inserted. */
  function Prefixed(pre: seq<Row>, b: Batch): Batch {
    b.(inserted := pre + b.inserted)
  }

  lemma PrefixedTwice(a: seq<Row>, c: seq<Row>, b: Batch)
    ensures Prefixed(a, Prefixed(c, b)) == Prefixed(a + c, b)
  {
    assert a + (c + b.inserted) == (a + c) + b.inserted;
  }

  /** One step of a batch insert from position `i`. */
  lemma InsertEachStep(rows: seq<Row>, news: seq<Row>, i: nat)
    requires i < |news|
    ensures Violation(rows, news[i]).None? ==>
      InsertEach(rows, news[i..]) == Prefixed([news[i]], InsertEach(rows + [news[i]], news[i + 1..]))
    ensures Violation(rows, news[i]).Some? ==>
      InsertEach(rows, news[i..]) == Batch(rows, [], Violation(rows, news[i]))
  {
    assert news[i..][1..] == news[i + 1..];
  }
}
