/**
 * The `order.payment_captured` subscriber: for every line item of the paid order that names a
 * variant, one free key of that variant is handed to the order; the keys collected are then
 * e-mailed to the customer when there is at least one and the order has an address to send to.
 *
 * The order as the order module returns it is a parameter (None when it cannot be read, which
 * the handler's `catch` swallows); so is the clock behind `NOW()`. Sending is modelled as the
 * notification the handler hands over, or None when it sends nothing.
 */
module OrderSubscriber {
  import opened Wrappers
  import opened Seqs
  import opened Text
  import opened ActivationKey
  import opened KeyService

  datatype Address = Address(firstName: Option<string>, lastName: Option<string>)

  datatype LineItem = LineItem(variantId: Option<string>, productTitle: Option<string>,
                               variantTitle: Option<string>, quantity: int)

  datatype Order = Order(items: Option<seq<LineItem>>, email: Option<string>,
                         shipping: Option<Address>, billing: Option<Address>)

  /** One collected key with the titles the e-mail shows. */
  datatype Entry = Entry(key: string, productTitle: string, variantTitle: string, quantity: int)

  /** What the handler passes to the notification module. */
  datatype Notification = Notification(to: string, customerName: string, orderId: string,
                                       keys: seq<Entry>, message: string)

  /** `order.items || []`. */
  function Items(o: Order): seq<LineItem> {
    o.items.GetOr([])
  }

  /** `if (item.variant_id)`: present and not empty. */
  predicate HasVariant(item: LineItem) {
    item.variantId.Some? && item.variantId.value != []
  }

  /** The collected entry for an item and the key it received, with the title defaults. */
  function EntryOf(item: LineItem, key: string): Entry {
    Entry(key, OrText(item.productTitle, "Unknown Product"), OrText(item.variantTitle, "Unknown Variant"),
          item.quantity)
  }

  // ---------- the e-mail text ----------

  /** `${product_title} - ${variant_title}: ${key}`. */
  function KeyLine(e: Entry): string {
    e.productTitle + " - " + e.variantTitle + ": " + e.key
  }

  /** `keysList`: one line per collected key, joined by newlines. */
  function KeysList(entries: seq<Entry>): string {
    Join(Map(entries, KeyLine), "\n")
  }

  /** Entries whose texts hold no newline come back one per line. */
  lemma KeysListLines(entries: seq<Entry>)
    requires |entries| >= 1
    requires forall k :: 0 <= k < |entries| ==> '\n' !in KeyLine(entries[k])
    ensures Split(KeysList(entries), '\n') == Map(entries, KeyLine)
  {
    SplitJoin(Map(entries, KeyLine), '\n');
  }

  /** The message text between the template's leading newline and its closing indentation. */
  function MessageBody(name: string, orderId: string, keysList: string): string {
    "Дорогой " + name + ",\n\nСпасибо за ваш заказ #" + orderId + "!\n\nВаши ключи активации:\n\n"
    + keysList + "\n\nИспользуйте эти ключи для активации ваших продуктов.\n\nС уважением,\nКоманда Code-Top"
  }

  /** The template literal as written, before `.trim()`. */
  function MessageTemplate(name: string, orderId: string, keysList: string): string {
    "\n" + MessageBody(name, orderId, keysList) + "\n  "
  }

  /** `emailContent`: the trimmed template is exactly the body, whatever the name and keys. */
  function Message(name: string, orderId: string, keysList: string): (m: string)
    ensures m == Trim(MessageTemplate(name, orderId, keysList))
  {
    var body := MessageBody(name, orderId, keysList);
    var head := "Дорогой ";
    var tail := "Команда Code-Top";
    assert body[0] == head[0];
    assert body[|body| - 1] == tail[|tail| - 1];
    assert "\n" + body + "\n  " == MessageTemplate(name, orderId, keysList);
    TrimPadded("\n", body, "\n  ");
    body
  }

  // ---------- the customer name ----------

  /** `${first_name} ${last_name || ''}`.trim() for an address with a first name. */
  function NameOf(a: Option<Address>): (r: Option<string>)
    ensures r.Some? <==> a.Some? && a.value.firstName.Some? && a.value.firstName.value != []
  {
    if a.Some? && a.value.firstName.Some? && a.value.firstName.value != [] then
      Some(Trim(a.value.firstName.value + " " + OrText(a.value.lastName, "")))
    else None
  }

  /** `getCustomerName`: the shipping name, else the billing name, else "Покупатель". */
  function CustomerName(o: Order): (r: string)
    ensures NameOf(o.shipping).Some? ==> r == NameOf(o.shipping).value
    ensures NameOf(o.shipping).None? && NameOf(o.billing).Some? ==> r == NameOf(o.billing).value
    ensures NameOf(o.shipping).None? && NameOf(o.billing).None? ==> r == "Покупатель"
  {
    if NameOf(o.shipping).Some? then NameOf(o.shipping).value
    else if NameOf(o.billing).Some? then NameOf(o.billing).value
    else "Покупатель"
  }

  /** Tight first and last names are joined by one space. */
  lemma NameOfFull(first: string, last: string)
    requires first != [] && Tight(first) && last != [] && Tight(last)
    ensures NameOf(Some(Address(Some(first), Some(last)))) == Some(first + " " + last)
  {
    var s := first + " " + last;
    assert s[0] == first[0] && s[|s| - 1] == last[|last| - 1];
    TightTrimFixed(s);
  }

  /** Without a last name the trailing space is trimmed away. */
  lemma NameOfFirstOnly(first: string, last: Option<string>)
    requires first != [] && Tight(first) && (last.None? || last.value == [])
    ensures NameOf(Some(Address(Some(first), last))) == Some(first)
  {
    assert first + " " + OrText(last, "") == [] + first + " ";
    TrimPadded([], first, " ");
  }

  // ---------- what the allocation loop does to the table ----------

  /** `after` is `before` with free keys handed out, each stored with `stored` as its order. */
  predicate Handed(before: Row, after: Row, stored: Option<string>) {
    !before.isUsed && after.isUsed && after.orderId == stored && after.usedAt.Some?
    && after == before.(isUsed := true, orderId := stored, usedAt := after.usedAt)
  }

  /** Only free keys changed between the two tables, each of them handed to the order. */
  predicate AssignedOnly(before: seq<Row>, after: seq<Row>, stored: Option<string>) {
    |after| == |before|
    && forall k :: 0 <= k < |before| ==> after[k] == before[k] || Handed(before[k], after[k], stored)
  }

  /** No row is a free key of `variant`. */
  predicate NoFreeKey(rows: seq<Row>, variant: string) {
    forall k :: 0 <= k < |rows| ==> !UnusedFor(rows[k], variant)
  }

  /** The item positions that are for `variant`. */
  function ServedFor(items: seq<LineItem>, variant: string): nat -> bool {
    (j: nat) => j < |items| && items[j].variantId == Some(variant)
  }

  /** Handing out one more free key keeps the table a hand-out of the original. */
  lemma HandOut(origin: seq<Row>, rows: seq<Row>, idx: nat, orderId: string, now: Stamp)
    requires AssignedOnly(origin, rows, StoredOrderId(Some(orderId)))
    requires idx < |rows| && !rows[idx].isUsed
    ensures rows[idx] == origin[idx]
    ensures AssignedOnly(origin, rows[idx := MarkUsed(rows[idx], Some(orderId), now)], StoredOrderId(Some(orderId)))
  {
  }

  /** Handing out a key never creates a free one. */
  lemma HandOutKeepsNoFreeKey(rows: seq<Row>, idx: nat, orderId: string, now: Stamp, variant: string)
    requires idx < |rows| && NoFreeKey(rows, variant)
    ensures NoFreeKey(rows[idx := MarkUsed(rows[idx], Some(orderId), now)], variant)
  {
  }

  /** Different rows of a well-formed table have different ids. */
  lemma DistinctRowsDistinctIds(rows: seq<Row>, a: nat, b: nat)
    requires WellFormed(rows) && a < |rows| && b < |rows| && a != b
    ensures rows[a].id != rows[b].id
  {
    if a < b {
      assert Distinct(rows[a], rows[b]);
    } else {
      assert Distinct(rows[b], rows[a]);
    }
  }

  /**
   * Entry `e` came from item `j` (before position `bound`), which names a variant, and from
   * row `idx`, a free key of that variant in `origin` that `rows` has handed to the order.
   */
  predicate Traced(origin: seq<Row>, rows: seq<Row>, items: seq<LineItem>, stored: Option<string>,
                   bound: nat, j: nat, idx: nat, e: Entry) {
    j < bound && j < |items| && HasVariant(items[j]) && idx < |origin| && idx < |rows|
    && origin[idx].variantId == items[j].variantId.value
    && Handed(origin[idx], rows[idx], stored)
    && e == EntryOf(items[j], origin[idx].key)
  }

  /**
   * The state of the allocation loop after the first `i` items: the table is `origin` with
   * free keys handed to the order; entry `k` came from item `served[k]` and row `at[k]`, the
   * items served in increasing order and no row twice; every item that names a variant and
   * was not served found no free key of it (and none has appeared since); and each variant
   * has lost exactly one free key per item served for it.
   */
  ghost predicate Collected(origin: seq<Row>, rows: seq<Row>, items: seq<LineItem>, stored: Option<string>,
                            i: nat, served: seq<nat>, at: seq<nat>, entries: seq<Entry>) {
    AssignedOnly(origin, rows, stored)
    && |served| == |entries| == |at|
    && (forall k, k' :: 0 <= k < k' < |served| ==> served[k] < served[k'])
    && (forall k :: 0 <= k < |served| ==> Traced(origin, rows, items, stored, i, served[k], at[k], entries[k]))
    && (forall k, k' :: 0 <= k < k' < |at| ==> at[k] != at[k'])
    && (forall j :: 0 <= j < i && j < |items| && HasVariant(items[j]) && j !in served ==>
          NoFreeKey(rows, items[j].variantId.value))
    && (forall v :: CountUnused(rows, v) + Count(served, ServedFor(items, v)) == CountUnused(origin, v))
  }

  lemma CollectedStart(origin: seq<Row>, items: seq<LineItem>, stored: Option<string>)
    ensures Collected(origin, origin, items, stored, 0, [], [], [])
  {
  }

  /** An item without a variant, or whose variant has no free key, adds nothing. */
  lemma CollectedSkip(origin: seq<Row>, rows: seq<Row>, items: seq<LineItem>, stored: Option<string>,
                      i: nat, served: seq<nat>, at: seq<nat>, entries: seq<Entry>)
    requires Collected(origin, rows, items, stored, i, served, at, entries) && i < |items|
    requires HasVariant(items[i]) ==> NoFreeKey(rows, items[i].variantId.value)
    ensures Collected(origin, rows, items, stored, i + 1, served, at, entries)
  {
    forall k | 0 <= k < |served|
      ensures Traced(origin, rows, items, stored, i + 1, served[k], at[k], entries[k])
    {
      assert Traced(origin, rows, items, stored, i, served[k], at[k], entries[k]);
    }
    forall j | 0 <= j < i + 1 && j < |items| && HasVariant(items[j]) && j !in served
      ensures NoFreeKey(rows, items[j].variantId.value)
    {
      if j < i {
        assert j !in served;
      }
    }
  }

  /** Handing out `rows[idx]` for item `i` adds its entry and keeps every part of the state. */
  lemma CollectedHand(origin: seq<Row>, rows: seq<Row>, items: seq<LineItem>, orderId: string,
                      i: nat, served: seq<nat>, at: seq<nat>, entries: seq<Entry>, idx: nat, now: Stamp)
    requires Collected(origin, rows, items, StoredOrderId(Some(orderId)), i, served, at, entries)
    requires i < |items| && HasVariant(items[i])
    requires idx < |rows| && UnusedFor(rows[idx], items[i].variantId.value)
    ensures Collected(origin, rows[idx := MarkUsed(rows[idx], Some(orderId), now)], items,
                      StoredOrderId(Some(orderId)), i + 1, served + [i], at + [idx],
                      entries + [EntryOf(items[i], rows[idx].key)])
  {
    var stored := StoredOrderId(Some(orderId));
    HandOut(origin, rows, idx, orderId, now);
    HandTraced(origin, rows, items, orderId, i, served, at, entries, idx, now);
    HandLeavesNoFreeKey(rows, items, orderId, i, served, idx, now);
    HandDistinct(origin, rows, items, stored, i, served, at, entries, idx);
    HandCounts(origin, rows, items, orderId, i, served, idx, now);
  }

  lemma HandTraced(origin: seq<Row>, rows: seq<Row>, items: seq<LineItem>, orderId: string,
                   i: nat, served: seq<nat>, at: seq<nat>, entries: seq<Entry>, idx: nat, now: Stamp)
    requires AssignedOnly(origin, rows, StoredOrderId(Some(orderId))) && |served| == |entries| == |at|
    requires forall k :: 0 <= k < |served| ==>
               Traced(origin, rows, items, StoredOrderId(Some(orderId)), i, served[k], at[k], entries[k])
    requires forall k :: 0 <= k < |at| ==> at[k] != idx
    requires i < |items| && HasVariant(items[i])
    requires idx < |rows| && UnusedFor(rows[idx], items[i].variantId.value)
    ensures var rows' := rows[idx := MarkUsed(rows[idx], Some(orderId), now)];
            var served', at', entries' := served + [i], at + [idx], entries + [EntryOf(items[i], rows[idx].key)];
            forall k :: 0 <= k < |served'| ==>
              Traced(origin, rows', items, StoredOrderId(Some(orderId)), i + 1, served'[k], at'[k], entries'[k])
  {
    var stored := StoredOrderId(Some(orderId));
    var rows' := rows[idx := MarkUsed(rows[idx], Some(orderId), now)];
    var served', at', entries' := served + [i], at + [idx], entries + [EntryOf(items[i], rows[idx].key)];
    HandOut(origin, rows, idx, orderId, now);
    forall k | 0 <= k < |served'|
      ensures Traced(origin, rows', items, stored, i + 1, served'[k], at'[k], entries'[k])
    {
      if k < |served| {
        assert Traced(origin, rows, items, stored, i, served[k], at[k], entries[k]);
        assert served'[k] == served[k] && at'[k] == at[k] && entries'[k] == entries[k];
      }
    }
  }

  lemma HandLeavesNoFreeKey(rows: seq<Row>, items: seq<LineItem>, orderId: string, i: nat,
                            served: seq<nat>, idx: nat, now: Stamp)
    requires idx < |rows|
    requires forall j :: 0 <= j < i && j < |items| && HasVariant(items[j]) && j !in served ==>
               NoFreeKey(rows, items[j].variantId.value)
    ensures forall j :: 0 <= j < i + 1 && j < |items| && HasVariant(items[j]) && j !in served + [i] ==>
              NoFreeKey(rows[idx := MarkUsed(rows[idx], Some(orderId), now)], items[j].variantId.value)
  {
    forall j | 0 <= j < i + 1 && j < |items| && HasVariant(items[j]) && j !in served + [i]
      ensures NoFreeKey(rows[idx := MarkUsed(rows[idx], Some(orderId), now)], items[j].variantId.value)
    {
      assert j < i && j !in served;
      HandOutKeepsNoFreeKey(rows, idx, orderId, now, items[j].variantId.value);
    }
  }

  /** A row still free is at no position handed out before. */
  lemma HandDistinct(origin: seq<Row>, rows: seq<Row>, items: seq<LineItem>, stored: Option<string>,
                     i: nat, served: seq<nat>, at: seq<nat>, entries: seq<Entry>, idx: nat)
    requires Collected(origin, rows, items, stored, i, served, at, entries)
    requires idx < |rows| && !rows[idx].isUsed
    ensures forall k :: 0 <= k < |at| ==> at[k] != idx
    ensures forall k, k' :: 0 <= k < k' < |at + [idx]| ==> (at + [idx])[k] != (at + [idx])[k']
  {
    forall k | 0 <= k < |at| ensures at[k] != idx {
      assert Traced(origin, rows, items, stored, i, served[k], at[k], entries[k]);
    }
    forall k, k' | 0 <= k < k' < |at + [idx]| ensures (at + [idx])[k] != (at + [idx])[k'] {
      if k' == |at| {
        assert (at + [idx])[k] == at[k];
      }
    }
  }

  lemma HandCounts(origin: seq<Row>, rows: seq<Row>, items: seq<LineItem>, orderId: string,
                   i: nat, served: seq<nat>, idx: nat, now: Stamp)
    requires i < |items| && HasVariant(items[i])
    requires idx < |rows| && UnusedFor(rows[idx], items[i].variantId.value)
    requires forall v :: CountUnused(rows, v) + Count(served, ServedFor(items, v)) == CountUnused(origin, v)
    ensures forall v :: CountUnused(rows[idx := MarkUsed(rows[idx], Some(orderId), now)], v)
                        + Count(served + [i], ServedFor(items, v)) == CountUnused(origin, v)
  {
    forall v | true
      ensures CountUnused(rows[idx := MarkUsed(rows[idx], Some(orderId), now)], v)
              + Count(served + [i], ServedFor(items, v)) == CountUnused(origin, v)
    {
      CountAppend(served, [i], ServedFor(items, v));
      MarkUsedCount(rows, idx, items[i].variantId.value, Some(orderId), now, v);
    }
  }

  /** Rows handed out at different positions have different ids. */
  lemma CollectedIdsDistinct(origin: seq<Row>, rows: seq<Row>, items: seq<LineItem>, stored: Option<string>,
                             i: nat, served: seq<nat>, at: seq<nat>, entries: seq<Entry>)
    requires WellFormed(origin) && Collected(origin, rows, items, stored, i, served, at, entries)
    ensures DistinctIds(origin, at)
  {
    forall k, k' | 0 <= k < k' < |at|
      ensures origin[at[k]].id != origin[at[k']].id
    {
      assert Traced(origin, rows, items, stored, i, served[k], at[k], entries[k]);
      assert Traced(origin, rows, items, stored, i, served[k'], at[k'], entries[k']);
      DistinctRowsDistinctIds(origin, at[k], at[k']);
    }
  }

  /** Rows `at` of `origin` have pairwise different ids. */
  predicate DistinctIds(origin: seq<Row>, at: seq<nat>) {
    forall k, k' :: 0 <= k < k' < |at| && at[k] < |origin| && at[k'] < |origin| ==>
      origin[at[k]].id != origin[at[k']].id
  }

  /**
   * The allocator's answer for item `i` moves the loop state on: a key found adds its entry
   * (its row is returned as the new last element of `at'`); no key found adds nothing.
   */
  lemma CollectedAfterRetrieve(origin: seq<Row>, before: seq<Row>, after: seq<Row>, items: seq<LineItem>,
                               orderId: string, i: nat, served: seq<nat>, at: seq<nat>, entries: seq<Entry>,
                               key: Option<Row>, now: Stamp)
    returns (at': seq<nat>)
    requires Collected(origin, before, items, StoredOrderId(Some(orderId)), i, served, at, entries)
    requires i < |items| && HasVariant(items[i])
    requires key.None? ==> after == before && NoFreeKey(before, items[i].variantId.value)
    requires key.Some? ==> exists idx :: (0 <= idx < |before| && UnusedFor(before[idx], items[i].variantId.value)
      && after == before[idx := MarkUsed(before[idx], Some(orderId), now)]
      && key.value == Reported(before[idx], Some(orderId), now))
    ensures key.None? ==> at' == at
    ensures Collected(origin, after, items, StoredOrderId(Some(orderId)), i + 1,
                      if key.Some? then served + [i] else served, at',
                      if key.Some? then entries + [EntryOf(items[i], key.value.key)] else entries)
  {
    if key.Some? {
      var idx :| 0 <= idx < |before| && UnusedFor(before[idx], items[i].variantId.value)
        && after == before[idx := MarkUsed(before[idx], Some(orderId), now)]
        && key.value == Reported(before[idx], Some(orderId), now);
      CollectedHand(origin, before, items, orderId, i, served, at, entries, idx, now);
      at' := at + [idx];
    } else {
      CollectedSkip(origin, before, items, StoredOrderId(Some(orderId)), i, served, at, entries);
      at' := at;
    }
  }

  /**
   * One pass of the handler's loop body for item `i`: an item naming a variant asks the
   * allocator for one free key of it (whatever its quantity) and a key found is collected with
   * the item's titles; otherwise the item is skipped.
   */
  method AllocateItem(store: KeyStore, orderId: string, items: seq<LineItem>, i: nat, clock: nat -> Stamp,
                      ghost origin: seq<Row>, entries: seq<Entry>, ghost served: seq<nat>, ghost at: seq<nat>)
    returns (entries': seq<Entry>, ghost served': seq<nat>, ghost at': seq<nat>)
    requires store.Valid() && i < |items|
    requires Collected(origin, store.rows, items, StoredOrderId(Some(orderId)), i, served, at, entries)
    modifies store
    ensures store.Valid()
    ensures Collected(origin, store.rows, items, StoredOrderId(Some(orderId)), i + 1, served', at', entries')
  {
    entries', served', at' := entries, served, at;
    var item := items[i];
    if !HasVariant(item) {
      CollectedSkip(origin, store.rows, items, StoredOrderId(Some(orderId)), i, served, at, entries);
      return;
    }
    ghost var before := store.rows;
    var key := store.RetrieveUnusedKey(item.variantId.value, Some(orderId), clock(i));
    at' := CollectedAfterRetrieve(origin, before, store.rows, items, orderId, i, served, at, entries, key, clock(i));
    if key.Some? {
      entries' := entries + [EntryOf(item, key.value.key)];
      served' := served + [i];
    }
  }

  /**
   * The handler's `for` loop over the items, in order. The ghost results say which item
   * (`served`) and which row (`at`) each entry came from.
   */
  method AllocateAll(store: KeyStore, orderId: string, items: seq<LineItem>, clock: nat -> Stamp)
    returns (entries: seq<Entry>, ghost served: seq<nat>, ghost at: seq<nat>)
    requires store.Valid()
    modifies store
    ensures store.Valid()
    ensures Collected(old(store.rows), store.rows, items, StoredOrderId(Some(orderId)), |items|, served, at, entries)
    ensures DistinctIds(old(store.rows), at)
  {
    entries, served, at := [], [], [];
    CollectedStart(store.rows, items, StoredOrderId(Some(orderId)));
    var i := 0;
    while i < |items|
      invariant 0 <= i <= |items| && store.Valid()
      invariant Collected(old(store.rows), store.rows, items, StoredOrderId(Some(orderId)), i, served, at, entries)
    {
      entries, served, at := AllocateItem(store, orderId, items, i, clock, old(store.rows), entries, served, at);
      i := i + 1;
    }
    CollectedIdsDistinct(old(store.rows), store.rows, items, StoredOrderId(Some(orderId)), i, served, at, entries);
  }

  /** The send decision: a notification iff a key was collected and the order has an address. */
  function Outgoing(order: Order, orderId: string, entries: seq<Entry>): (n: Option<Notification>)
    ensures n.Some? <==> |entries| > 0 && order.email.Some? && order.email.value != []
    ensures n.Some? ==> (n.value.to == order.email.value && n.value.keys == entries
      && n.value.customerName == CustomerName(order) && n.value.orderId == orderId
      && n.value.message == Trim(MessageTemplate(CustomerName(order), orderId, KeysList(entries))))
  {
    if |entries| > 0 && order.email.Some? && order.email.value != [] then
      var name := CustomerName(order);
      Some(Notification(order.email.value, name, orderId, entries, Message(name, orderId, KeysList(entries))))
    else None
  }

  /**
   * `orderPaymentCapturedHandler`: allocates keys for the order's items, then sends them when
   * `Outgoing` says so. An order that cannot be read changes nothing and sends nothing.
   */
  method HandlePaymentCaptured(store: KeyStore, orderId: string, order: Option<Order>, clock: nat -> Stamp)
    returns (entries: seq<Entry>, sent: Option<Notification>, ghost served: seq<nat>, ghost at: seq<nat>)
    requires store.Valid()
    modifies store
    ensures store.Valid()
    ensures order.None? ==> store.rows == old(store.rows) && entries == [] && sent.None?
    ensures order.Some? ==>
      Collected(old(store.rows), store.rows, Items(order.value), StoredOrderId(Some(orderId)),
                |Items(order.value)|, served, at, entries)
      && sent == Outgoing(order.value, orderId, entries)
    ensures DistinctIds(old(store.rows), at)
  {
    if order.None? {
      return [], None, [], [];
    }
    entries, served, at := AllocateAll(store, orderId, Items(order.value), clock);
    sent := Outgoing(order.value, orderId, entries);
  }
}
