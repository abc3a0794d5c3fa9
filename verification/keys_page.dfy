/**
 * The admin activation-keys page: the listing request it sends for its filters and current page,
 * the pagination footer, the table cells, and the add-key and delete actions.
 *
 * The page talks to the admin key route; here each request runs the route's handler directly on
 * the key table. The page's React effects that re-run the listing after a page change are left
 * to the caller, which sends the request a method returns with `Load`.
 */
module KeysPage {
  import opened Wrappers
  import opened Seqs
  import opened Text
  import opened Json
  import opened ActivationKey
  import opened Catalog
  import opened KeyService
  import opened AdminKeysRoute
  import opened Toasts
  import Tr = Translations

  // ---------- the listing request ----------

  /** The page sizes the footer's selector offers. */
  predicate PageSizeOption(n: nat) {
    n == 25 || n == 50 || n == 100
  }

  /** `(page - 1) * pageSize`: the rows on the pages before this one. */
  function Offset(page: nat, pageSize: nat): (n: nat)
    requires page >= 1
    ensures n + pageSize == page * pageSize
  {
    (page - 1) * pageSize
  }

  /** `value ? Some(value) : None` for a parameter set only when it is non-empty. */
  function IfSet(value: string): (r: Option<string>)
    ensures r.Some? <==> value != []
    ensures r.Some? ==> r.value == value
  {
    if value != [] then Some(value) else None
  }

  /**
   * The query string of `fetchActivationKeys`: the variant when one is given, the trimmed search
   * when it is not blank, the status, sort and order when set, and always the limit and offset.
   */
  function PageQuery(variantId: Option<string>, search: string, isUsed: string, sortBy: string,
                     sortOrder: string, page: nat, pageSize: nat): ListQuery
    requires page >= 1
  {
    ListQuery(None, None, if variantId.Some? then IfSet(variantId.value) else None, IfSet(isUsed),
              None, None, None, None, None, None,
              if IsBlank(search) then None else Some(Trim(search)), IfSet(sortBy), IfSet(sortOrder),
              Some(NatToString(pageSize)), Some(NatToString(Offset(page, pageSize))))
  }

  /**
   * The route reads back the page's own numbers: the limit is the page size and the offset is
   * `(page - 1) * pageSize`; the status filter is sent only when it is set, and the search only
   * when it is not blank.
   */
  lemma PageQueryRead(variantId: Option<string>, search: string, isUsed: string, sortBy: string,
                      sortOrder: string, page: nat, pageSize: nat)
    requires page >= 1 && PageSizeOption(pageSize)
    ensures var q := PageQuery(variantId, search, isUsed, sortBy, sortOrder, page, pageSize);
      EffectiveLimit(q.limit) == pageSize && EffectiveOffset(q.offset) == (page - 1) * pageSize
      && (q.isUsed.Some? <==> isUsed != []) && (q.q.Some? <==> !IsBlank(search))
      && (q.variantId.Some? <==> variantId.Some? && variantId.value != [])
  {
    EffectiveLimitOfNat(pageSize);
    EffectiveOffsetOfNat(Offset(page, pageSize));
  }

  /** The page's initial sort, `created_at` / `desc`, is the route's newest-first order. */
  lemma InitialSortNewestFirst(variantId: Option<string>, search: string, isUsed: string,
                               page: nat, pageSize: nat)
    requires page >= 1
    ensures var q := PageQuery(variantId, search, isUsed, "created_at", "desc", page, pageSize);
      NormalizeSort(q.sort) == CreatedAt && NormalizeOrder(q.order) == DESC
  {
    NormalizeSortOfName(CreatedAt);
  }

  // ---------- the pagination footer ----------

  /** The first row number shown: one past the offset, or 0 for an empty list. */
  function ShowingFrom(count: nat, page: nat, pageSize: nat): nat
    requires page >= 1
  {
    if count > 0 then Offset(page, pageSize) + 1 else 0
  }

  /** The last row number shown: `min(page * pageSize, total)`. */
  function ShowingTo(page: nat, pageSize: nat, total: nat): nat {
    Min(page * pageSize, total)
  }

  predicate PrevDisabled(page: nat) {
    page <= 1
  }

  predicate NextDisabled(page: nat, pageSize: nat, total: nat) {
    page * pageSize >= total
  }

  /**
   * What the footer promises about a response: a successful page holds at most `pageSize` rows,
   * and the "showing from-to" range spans exactly the rows it holds.
   */
  predicate ShowsItsRows(r: ListResponse, page: nat, pageSize: nat)
    requires page >= 1
  {
    r.ListOk? ==>
      |r.keys| <= pageSize
      && (|r.keys| > 0 ==>
            ShowingTo(page, pageSize, r.total) - ShowingFrom(|r.keys|, page, pageSize) + 1 == |r.keys|)
  }

  /**
   * For any listing request whose limit and offset read back as the page's size and offset (the
   * page's own request does, by `PageQueryRead`), the footer counts exactly the rows returned.
   */
  lemma ShowingCountsTheRows(rows: seq<Row>, c: Catalog, env: Env, q: ListQuery, page: nat,
                             pageSize: nat)
    requires page >= 1
    requires EffectiveLimit(q.limit) == pageSize && EffectiveOffset(q.offset) == Offset(page, pageSize)
    ensures ShowsItsRows(Listing(rows, c, env, q), page, pageSize)
  {
    ListingCount(rows, c, env, q);
    ShownRows(Listing(rows, c, env, q), page, pageSize);
  }

  lemma ShownRows(r: ListResponse, page: nat, pageSize: nat)
    requires page >= 1
    requires PagedAs(r, pageSize, Offset(page, pageSize))
    ensures ShowsItsRows(r, page, pageSize)
  {
    if r.ListOk? {
      ShowingRange(|r.keys|, r.total, page, pageSize);
    }
  }

  /** The same for the page's own request. */
  lemma ShowingCountsThePage(rows: seq<Row>, c: Catalog, env: Env, variantId: Option<string>,
                             search: string, isUsed: string, sortBy: string, sortOrder: string,
                             page: nat, pageSize: nat)
    requires page >= 1 && PageSizeOption(pageSize)
    ensures ShowsItsRows(Listing(rows, c, env, PageQuery(variantId, search, isUsed, sortBy, sortOrder,
                                                         page, pageSize)), page, pageSize)
  {
    PageQueryRead(variantId, search, isUsed, sortBy, sortOrder, page, pageSize);
    ShowingCountsTheRows(rows, c, env, PageQuery(variantId, search, isUsed, sortBy, sortOrder, page,
                                                 pageSize), page, pageSize);
  }

  /** A page of `min(pageSize, total - offset)` rows is numbered from offset + 1 to its last row. */
  lemma ShowingRange(count: nat, total: nat, page: nat, pageSize: nat)
    requires page >= 1 && count == Max(0, Min(pageSize, total - Offset(page, pageSize)))
    ensures count <= pageSize
    ensures count > 0 ==> ShowingTo(page, pageSize, total) - ShowingFrom(count, page, pageSize) + 1 == count
  {
  }

  /** Next is enabled exactly when the following page would start before the last row. */
  lemma NextEnabledIffMoreRows(page: nat, pageSize: nat, total: nat)
    requires page >= 1
    ensures !NextDisabled(page, pageSize, total) <==> Offset(page + 1, pageSize) < total
  {
  }

  // ---------- the table cells ----------

  /** The key column: keys over 20 characters show their first 20 and "...". */
  function KeyCell(key: string): (s: string)
    ensures |key| <= 20 ==> s == key
    ensures |key| > 20 ==> s == key[..20] + "..."
  {
    Truncate(key, 20)
  }

  /** `key.product_title || key.variant?.product?.title || t('unknownProduct')`. */
  function ProductCell(language: Tr.Language, e: Enriched): string {
    if e.productTitle != [] then e.productTitle else Tr.T(language, Tr.UnknownProduct)
  }

  /** `key.variant_title || key.variant?.title || t('defaultVariant')`. */
  function VariantCell(language: Tr.Language, e: Enriched): string {
    if e.variantTitle != [] then e.variantTitle else Tr.T(language, Tr.DefaultVariant)
  }

  /** `key.variant_sku || key.variant?.sku || "-"`. */
  function SkuCell(e: Enriched): string {
    if e.variantSku != [] then e.variantSku else "-"
  }

  /**
   * The route fills missing titles and SKUs in before the page sees them, so the page's own
   * translated fallbacks never show: a row without a product shows the route's English text in
   * either language.
   */
  lemma CellsShowRouteDefaults(language: Tr.Language, l: Listed)
    ensures ProductCell(language, Enrich(l)) == OrText(l.productTitle, "Unknown Product")
    ensures VariantCell(language, Enrich(l)) == OrText(l.variantTitle, "Default")
    ensures SkuCell(Enrich(l)) == OrText(l.variantSku, "N/A")
  {
  }

  datatype Badge = Badge(color: string, caption: string)

  /** The status badge: red "used" or green "available", in the page's language. */
  function StatusBadge(language: Tr.Language, r: Row): (b: Badge)
    ensures b.color == "red" <==> r.isUsed
    ensures b.caption == Tr.T(language, if r.isUsed then Tr.Used else Tr.Available)
  {
    if r.isUsed then Badge("red", Tr.T(language, Tr.Used)) else Badge("green", Tr.T(language, Tr.Available))
  }

  // ---------- adding one key ----------

  /**
   * `...(newCost.trim() ? { cost: Number(newCost) } : {})`; `number` is `Number` followed by JSON
   * serialisation (a number, or `null` for `NaN`).
   */
  function CostField(newCost: string, number: string -> Json): (r: Option<Json>)
    ensures r.Some? <==> !IsBlank(newCost)
    ensures r.Some? ==> r.value == number(newCost)
  {
    if IsBlank(newCost) then None else Some(number(newCost))
  }

  /** The add-key body: the variant id, the (trimmed) key as a single string, and the cost field. */
  function AddKeyBody(variantId: string, key: string, cost: Option<Json>): PostBody {
    PostBody(Some(JStr(variantId)), Some(JStr(key)), cost)
  }

  /**
   * The route takes a non-empty key with a non-empty variant id as one key: it answers 201 or
   * 500, and a 201 reply means the table gained exactly one unused row holding that key.
   */
  lemma AddKeyInsertsOne(rows: seq<Row>, variantId: string, key: string, cost: Option<Json>,
                         authUserId: Option<string>, userId: Option<string>, render: Json -> string,
                         millis: nat -> nat, random: nat -> string, clock: nat -> Stamp)
    requires variantId != [] && key != []
    ensures var o := PostResult(rows, AddKeyBody(variantId, key, cost), authUserId, userId, render,
                                millis, random, clock);
      (o.reply.status == 201 || o.reply.status == 500)
      && (o.reply.status == 201 ==>
            |o.reply.keys| == 1 && o.rows == rows + o.reply.keys
            && o.reply.keys[0].key == key && o.reply.keys[0].variantId == variantId
            && !o.reply.keys[0].isUsed)
  {
    var body := AddKeyBody(variantId, key, cost);
    assert KeysArray(body.keys.value) == [JStr(key)];
    PostRowsAreTheKeys(variantId, KeysArray(body.keys.value), CostOf(cost),
                       CreatedByOf(authUserId, userId), render, millis, random, clock, 0);
  }

  /** The add-key drawer: open or closed, the chosen variant id, the key text and the cost text. */
  datatype AddForm = AddForm(open: bool, selected: Option<string>, key: string, cost: string)

  /**
   * The page's answer to an add-key reply: a 2xx reply (and only that, `added`) shows the "added"
   * toast and closes and clears the drawer, any other reply shows its message and keeps the
   * drawer as it was.
   */
  ghost predicate AddAnswered(reply: PostReply, form: AddForm, form': AddForm, toast: Toast,
                              added: bool, language: Tr.Language)
  {
    (added <==> Ok(reply.status))
    && (Ok(reply.status) ==>
          toast == SuccessToast(Tr.T(language, Tr.ActivationKeyAddedSuccessfully))
          && form' == AddForm(false, None, [], []))
    && (!Ok(reply.status) ==>
          toast == ErrorToast(ErrorText(reply.message, "Failed to add activation key")) && form' == form)
  }

  /**
   * After the add-key request: the table is the route's outcome, the page is not submitting and
   * it has answered the route's reply.
   */
  ghost predicate KeySent(o: PostOutcome, rows': seq<Row>, form: AddForm, form': AddForm,
                          submitting': bool, toast: Toast, added: bool, language: Tr.Language)
  {
    rows' == o.rows && !submitting' && AddAnswered(o.reply, form, form', toast, added, language)
  }

  /**
   * After a listing request: a successful reply replaces the rows and the total and shows no
   * toast; a failed one keeps them and shows the "failed to load" toast.
   */
  ghost predicate Loaded(r: ListResponse, keys: seq<Enriched>, keys': seq<Enriched>, total: nat,
                         total': nat, toast: Option<Toast>, language: Tr.Language)
  {
    (r.ListOk? ==> keys' == r.keys && total' == r.total && toast.None?)
    && (r.ListFailed? ==>
          keys' == keys && total' == total
          && toast == Some(ErrorToast(Tr.T(language, Tr.FailedToLoadActivationKeys))))
  }

  class KeysPage {
    var language: Tr.Language
    /** The rows of the current page, as the route returned them. */
    var keys: seq<Enriched>
    var loading: bool
    var total: nat
    var page: nat
    var pageSize: nat
    /** The filters: a variant id, the search text, the status ("", "true" or "false"), the sort. */
    var filterVariant: Option<string>
    var searchQuery: string
    var filterIsUsed: string
    var sortBy: string
    var sortOrder: string
    /** The add-key drawer. */
    var addDrawerOpen: bool
    var selectedVariant: Option<string>
    var newKey: string
    var newCost: string
    var submitting: bool
    var bulkDrawerOpen: bool

    /** The page number is at least 1 and the size is one the selector offers. */
    ghost predicate Valid()
      reads this`page, this`pageSize
    {
      page >= 1 && PageSizeOption(pageSize)
    }

    /** The initial state; `navigatorLanguage` is the browser's language, if there is a browser. */
    constructor(navigatorLanguage: Option<string>)
      ensures Valid()
      ensures language == Tr.BrowserLanguage(navigatorLanguage) && keys == [] && loading && total == 0
      ensures page == 1 && pageSize == 25
      ensures filterVariant.None? && searchQuery == [] && filterIsUsed == []
      ensures sortBy == "created_at" && sortOrder == "desc"
      ensures !addDrawerOpen && selectedVariant.None? && newKey == [] && newCost == [] && !submitting
      ensures !bulkDrawerOpen
    {
      language := Tr.BrowserLanguage(navigatorLanguage);
      keys := [];
      loading := true;
      total := 0;
      page := 1;
      pageSize := 25;
      filterVariant := None;
      searchQuery := [];
      filterIsUsed := [];
      sortBy := "created_at";
      sortOrder := "desc";
      addDrawerOpen := false;
      selectedVariant := None;
      newKey := [];
      newCost := [];
      submitting := false;
      bulkDrawerOpen := false;
    }

    /** The listing request for the current state, with `overrideVariantId ?? filterVariant?.id`. */
    function Query(overrideVariantId: Option<string>): ListQuery
      reads this`filterVariant, this`searchQuery, this`filterIsUsed, this`sortBy, this`sortOrder,
            this`page, this`pageSize
      requires page >= 1
    {
      PageQuery(if overrideVariantId.Some? then overrideVariantId else filterVariant, searchQuery,
                filterIsUsed, sortBy, sortOrder, page, pageSize)
    }

    /**
     * The request that the effect on `[page, pageSize]` sends when either changed: React skips
     * the effect when both are as they were.
     */
    function Reload(page0: nat, pageSize0: nat): (r: Option<ListQuery>)
      reads this`filterVariant, this`searchQuery, this`filterIsUsed, this`sortBy, this`sortOrder,
            this`page, this`pageSize
      requires page >= 1
      ensures r.Some? <==> page != page0 || pageSize != pageSize0
      ensures r.Some? ==> r.value == Query(None)
    {
      if page != page0 || pageSize != pageSize0 then Some(Query(None)) else None
    }

    /** "Prev": one page back, never below the first. */
    method PrevPage() returns (reload: Option<ListQuery>)
      requires Valid()
      modifies this`page
      ensures Valid() && page == Max(1, old(page) - 1)
      ensures reload == Reload(old(page), pageSize)
    {
      var before := page;
      page := Max(1, page - 1);
      reload := Reload(before, pageSize);
    }

    /** "Next": one page on. */
    method NextPage() returns (reload: Option<ListQuery>)
      requires Valid()
      modifies this`page
      ensures Valid() && page == old(page) + 1
      ensures reload == Some(Query(None))
    {
      var before := page;
      page := page + 1;
      reload := Reload(before, pageSize);
    }

    /** The page-size selector: a new size starts again from the first page. */
    method SetPageSize(n: nat) returns (reload: Option<ListQuery>)
      requires Valid() && PageSizeOption(n)
      modifies this`page, this`pageSize
      ensures Valid() && page == 1 && pageSize == n
      ensures reload == Reload(old(page), old(pageSize))
    {
      var before, sizeBefore := page, pageSize;
      page := 1;
      pageSize := n;
      reload := Reload(before, sizeBefore);
    }

    /** The language button switches between the two languages. */
    method ToggleLanguage()
      modifies this`language
      ensures language == (if old(language) == Tr.En then Tr.Ru else Tr.En)
    {
      language := if language == Tr.En then Tr.Ru else Tr.En;
    }

    /**
     * `fetchActivationKeys` for the request `q` (the page builds its requests with `Query`): a
     * successful reply replaces the rows and the total, a failed one shows the "failed to load"
     * toast and keeps them.
     */
    method Load(store: KeyStore, c: Catalog, env: Env, q: ListQuery) returns (toast: Option<Toast>)
      modifies this`keys, this`total, this`loading
      ensures !loading
      ensures Loaded(Listing(store.rows, c, env, q), old(keys), keys, old(total), total, toast, language)
    {
      loading := true;
      var r := Get(store, c, env, q);
      toast := Apply(r);
      loading := false;
    }

    /** Takes a GET response into the page: the rows and total, or the failure toast. */
    method Apply(r: ListResponse) returns (toast: Option<Toast>)
      modifies this`keys, this`total
      ensures Loaded(r, old(keys), keys, old(total), total, toast, language)
    {
      if r.ListOk? {
        keys := r.keys;
        total := r.total;
        toast := None;
      } else {
        toast := Some(ErrorToast(Tr.T(language, Tr.FailedToLoadActivationKeys)));
      }
    }

    /**
     * The page opened with `?product_variant_id=`: a non-empty id becomes the variant filter and
     * the page goes back to the first; the listing is requested with the id as the override, from
     * the state as it was before these updates.
     */
    method InitFromUrl(variantParam: Option<string>) returns (reload: Option<ListQuery>)
      requires Valid()
      modifies this`filterVariant, this`page
      ensures Valid()
      ensures (variantParam.None? || variantParam.value == []) ==>
        reload.None? && filterVariant == old(filterVariant) && page == old(page)
      ensures variantParam.Some? && variantParam.value != [] ==>
        filterVariant == variantParam && page == 1 && reload == Some(old(Query(variantParam)))
    {
      reload := None;
      if variantParam.Some? && variantParam.value != [] {
        reload := Some(Query(variantParam));
        filterVariant := variantParam;
        page := 1;
      }
    }

    /** The add-key drawer's state. */
    function Form(): AddForm
      reads this`addDrawerOpen, this`selectedVariant, this`newKey, this`newCost
    {
      AddForm(addDrawerOpen, selectedVariant, newKey, newCost)
    }

    /**
     * `handleAddKey`: refused without a variant or with a blank key; otherwise posts the trimmed
     * key and the cost field and, on a 2xx reply (`added`), closes and clears the drawer; the
     * listing is then requested again with `Query(None)`.
     */
    method AddKey(store: KeyStore, number: string -> Json, authUserId: Option<string>,
                  userId: Option<string>, render: Json -> string, millis: nat -> nat,
                  random: nat -> string, clock: nat -> Stamp)
      returns (toast: Toast, added: bool)
      requires Valid() && store.Valid()
      modifies store, this`submitting, this`addDrawerOpen, this`newKey, this`newCost,
               this`selectedVariant
      ensures Valid() && store.Valid()
      ensures (old(selectedVariant).None? || IsBlank(old(newKey))) ==>
        toast == ErrorToast(Tr.T(language, Tr.PleaseSelectVariantAndEnterKey)) && !added
        && store.rows == old(store.rows) && Form() == old(Form()) && submitting == old(submitting)
      ensures old(selectedVariant).Some? && !IsBlank(old(newKey)) ==>
        KeySent(PostResult(old(store.rows),
                           AddKeyBody(old(selectedVariant).value, Trim(old(newKey)),
                                      CostField(old(newCost), number)),
                           authUserId, userId, render, millis, random, clock),
                store.rows, old(Form()), Form(), submitting, toast, added, language)
    {
      if selectedVariant.None? || IsBlank(newKey) {
        return ErrorToast(Tr.T(language, Tr.PleaseSelectVariantAndEnterKey)), false;
      }
      toast, added := SendKey(store, selectedVariant.value, Trim(newKey), CostField(newCost, number),
                              authUserId, userId, render, millis, random, clock);
    }

    /** The request half of `handleAddKey`, for the body built from `variantId`, `key` and `cost`. */
    method SendKey(store: KeyStore, variantId: string, key: string, cost: Option<Json>,
                   authUserId: Option<string>, userId: Option<string>, render: Json -> string,
                   millis: nat -> nat, random: nat -> string, clock: nat -> Stamp)
      returns (toast: Toast, added: bool)
      requires Valid() && store.Valid()
      modifies store, this`submitting, this`addDrawerOpen, this`newKey, this`newCost,
               this`selectedVariant
      ensures Valid() && store.Valid()
      ensures KeySent(PostResult(old(store.rows), AddKeyBody(variantId, key, cost), authUserId, userId,
                                 render, millis, random, clock),
                      store.rows, old(Form()), Form(), submitting, toast, added, language)
    {
      ghost var o := PostResult(store.rows, AddKeyBody(variantId, key, cost), authUserId, userId,
                                render, millis, random, clock);
      submitting := true;
      var reply := Post(store, AddKeyBody(variantId, key, cost), authUserId, userId, render, millis,
                        random, clock);
      assert store.rows == o.rows && reply == o.reply;
      toast, added := Answer(reply);
      submitting := false;
    }

    /** The page's handling of the add-key reply. */
    method Answer(reply: PostReply) returns (toast: Toast, added: bool)
      modifies this`addDrawerOpen, this`newKey, this`newCost, this`selectedVariant
      ensures AddAnswered(reply, old(Form()), Form(), toast, added, language)
    {
      if Ok(reply.status) {
        toast := SuccessToast(Tr.T(language, Tr.ActivationKeyAddedSuccessfully));
        addDrawerOpen := false;
        newKey := [];
        newCost := [];
        selectedVariant := None;
        added := true;
      } else {
        toast := ErrorToast(ErrorText(reply.message, "Failed to add activation key"));
        added := false;
      }
    }

    /**
     * `handleDeleteKey`: nothing unless confirmed; otherwise deletes the row by id and, on a 2xx
     * reply, shows the "deleted" toast and requests the listing again.
     */
    method DeleteKey(store: KeyStore, keyId: string, confirmed: bool)
      returns (toast: Option<Toast>, reload: Option<ListQuery>)
      requires Valid() && store.Valid()
      modifies store
      ensures store.Valid()
      ensures !confirmed ==> toast.None? && reload.None? && store.rows == old(store.rows)
      ensures confirmed && keyId == [] ==>
        store.rows == old(store.rows) && toast == Some(ErrorToast("Key ID is required")) && reload.None?
      ensures confirmed && keyId != [] ==>
        store.rows == Filter(old(store.rows), IdIsNot(keyId)) && toast.Some?
        && ((exists i :: 0 <= i < |old(store.rows)| && old(store.rows)[i].id == keyId) <==>
              toast.value == SuccessToast(Tr.T(language, Tr.ActivationKeyDeletedSuccessfully)))
        && (reload.Some? <==> toast.value.SuccessToast?) && (reload.Some? ==> reload.value == Query(None))
    {
      if !confirmed {
        return None, None;
      }
      var reply := Delete(store, Some(keyId));
      if Ok(reply.status) {
        toast := Some(SuccessToast(Tr.T(language, Tr.ActivationKeyDeletedSuccessfully)));
        reload := Some(Query(None));
      } else {
        toast := Some(ErrorToast(ErrorText(reply.message, "Failed to delete activation key")));
        reload := None;
      }
    }

    /** The bulk-import drawer reported success: it closes and the listing is requested again. */
    method BulkImportSucceeded() returns (reload: ListQuery)
      requires Valid()
      modifies this`bulkDrawerOpen
      ensures Valid() && !bulkDrawerOpen && reload == Query(None)
    {
      bulkDrawerOpen := false;
      reload := Query(None);
    }
  }
}
