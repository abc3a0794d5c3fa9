/**
 * The product page's "activation keys per variant" widget: it reads the admin prefix and the
 * product id from the page's path, loads the product, asks the key listing for each variant's
 * total, and shows one line per variant with its count and a link to the keys page filtered to
 * that variant.
 *
 * The requests are made by the caller; the widget's methods take the replies. `encode` is
 * `encodeURIComponent`.
 */
module VariantKeysWidget {
  import opened Wrappers
  import opened Text
  import opened Json
  import opened ActivationKey
  import opened Catalog
  import opened Toasts
  import R = AdminKeysRoute

  // ---------- the admin path ----------

  /** `\w`: an ASCII letter, a digit or `_`. */
  predicate WordChar(c: char) {
    ('a' <= c <= 'z') || ('A' <= c <= 'Z') || ('0' <= c <= '9') || c == '_'
  }

  /** The longest prefix of word characters (`\w+`, which no `/` can extend). */
  function WordRun(s: string): (r: string)
    ensures |r| <= |s| && r == s[..|r|]
    ensures forall i :: 0 <= i < |r| ==> WordChar(r[i])
    ensures |r| < |s| ==> !WordChar(s[|r|])
  {
    if s != [] && WordChar(s[0]) then [s[0]] + WordRun(s[1..]) else []
  }

  /** The longest prefix without a `/` (`[^/]+`). */
  function SegmentRun(s: string): (r: string)
    ensures |r| <= |s| && r == s[..|r|]
    ensures '/' !in r
    ensures |r| < |s| ==> s[|r|] == '/'
  {
    if s != [] && s[0] != '/' then [s[0]] + SegmentRun(s[1..]) else []
  }

  /** `path.match(/^\/(\w+)\/products\/([^\/]+)/)`: the two groups, when the path matches. */
  function MatchProductPath(path: string): Option<(string, string)> {
    if path == [] || path[0] != '/' then None
    else
      var prefix := WordRun(path[1..]);
      var rest := path[1 + |prefix|..];
      if prefix == [] || !StartsWith(rest, "/products/") then None
      else
        var id := SegmentRun(rest[10..]);
        if id == [] then None else Some((prefix, id))
  }

  /** Where the widget is: the admin's path prefix and the product id, if the path names one. */
  datatype AdminLocation = AdminLocation(adminPrefix: string, productId: Option<string>)

  /**
   * `adminPrefix: match?.[1] || "a"`, `productId: match?.[2] || null`; `path` is None without a
   * browser window, which reads as the empty path.
   */
  function ParseAdminPath(path: Option<string>): (l: AdminLocation)
    ensures MatchProductPath(path.GetOr("")).None? ==> l == AdminLocation("a", None)
    ensures MatchProductPath(path.GetOr("")).Some? ==>
      var m := MatchProductPath(path.GetOr("")).value;
      l == AdminLocation(m.0, Some(m.1))
  {
    var m := MatchProductPath(path.GetOr(""));
    if m.None? then AdminLocation("a", None) else AdminLocation(m.value.0, Some(m.value.1))
  }

  lemma {:induction false} WordRunOf(w: string, t: string)
    requires forall i :: 0 <= i < |w| ==> WordChar(w[i])
    requires t == [] || !WordChar(t[0])
    ensures WordRun(w + t) == w
  {
    if w != [] {
      assert (w + t)[1..] == w[1..] + t;
      WordRunOf(w[1..], t);
    }
  }

  lemma {:induction false} SegmentRunOf(s: string, t: string)
    requires '/' !in s
    requires t == [] || t[0] == '/'
    ensures SegmentRun(s + t) == s
  {
    if s != [] {
      assert (s + t)[1..] == s[1..] + t;
      SegmentRunOf(s[1..], t);
    }
  }

  /**
   * A product page path `/<prefix>/products/<id>` (possibly followed by a further `/...`) gives
   * that prefix and that id.
   */
  lemma ParseProductPage(prefix: string, id: string, tail: string)
    requires prefix != [] && forall i :: 0 <= i < |prefix| ==> WordChar(prefix[i])
    requires id != [] && '/' !in id
    requires tail == [] || tail[0] == '/'
    ensures ParseAdminPath(Some("/" + prefix + "/products/" + id + tail)) == AdminLocation(prefix, Some(id))
  {
    var after := "/products/" + (id + tail);
    ProductPathSplits(prefix, id, tail);
    WordRunOf(prefix, after);
    assert after[10..] == id + tail;
    SegmentRunOf(id, tail);
    MatchedAfterPrefix("/" + prefix + "/products/" + id + tail, prefix, after, id);
  }

  lemma ProductPathSplits(prefix: string, id: string, tail: string)
    ensures "/" + prefix + "/products/" + id + tail == "/" + (prefix + ("/products/" + (id + tail)))
  {
  }

  lemma MatchedAfterPrefix(path: string, prefix: string, after: string, id: string)
    requires path == "/" + (prefix + after) && prefix != [] && WordRun(prefix + after) == prefix
    requires StartsWith(after, "/products/") && id != [] && SegmentRun(after[10..]) == id
    ensures MatchProductPath(path) == Some((prefix, id))
  {
    assert path[1..] == prefix + after;
    assert path[1 + |prefix|..] == after;
  }

  /** A path that does not start with `/` names no product and gets the default prefix. */
  lemma ParseOtherPath(path: string)
    requires path == [] || path[0] != '/'
    ensures ParseAdminPath(Some(path)) == AdminLocation("a", None)
  {
  }

  // ---------- the counts ----------

  /** One variant's count reply: whether the response was ok and its `total` field, if any. */
  datatype CountReply = CountReply(ok: bool, total: Option<Json>)

  /** `res.ok ? (typeof data.total === "number" ? data.total : 0) : 0`. */
  function ReplyTotal(reply: CountReply): (n: int)
    ensures !reply.ok ==> n == 0
    ensures reply.ok && reply.total.Some? && reply.total.value.JNum? ==> n == reply.total.value.n
    ensures reply.ok && (reply.total.None? || !reply.total.value.JNum?) ==> n == 0
  {
    if reply.ok && reply.total.Some? && reply.total.value.JNum? then reply.total.value.n else 0
  }

  /** The count request for one variant: its id, `limit=1` and `offset=0`. */
  function CountQuery(variantId: string): R.ListQuery {
    R.ListQuery(None, None, Some(variantId), None, None, None, None, None, None, None, None, None, None,
                Some("1"), Some("0"))
  }

  /** The `mapping` record after the loop: each id holds the total of its last result. */
  function CountsOf(results: seq<(string, int)>): map<string, int> {
    if results == [] then map[]
    else CountsOf(results[..|results| - 1])[results[|results| - 1].0 := results[|results| - 1].1]
  }

  /** `for (const r of results) mapping[r.id] = r.total`. */
  method BuildCounts(results: seq<(string, int)>) returns (mapping: map<string, int>)
    ensures mapping == CountsOf(results)
  {
    mapping := map[];
    var i := 0;
    while i < |results|
      invariant 0 <= i <= |results|
      invariant mapping == CountsOf(results[..i])
    {
      assert results[..i + 1][..i] == results[..i];
      mapping := mapping[results[i].0 := results[i].1];
      i := i + 1;
    }
    assert results[..i] == results;
  }

  /** No later result has the id of result `i`. */
  predicate LastWith(results: seq<(string, int)>, i: nat)
    requires i < |results|
  {
    forall j :: i < j < |results| ==> results[j].0 != results[i].0
  }

  /**
   * The map holds exactly the ids of the results, and each id's entry is the total of the last
   * result with that id.
   */
  lemma {:induction false} CountsOfLookup(results: seq<(string, int)>)
    ensures forall id :: id in CountsOf(results) <==> exists i :: 0 <= i < |results| && results[i].0 == id
    ensures forall i :: 0 <= i < |results| && LastWith(results, i) ==> CountsOf(results)[results[i].0] == results[i].1
  {
    if results != [] {
      var init := results[..|results| - 1];
      CountsOfLookup(init);
      forall id ensures id in CountsOf(results) <==> exists i :: 0 <= i < |results| && results[i].0 == id {
        if id in CountsOf(init) {
          var i :| 0 <= i < |init| && init[i].0 == id;
          assert results[i].0 == id;
        }
        if exists i :: 0 <= i < |results| && results[i].0 == id {
          var i :| 0 <= i < |results| && results[i].0 == id;
          if i < |init| {
            assert init[i].0 == id;
          }
        }
      }
      forall i | 0 <= i < |results| && LastWith(results, i)
        ensures CountsOf(results)[results[i].0] == results[i].1
      {
        if i < |init| {
          assert init[i] == results[i];
          assert forall j :: i < j < |init| ==> init[j] == results[j];
          assert LastWith(init, i);
        }
      }
    }
  }

  /** `variantIdToCount[v.id] ?? 0`. */
  function CountOf(counts: map<string, int>, variantId: string): (n: int)
    ensures variantId in counts ==> n == counts[variantId]
    ensures variantId !in counts ==> n == 0
  {
    if variantId in counts then counts[variantId] else 0
  }

  // ---------- the lines ----------

  datatype WidgetVariant = WidgetVariant(id: string, title: Option<string>, sku: Option<string>)

  datatype AdminProduct = AdminProduct(id: string, title: Option<string>, variants: seq<WidgetVariant>)

  /** The product reply: not ok, some other failure with its message, or the product as sent. */
  datatype ProductReply =
    | ProductNotOk
    | ProductError(message: string)
    | ProductOk(id: string, title: Option<string>, variants: Option<seq<WidgetVariant>>)

  /** `/<adminPrefix>/activation-keys?product_variant_id=<encoded id>`. */
  function EditLink(adminPrefix: string, variantId: string, encode: string -> string): string {
    "/" + adminPrefix + KeysPath + "?" + VariantParam + "=" + encode(variantId)
  }

  /** The keys page under the admin prefix, and the parameter that selects its variant. */
  const KeysPath := "/activation-keys"
  const VariantParam := "product_variant_id"

  /**
   * With a prefix free of "?", the link's path is the keys page and its query, everything after
   * its only "?", is the single parameter `product_variant_id` set to the encoded id.
   */
  lemma EditLinkQuery(adminPrefix: string, variantId: string, encode: string -> string)
    requires '?' !in adminPrefix
    ensures var path := "/" + adminPrefix + KeysPath;
      '?' !in path && EditLink(adminPrefix, variantId, encode) == path + "?" + (VariantParam + "=" + encode(variantId))
  {
    assert '?' !in KeysPath;
    assert '?' !in "/";
  }

  /** With an injective encoding, two variants of one admin share an edit link only when they are one. */
  lemma EditLinkInjective(adminPrefix: string, a: string, b: string, encode: string -> string)
    requires forall x, y :: encode(x) == encode(y) ==> x == y
    requires EditLink(adminPrefix, a, encode) == EditLink(adminPrefix, b, encode)
    ensures a == b
  {
    var head := "/" + adminPrefix + KeysPath + "?" + VariantParam + "=";
    assert EditLink(adminPrefix, a, encode)[|head|..] == encode(a);
    assert EditLink(adminPrefix, b, encode)[|head|..] == encode(b);
  }

  /** One variant line: the count badge (green when positive), the title, the SKU and the link. */
  datatype VariantLine = VariantLine(count: int, color: string, caption: string, sku: Option<string>,
                                     link: string)

  function LineOf(counts: map<string, int>, adminPrefix: string, v: WidgetVariant,
                  encode: string -> string): (l: VariantLine)
    ensures l.count == CountOf(counts, v.id)
    ensures l.color == (if l.count > 0 then "green" else "red")
    ensures l.caption == OrText(v.title, "Вариация")
    ensures l.sku == (if v.sku.Some? && v.sku.value != [] then v.sku else None)
    ensures l.link == EditLink(adminPrefix, v.id, encode)
  {
    var n := CountOf(counts, v.id);
    VariantLine(n, if n > 0 then "green" else "red", OrText(v.title, "Вариация"),
                if v.sku.Some? && v.sku.value != [] then v.sku else None, EditLink(adminPrefix, v.id, encode))
  }

  function LinesOf(counts: map<string, int>, adminPrefix: string, vs: seq<WidgetVariant>,
                   encode: string -> string): (ls: seq<VariantLine>)
    ensures |ls| == |vs|
    ensures forall i :: 0 <= i < |vs| ==> ls[i] == LineOf(counts, adminPrefix, vs[i], encode)
  {
    if vs == [] then [] else [LineOf(counts, adminPrefix, vs[0], encode)] + LinesOf(counts, adminPrefix, vs[1..], encode)
  }

  /** What the widget renders. */
  datatype WidgetView =
    | Hidden
    | ErrorView(message: string)
    | LoadingView
    | NoVariants
    | Lines(lines: seq<VariantLine>)

  class Widget {
    /** Computed once from the path (`useMemo` with no dependencies). */
    const location: AdminLocation
    var product: Option<AdminProduct>
    var loading: bool
    var error: Option<string>
    var counts: map<string, int>

    constructor(path: Option<string>)
      ensures location == ParseAdminPath(path)
      ensures product.None? && !loading && error.None? && counts == map[]
    {
      location := ParseAdminPath(path);
      product := None;
      loading := false;
      error := None;
      counts := map[];
    }

    /** `fetchProduct`'s request path, or None when there is no product id and nothing is fetched. */
    function ProductRequest(): (r: Option<string>)
      ensures r.Some? <==> location.productId.Some?
      ensures r.Some? ==> r.value == "/admin/products/" + location.productId.value
    {
      if location.productId.Some? then Some("/admin/products/" + location.productId.value) else None
    }

    /**
     * `fetchProduct` once the reply is in: an ok reply becomes the product, its variants the
     * empty list unless they came as an array; a failure sets the error message and keeps the
     * product; loading ends either way.
     */
    method ProductFetched(reply: ProductReply)
      requires location.productId.Some?
      modifies this`product, this`loading, this`error
      ensures !loading
      ensures reply.ProductOk? ==>
        error.None? && product == Some(AdminProduct(reply.id, reply.title, reply.variants.GetOr([])))
      ensures reply.ProductNotOk? ==> error == Some("Не удалось загрузить товар") && product == old(product)
      ensures reply.ProductError? ==>
        error == Some(ErrorText(reply.message, "Ошибка загрузки товара")) && product == old(product)
    {
      loading := true;
      error := None;
      match reply {
        case ProductOk(id, title, variants) =>
          product := Some(AdminProduct(id, title, variants.GetOr([])));
        case ProductNotOk =>
          error := Some("Не удалось загрузить товар");
        case ProductError(message) =>
          error := Some(ErrorText(message, "Ошибка загрузки товара"));
      }
      loading := false;
    }

    /** `fetchCounts` asks for one total per variant, and only when the product has variants. */
    function CountRequests(): (qs: seq<R.ListQuery>)
      reads this`product
      ensures product.None? ==> qs == []
      ensures product.Some? ==>
        |qs| == |product.value.variants|
        && (forall i :: 0 <= i < |qs| ==> qs[i] == CountQuery(product.value.variants[i].id))
    {
      if product.None? then [] else CountRequestsFor(product.value.variants)
    }

    /**
     * `fetchCounts` once the replies are in, one per variant in order (None: that request threw,
     * which abandons the whole update): the counts become the map from each variant id to its
     * reply's total.
     */
    method CountsFetched(replies: seq<Option<CountReply>>)
      requires product.Some? && |replies| == |product.value.variants|
      modifies this`counts
      ensures (exists i :: 0 <= i < |replies| && replies[i].None?) ==> counts == old(counts)
      ensures (forall i :: 0 <= i < |replies| ==> replies[i].Some?) ==>
        counts == CountsOf(Results(product.value.variants, replies))
    {
      var i := 0;
      while i < |replies|
        invariant 0 <= i <= |replies|
        invariant forall k :: 0 <= k < i ==> replies[k].Some?
      {
        if replies[i].None? {
          return;
        }
        i := i + 1;
      }
      counts := BuildCounts(Results(product.value.variants, replies));
    }

    /** What is on screen: nothing without a product id, else the error, the spinner or the lines. */
    function View(encode: string -> string): (v: WidgetView)
      reads this`product, this`loading, this`error, this`counts
      ensures location.productId.None? ==> v == Hidden
      ensures location.productId.Some? && error.Some? && error.value != [] ==> v == ErrorView(error.value)
    {
      if location.productId.None? then Hidden
      else if error.Some? && error.value != [] then ErrorView(error.value)
      else if loading then LoadingView
      else if product.None? || product.value.variants == [] then NoVariants
      else Lines(LinesOf(counts, location.adminPrefix, product.value.variants, encode))
    }
  }

  function CountRequestsFor(vs: seq<WidgetVariant>): (qs: seq<R.ListQuery>)
    ensures |qs| == |vs| && forall i :: 0 <= i < |vs| ==> qs[i] == CountQuery(vs[i].id)
  {
    if vs == [] then [] else [CountQuery(vs[0].id)] + CountRequestsFor(vs[1..])
  }

  /** `{ id: v.id, total: ... }` for each variant and its reply. */
  function Results(vs: seq<WidgetVariant>, replies: seq<Option<CountReply>>): (rs: seq<(string, int)>)
    requires |replies| == |vs| && forall i :: 0 <= i < |replies| ==> replies[i].Some?
    ensures |rs| == |vs|
    ensures forall i :: 0 <= i < |vs| ==> rs[i] == (vs[i].id, ReplyTotal(replies[i].value))
  {
    if vs == [] then [] else [(vs[0].id, ReplyTotal(replies[0].value))] + Results(vs[1..], replies[1..])
  }

  /**
   * With distinct variant ids, each variant's line shows its own reply's total, and the badge is
   * green exactly when that total is positive.
   */
  lemma LineShowsItsTotal(vs: seq<WidgetVariant>, replies: seq<Option<CountReply>>, adminPrefix: string,
                          encode: string -> string, i: nat)
    requires |replies| == |vs| && forall k :: 0 <= k < |replies| ==> replies[k].Some?
    requires forall j, k :: 0 <= j < k < |vs| ==> vs[j].id != vs[k].id
    requires i < |vs|
    ensures var l := LineOf(CountsOf(Results(vs, replies)), adminPrefix, vs[i], encode);
      l.count == ReplyTotal(replies[i].value) && (l.color == "green" <==> ReplyTotal(replies[i].value) > 0)
  {
    var rs := Results(vs, replies);
    CountsOfLookup(rs);
    assert rs[i].0 == vs[i].id;
  }

  /** A variant with no entry in the map counts 0 and shows a red badge. */
  lemma MissingCountIsRed(counts: map<string, int>, adminPrefix: string, v: WidgetVariant,
                          encode: string -> string)
    requires v.id !in counts
    ensures LineOf(counts, adminPrefix, v, encode).count == 0
    ensures LineOf(counts, adminPrefix, v, encode).color == "red"
  {
  }

  /**
   * The count request's total does not depend on its `limit=1` and `offset=0`: it is the total
   * of the same listing without them.
   */
  lemma CountIgnoresPaging(rows: seq<Row>, c: Catalog, env: R.Env, variantId: string)
    requires R.Listing(rows, c, env, CountQuery(variantId)).ListOk?
    ensures R.Listing(rows, c, env, CountQuery(variantId).(limit := None, offset := None)).ListOk?
    ensures R.Listing(rows, c, env, CountQuery(variantId).(limit := None, offset := None)).total
      == R.Listing(rows, c, env, CountQuery(variantId)).total
  {
    R.ListingTotalIgnoresPaging(rows, c, env, CountQuery(variantId), None, None);
  }
}
