/**
 * The storefront search bar: it keeps the typed query, mirrors the URL's `q` parameter into it,
 * clears it on Escape, and on submit navigates to `/<countryCode>/search`, adding `?q=` and the
 * encoded trimmed query when that is not blank. `encodeURIComponent` is a parameter.
 */
module SearchBar {
  import opened Wrappers
  import opened Text

  /** `/${countryCode || ""}/search`, the route parameter being `params?.countryCode || ""`. */
  function BasePath(countryCode: Option<string>): (p: string)
    ensures StartsWith(p, "/") && |p| == |OrText(countryCode, "")| + 8
  {
    "/" + OrText(countryCode, "") + "/search"
  }

  /** The target for an already trimmed query. */
  function TargetFor(base: string, trimmed: string, encode: string -> string): string {
    if |trimmed| > 0 then base + "?q=" + encode(trimmed) else base
  }

  /** `navigate(q)`: where a submitted query leads. */
  function Target(countryCode: Option<string>, q: string, encode: string -> string): string {
    TargetFor(BasePath(countryCode), Trim(q), encode)
  }

  lemma TargetForLayout(base: string, trimmed: string, encode: string -> string)
    ensures trimmed == [] ==> TargetFor(base, trimmed, encode) == base
    ensures trimmed != [] ==>
              StartsWith(TargetFor(base, trimmed, encode), base)
              && TargetFor(base, trimmed, encode)[|base|..] == "?q=" + encode(trimmed)
    ensures '?' !in base ==> ('?' in TargetFor(base, trimmed, encode) <==> trimmed != [])
  {
    var t := TargetFor(base, trimmed, encode);
    if trimmed != [] {
      assert t == base + ("?q=" + encode(trimmed));
      assert t[|base|] == '?';
    }
  }

  lemma NoQuestionMarkInBase(countryCode: Option<string>)
    requires '?' !in OrText(countryCode, "")
    ensures '?' !in BasePath(countryCode)
  {
    var cc := OrText(countryCode, "");
    assert BasePath(countryCode) == "/" + cc + "/search";
  }

  /**
   * A blank query leads to the bare search page; any other query adds `?q=` and the encoded,
   * trimmed query after it. With a country code free of "?", the target has a query string
   * exactly when the query is not blank.
   */
  lemma TargetQueryString(countryCode: Option<string>, q: string, encode: string -> string)
    ensures IsBlank(q) ==> Target(countryCode, q, encode) == BasePath(countryCode)
    ensures !IsBlank(q) ==>
              StartsWith(Target(countryCode, q, encode), BasePath(countryCode))
              && Target(countryCode, q, encode)[|BasePath(countryCode)|..] == "?q=" + encode(Trim(q))
    ensures '?' !in OrText(countryCode, "") ==>
              ('?' in Target(countryCode, q, encode) <==> !IsBlank(q))
  {
    TargetForLayout(BasePath(countryCode), Trim(q), encode);
    if '?' !in OrText(countryCode, "") {
      NoQuestionMarkInBase(countryCode);
    }
  }

  lemma Around(q: string, lead: string, t: string)
    requires |lead| <= |q| && lead == q[|q| - |lead|..]
    requires |t| <= |lead| && t == lead[..|t|]
    ensures q == q[..|q| - |lead|] + t + lead[|t|..]
  {
    assert q == q[..|q| - |lead|] + q[|q| - |lead|..];
    assert lead == lead[..|t|] + lead[|t|..];
  }

  lemma TrimSplits(q: string) returns (a: string, b: string)
    ensures AllSpace(a) && AllSpace(b) && q == a + Trim(q) + b
  {
    var lead := TrimStart(q);
    var t := TrimEnd(lead);
    TrimStartSplits(q);
    TrimEndSplits(lead);
    a := q[..|q| - |lead|];
    b := lead[|t|..];
    Around(q, lead, t);
  }

  lemma PaddedAgain(before: string, a: string, t: string, b: string, after: string)
    requires AllSpace(before) && AllSpace(a) && AllSpace(b) && AllSpace(after) && Tight(t)
    ensures Trim(before + (a + t + b) + after) == t
  {
    AllSpaceConcat(before, a);
    AllSpaceConcat(b, after);
    assert before + (a + t + b) + after == (before + a) + t + (b + after);
    TrimPadded(before + a, t, b + after);
  }

  lemma TrimIgnoresPadding(before: string, q: string, after: string)
    requires AllSpace(before) && AllSpace(after)
    ensures Trim(before + q + after) == Trim(q)
  {
    var a, b := TrimSplits(q);
    TrimIsTight(q);
    PaddedAgain(before, a, Trim(q), b, after);
  }

  /** White space typed around a query changes nothing about where it leads. */
  lemma PaddingIgnored(countryCode: Option<string>, before: string, q: string, after: string,
                       encode: string -> string)
    requires AllSpace(before) && AllSpace(after)
    ensures Target(countryCode, before + q + after, encode) == Target(countryCode, q, encode)
  {
    TrimIgnoresPadding(before, q, after);
  }

  /** The search bar's state: the route's country code and the query in the input. */
  class SearchBar {
    const countryCode: Option<string>
    var query: string

    /** `useState("")`. */
    constructor(countryCode: Option<string>)
      ensures this.countryCode == countryCode && query == []
    {
      this.countryCode := countryCode;
      query := [];
    }

    /** The effect on `searchParams`: `searchParams?.get("q") || ""`. */
    method SyncFromUrl(q: Option<string>)
      modifies this
      ensures query == OrText(q, "")
      ensures q.None? ==> query == []
    {
      query := OrText(q, "");
    }

    /** `onChange`: the input's new value. */
    method Typed(value: string)
      modifies this
      ensures query == value
    {
      query := value;
    }

    /** `onKeyDown`: Escape clears the query; any other key leaves it. */
    method KeyDown(key: string)
      modifies this
      ensures key == "Escape" ==> query == []
      ensures key != "Escape" ==> query == old(query)
    {
      if key == "Escape" {
        query := [];
      }
    }

    /** `onSubmit`: the path pushed to the router for the current query; the state is kept. */
    method Submit(encode: string -> string) returns (target: string)
      ensures target == Target(countryCode, query, encode)
      ensures IsBlank(query) <==> target == BasePath(countryCode)
    {
      target := Target(countryCode, query, encode);
      TargetForLayout(BasePath(countryCode), Trim(query), encode);
    }
  }
}
