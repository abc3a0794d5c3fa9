/**
 * The admin "bulk import" form: a selected product variant and a text area holding one key per
 * line. The text is parsed into keys (lines trimmed, blank lines dropped), previewed, and posted
 * to the admin key route; the outcome is reported as a toast.
 *
 * The HTTP round trip is the admin route's POST handler run directly on the key table; the
 * session's user ids and the route's clock, id and serialisation sources are parameters.
 */
module BulkKeyImport {
  import opened Wrappers
  import opened Seqs
  import opened Text
  import opened Json
  import opened ActivationKey
  import opened KeyService
  import opened AdminKeysRoute
  import opened Toasts

  // ---------- parsing ----------

  predicate NonEmptyKey(k: string) {
    |k| > 0
  }

  /** `lines.map(key => key.trim()).filter(key => key.length > 0)`. */
  function KeysOf(lines: seq<string>): seq<string> {
    Filter(Map(lines, Trim), NonEmptyKey)
  }

  /** `text.split('\n').map(key => key.trim()).filter(key => key.length > 0)`. */
  function ParseKeys(text: string): seq<string> {
    KeysOf(Split(text, '\n'))
  }

  /** A well-shaped key: non-empty, no white space at its ends, no line break. */
  predicate KeyShaped(k: string) {
    k != [] && Tight(k) && '\n' !in k
  }

  /** The keys of lines without a line break are well shaped. */
  lemma LineKeyShaped(lines: seq<string>, i: nat)
    requires forall j :: 0 <= j < |lines| ==> '\n' !in lines[j]
    requires i < |KeysOf(lines)|
    ensures KeyShaped(KeysOf(lines)[i])
  {
    var trimmed := Map(lines, Trim);
    var k := Filter(trimmed, NonEmptyKey)[i];
    assert k in trimmed;
    var j :| 0 <= j < |trimmed| && trimmed[j] == k;
    assert k == Trim(lines[j]);
    TrimIsTight(lines[j]);
    TrimWithout(lines[j], '\n');
  }

  /** Every parsed key is well shaped. */
  lemma ParsedKeyShaped(text: string, i: nat)
    requires i < |ParseKeys(text)|
    ensures KeyShaped(ParseKeys(text)[i])
  {
    LineKeyShaped(Split(text, '\n'), i);
  }

  /** Well-shaped keys are their own keys. */
  lemma KeysOfShaped(keys: seq<string>)
    requires forall i :: 0 <= i < |keys| ==> KeyShaped(keys[i])
    ensures KeysOf(keys) == keys
  {
    assert Map(keys, Trim) == keys by {
      forall i | 0 <= i < |keys| ensures Trim(keys[i]) == keys[i] {
        TightTrimFixed(keys[i]);
      }
    }
    FilterOfAll(keys, NonEmptyKey);
  }

  /** Writing well-shaped keys one per line and parsing the text gives the keys back. */
  lemma ParseJoinedKeys(keys: seq<string>)
    requires forall i :: 0 <= i < |keys| ==> KeyShaped(keys[i])
    ensures ParseKeys(Join(keys, "\n")) == keys
  {
    if keys != [] {
      SplitJoin(keys, '\n');
      KeysOfShaped(keys);
    }
  }

  lemma SpaceLinesNoKeys(lines: seq<string>)
    requires forall j :: 0 <= j < |lines| ==> AllSpace(lines[j])
    ensures KeysOf(lines) == []
  {
    var trimmed := Map(lines, Trim);
    forall j | 0 <= j < |trimmed| ensures !NonEmptyKey(trimmed[j]) {
      BlankIffAllSpace(lines[j]);
    }
    FilterOfNone(trimmed, NonEmptyKey);
  }

  lemma NoKeysSpaceLine(lines: seq<string>, j: nat)
    requires KeysOf(lines) == [] && j < |lines|
    ensures AllSpace(lines[j])
  {
    var trimmed := Map(lines, Trim);
    assert trimmed[j] == Trim(lines[j]);
    assert !NonEmptyKey(trimmed[j]);
    BlankIffAllSpace(lines[j]);
  }

  /** Lines give no key exactly when every line is white space. */
  lemma NoKeysIffSpaceLines(lines: seq<string>)
    ensures KeysOf(lines) == [] <==> forall j :: 0 <= j < |lines| ==> AllSpace(lines[j])
  {
    if forall j :: 0 <= j < |lines| ==> AllSpace(lines[j]) {
      SpaceLinesNoKeys(lines);
    }
    if KeysOf(lines) == [] {
      forall j | 0 <= j < |lines| ensures AllSpace(lines[j]) {
        NoKeysSpaceLine(lines, j);
      }
    }
  }

  /** The lines of a white-space text are white space. */
  lemma SpaceTextSpaceLines(text: string, j: nat)
    requires AllSpace(text) && j < |Split(text, '\n')|
    ensures AllSpace(Split(text, '\n')[j])
  {
    var line := Split(text, '\n')[j];
    forall k | 0 <= k < |line| ensures IsSpace(line[k]) {
      SplitWithin(text, '\n', j, line[k]);
    }
  }

  /** A text whose lines are white space is white space. */
  lemma SpaceLinesSpaceText(text: string)
    requires forall j :: 0 <= j < |Split(text, '\n')| ==> AllSpace(Split(text, '\n')[j])
    ensures AllSpace(text)
  {
    JoinAllSpace(Split(text, '\n'), "\n");
    JoinSplit(text, '\n');
  }

  /** Parsing gives no key exactly when the text is blank. */
  lemma BlankIffNoKeys(text: string)
    ensures IsBlank(text) <==> ParseKeys(text) == []
  {
    var lines := Split(text, '\n');
    BlankIffAllSpace(text);
    NoKeysIffSpaceLines(lines);
    if AllSpace(text) {
      forall j | 0 <= j < |lines| ensures AllSpace(lines[j]) {
        SpaceTextSpaceLines(text, j);
      }
    }
    if forall j :: 0 <= j < |lines| ==> AllSpace(lines[j]) {
      SpaceLinesSpaceText(text);
    }
  }

  lemma {:induction false} FilterOfNone<T>(s: seq<T>, p: T -> bool)
    requires forall i :: 0 <= i < |s| ==> !p(s[i])
    ensures Filter(s, p) == []
  {
    if s != [] {
      FilterOfNone(s[1..], p);
    }
  }

  // ---------- what the form shows ----------

  /** `n key` or `n keys`: the plural when more than one. */
  function KeysPhrase(n: nat, noun: string): string {
    NatToString(n) + " " + noun + (if n > 1 then "s" else "")
  }

  /** The phrase starts with the count, which `parseInt` reads back. */
  lemma KeysPhraseReadsBack(n: nat, noun: string)
    ensures ParseInt10(KeysPhrase(n, noun)) == Some(n)
  {
    var rest := " " + noun + (if n > 1 then "s" else "");
    assert KeysPhrase(n, noun) == NatToString(n) + rest;
    ParseInt10OfNatThen(n, rest);
  }

  /** The preview: its header, the first five keys cut to 30 characters, and a "more" line. */
  datatype Preview = Preview(header: string, shown: seq<string>, more: Option<string>)

  function PreviewOf(keys: seq<string>): (p: Option<Preview>)
    ensures p.None? <==> keys == []
    ensures p.Some? ==> p.value.header == KeysPhrase(|keys|, "key") + " will be imported:"
    ensures p.Some? ==> |p.value.shown| == (if |keys| < 5 then |keys| else 5)
    ensures p.Some? ==> forall i :: 0 <= i < |p.value.shown| ==>
      (|keys[i]| <= 30 ==> p.value.shown[i] == keys[i])
      && (|keys[i]| > 30 ==> p.value.shown[i] == keys[i][..30] + "...")
    ensures p.Some? ==> (p.value.more.Some? <==> |keys| > 5)
    ensures p.Some? && |keys| > 5 ==> p.value.more == Some("... and " + NatToString(|keys| - 5) + " more")
  {
    if keys == [] then None
    else
      var first := if |keys| < 5 then keys else keys[..5];
      Some(Preview(KeysPhrase(|keys|, "key") + " will be imported:",
                   Map(first, k => Truncate(k, 30)),
                   if |keys| > 5 then Some("... and " + NatToString(|keys| - 5) + " more") else None))
  }

  /** The keys shown plus the number the "more" line gives account for every key. */
  lemma PreviewAccountsForAll(keys: seq<string>)
    requires keys != []
    ensures var p := PreviewOf(keys).value;
      |p.shown| + (if p.more.Some? then |keys| - 5 else 0) == |keys|
  {
  }

  /** The submit button's label. */
  function ButtonLabel(submitting: bool, n: nat): (s: string)
    ensures submitting ==> s == "Importing..."
    ensures !submitting ==> s == "Import " + NatToString(n) + (if n == 1 then " Key" else " Keys")
  {
    if submitting then "Importing..."
    else "Import " + NatToString(n) + " Key" + (if n != 1 then "s" else "")
  }

  /** The button is disabled while submitting, with no variant, or with no key. */
  predicate ButtonDisabled(submitting: bool, selected: Option<string>, n: nat) {
    submitting || selected.None? || n == 0
  }

  /**
   * The button counts the parsed keys, so it is enabled exactly when nothing is being submitted,
   * a variant is selected and the text is not blank: a click always gets past the handler's
   * three refusals.
   */
  lemma ButtonEnabledIffAccepted(submitting: bool, selected: Option<string>, text: string)
    ensures !ButtonDisabled(submitting, selected, |ParseKeys(text)|)
            <==> !submitting && selected.Some? && !IsBlank(text)
    ensures !ButtonDisabled(submitting, selected, |ParseKeys(text)|) ==> ParseKeys(text) != []
  {
    BlankIffNoKeys(text);
  }

  // ---------- submitting ----------

  /** `JSON.stringify({ product_variant_id, keys })` as the route reads it. */
  function SubmitBody(variantId: string, keys: seq<string>): (b: PostBody)
    ensures b.variantId == Some(JStr(variantId)) && b.cost.None?
    ensures b.keys.Some? && b.keys.value.JArr? && |b.keys.value.items| == |keys|
    ensures forall i :: 0 <= i < |keys| ==> b.keys.value.items[i] == JStr(keys[i])
  {
    PostBody(Some(JStr(variantId)), Some(JArr(Map(keys, k => JStr(k)))), None)
  }

  /** The route accepts the form's body exactly when the variant id is non-empty. */
  lemma SubmitBodyAccepted(variantId: string, keys: seq<string>)
    ensures PostRejection(SubmitBody(variantId, keys)).None? <==> variantId != []
  {
  }

  /**
   * When the route answers 201, the table gained one unused row of the variant per key, in key
   * order, with nothing else changed.
   */
  lemma ImportAddsTheKeys(rows: seq<Row>, variantId: string, keys: seq<string>,
                          authUserId: Option<string>, userId: Option<string>, render: Json -> string,
                          millis: nat -> nat, random: nat -> string, clock: nat -> Stamp)
    ensures var o := PostResult(rows, SubmitBody(variantId, keys), authUserId, userId, render, millis,
                                random, clock);
      o.reply.status == 201 ==>
        o.rows == rows + o.reply.keys && |o.reply.keys| == |keys|
        && forall i :: 0 <= i < |keys| ==>
             o.reply.keys[i].key == keys[i] && o.reply.keys[i].variantId == variantId
             && !o.reply.keys[i].isUsed && o.reply.keys[i].orderId.None?
  {
    var body := SubmitBody(variantId, keys);
    if PostRejection(body).None? {
      var items := KeysArray(body.keys.value);
      var createdBy := CreatedByOf(authUserId, userId);
      var news := PostRows(variantId, items, None, createdBy, render, millis, random, clock);
      forall i | 0 <= i < |keys|
        ensures news[i].key == keys[i] && news[i].variantId == variantId
                && !news[i].isUsed && news[i].orderId.None?
      {
        PostRowsAreTheKeys(variantId, items, None, createdBy, render, millis, random, clock, i);
      }
    }
  }

  /**
   * The form after posting its keys: the table is the route's outcome; a 2xx reply shows the
   * success toast and clears the form, any other reply shows its message and keeps the form.
   */
  ghost predicate Sent(rows: seq<Row>, rows': seq<Row>, selected: Option<string>, text: string,
                       keys: seq<string>, selected': Option<string>, text': string, submitting': bool,
                       toast: Toast,
                       authUserId: Option<string>, userId: Option<string>, render: Json -> string,
                       millis: nat -> nat, random: nat -> string, clock: nat -> Stamp)
    requires selected.Some?
  {
    var o := PostResult(rows, SubmitBody(selected.value, keys), authUserId, userId, render, millis,
                        random, clock);
    rows' == o.rows && !submitting'
    && (Ok(o.reply.status) ==>
          toast == SuccessToast("Successfully imported " + KeysPhrase(|keys|, "activation key"))
          && selected'.None? && text' == [])
    && (!Ok(o.reply.status) ==>
          toast == ErrorToast(ErrorText(o.reply.message, "Failed to import activation keys")) && selected' == selected && text' == text)
  }

  class ImportForm {
    /** The id of the selected variant (the only part of it the form submits). */
    var selectedVariant: Option<string>
    var keysText: string
    var submitting: bool

    constructor()
      ensures selectedVariant.None? && keysText == [] && !submitting
    {
      selectedVariant := None;
      keysText := [];
      submitting := false;
    }

    method SelectVariant(v: Option<string>)
      modifies this
      ensures selectedVariant == v && keysText == old(keysText) && submitting == old(submitting)
    {
      selectedVariant := v;
    }

    method SetKeysText(t: string)
      modifies this
      ensures keysText == t && selectedVariant == old(selectedVariant) && submitting == old(submitting)
    {
      keysText := t;
    }

    /** The keys the preview and the button count. */
    function PreviewKeys(): seq<string>
      reads this
    {
      ParseKeys(keysText)
    }

    /**
     * `handleSubmit`: refuses a missing variant, a blank text and a text without keys (which
     * `BlankIffNoKeys` shows is the blank case again); otherwise posts the parsed keys,
     * shows the route's outcome, clears the form on success, and always ends not submitting.
     */
    method Submit(store: KeyStore, authUserId: Option<string>, userId: Option<string>,
                  render: Json -> string, millis: nat -> nat, random: nat -> string, clock: nat -> Stamp)
      returns (toast: Toast)
      requires store.Valid()
      modifies this, store
      ensures store.Valid()
      ensures old(selectedVariant).None? ==>
        toast == ErrorToast("Please select a product variant")
        && store.rows == old(store.rows) && keysText == old(keysText) && selectedVariant.None?
        && submitting == old(submitting)
      ensures old(selectedVariant).Some? && IsBlank(old(keysText)) ==>
        toast == ErrorToast("Please enter activation keys")
        && store.rows == old(store.rows) && keysText == old(keysText)
        && selectedVariant == old(selectedVariant) && submitting == old(submitting)
      ensures old(selectedVariant).Some? && !IsBlank(old(keysText)) && ParseKeys(old(keysText)) == [] ==>
        toast == ErrorToast("No valid activation keys found")
        && store.rows == old(store.rows) && keysText == old(keysText)
        && selectedVariant == old(selectedVariant) && submitting == old(submitting)
      ensures old(selectedVariant).Some? && !IsBlank(old(keysText)) && ParseKeys(old(keysText)) != [] ==>
        Sent(old(store.rows), store.rows, old(selectedVariant), old(keysText), ParseKeys(old(keysText)),
             selectedVariant, keysText, submitting, toast, authUserId, userId, render, millis, random, clock)
    {
      if selectedVariant.None? {
        return ErrorToast("Please select a product variant");
      }
      if IsBlank(keysText) {
        return ErrorToast("Please enter activation keys");
      }
      var keys := ParseKeys(keysText);
      if keys == [] {
        return ErrorToast("No valid activation keys found");
      }
      toast := Send(store, selectedVariant.value, keys, authUserId, userId, render, millis, random, clock);
    }

    /** The `try` block: posts the keys and reports the reply; ends not submitting. */
    method Send(store: KeyStore, variantId: string, keys: seq<string>, authUserId: Option<string>,
                userId: Option<string>, render: Json -> string, millis: nat -> nat,
                random: nat -> string, clock: nat -> Stamp)
      returns (toast: Toast)
      requires store.Valid() && selectedVariant == Some(variantId)
      modifies this, store
      ensures store.Valid()
      ensures Sent(old(store.rows), store.rows, old(selectedVariant), old(keysText), keys,
                   selectedVariant, keysText, submitting, toast, authUserId, userId, render, millis, random, clock)
    {
      submitting := true;
      ghost var o := PostResult(store.rows, SubmitBody(variantId, keys), authUserId, userId, render,
                                millis, random, clock);
      var reply := Post(store, SubmitBody(variantId, keys), authUserId, userId, render,
                        millis, random, clock);
      assert store.rows == o.rows && reply == o.reply;
      if Ok(reply.status) {
        toast := SuccessToast("Successfully imported " + KeysPhrase(|keys|, "activation key"));
        selectedVariant := None;
        keysText := [];
      } else {
        toast := ErrorToast(ErrorText(reply.message, "Failed to import activation keys"));
      }
      submitting := false;
    }
  }
}
