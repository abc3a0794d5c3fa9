/**
 * The Robokassa result callback (`POST /robokassa`): it recomputes the MD5 of
 * `OutSum:InvId:password2` from the posted form, compares it with `SignatureValue` ignoring
 * letter case, and answers "Invalid Signature" with status 400 or "OK" followed by the invoice
 * number. MD5 is a parameter.
 */
module RobokassaCallback {
  import opened Wrappers
  import opened Text
  import S = RobokassaService

  /** The posted form fields the handler reads; None is a field that was not sent. */
  datatype CallbackForm = CallbackForm(outSum: Option<string>, invId: Option<string>,
                                       signatureValue: Option<string>)

  /** A text reply with its status, or the TypeError of `undefined.toLowerCase()`. */
  datatype CallbackReply = Sent(status: nat, text: string) | Threw

  /** A field inside a template literal: a missing one prints as "undefined". */
  function Interpolated(v: Option<string>): (r: string)
    ensures v.Some? ==> r == v.value
  {
    if v.Some? then v.value else "undefined"
  }

  /** The digest the handler expects: MD5 of `OutSum:InvId:password2`. */
  function Expected(c: S.Config, md5: string -> string, form: CallbackForm): string {
    md5(Interpolated(form.outSum) + ":" + Interpolated(form.invId) + ":" + c.password2)
  }

  /** `a.toLowerCase() === b.toLowerCase()`. */
  predicate SameIgnoringCase(a: string, b: string) {
    Lower(a) == Lower(b)
  }

  /** The POST handler. */
  function Callback(c: S.Config, md5: string -> string, form: CallbackForm): (r: CallbackReply)
    ensures r.Threw? <==> form.signatureValue.None?
    ensures form.signatureValue.Some? ==>
              (SameIgnoringCase(Expected(c, md5, form), form.signatureValue.value)
               <==> r == Sent(200, "OK" + Interpolated(form.invId)))
    ensures form.signatureValue.Some? && !SameIgnoringCase(Expected(c, md5, form), form.signatureValue.value)
            ==> r == Sent(400, "Invalid Signature")
  {
    if form.signatureValue.None? then Threw
    else if !SameIgnoringCase(Expected(c, md5, form), form.signatureValue.value) then
      Sent(400, "Invalid Signature")
    else
      Sent(200, "OK" + Interpolated(form.invId))
  }

  lemma LowerIdempotent(s: string)
    ensures Lower(Lower(s)) == Lower(s)
  {
  }

  /** The expected digest is `getSignature` over OutSum, InvId and password2, in that order. */
  lemma ExpectedIsSignature(c: S.Config, md5: string -> string, form: CallbackForm)
    ensures Expected(c, md5, form)
            == S.Signature(md5, [Interpolated(form.outSum), Interpolated(form.invId), c.password2])
  {
    var a, b := Interpolated(form.outSum), Interpolated(form.invId);
    var f := [a, b, c.password2];
    assert f[1..][1..] == [c.password2];
    assert f[1..] == [b, c.password2];
    assert Join(f[1..], ":") == b + ":" + c.password2;
    assert a + ":" + b + ":" + c.password2 == a + ":" + (b + ":" + c.password2);
  }

  /**
   * Letter case of the posted signature does not matter: sending it upper-cased or lower-cased
   * gives the same reply.
   */
  lemma CaseOfSignatureIgnored(c: S.Config, md5: string -> string, form: CallbackForm, sig: string)
    requires form.signatureValue == Some(sig)
    ensures Callback(c, md5, form.(signatureValue := Some(Upper(sig)))) == Callback(c, md5, form)
    ensures Callback(c, md5, form.(signatureValue := Some(Lower(sig)))) == Callback(c, md5, form)
  {
    LowerOfUpper(sig);
    LowerIdempotent(sig);
    var up := form.(signatureValue := Some(Upper(sig)));
    var low := form.(signatureValue := Some(Lower(sig)));
    assert Expected(c, md5, up) == Expected(c, md5, form);
    assert Expected(c, md5, low) == Expected(c, md5, form);
  }

  /**
   * A notification signed with the shop's second password (in either case) is acknowledged
   * with "OK" and its invoice number; any signature whose lower-cased form differs from the
   * lower-cased digest is refused.
   */
  lemma GenuineNotificationAccepted(c: S.Config, md5: string -> string, outSum: string,
                                    invId: string, upper: bool)
    ensures var digest := md5(outSum + ":" + invId + ":" + c.password2);
            var form := CallbackForm(Some(outSum), Some(invId),
                                     Some(if upper then Upper(digest) else digest));
            Callback(c, md5, form) == Sent(200, "OK" + invId)
  {
    var digest := md5(outSum + ":" + invId + ":" + c.password2);
    LowerOfUpper(digest);
  }

  /** A refused notification gets no "OK" reply. */
  lemma RefusedGetsNoOk(c: S.Config, md5: string -> string, form: CallbackForm)
    requires form.signatureValue.Some?
    requires Lower(form.signatureValue.value) != Lower(Expected(c, md5, form))
    ensures Callback(c, md5, form).Sent? && Callback(c, md5, form).status == 400
    ensures !StartsWith(Callback(c, md5, form).text, "OK")
  {
    assert Callback(c, md5, form).text[..2] == "In";
  }
}
