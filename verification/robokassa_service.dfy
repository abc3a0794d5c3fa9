/**
 * The Robokassa payment provider: its configuration read from the environment, the `OutSum`
 * rendering of a kopeck amount, the MD5 signature over `login:OutSum:InvId:password1`, the
 * redirect URL to the payment form, and the five provider operations that only report a
 * status. MD5, the `URLSearchParams` form encoding and the random invoice number are
 * parameters.
 */
module RobokassaService {
  import opened Wrappers
  import opened Text
  import Seqs

  const TestUrl := "https://auth.robokassa.ru/Merchant/Index.aspx"
  const LiveUrl := "https://merchant.roboxchange.com/Index.aspx"

  datatype Config = Config(login: string, password1: string, password2: string,
                           testMode: bool, baseUrl: string)

  /** The constructor: each credential is `process.env.X || ""`; test mode needs exactly "true". */
  function ConfigFrom(login: Option<string>, password1: Option<string>,
                      password2: Option<string>, testMode: Option<string>): Config
  {
    var test := testMode == Some("true");
    Config(OrText(login, ""), OrText(password1, ""), OrText(password2, ""), test,
           if test then TestUrl else LiveUrl)
  }

  /** The payment form is the test endpoint exactly when the variable reads "true". */
  lemma TestUrlIffTrue(login: Option<string>, password1: Option<string>,
                       password2: Option<string>, testMode: Option<string>)
    ensures ConfigFrom(login, password1, password2, testMode).baseUrl == TestUrl
            <==> testMode == Some("true")
    ensures ConfigFrom(login, password1, password2, testMode).baseUrl == LiveUrl
            <==> testMode != Some("true")
    ensures login.None? ==> ConfigFrom(login, password1, password2, testMode).login == []
  {
    assert TestUrl[8] != LiveUrl[8];
  }

  /* ---------- OutSum ---------- */

  /** The digits of a non-negative kopeck amount: rubles in decimal, ".", two kopeck digits. */
  function Rubles(m: nat): (s: string)
    ensures |s| >= 4 && s[|s| - 3] == '.'
    ensures s[..|s| - 3] == NatToString(m / 100) && s[|s| - 2..] == Pad2(m % 100)
  {
    var s := NatToString(m / 100) + "." + Pad2(m % 100);
    assert s[..|s| - 3] == NatToString(m / 100);
    assert s[|s| - 2..] == Pad2(m % 100);
    s
  }

  /**
   * `(amount / 100).toFixed(2)` for a whole number of kopecks: an optional "-", the rubles in
   * decimal, ".", and the kopecks as exactly two digits.
   */
  function OutSum(amount: int): (s: string)
    ensures |s| >= 4 && (s[0] == '-' <==> amount < 0)
  {
    if amount < 0 then "-" + Rubles(-amount)
    else
      var r := Rubles(amount);
      assert r[0] == r[..|r| - 3][0] && IsDigitIn(r[0], 10);
      r
  }

  /** Reads the unsigned part of an `OutSum` back into kopecks. */
  function ParseRubles(s: string): (r: Option<nat>)
  {
    if |s| >= 4 && s[|s| - 3] == '.' && AllDigitsIn(s[..|s| - 3], 10)
       && AllDigitsIn(s[|s| - 2..], 10)
    then Some(RunValue(s[..|s| - 3], 10) * 100 + RunValue(s[|s| - 2..], 10))
    else None
  }

  /** Reads an amount in the `OutSum` layout back into kopecks. */
  function ParseOutSum(s: string): (r: Option<int>)
  {
    if |s| > 0 && s[0] == '-' then
      var v := ParseRubles(s[1..]);
      if v.Some? then Some(0 - v.value as int) else None
    else
      var v := ParseRubles(s);
      if v.Some? then Some(v.value as int) else None
  }

  lemma {:induction false} RublesRoundTrip(m: nat)
    ensures ParseRubles(Rubles(m)) == Some(m)
  {
    NatToStringValue(m / 100);
    var s := Rubles(m);
    assert RunValue(s[..|s| - 3], 10) == m / 100;
    assert RunValue(s[|s| - 2..], 10) == m % 100;
  }

  /** `OutSum` loses nothing: the kopeck amount can be read back from it. */
  lemma {:induction false} OutSumRoundTrip(amount: int)
    ensures ParseOutSum(OutSum(amount)) == Some(amount)
  {
    var s := OutSum(amount);
    if amount < 0 {
      RublesRoundTrip(-amount);
      assert s == "-" + Rubles(-amount);
      assert s[1..] == Rubles(-amount);
      assert ParseRubles(s[1..]) == Some(-amount);
    } else {
      RublesRoundTrip(amount);
      assert s == Rubles(amount) && s[0] != '-';
      assert ParseRubles(s) == Some(amount);
    }
  }

  /** A whole number of rubles is shown with ".00". */
  lemma OutSumWholeRubles(rubles: nat)
    ensures OutSum(100 * rubles) == NatToString(rubles) + ".00"
  {
    var m := 100 * rubles;
    assert m / 100 == rubles && m % 100 == 0;
    assert Pad2(0) == "00";
  }

  /** Two different amounts never share an `OutSum`. */
  lemma OutSumInjective(a: int, b: int)
    requires OutSum(a) == OutSum(b)
    ensures a == b
  {
    OutSumRoundTrip(a);
    OutSumRoundTrip(b);
  }

  /* ---------- signature ---------- */

  /** `getSignature`: the MD5 hex digest of the parameters joined with ":". */
  function Signature(md5: string -> string, params: seq<string>): (r: string)
    ensures params == [] ==> r == md5([])
    ensures |params| == 1 ==> r == md5(params[0])
  {
    md5(Join(params, ":"))
  }

  /** The parameters `initiatePayment` signs, in the order it lists them. */
  function SignatureFields(c: Config, outSum: string, invId: nat): seq<string> {
    [c.login, outSum, NatToString(invId), c.password1]
  }

  lemma NoColonInDigits(s: string)
    requires AllDigitsIn(s, 10)
    ensures ':' !in s
  {
    forall i | 0 <= i < |s|
      ensures s[i] != ':'
    {
      assert IsDigitIn(s[i], 10);
    }
  }

  lemma NoColonInOutSum(amount: int)
    ensures ':' !in OutSum(amount)
  {
    var m := if amount < 0 then -amount else amount;
    var r := Rubles(m);
    NoColonInDigits(r[..|r| - 3]);
    NoColonInDigits(r[|r| - 2..]);
    assert r == r[..|r| - 3] + "." + r[|r| - 2..];
    assert OutSum(amount) == (if amount < 0 then "-" else "") + r;
  }

  lemma JoinFour(a: string, b: string, c: string, d: string, sep: string)
    ensures Join([a, b, c, d], sep) == a + sep + b + sep + c + sep + d
  {
    var f := [a, b, c, d];
    assert f[1..][1..][1..] == [d];
    assert f[1..][1..] == [c, d];
    assert f[1..] == [b, c, d];
    assert Join([c, d], sep) == c + sep + d;
    assert Join([b, c, d], sep) == b + sep + (c + sep + d);
    assert Join(f, sep) == a + sep + (b + sep + (c + sep + d));
  }

  /**
   * The signed text is `login:OutSum:InvId:password1`; when the credentials hold no ":", the
   * four fields can be split back out of it in that order.
   */
  lemma SignedTextOrder(c: Config, amount: int, invId: nat)
    ensures Join(SignatureFields(c, OutSum(amount), invId), ":")
            == c.login + ":" + OutSum(amount) + ":" + NatToString(invId) + ":" + c.password1
    ensures ':' !in c.login && ':' !in c.password1 ==>
            Split(Join(SignatureFields(c, OutSum(amount), invId), ":"), ':')
            == [c.login, OutSum(amount), NatToString(invId), c.password1]
  {
    var f := SignatureFields(c, OutSum(amount), invId);
    JoinFour(c.login, OutSum(amount), NatToString(invId), c.password1, ":");
    if ':' !in c.login && ':' !in c.password1 {
      NoColonInOutSum(amount);
      NoColonInDigits(NatToString(invId));
      SplitJoin(f, ':');
    }
  }

  /* ---------- redirect URL ---------- */

  /** The seven query parameters of the payment form, in insertion order. */
  function FormParams(c: Config, outSum: string, invId: nat, signature: string)
    : seq<(string, string)>
  {
    [("MrchLogin", c.login), ("OutSum", outSum), ("InvId", NatToString(invId)),
     ("Description", "Order Payment"), ("SignatureValue", signature),
     ("Culture", "ru"), ("Encoding", "utf-8")]
  }

  /** `name=value` with both sides form-encoded. */
  function Entry(encode: string -> string, p: (string, string)): string {
    encode(p.0) + "=" + encode(p.1)
  }

  /** `URLSearchParams.toString()`: the encoded entries joined with "&". */
  function QueryString(encode: string -> string, params: seq<(string, string)>): (q: string)
    ensures params == [] ==> q == []
  {
    Join(Seqs.Map(params, p => Entry(encode, p)), "&")
  }

  /** What `initiatePayment` returns: the payment id and the form URL. */
  datatype Payment = Payment(id: string, redirectUrl: string)

  /**
   * `initiatePayment` for an amount in kopecks and the invoice number drawn for it
   * (`Math.floor(Math.random() * 1000000)` in the service).
   */
  function InitiatePayment(c: Config, md5: string -> string, encode: string -> string,
                           amount: int, invId: nat): Payment
  {
    var outSum := OutSum(amount);
    var signature := Signature(md5, SignatureFields(c, outSum, invId));
    Payment(NatToString(invId), c.baseUrl + "?" + QueryString(encode, FormParams(c, outSum, invId, signature)))
  }

  /** Given an encoding that never produces "&", the query string splits into its entries. */
  lemma QuerySplits(encode: string -> string, params: seq<(string, string)>)
    requires |params| >= 1
    requires forall s :: '&' !in encode(s)
    ensures Split(QueryString(encode, params), '&') == Seqs.Map(params, p => Entry(encode, p))
  {
    var entries := Seqs.Map(params, p => Entry(encode, p));
    forall i | 0 <= i < |entries|
      ensures '&' !in entries[i]
    {
      assert entries[i] == encode(params[i].0) + "=" + encode(params[i].1);
    }
    SplitJoin(entries, '&');
  }

  /**
   * The redirect URL is the base URL, "?", and the seven form entries separated by "&" (given
   * an encoding that never produces "&"); the InvId entry carries the returned id and the
   * SignatureValue entry the digest of `login:OutSum:InvId:password1`.
   */
  lemma RedirectUrlLayout(c: Config, md5: string -> string, encode: string -> string,
                          amount: int, invId: nat)
    requires forall s :: '&' !in encode(s)
    ensures var p := InitiatePayment(c, md5, encode, amount, invId);
            var signature := md5(c.login + ":" + OutSum(amount) + ":" + p.id + ":" + c.password1);
            var params := FormParams(c, OutSum(amount), invId, signature);
            StartsWith(p.redirectUrl, c.baseUrl + "?") &&
            Split(p.redirectUrl[|c.baseUrl| + 1..], '&') == Seqs.Map(params, q => Entry(encode, q)) &&
            params[2] == ("InvId", p.id) && params[4] == ("SignatureValue", signature)
  {
    var outSum := OutSum(amount);
    SignedTextOrder(c, amount, invId);
    var signature := Signature(md5, SignatureFields(c, outSum, invId));
    var params := FormParams(c, outSum, invId, signature);
    QuerySplits(encode, params);
    var url := InitiatePayment(c, md5, encode, amount, invId).redirectUrl;
    assert url == (c.baseUrl + "?") + QueryString(encode, params);
    assert url[|c.baseUrl| + 1..] == QueryString(encode, params);
  }

  /** The payment id is the invoice number's decimal text, and it reads back as that number. */
  lemma PaymentIdIsInvId(c: Config, md5: string -> string, encode: string -> string,
                         amount: int, invId: nat)
    ensures var id := InitiatePayment(c, md5, encode, amount, invId).id;
            AllDigitsIn(id, 10) && RunValue(id, 10) == invId
  {
    NatToStringValue(invId);
  }

  /* ---------- status-only operations ---------- */

  datatype Operation = Retrieve | Authorize | Capture | Refund(amount: int) | Cancel

  /** What the provider answers: the data it was given and a status. */
  datatype StatusReply<D> = StatusReply(data: D, status: string)

  function StatusOf(op: Operation): string {
    match op
    case Retrieve => "succeeded"
    case Authorize => "authorized"
    case Capture => "captured"
    case Refund(_) => "refunded"
    case Cancel => "canceled"
  }

  /** `retrievePayment`, `authorizePayment`, `capturePayment`, `refundPayment`, `cancelPayment`. */
  function Handle<D>(op: Operation, data: D): (r: StatusReply<D>)
    ensures r.data == data
  {
    StatusReply(data, StatusOf(op))
  }

  /**
   * The status names the operation: two calls report the same status exactly when they are the
   * same operation (refunds of any amount alike), and the data passes through untouched.
   */
  lemma StatusNamesTheOperation<D>(op1: Operation, op2: Operation, d1: D, d2: D)
    ensures Handle(op1, d1).status == Handle(op2, d2).status
            <==> op1 == op2 || (op1.Refund? && op2.Refund?)
    ensures Handle(op1, d1).data == d1
  {
    var s1 := StatusOf(op1);
    var s2 := StatusOf(op2);
    if s1 == s2 {
      assert s1[0] == s2[0] && |s1| == |s2|;
      if s1[0] == 'c' {
        assert s1[2] == s2[2];
      }
    }
  }
}
