/**
 * The storefront payment route (`POST /store/robokassa`): it checks the request body, hands the
 * amount, currency code, description and e-mail to the Robokassa service, and answers with the
 * redirect URL or an error message. The service call is a parameter so that every outcome it
 * could have is covered; `ServiceAlwaysRedirects` plugs in the service as modelled.
 */
module StorePaymentRoute {
  import opened Wrappers
  import opened Json
  import opened Text
  import S = RobokassaService

  /** The body fields the handler destructures; a missing body (`req.body || {}`) has none. */
  datatype PaymentBody = PaymentBody(amount: Option<Json>, currencyCode: Option<Json>,
                                     description: Option<Json>, email: Option<Json>)

  /** The context object given to `initiatePayment`. */
  datatype PaymentContext = PaymentContext(amount: int, currencyCode: string,
                                           description: string, email: string)

  /** How the `initiatePayment` call ended: `payment?.data?.redirectUrl`, or a thrown error. */
  datatype Initiated = Returned(redirectUrl: Option<string>) | Raised(message: Option<string>)

  datatype RouteReply = RouteReply(status: nat, body: Json)

  const InvalidBody :=
    "Invalid body. Expected { amount: number, currency_code: string, description: string, email: string }"

  function Message(m: string): Json {
    JObj([("message", JStr(m))])
  }

  /**
   * The validator: `amount` must be a number and the three other fields non-empty strings;
   * exactly those four values go into the context.
   */
  function Validated(body: PaymentBody): (r: Option<PaymentContext>)
    ensures r.Some? <==> body.amount.Some? && body.amount.value.JNum?
                         && NonEmptyString(body.currencyCode).Some?
                         && NonEmptyString(body.description).Some?
                         && NonEmptyString(body.email).Some?
    ensures r.Some? ==>
              body == PaymentBody(Some(JNum(r.value.amount)), Some(JStr(r.value.currencyCode)),
                                  Some(JStr(r.value.description)), Some(JStr(r.value.email)))
              && r.value.currencyCode != [] && r.value.description != [] && r.value.email != []
  {
    var currency := NonEmptyString(body.currencyCode);
    var description := NonEmptyString(body.description);
    var email := NonEmptyString(body.email);
    if body.amount.Some? && body.amount.value.JNum? && currency.Some? && description.Some?
       && email.Some?
    then Some(PaymentContext(body.amount.value.n, currency.value, description.value, email.value))
    else None
  }

  /** The handler, given what the service call does with a context. */
  function Post(body: PaymentBody, initiate: PaymentContext -> Initiated): (r: RouteReply)
    ensures Validated(body).None? <==> r == RouteReply(400, Message(InvalidBody))
    ensures r.status == 200 <==>
              Validated(body).Some? && initiate(Validated(body).value).Returned?
              && initiate(Validated(body).value).redirectUrl.Some?
              && initiate(Validated(body).value).redirectUrl.value != []
    ensures r.status == 200 ==>
              r.body == JObj([("redirectUrl", JStr(initiate(Validated(body).value).redirectUrl.value))])
  {
    var context := Validated(body);
    if context.None? then RouteReply(400, Message(InvalidBody))
    else
      match initiate(context.value)
      case Raised(message) => RouteReply(500, Message(OrText(message, "Internal Server Error")))
      case Returned(url) =>
        if url.None? || url.value == [] then RouteReply(500, Message("Failed to obtain redirectUrl"))
        else RouteReply(200, JObj([("redirectUrl", JStr(url.value))]))
  }

  /** A valid body whose service call fails: which 500 message the client sees. */
  lemma FailuresAre500(body: PaymentBody, initiate: PaymentContext -> Initiated)
    requires Validated(body).Some?
    ensures var outcome := initiate(Validated(body).value);
            (outcome.Raised? ==>
               Post(body, initiate) == RouteReply(500, Message(OrText(outcome.message, "Internal Server Error"))))
            && (outcome.Returned? && (outcome.redirectUrl.None? || outcome.redirectUrl.value == []) ==>
               Post(body, initiate) == RouteReply(500, Message("Failed to obtain redirectUrl")))
  {
  }

  /** A numeric amount sent as a string is refused, whatever the other fields hold. */
  lemma AmountMustBeANumber(text: string, body: PaymentBody)
    requires body.amount == Some(JStr(text))
    ensures Post(body, _ => Returned(None)) == RouteReply(400, Message(InvalidBody))
  {
  }

  /**
   * With the service as modelled, `initiatePayment` always yields a non-empty redirect URL, so a
   * valid body is answered with status 200 and the URL the service built for its amount; the
   * two 500 branches are never taken.
   */
  lemma ServiceAlwaysRedirects(body: PaymentBody, c: S.Config, md5: string -> string,
                               encode: string -> string, invId: nat)
    requires Validated(body).Some?
    ensures var service := (ctx: PaymentContext) =>
                              Returned(Some(S.InitiatePayment(c, md5, encode, ctx.amount, invId).redirectUrl));
            Post(body, service)
            == RouteReply(200, JObj([("redirectUrl", JStr(
                 S.InitiatePayment(c, md5, encode, body.amount.value.n, invId).redirectUrl))]))
  {
    var url := S.InitiatePayment(c, md5, encode, body.amount.value.n, invId).redirectUrl;
    assert url[|c.baseUrl|] == '?';
  }
}
