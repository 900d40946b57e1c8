/**
 * The checkout edge function: an early-return validation chain, then a
 * pending payment row, then one call to the Wave provider whose answer
 * marks that row failed or records the provider's session on it.
 */
module WaveCheckout {
  import opened Wrappers
  import opened Strings
  import opened Records

  /** The JSON body the caller posts; `amount` is a JSON number. */
  datatype CheckoutBody = CheckoutBody(amount: Option<int>, plan: Option<string>, successUrl: Option<string>, errorUrl: Option<string>)

  /**
   * What the handler sees of one request: the configured provider key, the
   * Authorization header, the user its bearer token resolves to (none when
   * the lookup fails), and the body as read by `req.json()`.
   */
  datatype CheckoutRequest = CheckoutRequest(
    apiKey: Option<string>,
    authorization: Option<string>,
    caller: Option<string>,
    body: Parse<CheckoutBody>)

  /** The fields of the provider's checkout session used here; `raw` is its whole JSON. */
  datatype WaveSession = WaveSession(id: Option<string>, launchUrl: Option<string>, checkoutStatus: Option<string>, raw: string)

  /** How the provider call ended. */
  datatype ProviderReply =
    | ProviderThrew(message: string)               // `fetch` threw, or an OK reply was not JSON
    | ProviderRejected(status: int, text: string)  // a non-2xx reply and its text
    | ProviderAccepted(session: WaveSession)

  /** The checkout-session request sent to the provider. */
  datatype WaveRequest = WaveRequest(amount: string, currency: string, errorUrl: string, successUrl: string, clientReference: string)

  /** The handler's reply. */
  datatype CheckoutReply =
    | Demo                                 // 200 with `demo: true`
    | Refused(status: int, error: string)  // an `{error}` reply with that status
    | ProviderError(details: string)       // 500 "Erreur Wave API" with the provider's text
    | SessionOpened(paymentId: string, launchUrl: Option<string>, checkoutStatus: Option<string>, sessionId: Option<string>)

  function StatusOf(r: CheckoutReply): int
  {
    match r
    case Demo => 200
    case Refused(status, _) => status
    case ProviderError(_) => 500
    case SessionOpened(_, _, _, _) => 200
  }

  /** `!amount` on a JSON number: missing or zero. */
  predicate AmountGiven(amount: Option<int>)
  {
    amount.Some? && amount.value != 0
  }

  /** The request gets past every check before the payment insert. */
  predicate Admitted(req: CheckoutRequest)
  {
    Truthy(req.apiKey) && Truthy(req.authorization) && req.caller.Some? && req.body.Parsed?
    && AmountGiven(req.body.value.amount) && Truthy(req.body.value.plan)
  }

  /**
   * The validation chain: the early reply of a request that stops before
   * the payment insert, or nothing for an admitted one.
   */
  function Screen(req: CheckoutRequest): (r: Option<CheckoutReply>)
    ensures r.None? <==> Admitted(req)
    ensures !Truthy(req.apiKey) ==> r == Some(Demo)
    ensures r.Some? && r.value.Demo? ==> !Truthy(req.apiKey)
    ensures Truthy(req.apiKey) && (!Truthy(req.authorization) || req.caller.None?) ==> r.Some? && StatusOf(r.value) == 401
    ensures Truthy(req.apiKey) && Truthy(req.authorization) && req.caller.Some? && req.body.Parsed?
            && !(AmountGiven(req.body.value.amount) && Truthy(req.body.value.plan))
            ==> r == Some(Refused(400, "Montant et plan requis"))
    ensures Truthy(req.apiKey) && Truthy(req.authorization) && req.caller.Some? && req.body.ParseError?
            ==> r == Some(Refused(500, req.body.message))
  {
    if !Truthy(req.apiKey) then Some(Demo)
    else if !Truthy(req.authorization) then Some(Refused(401, "Non authentifié"))
    else if req.caller.None? then Some(Refused(401, "Utilisateur non trouvé"))
    else if req.body.ParseError? then Some(Refused(500, req.body.message))
    else if !AmountGiven(req.body.value.amount) || !Truthy(req.body.value.plan) then Some(Refused(400, "Montant et plan requis"))
    else None
  }

  /** The row inserted for an admitted request. */
  function NewPayment(caller: string, b: CheckoutBody): (r: Payment)
    requires AmountGiven(b.amount) && Truthy(b.plan)
    ensures r.userId == caller && r.amount == b.amount.value && r.plan == b.plan.value
    ensures r.status == Pending && r.paymentMethod == Some("wave")
    ensures r.transactionId.None? && r.providerData.None?
  {
    Payment(caller, b.amount.value, b.plan.value, Some("wave"), Pending, None, None)
  }

  /** `other?.split("/payment")[0]` as interpolated text: "undefined" when `other` is missing. */
  function CallbackPrefix(other: Option<string>): string
  {
    if other.Some? then Before(other.value, "/payment") else "undefined"
  }

  /** The `error_url` sent: the caller's own, or one built beside its success URL. */
  function ErrorUrl(b: CheckoutBody, paymentId: string): (r: string)
    ensures Truthy(b.errorUrl) ==> r == b.errorUrl.value
    ensures !Truthy(b.errorUrl) ==> EndsWith(r, "/payment/error?payment_id=" + paymentId)
  {
    if Truthy(b.errorUrl) then b.errorUrl.value
    else
      var r := CallbackPrefix(b.successUrl) + "/payment/error?payment_id=" + paymentId;
      assert r[|r| - |"/payment/error?payment_id=" + paymentId|..] == "/payment/error?payment_id=" + paymentId;
      r
  }

  /** The `success_url` sent: the caller's own, or one built beside its error URL. */
  function SuccessUrl(b: CheckoutBody, paymentId: string): (r: string)
    ensures Truthy(b.successUrl) ==> r == b.successUrl.value
    ensures !Truthy(b.successUrl) ==> EndsWith(r, "/payment/success?payment_id=" + paymentId)
  {
    if Truthy(b.successUrl) then b.successUrl.value
    else
      var r := CallbackPrefix(b.errorUrl) + "/payment/success?payment_id=" + paymentId;
      assert r[|r| - |"/payment/success?payment_id=" + paymentId|..] == "/payment/success?payment_id=" + paymentId;
      r
  }

  /**
   * A derived `error_url` keeps the success URL's part before its first
   * "/payment".
   */
  lemma DerivedErrorUrl(b: CheckoutBody, base: string, rest: string, paymentId: string)
    requires !Truthy(b.errorUrl) && b.successUrl == Some(base + "/payment" + rest)
    requires forall k: nat :: k < |base| ==> !OccursAt(base + "/payment" + rest, "/payment", k)
    ensures ErrorUrl(b, paymentId) == base + "/payment/error?payment_id=" + paymentId
  {
    BeforeFirstSeparator(base, "/payment", rest);
  }

  /** A derived `success_url` keeps the error URL's part before its first "/payment". */
  lemma DerivedSuccessUrl(b: CheckoutBody, base: string, rest: string, paymentId: string)
    requires !Truthy(b.successUrl) && b.errorUrl == Some(base + "/payment" + rest)
    requires forall k: nat :: k < |base| ==> !OccursAt(base + "/payment" + rest, "/payment", k)
    ensures SuccessUrl(b, paymentId) == base + "/payment/success?payment_id=" + paymentId
  {
    BeforeFirstSeparator(base, "/payment", rest);
  }

  /** With neither URL given, both callbacks start with the text "undefined". */
  lemma NoUrlsGiven(b: CheckoutBody, paymentId: string)
    requires b.successUrl.None? && b.errorUrl.None?
    ensures ErrorUrl(b, paymentId) == "undefined" + "/payment/error?payment_id=" + paymentId
    ensures SuccessUrl(b, paymentId) == "undefined" + "/payment/success?payment_id=" + paymentId
  {
  }

  /** The checkout-session request for the new payment `paymentId`. */
  function SessionRequest(b: CheckoutBody, paymentId: string): (r: WaveRequest)
    requires AmountGiven(b.amount)
    ensures r.amount == IntText(b.amount.value) && r.currency == "XOF" && r.clientReference == paymentId
    ensures r.errorUrl == ErrorUrl(b, paymentId) && r.successUrl == SuccessUrl(b, paymentId)
  {
    WaveRequest(IntText(b.amount.value), "XOF", ErrorUrl(b, paymentId), SuccessUrl(b, paymentId), paymentId)
  }

  /**
   * The payment row after the provider's answer: failed when the provider
   * refused, carrying the session when it accepted, untouched when the call
   * threw. It is never marked completed here.
   */
  function AfterProvider(p: Payment, provider: ProviderReply): (r: Payment)
    ensures r.userId == p.userId && r.amount == p.amount && r.plan == p.plan && r.paymentMethod == p.paymentMethod
    ensures r.status == (if provider.ProviderRejected? then Failed else p.status)
    ensures provider.ProviderAccepted? ==> r.providerData == Some(provider.session.raw)
    ensures provider.ProviderAccepted? ==>
      r.transactionId == (if provider.session.id.Some? then provider.session.id else p.transactionId)
    ensures !provider.ProviderAccepted? ==> r.transactionId == p.transactionId && r.providerData == p.providerData
  {
    match provider
    case ProviderThrew(_) => p
    case ProviderRejected(_, _) => p.(status := Failed)
    case ProviderAccepted(s) =>
      // `transaction_id: undefined` is dropped from the update's JSON
      p.(transactionId := if s.id.Some? then s.id else p.transactionId, providerData := Some(s.raw))
  }

  /** The reply once the payment row exists. */
  function ReplyFor(paymentId: string, provider: ProviderReply): (r: CheckoutReply)
    ensures StatusOf(r) == 200 <==> provider.ProviderAccepted?
    ensures provider.ProviderAccepted? ==> r == SessionOpened(paymentId, provider.session.launchUrl, provider.session.checkoutStatus, provider.session.id)
    ensures provider.ProviderRejected? ==> r == ProviderError(provider.text)
  {
    match provider
    case ProviderThrew(m) => Refused(500, m)
    case ProviderRejected(_, text) => ProviderError(text)
    case ProviderAccepted(s) => SessionOpened(paymentId, s.launchUrl, s.checkoutStatus, s.id)
  }

  /** A checkout leaves its payment pending, or failed exactly when the provider refused. */
  lemma CheckoutNeverCompletes(caller: string, b: CheckoutBody, provider: ProviderReply)
    requires AmountGiven(b.amount) && Truthy(b.plan)
    ensures AfterProvider(NewPayment(caller, b), provider).status == (if provider.ProviderRejected? then Failed else Pending)
  {
  }

  /**
   * The handler. `insert` is the store's answer to the payment insert and
   * `provider` the provider's answer to the session request.
   */
  method Checkout(db: Store, req: CheckoutRequest, insert: InsertReply, provider: ProviderReply)
    returns (reply: CheckoutReply, sent: Option<WaveRequest>)
    requires insert.Inserted? ==> insert.id !in db.payments
    modifies db`payments
    ensures Screen(req).Some? ==> reply == Screen(req).value && sent.None? && db.payments == old(db.payments)
    ensures Screen(req).None? && insert.Rejected? ==>
      reply == Refused(500, insert.message) && sent.None? && db.payments == old(db.payments)
    ensures Screen(req).None? && insert.Inserted? ==>
      sent == Some(SessionRequest(req.body.value, insert.id))
      && db.payments == old(db.payments)[insert.id := AfterProvider(NewPayment(req.caller.value, req.body.value), provider)]
      && reply == ReplyFor(insert.id, provider)
  {
    var early := Screen(req);
    if early.Some? {
      return early.value, None;
    }
    var b := req.body.value;
    if insert.Rejected? {
      return Refused(500, insert.message), None;
    }
    var id := insert.id;
    db.payments := db.payments[id := NewPayment(req.caller.value, b)];
    sent := Some(SessionRequest(b, id));
    match provider {
      case ProviderThrew(message) =>
        reply := Refused(500, message);
      case ProviderRejected(_, text) =>
        db.payments := db.payments[id := db.payments[id].(status := Failed)];
        reply := ProviderError(text);
      case ProviderAccepted(s) =>
        var p := db.payments[id];
        db.payments := db.payments[id := p.(transactionId := if s.id.Some? then s.id else p.transactionId, providerData := Some(s.raw))];
        reply := SessionOpened(id, s.launchUrl, s.checkoutStatus, s.id);
    }
  }
}
