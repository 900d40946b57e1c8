/**
 * The Wave webhook: a completed checkout session marks its payment
 * completed, whatever its status was, and activates the payer's plan.
 */
module WaveWebhook {
  import opened Wrappers
  import opened Strings
  import opened Records

  /** The session object of an event; `raw` is its whole JSON, stored on the payment. */
  datatype SessionData = SessionData(id: Option<string>, clientReference: Option<string>, raw: string)

  /** A webhook delivery's `type` and `data`. */
  datatype WebhookEvent = WebhookEvent(eventType: Option<string>, data: Option<SessionData>)

  const SessionCompleted := "checkout.session.completed"

  /** The payment an event completes: its `client_reference`, for completed-session events only. */
  function Target(e: WebhookEvent): (r: Option<string>)
    ensures r.Some? <==> e.eventType == Some(SessionCompleted) && e.data.Some? && Truthy(e.data.value.clientReference)
    ensures r.Some? ==> r == e.data.value.clientReference && r.value != ""
  {
    if e.eventType == Some(SessionCompleted) && e.data.Some? && Truthy(e.data.value.clientReference)
    then e.data.value.clientReference
    else None
  }

  /**
   * A payment row after the completing update: completed, with the session
   * id (kept as it was when the event carries none) and the session data.
   */
  function Complete(p: Payment, d: SessionData): (r: Payment)
    ensures r.status == Completed && r.providerData == Some(d.raw)
    ensures r.transactionId == (if d.id.Some? then d.id else p.transactionId)
    ensures r.userId == p.userId && r.plan == p.plan && r.amount == p.amount && r.paymentMethod == p.paymentMethod
  {
    p.(status := Completed, transactionId := if d.id.Some? then d.id else p.transactionId, providerData := Some(d.raw))
  }

  /**
   * The webhook's effect on the ledger. Only the payment keyed by the
   * event's client reference, and only its payer's profile, change; an
   * event whose reference matches no payment, or of another type, changes
   * nothing.
   */
  function WebhookEffect(l: Ledger, e: WebhookEvent): (r: Ledger)
    ensures Target(e).None? || Target(e).value !in l.payments ==> r == l
    ensures r.payments.Keys == l.payments.Keys && r.profiles.Keys == l.profiles.Keys
    ensures Target(e).Some? && Target(e).value in l.payments ==>
      var id := Target(e).value;
      var p := l.payments[id];
      && r.payments[id] == Complete(p, e.data.value)
      && (forall k :: k in l.payments && k != id ==> r.payments[k] == l.payments[k])
      && r.profiles == ActivatePlan(l.profiles, p.userId, p.plan)
  {
    var target := Target(e);
    if target.Some? && target.value in l.payments then
      var p := l.payments[target.value];
      Ledger(l.payments[target.value := Complete(p, e.data.value)], ActivatePlan(l.profiles, p.userId, p.plan))
    else l
  }

  /**
   * The handler. `body` is the request body as read by `req.json()`; a body
   * that cannot be read, or is not an object, makes the handler throw.
   * Every other delivery is answered 200 `{received: true}`.
   */
  method HandleWebhook(db: Store, body: Parse<WebhookEvent>) returns (status: int)
    modifies db`payments, db`profiles
    ensures body.ParseError? ==> status == 500 && db.payments == old(db.payments) && db.profiles == old(db.profiles)
    ensures body.Parsed? ==> status == 200
    ensures body.Parsed? ==> Ledger(db.payments, db.profiles) == WebhookEffect(old(Ledger(db.payments, db.profiles)), body.value)
  {
    if body.ParseError? {
      return 500;
    }
    var e := body.value;
    if e.eventType == Some(SessionCompleted) {
      var clientRef := if e.data.Some? then e.data.value.clientReference else None;
      if Truthy(clientRef) {
        var paymentId := clientRef.value;
        // `.update(...).eq("id", paymentId).select().single()` yields the updated row, if any
        if paymentId in db.payments {
          var payment := Complete(db.payments[paymentId], e.data.value);
          db.payments := db.payments[paymentId := payment];
          db.profiles := ActivatePlan(db.profiles, payment.userId, payment.plan);
        }
      }
    }
    return 200;
  }
}
