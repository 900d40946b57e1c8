/**
 * The payment success page: it reads the payment named in the URL and,
 * when that payment is still pending and someone is signed in, completes
 * it and activates the plan on the signed-in user's profile.
 */
module PaymentSuccess {
  import opened Wrappers
  import opened Strings
  import opened Records

  /**
   * The page's effect on the ledger. Writes happen only for a pending
   * payment and a signed-in user: the payment becomes completed (nothing
   * else on it changes) and the plan goes to the signed-in user, who need
   * not be the payer.
   */
  function SuccessEffect(l: Ledger, paymentId: Option<string>, user: Option<string>): (r: Ledger)
    ensures r.payments.Keys == l.payments.Keys && r.profiles.Keys == l.profiles.Keys
    ensures !(Truthy(paymentId) && paymentId.value in l.payments && l.payments[paymentId.value].status == Pending && user.Some?) ==> r == l
    ensures Truthy(paymentId) && paymentId.value in l.payments && l.payments[paymentId.value].status == Pending && user.Some? ==>
      var id := paymentId.value;
      && r.payments[id] == l.payments[id].(status := Completed)
      && (forall k :: k in l.payments && k != id ==> r.payments[k] == l.payments[k])
      && r.profiles == ActivatePlan(l.profiles, user.value, l.payments[id].plan)
  {
    if Truthy(paymentId) && paymentId.value in l.payments && l.payments[paymentId.value].status == Pending && user.Some? then
      var id := paymentId.value;
      var p := l.payments[id];
      Ledger(l.payments[id := p.(status := Completed)], ActivatePlan(l.profiles, user.value, p.plan))
    else l
  }

  /** The plan named on the page: the payment's plan, or "Premium" when there is none to show. */
  function ShownPlan(l: Ledger, paymentId: Option<string>): (r: string)
    ensures r != ""
    ensures Truthy(paymentId) && paymentId.value in l.payments && l.payments[paymentId.value].plan != "" ==> r == l.payments[paymentId.value].plan
    ensures !(Truthy(paymentId) && paymentId.value in l.payments && l.payments[paymentId.value].plan != "") ==> r == "Premium"
  {
    var plan := if Truthy(paymentId) && paymentId.value in l.payments then l.payments[paymentId.value].plan else "";
    if plan != "" then plan else "Premium"
  }

  /** A second visit changes nothing. */
  lemma SecondVisitIsNoOp(l: Ledger, paymentId: Option<string>, user: Option<string>)
    ensures SuccessEffect(SuccessEffect(l, paymentId, user), paymentId, user) == SuccessEffect(l, paymentId, user)
  {
  }

  /** A failed or cancelled payment is never promoted by this page. */
  lemma NoPromotion(l: Ledger, paymentId: string, user: Option<string>)
    requires paymentId in l.payments && l.payments[paymentId].status in {Failed, Cancelled}
    ensures SuccessEffect(l, Some(paymentId), user) == l
  {
  }

  /**
   * `verify`: with a `payment_id` parameter, looks the payment up and, if it
   * is pending, asks who is signed in (`user`) before writing.
   */
  method Verify(db: Store, paymentId: Option<string>, user: Option<string>) returns (shownPlan: string)
    modifies db`payments, db`profiles
    ensures Ledger(db.payments, db.profiles) == SuccessEffect(old(Ledger(db.payments, db.profiles)), paymentId, user)
    ensures shownPlan == ShownPlan(old(Ledger(db.payments, db.profiles)), paymentId)
  {
    var plan := "";
    if Truthy(paymentId) {
      var id := paymentId.value;
      if id in db.payments {
        var payment := db.payments[id];
        plan := payment.plan;
        if payment.status == Pending && user.Some? {
          db.payments := db.payments[id := db.payments[id].(status := Completed)];
          db.profiles := ActivatePlan(db.profiles, user.value, payment.plan);
        }
      }
    }
    shownPlan := if plan != "" then plan else "Premium";
  }
}
