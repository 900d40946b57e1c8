/**
 * The payment page: the plan catalogue and its fallback, the checkout
 * request the page sends, and the status machine of the pay button,
 * including the demo branch that records a completed payment itself.
 */
module PaymentPage {
  import opened Wrappers
  import opened Strings
  import opened Records
  import opened WaveCheckout

  /** A plan's name and price in XOF; features and colours are presentation only. */
  datatype PlanInfo = PlanInfo(name: string, price: int)

  const Decouverte := PlanInfo("Découverte", 2500)

  /** `planDetails[key]`. */
  function PlanDetails(key: string): Option<PlanInfo>
  {
    if key == "decouverte" then Some(Decouverte)
    else if key == "essentiel" then Some(PlanInfo("Essentiel", 5000))
    else if key == "premium" then Some(PlanInfo("Premium", 10000))
    else None
  }

  /** `searchParams.get("plan") || "decouverte"`. */
  function PlanFromQuery(param: Option<string>): (r: string)
    ensures r != ""
    ensures Truthy(param) ==> r == param.value
    ensures !Truthy(param) ==> r == "decouverte"
  {
    if Truthy(param) then param.value else "decouverte"
  }

  /** `planDetails[plan] || planDetails.decouverte`: an unknown plan is priced as decouverte. */
  function DetailsFor(plan: string): (r: PlanInfo)
    ensures r.price in {2500, 5000, 10000}
    ensures PlanDetails(plan).Some? ==> r == PlanDetails(plan).value
    ensures PlanDetails(plan).None? ==> r == Decouverte
  {
    PlanDetails(plan).GetOr(Decouverte)
  }

  /** The three prices, and an unknown plan such as "avance" priced at 2500. */
  lemma Prices()
    ensures DetailsFor("decouverte").price == 2500
    ensures DetailsFor("essentiel").price == 5000
    ensures DetailsFor("premium").price == 10000
    ensures DetailsFor("avance") == Decouverte
    ensures DetailsFor(PlanFromQuery(None)) == Decouverte
  {
  }

  /** The body posted to the checkout function. */
  function RequestBody(plan: string, origin: string): (r: CheckoutBody)
    ensures r.amount == Some(DetailsFor(plan).price) && r.plan == Some(plan)
    ensures r.successUrl == Some(origin + "/payment/success") && r.errorUrl == Some(origin + "/payment/error")
  {
    CheckoutBody(Some(DetailsFor(plan).price), Some(plan), Some(origin + "/payment/success"), Some(origin + "/payment/error"))
  }

  /**
   * What the page sends always gets past the checkout's body checks, and the
   * provider is given the page's own callback URLs.
   */
  lemma PageRequestIsAdmitted(plan: string, origin: string, key: string, authorization: string, caller: string, paymentId: string)
    requires plan != "" && key != "" && authorization != ""
    ensures Admitted(CheckoutRequest(Some(key), Some(authorization), Some(caller), Parsed(RequestBody(plan, origin))))
    ensures SuccessUrl(RequestBody(plan, origin), paymentId) == origin + "/payment/success"
    ensures ErrorUrl(RequestBody(plan, origin), paymentId) == origin + "/payment/error"
  {
    assert |origin + "/payment/success"| > 0;
    assert |origin + "/payment/error"| > 0;
  }

  /** The row the demo branch inserts. */
  function DemoPayment(user: string, plan: string, now: int): (r: Payment)
    ensures r.userId == user && r.plan == plan && r.amount == DetailsFor(plan).price
    ensures r.status == Completed && r.paymentMethod == Some("wave")
    ensures r.transactionId.Some? && StartsWith(r.transactionId.value, "DEMO_")
  {
    var id := "DEMO_" + IntText(now);
    assert id[..5] == "DEMO_";
    Payment(user, DetailsFor(plan).price, plan, Some("wave"), Completed, Some(id), None)
  }

  /** An unknown plan is sent to the store as written while charged at decouverte's price. */
  lemma UnknownPlanSentAsWritten(user: string, now: int)
    ensures DemoPayment(user, "avance", now).plan == "avance"
    ensures DemoPayment(user, "avance", now).amount == 2500
  {
  }

  /**
   * The demo branch's effect: with a signed-in user, the inserted completed
   * payment (when the insert succeeds; its error is not checked) and the
   * activated plan; without one, nothing.
   */
  function DemoEffect(l: Ledger, user: Option<string>, plan: string, insert: InsertReply, now: int): (r: Ledger)
    ensures user.None? ==> r == l
    ensures user.Some? ==> r.profiles == ActivatePlan(l.profiles, user.value, plan)
    ensures user.Some? && insert.Inserted? ==> r.payments == l.payments[insert.id := DemoPayment(user.value, plan, now)]
    ensures user.Some? && insert.Rejected? ==> r.payments == l.payments
  {
    if user.None? then l
    else
      var payments := if insert.Inserted? then l.payments[insert.id := DemoPayment(user.value, plan, now)] else l.payments;
      Ledger(payments, ActivatePlan(l.profiles, user.value, plan))
  }

  /** The `status` the page shows. */
  datatype PageStatus = Idle | Processing | Success | Failure

  /** How `functions.invoke("wave-checkout")` came back: an error, or the reply's data. */
  datatype InvokeReply = InvokeError(message: string) | InvokeData(demo: bool, launchUrl: Option<string>, error: Option<string>)

  /** The payment page for the plan named in its query string. */
  class Page {
    const plan: string
    var loading: bool
    var status: PageStatus

    constructor (planParam: Option<string>)
      ensures plan == PlanFromQuery(planParam)
      ensures status == Idle && !loading
    {
      plan := PlanFromQuery(planParam);
      loading := false;
      status := Idle;
    }

    /**
     * `handleWavePayment`. `signedIn` says whether there is a session,
     * `invoke` is the checkout function's answer, `user` the user the demo
     * branch finds, `insert` the store's answer to its insert and `now` the
     * clock. The status leaves `Idle` for good: it stays `Processing` while
     * the provider's page is open, and ends `Success` or `Failure` otherwise.
     */
    method HandleWavePayment(db: Store, origin: string, signedIn: bool, invoke: InvokeReply,
                             user: Option<string>, insert: InsertReply, now: int)
      returns (sent: Option<CheckoutBody>)
      requires insert.Inserted? ==> insert.id !in db.payments
      modifies this`loading, this`status, db`payments, db`profiles
      ensures !loading && status != Idle
      ensures !signedIn ==> sent.None? && status == Failure
      ensures signedIn ==> sent == Some(RequestBody(plan, origin))
      ensures signedIn && invoke.InvokeData? && invoke.demo ==>
        status == Success
        && Ledger(db.payments, db.profiles) == DemoEffect(old(Ledger(db.payments, db.profiles)), user, plan, insert, now)
      ensures !(signedIn && invoke.InvokeData? && invoke.demo) ==>
        db.payments == old(db.payments) && db.profiles == old(db.profiles)
      ensures signedIn && invoke.InvokeError? ==> status == Failure
      ensures signedIn && invoke.InvokeData? && !invoke.demo ==>
        status == (if Truthy(invoke.launchUrl) then Processing else Failure)
    {
      loading := true;
      status := Processing;
      sent := None;
      if !signedIn {
        status := Failure;
        loading := false;
        return;
      }
      sent := Some(RequestBody(plan, origin));
      if invoke.InvokeError? {
        status := Failure;
      } else if invoke.demo {
        if user.Some? {
          if insert.Inserted? {
            db.payments := db.payments[insert.id := DemoPayment(user.value, plan, now)];
          }
          db.profiles := ActivatePlan(db.profiles, user.value, plan);
        }
        status := Success;
      } else if !Truthy(invoke.launchUrl) {
        status := Failure;
      }
      loading := false;
    }
  }
}
