/**
 * The two writers that complete a payment, the webhook and the success
 * page, applied one after the other in either order (the sequential
 * interleavings of their race), and what each guarantees on its own when
 * repeated.
 */
module Reconciliation {
  import opened Wrappers
  import opened Records
  import opened WaveWebhook
  import opened PaymentSuccess

  /** Delivering the same event twice leaves the ledger as delivering it once. */
  lemma WebhookIdempotent(l: Ledger, e: WebhookEvent)
    ensures WebhookEffect(WebhookEffect(l, e), e) == WebhookEffect(l, e)
  {
    var once := WebhookEffect(l, e);
    var target := Target(e);
    if target.Some? && target.value in l.payments {
      var id := target.value;
      var p := l.payments[id];
      ActivatePlanIdempotent(l.profiles, p.userId, p.plan);
      assert Complete(Complete(p, e.data.value), e.data.value) == Complete(p, e.data.value);
      assert WebhookEffect(once, e).payments == once.payments;
    }
  }

  /** The webhook promotes a failed or cancelled payment to completed. */
  lemma WebhookPromotes(l: Ledger, e: WebhookEvent)
    requires Target(e).Some? && Target(e).value in l.payments
    requires l.payments[Target(e).value].status in {Failed, Cancelled}
    ensures WebhookEffect(l, e).payments[Target(e).value].status == Completed
  {
  }

  /**
   * When whoever is signed in on the success page is the payer (or nobody
   * is), the two orders end in the same ledger.
   */
  lemma RaceCommutesForPayer(l: Ledger, e: WebhookEvent, user: Option<string>)
    requires Target(e).Some?
    requires user.Some? && Target(e).value in l.payments ==> user.value == l.payments[Target(e).value].userId
    ensures WebhookEffect(SuccessEffect(l, Target(e), user), e) == SuccessEffect(WebhookEffect(l, e), Target(e), user)
  {
    var id := Target(e).value;
    if id in l.payments && l.payments[id].status == Pending && user.Some? {
      var p := l.payments[id];
      var d := e.data.value;
      var afterPage := SuccessEffect(l, Target(e), user);
      assert afterPage.payments[id] == p.(status := Completed);
      assert Complete(p.(status := Completed), d) == Complete(p, d);
      ActivatePlanIdempotent(l.profiles, p.userId, p.plan);
      var left := WebhookEffect(afterPage, e);
      var right := SuccessEffect(WebhookEffect(l, e), Target(e), user);
      assert left.payments == right.payments;
      assert left.profiles == right.profiles;
    }
  }

  /**
   * When someone other than the payer is signed in, the order matters: the
   * page activates that user's plan only if it runs before the webhook.
   */
  lemma RaceDependsOnOrder()
    ensures
      var l := Ledger(
        map["p1" := Payment("alice", 5000, "essentiel", Some("wave"), Pending, None, None)],
        map["alice" := Profile(None, false, None), "bob" := Profile(None, false, None)]);
      var e := WebhookEvent(Some(SessionCompleted), Some(SessionData(Some("s1"), Some("p1"), "{}")));
      WebhookEffect(SuccessEffect(l, Some("p1"), Some("bob")), e) != SuccessEffect(WebhookEffect(l, e), Some("p1"), Some("bob"))
  {
    var l := Ledger(
      map["p1" := Payment("alice", 5000, "essentiel", Some("wave"), Pending, None, None)],
      map["alice" := Profile(None, false, None), "bob" := Profile(None, false, None)]);
    var e := WebhookEvent(Some(SessionCompleted), Some(SessionData(Some("s1"), Some("p1"), "{}")));
    assert Target(e) == Some("p1");
    var pageFirst := WebhookEffect(SuccessEffect(l, Some("p1"), Some("bob")), e);
    var hookFirst := SuccessEffect(WebhookEffect(l, e), Some("p1"), Some("bob"));
    assert pageFirst.profiles["bob"].planActive;
    assert hookFirst.profiles["bob"] == Profile(None, false, None);
  }

  /** Neither writer takes a payment out of `completed` or deactivates a plan. */
  lemma CompletionAndEntitlementAreKept(l: Ledger, e: WebhookEvent, paymentId: Option<string>, user: Option<string>)
    ensures forall k :: k in l.payments && l.payments[k].status == Completed ==>
      WebhookEffect(l, e).payments[k].status == Completed && SuccessEffect(l, paymentId, user).payments[k].status == Completed
    ensures forall u :: u in l.profiles && l.profiles[u].planActive ==>
      WebhookEffect(l, e).profiles[u].planActive && SuccessEffect(l, paymentId, user).profiles[u].planActive
  {
  }
}
