/** payments/models.py: the provider checkout session recorded against an order. */
module PaymentModels {
  import opened Wrappers
  import opened OrderModels

  /** Payment.STATUS_CHOICES: 'pending' (the default), 'completed', 'failed', 'refunded'. */
  datatype PaymentState = PaymentPending | Completed | PaymentFailed | PaymentRefunded

  /** A Payment: one per order (one-to-one) and a unique provider session id; amount in grosze. */
  datatype Payment = Payment(order: OrderId, sessionId: string, amount: int, status: PaymentState)

  /** At most one payment per order and no two payments with the same session id. */
  ghost predicate PaymentsKeyed(payments: seq<Payment>) {
    forall i, j :: 0 <= i < j < |payments| ==>
      payments[i].order != payments[j].order && payments[i].sessionId != payments[j].sessionId
  }

  /** Payment.objects.get(stripe_session_id=...): the index of the payment with that session id. */
  function FindSession(payments: seq<Payment>, sessionId: string): (r: Option<nat>)
    ensures r.Some? ==> r.value < |payments| && payments[r.value].sessionId == sessionId
    ensures r.None? ==> forall i :: 0 <= i < |payments| ==> payments[i].sessionId != sessionId
  {
    if payments == [] then None
    else if payments[|payments| - 1].sessionId == sessionId then Some(|payments| - 1)
    else FindSession(payments[..|payments| - 1], sessionId)
  }

  /** With unique session ids the lookup finds the one payment carrying the id. */
  lemma SessionLookupUnique(payments: seq<Payment>, sessionId: string, k: nat)
    requires PaymentsKeyed(payments) && k < |payments| && payments[k].sessionId == sessionId
    ensures FindSession(payments, sessionId) == Some(k)
  {
  }
}
