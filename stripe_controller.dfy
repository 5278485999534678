// server/controllers/stripeController.js: the client asks the payment
// processor for a charge of the invoice's amount, and the processor's
// `payment_intent.succeeded` webhook settles the invoice. The processor itself
// is outside the model: the charge is returned as the request the handler
// would send, the processor's acceptance of it is an input, and so is the
// webhook's signature check.
module StripeController {
  import opened Common
  import opened Models
  import opened Invariants
  import opened Store
  import opened InvoiceController

  /** The payment intent createPaymentIntent asks for: minor units, currency,
      and the invoice id carried in the metadata. */
  datatype ChargeRequest = ChargeRequest(amount: int, currency: string, invoiceId: Id)

  /** createPaymentIntent: missing invoice 404, already paid 400, caller not
      its client 403 (so a paid invoice is 400 even for a stranger); otherwise a
      charge of the amount in paise is sent to the processor. `accepted` is the
      processor's verdict on that request; a refusal (any error it throws,
      among them a charge amount that is not a whole number) is the catch's
      500. */
  function CreatePaymentIntent(invoices: seq<Invoice>, caller: Id, iid: Id, accepted: bool)
    : (r: Result<ChargeRequest>)
    ensures iid >= |invoices| ==> r == Err(NotFound)
    ensures iid < |invoices| && invoices[iid].status == Paid ==> r == Err(BadRequest)
    ensures (iid < |invoices| && invoices[iid].status == Unpaid && invoices[iid].client != caller) ==> r == Err(Forbidden)
    ensures (iid < |invoices| && invoices[iid].status == Unpaid && invoices[iid].client == caller
             && !accepted) ==> r == Err(ServerError)
    ensures r.Ok? <==> iid < |invoices| && invoices[iid].status == Unpaid && invoices[iid].client == caller && accepted
    ensures r.Ok? ==> r.value.amount == invoices[iid].amount * 100 && r.value.currency == "inr"
    ensures r.Ok? ==> r.value.invoiceId == iid
  {
    if iid >= |invoices| then Err(NotFound)
    else if invoices[iid].status.Paid? then Err(BadRequest)
    else if invoices[iid].client != caller then Err(Forbidden)
    else if !accepted then Err(ServerError)
    else Ok(ChargeRequest(invoices[iid].amount * 100, "inr", iid))
  }

  /** A verified webhook event: its type and the invoice id in its metadata
      (None when the metadata has none). */
  datatype Event = Event(kind: string, invoiceId: Option<Id>)

  /** The invoice a verified event settles: a payment_intent.succeeded event
      whose metadata names a stored invoice that is not yet paid. */
  function WebhookTarget(invoices: seq<Invoice>, event: Event): (r: Option<Id>)
    ensures r.Some? ==> r.value < |invoices| && invoices[r.value].status == Unpaid && event.invoiceId == Some(r.value)
    ensures r.Some? <==> event.kind == "payment_intent.succeeded" && event.invoiceId.Some?
                         && event.invoiceId.value < |invoices| && invoices[event.invoiceId.value].status == Unpaid
  {
    if event.kind == "payment_intent.succeeded" && event.invoiceId.Some?
       && event.invoiceId.value < |invoices| && invoices[event.invoiceId.value].status == Unpaid
    then event.invoiceId
    else None
  }

  /** The succeeded event for an intent this handler created names the
      intent's invoice through the metadata, so the webhook settles exactly
      that invoice. */
  lemma IntentSettlesItsInvoice(invoices: seq<Invoice>, caller: Id, iid: Id)
    requires CreatePaymentIntent(invoices, caller, iid, true).Ok?
    ensures WebhookTarget(invoices, Event("payment_intent.succeeded",
                                          Some(CreatePaymentIntent(invoices, caller, iid, true).value.invoiceId)))
            == Some(iid)
  {
  }

  /** Once settled, an invoice can be neither charged again (400 whatever the
      processor would say) nor settled by a repeated event. */
  lemma SettledInvoiceNotChargedAgain(projects: seq<Project>, invoices: seq<Invoice>, iid: Id, caller: Id,
                                      accepted: bool, event: Event)
    requires iid < |invoices| && invoices[iid].project < |projects|
    requires event.invoiceId == Some(iid)
    ensures CreatePaymentIntent(Settled(projects, invoices, iid).1, caller, iid, accepted) == Err(BadRequest)
    ensures WebhookTarget(Settled(projects, invoices, iid).1, event).None?
  {
  }

  /** handleStripeWebhook: a bad signature is 400 and changes nothing; a
      succeeded event for a stored unpaid invoice settles it; everything else
      (no invoice id, an unknown or already paid invoice, another event type)
      is acknowledged with no change. */
  method HandleStripeWebhook(db: Db, signatureValid: bool, event: Event) returns (r: Result<()>)
    requires db.LifecycleValid()
    modifies db`projects, db`invoices, db`notifications
    ensures db.LifecycleValid() && Advances(old(db.projects), db.projects)
    ensures r.Err? <==> !signatureValid
    ensures r.Err? ==> r.status == BadRequest
    ensures var target := WebhookTarget(old(db.invoices), event);
            var settles := signatureValid && target.Some?;
            && (settles ==> (db.projects, db.invoices) == Settled(old(db.projects), old(db.invoices), target.value))
            && (settles ==> var inv := old(db.invoices)[target.value];
                            db.notifications == old(db.notifications) +
                              [Notification(inv.freelancer, inv.client, InvoicePaid, ProjectPage(inv.project), false)])
            && (!settles ==> db.projects == old(db.projects) && db.invoices == old(db.invoices)
                             && db.notifications == old(db.notifications))
  {
    if !signatureValid {
      return Err(BadRequest);
    }
    if event.kind == "payment_intent.succeeded" {
      if event.invoiceId.Some? {
        var iid := event.invoiceId.value;
        if iid < |db.invoices| && db.invoices[iid].status != Paid {
          var _ := Settle(db, iid);
        }
      }
    }
    r := Ok(());
  }
}
