/** The payment provider's "invoice paid" callback. The external id the
    provider echoes back is the order id the invoice was created with; the
    callback marks that order paid and records how it was paid. */
module Webhook {
  import opened Common
  import opened Orders

  /** The fields of the callback body the service reads. */
  datatype InvoicePaid = InvoicePaid(externalId: Id, paymentChannel: string, paymentMethod: string)

  /** Repository steps that may fail with a plain error. */
  datatype Step = Lookup | Update

  datatype WebhookOutcome = WebhookOutcome(reply: Reply<()>, store: Store)

  const OrderNotFound: Failure := Fault("order tidak ditemukan")

  /** The stored order after the callback: paid, stamped with the callback's
      instant and the provider's channel and method, and every other field
      as it was. */
  function MarkPaid(o: Order, req: InvoicePaid, now: Time): (p: Order)
    ensures p.status == Paid
    ensures p.paidAt == Some(now) && p.updatedAt == Some(now) && p.updatedBy == Some(SystemXendit)
    ensures p.paymentChannel == Some(req.paymentChannel) && p.paymentMethod == Some(req.paymentMethod)
    ensures p.(status := o.status, paidAt := o.paidAt, updatedAt := o.updatedAt, updatedBy := o.updatedBy,
               paymentChannel := o.paymentChannel, paymentMethod := o.paymentMethod) == o
  {
    o.(status := Paid, updatedAt := Some(now), updatedBy := Some(SystemXendit), paidAt := Some(now),
       paymentChannel := Some(req.paymentChannel), paymentMethod := Some(req.paymentMethod))
  }

  /** The callback is accepted whatever the order's current status, and is
      not checked against the amount or the invoice id. */
  function ReceiveInvoice(s: Store, req: InvoicePaid, now: Time, faults: set<Step>): (out: WebhookOutcome)
    ensures out.reply.Ok? <==> req.externalId in s.orders && Lookup !in faults && Update !in faults
    ensures Lookup !in faults && req.externalId !in s.orders ==> out.reply == Err(OrderNotFound)
    ensures out.reply.Err? ==> out.store == s
    ensures out.reply.Ok? ==>
      && out.store.orders == s.orders[req.externalId := MarkPaid(s.orders[req.externalId], req, now)]
      && out.store.items == s.items && out.store.counter == s.counter && out.store.openTx == s.openTx
  {
    if Lookup in faults then WebhookOutcome(Err(Fault("get order")), s)
    else if req.externalId !in s.orders then WebhookOutcome(Err(OrderNotFound), s)
    else
      var paid := MarkPaid(s.orders[req.externalId], req, now);
      if Update in faults then WebhookOutcome(Err(Fault("update order")), s)
      else WebhookOutcome(Ok(()), s.(orders := s.orders[req.externalId := paid]))
  }

  /** A repeated callback succeeds again and ends as if only the later one
      had arrived: the order stays paid and the payment instant moves to the
      later delivery. */
  lemma RedeliveryRestamps(s: Store, req: InvoicePaid, t1: Time, t2: Time)
    requires req.externalId in s.orders
    ensures var once := ReceiveInvoice(s, req, t1, {}).store;
      var twice := ReceiveInvoice(once, req, t2, {});
      twice.reply.Ok? && twice.store == ReceiveInvoice(s, req, t2, {}).store
      && twice.store.orders[req.externalId].paidAt == Some(t2)
  {
    var o := s.orders[req.externalId];
    assert MarkPaid(MarkPaid(o, req, t1), req, t2) == MarkPaid(o, req, t2);
  }

  /** An order that already reads as expired is still marked paid. */
  lemma ExpiredOrderCanBePaid(s: Store, req: InvoicePaid, now: Time)
    requires req.externalId in s.orders && EffectiveStatus(s.orders[req.externalId], now) == Expired
    ensures var out := ReceiveInvoice(s, req, now, {});
      out.reply.Ok? && out.store.orders[req.externalId].status == Paid
  {
  }

  /** A paid order never reads as expired, at any instant. */
  lemma PaidOrderNeverExpires(s: Store, req: InvoicePaid, now: Time, faults: set<Step>, t: Time)
    requires ReceiveInvoice(s, req, now, faults).reply.Ok?
    ensures EffectiveStatus(ReceiveInvoice(s, req, now, faults).store.orders[req.externalId], t) == Paid
  {
  }

  /** The whole payment path: a created order, paid through the callback
      that quotes the invoice's external id, reads as paid and keeps its
      number, total and items. */
  lemma CreateThenPay(s: Store, catalog: map<Id, Products.Product>, claims: Option<Claims>, req: CreateOrderRequest, env: Env,
                      provider: InvoiceRequest -> InvoiceResult, faults: set<Orders.Step>,
                      channel: string, paymentMethod: string, paidAt: Time, t: Time)
    requires ValidEnv(s, req, env)
    requires Succeeded(CreateOrder(s, catalog, claims, req, env, provider, faults))
    ensures var created := CreateOrder(s, catalog, claims, req, env, provider, faults);
      var cb := InvoicePaid(created.invoiceCall.value.externalId, channel, paymentMethod);
      var paid := ReceiveInvoice(created.store, cb, paidAt, {});
      && paid.reply.Ok?
      && EffectiveStatus(paid.store.orders[env.orderId], t) == Paid
      && paid.store.orders[env.orderId].number == created.store.orders[env.orderId].number
      && paid.store.orders[env.orderId].total == Orders.Total(req.products, catalog)
      && paid.store.items == created.store.items
  {
  }
}
