/** Order creation and the read-time expiry rule.

    `CreateOrder` runs in one database transaction: reserve the "order"
    counter value, price every requested line from the catalog, ask the
    payment provider for an invoice, write the order and one item per line,
    advance the counter and commit. The store below is what a committed
    transaction leaves behind; a rolled-back transaction leaves it as it was.
    `openTx` counts transactions that were begun and never finished; each
    holds one of the connection pool's connections. */
module Orders {
  import opened Common
  import opened OrderNumber
  import Products

  type Product = Products.Product

  datatype Status = Unpaid | Paid | Expired

  /** One requested line: a product id and a quantity. */
  datatype Line = Line(productId: Id, quantity: int)

  datatype CreateOrderRequest = CreateOrderRequest(
    products: seq<Line>,
    fullName: string,
    address: string,
    phoneNumber: string,
    notes: string)

  datatype Order = Order(
    id: Id,
    number: string,
    userId: Id,
    status: Status,
    fullName: string,
    address: string,
    phoneNumber: string,
    notes: string,
    total: Money,
    expiresAt: Time,
    createdAt: Time,
    createdBy: string,
    invoiceId: Option<string>,
    invoiceUrl: Option<string>,
    paidAt: Option<Time>,
    paymentChannel: Option<string>,
    paymentMethod: Option<string>,
    updatedAt: Option<Time>,
    updatedBy: Option<string>)

  /** A line of a placed order, with the product's name, image and price
      copied at ordering time. */
  datatype OrderItem = OrderItem(
    id: Id,
    productId: Id,
    productName: string,
    productImageFileName: string,
    productPrice: Money,
    quantity: int,
    orderId: Id,
    createdAt: Time,
    createdBy: string)

  datatype Store = Store(
    orders: map<Id, Order>,
    items: map<Id, OrderItem>,
    counter: int,
    openTx: nat)

  datatype InvoiceItem = InvoiceItem(name: string, price: Money, quantity: int)

  /** What the service sends to the payment provider. */
  datatype InvoiceRequest = InvoiceRequest(
    externalId: Id,
    amount: Money,
    givenNames: string,
    currency: string,
    items: seq<InvoiceItem>)

  datatype Invoice = Invoice(id: string, url: string)

  datatype InvoiceResult = Issued(invoice: Invoice) | Declined(reason: string)

  /** Database steps that may fail with a plain error. */
  datatype Step = Begin | GetNumbering | FetchProducts | InsertOrder | InsertItem | UpdateNumbering | Commit | FetchPage

  /** The clock, the random generator and the uuid generator, as values:
      `itemIds[i]` is the id generated for the item of line i. */
  datatype Env = Env(now: Time, today: Date, random: int, orderId: Id, itemIds: seq<Id>)

  datatype CreateOrderResponse = CreateOrderResponse(base: Base, id: Id)

  /** The reply, the store after the call, and the invoice request sent to
      the provider if the call got that far. */
  datatype CreateOutcome = CreateOutcome(
    reply: Reply<CreateOrderResponse>,
    store: Store,
    invoiceCall: Option<InvoiceRequest>)

  /** 24 hours, in seconds. */
  const Day: int := 86400

  /** `SetMaxOpenConns(100)` on the connection pool. */
  const MaxOpenConns: nat := 100

  const Currency: string := "IDR"

  const SystemXendit: string := "System Xendit"

  /** `db.Begin()` with a background context waits forever once every
      connection is held; the model represents that wait by this reply, the
      call never returning. */
  const PoolExhausted: Failure := Fault("connection pool exhausted")

  predicate AllListed(lines: seq<Line>, catalog: map<Id, Product>) {
    forall i :: 0 <= i < |lines| ==> lines[i].productId in catalog
  }

  /** The first requested product id, in request order, that the catalog
      does not hold. */
  function FirstMissing(lines: seq<Line>, catalog: map<Id, Product>): (m: Option<Id>)
    ensures m.None? <==> AllListed(lines, catalog)
    ensures m.Some? ==>
      exists i :: 0 <= i < |lines| && lines[i].productId == m.value && m.value !in catalog && AllListed(lines[..i], catalog)
  {
    if |lines| == 0 then None
    else if lines[0].productId !in catalog then
      assert lines[..0] == [];
      Some(lines[0].productId)
    else
      var m := FirstMissing(lines[1..], catalog);
      if m.Some? then
        var i :| 0 <= i < |lines[1..]| && lines[1..][i].productId == m.value
          && m.value !in catalog && AllListed(lines[1..][..i], catalog);
        assert lines[..i + 1] == [lines[0]] + lines[1..][..i];
        m
      else
        m
  }

  /** Catalog price times requested quantity, summed over the lines; a
      product requested on two lines is counted on both. */
  function Total(lines: seq<Line>, catalog: map<Id, Product>): Money
    requires AllListed(lines, catalog)
  {
    if |lines| == 0 then 0
    else
      var last := lines[|lines| - 1];
      assert AllListed(lines[..|lines| - 1], catalog);
      Total(lines[..|lines| - 1], catalog) + catalog[last.productId].price * last.quantity
  }

  /** The item written for one line. */
  function Snapshot(line: Line, p: Product, itemId: Id, orderId: Id, now: Time, author: string): OrderItem {
    OrderItem(itemId, line.productId, p.name, p.imageFileName, p.price, line.quantity, orderId, now, author)
  }

  /** The items of a new order, one per requested line, in request order. */
  function ItemsFor(lines: seq<Line>, catalog: map<Id, Product>, ids: seq<Id>, orderId: Id, now: Time, author: string): (r: seq<OrderItem>)
    requires AllListed(lines, catalog) && |ids| == |lines|
    ensures |r| == |lines|
    ensures forall i :: 0 <= i < |r| ==>
      && r[i].id == ids[i]
      && r[i].orderId == orderId
      && r[i].productId == lines[i].productId
      && r[i].quantity == lines[i].quantity
      && r[i].productName == catalog[lines[i].productId].name
      && r[i].productImageFileName == catalog[lines[i].productId].imageFileName
      && r[i].productPrice == catalog[lines[i].productId].price
  {
    if |lines| == 0 then []
    else
      var n := |lines| - 1;
      assert AllListed(lines[..n], catalog);
      ItemsFor(lines[..n], catalog, ids[..n], orderId, now, author)
        + [Snapshot(lines[n], catalog[lines[n].productId], ids[n], orderId, now, author)]
  }

  /** Price times quantity summed over stored items. */
  function ItemsTotal(items: seq<OrderItem>): Money {
    if |items| == 0 then 0
    else ItemsTotal(items[..|items| - 1]) + items[|items| - 1].productPrice * items[|items| - 1].quantity
  }

  function InvoiceItems(items: seq<OrderItem>): (r: seq<InvoiceItem>)
    ensures |r| == |items|
    ensures forall i :: 0 <= i < |r| ==>
      r[i].name == items[i].productName && r[i].price == items[i].productPrice && r[i].quantity == items[i].quantity
  {
    seq(|items|, i requires 0 <= i < |items| => InvoiceItem(items[i].productName, items[i].productPrice, items[i].quantity))
  }

  /** The items written by the item loop of the transaction, each under
      its own id, on top of the items already stored. */
  function InsertItems(stored: map<Id, OrderItem>, items: seq<OrderItem>): (r: map<Id, OrderItem>)
    requires forall i, j :: 0 <= i < j < |items| ==> items[i].id != items[j].id
    ensures r.Keys == stored.Keys + (set i | 0 <= i < |items| :: items[i].id)
    ensures forall i :: 0 <= i < |items| ==> r[items[i].id] == items[i]
    ensures forall k :: k in stored && (forall i :: 0 <= i < |items| ==> items[i].id != k) ==> r[k] == stored[k]
  {
    stored + map i | 0 <= i < |items| :: items[i].id := items[i]
  }

  predicate DistinctIds(ids: seq<Id>) {
    forall i, j :: 0 <= i < j < |ids| ==> ids[i] != ids[j]
  }

  /** What the clock, the random generator and the uuid generator promise:
      an eight-digit random part, a real date, and ids not in use yet. */
  predicate ValidEnv(s: Store, req: CreateOrderRequest, env: Env) {
    && ValidDate(env.today)
    && ValidRandom(env.random)
    && env.orderId !in s.orders
    && |env.itemIds| == |req.products|
    && DistinctIds(env.itemIds)
    && (forall i :: 0 <= i < |env.itemIds| ==> env.itemIds[i] !in s.items)
  }

  function MissingProductMessage(id: Id): string {
    "Product dengan ID " + id + " tidak ditemukan"
  }

  /** The items a successful creation writes: one per requested line,
      keyed by its generated id, carrying the catalog's name, image and
      price at ordering time. Items already stored are untouched. */
  function WriteItems(stored: map<Id, OrderItem>, catalog: map<Id, Product>, req: CreateOrderRequest, env: Env, author: string): (r: map<Id, OrderItem>)
    requires AllListed(req.products, catalog) && |env.itemIds| == |req.products| && DistinctIds(env.itemIds)
    requires forall i :: 0 <= i < |env.itemIds| ==> env.itemIds[i] !in stored
    ensures r.Keys == stored.Keys + (set i | 0 <= i < |env.itemIds| :: env.itemIds[i])
    ensures forall k :: k in stored ==> r[k] == stored[k]
    ensures forall i :: 0 <= i < |req.products| ==>
      var it := r[env.itemIds[i]];
      var line := req.products[i];
      && it.orderId == env.orderId
      && it.productId == line.productId
      && it.quantity == line.quantity
      && it.productName == catalog[line.productId].name
      && it.productImageFileName == catalog[line.productId].imageFileName
      && it.productPrice == catalog[line.productId].price
  {
    var items := ItemsFor(req.products, catalog, env.itemIds, env.orderId, env.now, author);
    assert forall i :: 0 <= i < |items| ==> items[i].id == env.itemIds[i];
    assert (set i | 0 <= i < |items| :: items[i].id) == (set i | 0 <= i < |env.itemIds| :: env.itemIds[i]);
    InsertItems(stored, items)
  }

  /** The order a successful creation writes. */
  function NewOrder(s: Store, catalog: map<Id, Product>, c: Claims, req: CreateOrderRequest, env: Env, inv: Invoice): (o: Order)
    requires ValidDate(env.today) && ValidRandom(env.random) && AllListed(req.products, catalog)
    ensures o.id == env.orderId && o.userId == c.subject && o.status == Unpaid
    ensures o.createdAt == env.now && o.expiresAt == env.now + Day
    ensures o.total == Total(req.products, catalog)
    ensures Parse(o.number) == Some(Parts(env.today, env.random, s.counter))
    ensures o.invoiceId == Some(inv.id) && o.invoiceUrl == Some(inv.url)
    ensures o.paidAt.None? && o.paymentChannel.None? && o.paymentMethod.None?
  {
    var p := Parts(env.today, env.random, s.counter);
    ParseFormat(p);
    Order(
      env.orderId, Format(p), c.subject, Unpaid,
      req.fullName, req.address, req.phoneNumber, req.notes,
      Total(req.products, catalog), env.now + Day, env.now, c.fullName,
      Some(inv.id), Some(inv.url), None, None, None, None, None)
  }

  /** The store a successful creation commits: the new order, its items and
      the counter advanced past the value the order number embeds. Nothing
      else changes. */
  function Committed(s: Store, catalog: map<Id, Product>, c: Claims, req: CreateOrderRequest, env: Env, inv: Invoice): Store
    requires ValidEnv(s, req, env) && AllListed(req.products, catalog)
  {
    Store(
      s.orders[env.orderId := NewOrder(s, catalog, c, req, env, inv)],
      WriteItems(s.items, catalog, req, env, c.fullName),
      s.counter + 1,
      s.openTx)
  }

  /** The request sent to the payment provider. */
  function InvoiceCall(catalog: map<Id, Product>, c: Claims, req: CreateOrderRequest, env: Env): (call: InvoiceRequest)
    requires AllListed(req.products, catalog) && |env.itemIds| == |req.products|
    ensures call.externalId == env.orderId
    ensures call.amount == Total(req.products, catalog)
    ensures call.currency == Currency && call.givenNames == req.fullName
    ensures |call.items| == |req.products|
    ensures forall i :: 0 <= i < |req.products| ==>
      call.items[i] == InvoiceItem(catalog[req.products[i].productId].name, catalog[req.products[i].productId].price, req.products[i].quantity)
  {
    var items := ItemsFor(req.products, catalog, env.itemIds, env.orderId, env.now, c.fullName);
    InvoiceRequest(env.orderId, Total(req.products, catalog), req.fullName, Currency, InvoiceItems(items))
  }

  /** The transaction began and the counter and the products were read. */
  predicate Started(s: Store, claims: Option<Claims>, faults: set<Step>) {
    && claims.Some?
    && Begin !in faults && GetNumbering !in faults && FetchProducts !in faults
    && s.openTx < MaxOpenConns
  }

  predicate Succeeded(out: CreateOutcome) {
    out.reply.Ok? && out.reply.response.base.Success?
  }

  predicate Rejected(out: CreateOutcome) {
    out.reply.Ok? && out.reply.response.base.BadRequest?
  }

  /** The writes after the provider answered: the order, its items, the
      counter and the commit. Any failure rolls back. */
  function Persist(s: Store, catalog: map<Id, Product>, c: Claims, req: CreateOrderRequest, env: Env,
                   call: InvoiceRequest, result: InvoiceResult, faults: set<Step>): (out: CreateOutcome)
    requires ValidEnv(s, req, env) && AllListed(req.products, catalog)
    ensures out.invoiceCall == Some(call)
    ensures !Succeeded(out) ==> out.reply.Err? && out.store == s
    ensures Succeeded(out) <==>
      result.Issued? && InsertOrder !in faults && InsertItem !in faults && UpdateNumbering !in faults && Commit !in faults
    ensures Succeeded(out) ==>
      out.reply.response.id == env.orderId && out.store == Committed(s, catalog, c, req, env, result.invoice)
  {
    match result
    case Declined(reason) => CreateOutcome(Err(Fault(reason)), s, Some(call))
    case Issued(inv) =>
      if InsertOrder in faults then CreateOutcome(Err(Fault("insert order")), s, Some(call))
      else if InsertItem in faults then CreateOutcome(Err(Fault("insert order item")), s, Some(call))
      else if UpdateNumbering in faults then CreateOutcome(Err(Fault("update numbering")), s, Some(call))
      else if Commit in faults then CreateOutcome(Err(Fault("commit")), s, Some(call))
      else
        var store := Committed(s, catalog, c, req, env, inv);
        CreateOutcome(Ok(CreateOrderResponse(Success("Order Berhasil Dibuat"), env.orderId)), store, Some(call))
  }

  /** The pricing loop and what follows it, with the unknown-product branch
      either rolling back (`rollbackOnReject`) or returning with the
      transaction still open. */
  function Price(s: Store, catalog: map<Id, Product>, c: Claims, req: CreateOrderRequest, env: Env,
                 provider: InvoiceRequest -> InvoiceResult, faults: set<Step>, rollbackOnReject: bool): (out: CreateOutcome)
    requires ValidEnv(s, req, env)
    ensures FirstMissing(req.products, catalog).Some? ==>
      && Rejected(out) && out.invoiceCall.None?
      && out.reply.response.base.message == MissingProductMessage(FirstMissing(req.products, catalog).value)
      && out.store == (if rollbackOnReject then s else s.(openTx := s.openTx + 1))
    ensures FirstMissing(req.products, catalog).None? ==>
      var call := InvoiceCall(catalog, c, req, env);
      out == Persist(s, catalog, c, req, env, call, provider(call), faults)
  {
    match FirstMissing(req.products, catalog)
    case Some(id) =>
      var reply := Ok(CreateOrderResponse(BadRequest(MissingProductMessage(id)), ""));
      CreateOutcome(reply, if rollbackOnReject then s else s.(openTx := s.openTx + 1), None)
    case None =>
      var call := InvoiceCall(catalog, c, req, env);
      Persist(s, catalog, c, req, env, call, provider(call), faults)
  }

  /** The whole transaction: the caller's claims, the connection, the
      counter row and the product rows first. */
  function Assemble(s: Store, catalog: map<Id, Product>, claims: Option<Claims>, req: CreateOrderRequest, env: Env,
                    provider: InvoiceRequest -> InvoiceResult, faults: set<Step>, rollbackOnReject: bool): (out: CreateOutcome)
    requires ValidEnv(s, req, env)
    ensures !Started(s, claims, faults) ==> out.reply.Err? && out.store == s && out.invoiceCall.None?
    ensures s.openTx >= MaxOpenConns && claims.Some? && Begin !in faults ==> out.reply == Err(PoolExhausted)
    ensures Started(s, claims, faults) ==> out == Price(s, catalog, claims.value, req, env, provider, faults, rollbackOnReject)
  {
    if claims.None? then CreateOutcome(Err(NoClaims), s, None)
    else if Begin in faults then CreateOutcome(Err(Fault("begin transaction")), s, None)
    else if s.openTx >= MaxOpenConns then CreateOutcome(Err(PoolExhausted), s, None)
    else if GetNumbering in faults then CreateOutcome(Err(Fault("get numbering")), s, None)
    else if FetchProducts in faults then CreateOutcome(Err(Fault("get products")), s, None)
    else Price(s, catalog, claims.value, req, env, provider, faults, rollbackOnReject)
  }

  /** Order creation with every non-committing path rolled back: it either
      commits the complete order or leaves the store exactly as it was. */
  function CreateOrder(s: Store, catalog: map<Id, Product>, claims: Option<Claims>, req: CreateOrderRequest, env: Env,
                       provider: InvoiceRequest -> InvoiceResult, faults: set<Step>): (out: CreateOutcome)
    requires ValidEnv(s, req, env)
    ensures !Succeeded(out) ==> out.store == s
    ensures out.store.openTx == s.openTx
    ensures Rejected(out) <==>
      Started(s, claims, faults) && FirstMissing(req.products, catalog).Some?
    ensures Rejected(out) ==>
      out.reply.response.base.message == MissingProductMessage(FirstMissing(req.products, catalog).value)
      && out.invoiceCall.None?
    ensures out.invoiceCall.Some? ==>
      && AllListed(req.products, catalog) && claims.Some?
      && out.invoiceCall.value == InvoiceCall(catalog, claims.value, req, env)
    ensures Succeeded(out) ==>
      && claims.Some? && out.invoiceCall.Some?
      && provider(out.invoiceCall.value).Issued?
      && out.reply.response.id == env.orderId
      && out.store == Committed(s, catalog, claims.value, req, env, provider(out.invoiceCall.value).invoice)
  {
    Assemble(s, catalog, claims, req, env, provider, faults, true)
  }

  /** Order creation as the service performs it: the unknown-product branch
      returns a response with a nil error, so neither the commit nor the
      deferred rollback runs and the transaction stays open. */
  function CreateOrderAsWritten(s: Store, catalog: map<Id, Product>, claims: Option<Claims>, req: CreateOrderRequest, env: Env,
                                provider: InvoiceRequest -> InvoiceResult, faults: set<Step>): (out: CreateOutcome)
    requires ValidEnv(s, req, env)
    ensures Rejected(out) ==> out.store == s.(openTx := s.openTx + 1)
    ensures !Rejected(out) ==> out == CreateOrder(s, catalog, claims, req, env, provider, faults)
  {
    Assemble(s, catalog, claims, req, env, provider, faults, false)
  }

  /** The read-time status: an unpaid order past its deadline reads as
      expired; every other stored status reads as itself. */
  function EffectiveStatus(o: Order, now: Time): (st: Status)
    ensures st == Expired <==> o.status == Expired || (o.status == Unpaid && now > o.expiresAt)
    ensures st != Expired ==> st == o.status
  {
    if o.status == Unpaid && now > o.expiresAt then Expired else o.status
  }

  datatype AdminRow = AdminRow(id: Id, number: string, customer: string, status: Status, total: Money)

  datatype UserRow = UserRow(id: Id, number: string, customer: string, status: Status, total: Money, invoiceUrl: string)

  /** The error of a failing pagination query, passed through unchanged. */
  const PageFault: Failure := Fault("order page query")

  /** The admin listing of one repository page; `FetchPage` in `faults`
      stands for a failing pagination query. */
  function ListOrderAdmin(claims: Option<Claims>, page: seq<Order>, now: Time, faults: set<Step>): (r: Reply<seq<AdminRow>>)
    ensures r.Ok? <==> claims.Some? && claims.value.role == Admin && FetchPage !in faults
    ensures claims.Some? && claims.value.role != Admin ==> r == Err(Denied)
    ensures claims.Some? && claims.value.role == Admin && FetchPage in faults ==> r == Err(PageFault)
    ensures r.Ok? ==> |r.response| == |page| && forall i :: 0 <= i < |page| ==>
      && r.response[i].id == page[i].id
      && r.response[i].total == page[i].total
      && (r.response[i].status == Expired <==> page[i].status == Expired || (page[i].status == Unpaid && now > page[i].expiresAt))
      && (r.response[i].status != Expired ==> r.response[i].status == page[i].status)
  {
    if claims.None? then Err(NoClaims)
    else if claims.value.role != Admin then Err(Denied)
    else if FetchPage in faults then Err(PageFault)
    else Ok(seq(|page|, i requires 0 <= i < |page| =>
      AdminRow(page[i].id, page[i].number, page[i].fullName, EffectiveStatus(page[i], now), page[i].total)))
  }

  /** The caller's own listing of one repository page (the repository
      selects the caller's orders). */
  function ListOrder(claims: Option<Claims>, page: seq<Order>, now: Time, faults: set<Step>): (r: Reply<seq<UserRow>>)
    ensures r.Ok? <==> claims.Some? && FetchPage !in faults
    ensures claims.Some? && FetchPage in faults ==> r == Err(PageFault)
    ensures r.Ok? ==> |r.response| == |page| && forall i :: 0 <= i < |page| ==>
      && r.response[i].id == page[i].id
      && r.response[i].total == page[i].total
      && (r.response[i].status == Expired <==> page[i].status == Expired || (page[i].status == Unpaid && now > page[i].expiresAt))
      && (r.response[i].status != Expired ==> r.response[i].status == page[i].status)
      && (page[i].invoiceUrl.Some? ==> r.response[i].invoiceUrl == page[i].invoiceUrl.value)
      && (page[i].invoiceUrl.None? ==> r.response[i].invoiceUrl == "")
  {
    if claims.None? then Err(NoClaims)
    else if FetchPage in faults then Err(PageFault)
    else Ok(seq(|page|, i requires 0 <= i < |page| =>
      UserRow(page[i].id, page[i].number, page[i].fullName, EffectiveStatus(page[i], now), page[i].total,
              if page[i].invoiceUrl.Some? then page[i].invoiceUrl.value else "")))
  }

  /** The pricing loop of the transaction: walks the lines in request order,
      stops at the first product the catalog lacks, and otherwise sums
      price times quantity. */
  method PriceLines(lines: seq<Line>, catalog: map<Id, Product>) returns (missing: Option<Id>, total: Money)
    ensures missing == FirstMissing(lines, catalog)
    ensures missing.None? ==> total == Total(lines, catalog)
  {
    total := 0;
    var i := 0;
    while i < |lines|
      invariant 0 <= i <= |lines|
      invariant AllListed(lines[..i], catalog)
      invariant total == Total(lines[..i], catalog)
    {
      var p := lines[i];
      if p.productId !in catalog {
        FirstMissingAt(lines, catalog, i);
        return Some(p.productId), total;
      }
      assert lines[..i + 1][..i] == lines[..i];
      total := total + catalog[p.productId].price * p.quantity;
      i := i + 1;
    }
    assert lines[..i] == lines;
    missing := None;
  }

  /** The first unlisted line decides the rejection. */
  lemma {:induction false} FirstMissingAt(lines: seq<Line>, catalog: map<Id, Product>, i: nat)
    requires i < |lines| && lines[i].productId !in catalog && AllListed(lines[..i], catalog)
    ensures FirstMissing(lines, catalog) == Some(lines[i].productId)
  {
    if i > 0 {
      assert lines[..i][0] == lines[0];
      assert lines[1..][..i - 1] == lines[..i][1..];
      FirstMissingAt(lines[1..], catalog, i - 1);
    }
  }

  /** The total of two request lists joined is the sum of their totals, so a
      product listed on several lines is charged once per line. */
  lemma {:induction false} TotalConcat(a: seq<Line>, b: seq<Line>, catalog: map<Id, Product>)
    requires AllListed(a, catalog) && AllListed(b, catalog)
    ensures AllListed(a + b, catalog)
    ensures Total(a + b, catalog) == Total(a, catalog) + Total(b, catalog)
    decreases |b|
  {
    assert AllListed(a + b, catalog) by {
      forall i | 0 <= i < |a + b|
        ensures (a + b)[i].productId in catalog
      {
        if i >= |a| {
          assert (a + b)[i] == b[i - |a|];
        }
      }
    }
    if |b| == 0 {
      assert a + b == a;
    } else {
      var n := |b| - 1;
      assert AllListed(b[..n], catalog);
      assert (a + b)[..|a + b| - 1] == a + b[..n];
      TotalConcat(a, b[..n], catalog);
    }
  }

  /** The frozen items add up to the computed total. */
  lemma {:induction false} ItemsTotalIsTotal(lines: seq<Line>, catalog: map<Id, Product>, ids: seq<Id>, orderId: Id, now: Time, author: string)
    requires AllListed(lines, catalog) && |ids| == |lines|
    ensures ItemsTotal(ItemsFor(lines, catalog, ids, orderId, now, author)) == Total(lines, catalog)
  {
    if |lines| > 0 {
      var n := |lines| - 1;
      var items := ItemsFor(lines, catalog, ids, orderId, now, author);
      assert AllListed(lines[..n], catalog);
      assert items[..n] == ItemsFor(lines[..n], catalog, ids[..n], orderId, now, author);
      ItemsTotalIsTotal(lines[..n], catalog, ids[..n], orderId, now, author);
    }
  }

  function InvoiceItemsTotal(items: seq<InvoiceItem>): Money {
    if |items| == 0 then 0
    else InvoiceItemsTotal(items[..|items| - 1]) + items[|items| - 1].price * items[|items| - 1].quantity
  }

  lemma {:induction false} InvoiceItemsTotalIsItemsTotal(items: seq<OrderItem>)
    ensures InvoiceItemsTotal(InvoiceItems(items)) == ItemsTotal(items)
  {
    if |items| > 0 {
      var n := |items| - 1;
      assert InvoiceItems(items)[..n] == InvoiceItems(items[..n]);
      InvoiceItemsTotalIsItemsTotal(items[..n]);
    }
  }

  /** The amount billed equals the sum over the billed items. */
  lemma InvoiceAmountIsItemSum(s: Store, catalog: map<Id, Product>, claims: Option<Claims>, req: CreateOrderRequest, env: Env,
                               provider: InvoiceRequest -> InvoiceResult, faults: set<Step>)
    requires ValidEnv(s, req, env)
    ensures var out := CreateOrder(s, catalog, claims, req, env, provider, faults);
      out.invoiceCall.Some? ==> InvoiceItemsTotal(out.invoiceCall.value.items) == out.invoiceCall.value.amount
  {
    var out := CreateOrder(s, catalog, claims, req, env, provider, faults);
    if out.invoiceCall.Some? {
      var items := ItemsFor(req.products, catalog, env.itemIds, env.orderId, env.now, claims.value.fullName);
      assert out.invoiceCall.value.items == InvoiceItems(items);
      InvoiceItemsTotalIsItemsTotal(items);
      ItemsTotalIsTotal(req.products, catalog, env.itemIds, env.orderId, env.now, claims.value.fullName);
    }
  }

  /** The worked example: two units at 10.00 and one at 5.00 cost 25.00. */
  lemma TotalExample(a: Product, b: Product)
    requires a.id != b.id && a.price == 1000 && b.price == 500
    ensures var catalog := map[a.id := a, b.id := b];
      Total([Line(a.id, 2), Line(b.id, 1)], catalog) == 2500
  {
    var catalog := map[a.id := a, b.id := b];
    var lines := [Line(a.id, 2), Line(b.id, 1)];
    assert lines[..1] == [Line(a.id, 2)];
    assert lines[..1][..0] == [];
    assert Total(lines[..1][..0], catalog) == 0;
    assert Total(lines[..1], catalog) == 2000;
  }

  /** A creation succeeds exactly when the transaction started, every
      product is listed, the provider issues the invoice and no write
      fails. */
  lemma CreateOrderSucceedsIff(s: Store, catalog: map<Id, Product>, claims: Option<Claims>, req: CreateOrderRequest, env: Env,
                               provider: InvoiceRequest -> InvoiceResult, faults: set<Step>)
    requires ValidEnv(s, req, env)
    ensures Succeeded(CreateOrder(s, catalog, claims, req, env, provider, faults)) <==>
      && Started(s, claims, faults)
      && AllListed(req.products, catalog)
      && provider(InvoiceCall(catalog, claims.value, req, env)).Issued?
      && InsertOrder !in faults && InsertItem !in faults && UpdateNumbering !in faults && Commit !in faults
  {
  }

  /** An invoice issued before a failing write is left behind with no local
      order: the provider-side effect is not undone by the rollback. */
  lemma OrphanInvoice(s: Store, catalog: map<Id, Product>, claims: Option<Claims>, req: CreateOrderRequest, env: Env,
                      provider: InvoiceRequest -> InvoiceResult)
    requires ValidEnv(s, req, env) && Started(s, claims, {InsertOrder}) && AllListed(req.products, catalog)
    requires provider(InvoiceCall(catalog, claims.value, req, env)).Issued?
    ensures var out := CreateOrder(s, catalog, claims, req, env, provider, {InsertOrder});
      && out.reply.Err?
      && out.invoiceCall.Some? && provider(out.invoiceCall.value).Issued?
      && out.invoiceCall.value.externalId !in out.store.orders
  {
  }

  /** Ids a commit did not use are still free after it. */
  lemma CommitLeavesOtherIdsFree(s: Store, catalog: map<Id, Product>, c: Claims, req: CreateOrderRequest, env: Env, inv: Invoice,
                                 req2: CreateOrderRequest, env2: Env)
    requires ValidEnv(s, req, env) && AllListed(req.products, catalog)
    requires ValidEnv(s, req2, env2)
    requires env2.orderId != env.orderId
    requires forall i, j :: 0 <= i < |env2.itemIds| && 0 <= j < |env.itemIds| ==> env2.itemIds[i] != env.itemIds[j]
    ensures ValidEnv(Committed(s, catalog, c, req, env, inv), req2, env2)
  {
    var items := WriteItems(s.items, catalog, req, env, c.fullName);
    assert Committed(s, catalog, c, req, env, inv).items == items;
    assert Committed(s, catalog, c, req, env, inv).orders.Keys == s.orders.Keys + {env.orderId};
    forall i | 0 <= i < |env2.itemIds|
      ensures env2.itemIds[i] !in items
    {
      assert env2.itemIds[i] !in (set j | 0 <= j < |env.itemIds| :: env.itemIds[j]);
    }
  }

  /** Successive successful creations get different order numbers, whatever
      the dates and random parts drawn. A successful creation commits
      `Committed(...)` (see `CreateOrder`), so the lemma is stated on two
      commits in a row, the second drawing ids the first did not use. */
  lemma SuccessiveNumbersDiffer(s: Store, catalog: map<Id, Product>, c: Claims, req: CreateOrderRequest, env: Env, inv: Invoice,
                                catalog2: map<Id, Product>, c2: Claims, req2: CreateOrderRequest, env2: Env, inv2: Invoice)
    requires ValidEnv(s, req, env) && AllListed(req.products, catalog)
    requires ValidEnv(s, req2, env2) && AllListed(req2.products, catalog2)
    requires env2.orderId != env.orderId
    requires forall i, j :: 0 <= i < |env2.itemIds| && 0 <= j < |env.itemIds| ==> env2.itemIds[i] != env.itemIds[j]
    ensures var s1 := Committed(s, catalog, c, req, env, inv);
      ValidEnv(s1, req2, env2) &&
      var s2 := Committed(s1, catalog2, c2, req2, env2, inv2);
      s2.orders[env.orderId].number != s2.orders[env2.orderId].number
  {
    var s1 := Committed(s, catalog, c, req, env, inv);
    CommitLeavesOtherIdsFree(s, catalog, c, req, env, inv, req2, env2);
    var o1 := NewOrder(s, catalog, c, req, env, inv);
    var o2 := NewOrder(s1, catalog2, c2, req2, env2, inv2);
    var s2 := Committed(s1, catalog2, c2, req2, env2, inv2);
    assert s2.orders[env.orderId] == o1;
    assert Parse(o1.number) == Some(Parts(env.today, env.random, s.counter));
    assert Parse(o2.number) == Some(Parts(env2.today, env2.random, s.counter + 1));
  }

  /** Once expired, an order reads as expired at every later instant. */
  lemma ExpiryIsPermanent(o: Order, t1: Time, t2: Time)
    requires t1 <= t2 && EffectiveStatus(o, t1) == Expired
    ensures EffectiveStatus(o, t2) == Expired
  {
  }

  /** A freshly created order reads as unpaid for 24 hours after creation
      and as expired afterwards. Stated on the commit a successful creation
      writes. */
  lemma NewOrderExpiresAfterADay(s: Store, catalog: map<Id, Product>, c: Claims, req: CreateOrderRequest, env: Env, inv: Invoice, t: Time)
    requires ValidEnv(s, req, env) && AllListed(req.products, catalog)
    ensures var o := Committed(s, catalog, c, req, env, inv).orders[env.orderId];
      EffectiveStatus(o, t) == (if t > env.now + Day then Expired else Unpaid)
  {
  }

  /** For an admin, the admin and the user listing of the same page fail
      together and otherwise report the same status for the same stored
      order. */
  lemma ListingsAgree(admin: Claims, page: seq<Order>, now: Time, faults: set<Step>)
    requires admin.role == Admin
    ensures var a := ListOrderAdmin(Some(admin), page, now, faults);
      var u := ListOrder(Some(admin), page, now, faults);
      && (a.Ok? <==> u.Ok?)
      && (a.Ok? ==> forall i :: 0 <= i < |page| ==> a.response[i].status == u.response[i].status)
  {
  }

  /** As written, every rejected request leaves one more transaction open. */
  lemma RejectionLeaksTransaction(s: Store, catalog: map<Id, Product>, claims: Option<Claims>, req: CreateOrderRequest, env: Env,
                                  provider: InvoiceRequest -> InvoiceResult)
    requires ValidEnv(s, req, env) && Started(s, claims, {})
    requires !AllListed(req.products, catalog)
    ensures var out := CreateOrderAsWritten(s, catalog, claims, req, env, provider, {});
      Rejected(out) && out.store.openTx == s.openTx + 1
  {
  }

  /** As written, once a hundred transactions are left open no order can be
      created any more, even a valid one: the call blocks forever in
      `db.Begin()`, represented by the reply `PoolExhausted`, and writes
      nothing. The corrected creation never leaves one open. */
  lemma LeakedTransactionsBlockOrders(s: Store, catalog: map<Id, Product>, claims: Option<Claims>, req: CreateOrderRequest, env: Env,
                                      provider: InvoiceRequest -> InvoiceResult, faults: set<Step>)
    requires ValidEnv(s, req, env) && s.openTx == MaxOpenConns && claims.Some? && Begin !in faults
    ensures var out := CreateOrderAsWritten(s, catalog, claims, req, env, provider, faults);
      out.reply == Err(PoolExhausted) && out.store == s
  {
  }
}
