/** The shopping cart: one row per (user, product) with a quantity. Adding
    a product bumps the caller's row for it or creates a row with quantity
    one; delete and set-quantity act only on the caller's own rows. The
    table is a sequence of rows in insertion order, and a lookup returns the
    first matching row. */
module Cart {
  import opened Common

  datatype CartLine = CartLine(id: Id, userId: Id, productId: Id, quantity: int)

  /** Repository steps that may fail with a plain error. */
  datatype Step = ProductLookup | CartLookup | Insert | Update | Delete

  datatype CartResponse = CartResponse(base: Base, id: Id)

  datatype Outcome = Outcome(reply: Reply<CartResponse>, cart: seq<CartLine>)

  const ProductNotFound: string := "Produk tidak ditemukan"
  const CartNotFound: string := "Keranjang belanja tidak ditemukan"
  const NotOwnerDelete: string := "Anda tidak memiliki akses untuk menghapus keranjang belanja ini"
  const NotOwnerUpdate: string := "Anda tidak memiliki akses untuk mengubah keranjang belanja ini"
  const Added: string := "Berhasil menambahkan produk ke keranjang belanja"
  const Deleted: string := "Berhasil menghapus keranjang belanja"
  const Emptied: string := "Berhasil menghapus keranjang belanja, keranjang belanja anda kosong"
  const Changed: string := "Berhasil mengubah jumlah keranjang belanja"

  /** Two rows with different ids that do not belong to the same user and
      product. */
  predicate Apart(a: CartLine, b: CartLine) {
    a.id != b.id && (a.userId != b.userId || a.productId != b.productId)
  }

  /** Unique row ids and at most one row per user and product. */
  predicate Wf(cart: seq<CartLine>) {
    forall i, j :: 0 <= i < j < |cart| ==> Apart(cart[i], cart[j])
  }

  predicate HasId(cart: seq<CartLine>, id: Id) {
    exists i :: 0 <= i < |cart| && cart[i].id == id
  }

  /** The first row with the given id. */
  function FindById(cart: seq<CartLine>, id: Id): (k: Option<nat>)
    ensures k.Some? ==> k.value < |cart| && cart[k.value].id == id
    ensures k.Some? ==> forall j :: 0 <= j < k.value ==> cart[j].id != id
    ensures k.None? <==> !HasId(cart, id)
  {
    if |cart| == 0 then None
    else if cart[0].id == id then Some(0)
    else match FindById(cart[1..], id)
      case None =>
        assert forall i :: 1 <= i < |cart| ==> cart[i] == cart[1..][i - 1];
        None
      case Some(k) => Some(k + 1)
  }

  /** The first row of `user` for `product`. */
  function FindFor(cart: seq<CartLine>, user: Id, product: Id): (k: Option<nat>)
    ensures k.Some? ==> k.value < |cart| && cart[k.value].userId == user && cart[k.value].productId == product
    ensures k.Some? ==> forall j :: 0 <= j < k.value ==> !(cart[j].userId == user && cart[j].productId == product)
    ensures k.None? ==> forall j :: 0 <= j < |cart| ==> !(cart[j].userId == user && cart[j].productId == product)
  {
    if |cart| == 0 then None
    else if cart[0].userId == user && cart[0].productId == product then Some(0)
    else match FindFor(cart[1..], user, product)
      case None =>
        assert forall i :: 1 <= i < |cart| ==> cart[i] == cart[1..][i - 1];
        None
      case Some(k) => Some(k + 1)
  }

  /** The table without the rows carrying `id`, the rest in order. */
  function Remove(cart: seq<CartLine>, id: Id): (r: seq<CartLine>)
    ensures |r| <= |cart|
    ensures forall l :: l in r <==> l in cart && l.id != id
  {
    if |cart| == 0 then []
    else if cart[0].id == id then Remove(cart[1..], id)
    else [cart[0]] + Remove(cart[1..], id)
  }

  function Success(message: string, id: Id): Reply<CartResponse> {
    Ok(CartResponse(Base.Success(message), id))
  }

  function Refused(base: Base): Reply<CartResponse> {
    Ok(CartResponse(base, ""))
  }

  predicate Succeeded(out: Outcome) {
    out.reply.Ok? && out.reply.response.base.Success?
  }

  /** Adds one unit of a product to the caller's cart. `freshId` is the id
      the uuid generator yields for a new row. */
  function AddProductToCart(cart: seq<CartLine>, products: set<Id>, claims: Option<Claims>, productId: Id, freshId: Id,
                            faults: set<Step>): (out: Outcome)
    requires !HasId(cart, freshId)
    ensures !Succeeded(out) ==> out.cart == cart
    ensures claims.Some? && ProductLookup !in faults && productId !in products ==>
      out.reply == Refused(NotFound(ProductNotFound))
    ensures Succeeded(out) <==>
      && claims.Some? && productId in products
      && ProductLookup !in faults && CartLookup !in faults
      && (if FindFor(cart, claims.value.subject, productId).Some? then Update !in faults else Insert !in faults)
    ensures Succeeded(out) && FindFor(cart, claims.value.subject, productId).Some? ==>
      var k := FindFor(cart, claims.value.subject, productId).value;
      && out.cart == cart[k := cart[k].(quantity := cart[k].quantity + 1)]
      && out.reply.response.id == cart[k].id
    ensures Succeeded(out) && FindFor(cart, claims.value.subject, productId).None? ==>
      && out.cart == cart + [CartLine(freshId, claims.value.subject, productId, 1)]
      && out.reply.response.id == freshId
  {
    if claims.None? then Outcome(Err(NoClaims), cart)
    else if ProductLookup in faults then Outcome(Err(Fault("get product")), cart)
    else if productId !in products then Outcome(Refused(NotFound(ProductNotFound)), cart)
    else if CartLookup in faults then Outcome(Err(Fault("get cart")), cart)
    else match FindFor(cart, claims.value.subject, productId)
      case Some(k) =>
        if Update in faults then Outcome(Err(Fault("update cart")), cart)
        else Outcome(Success(Added, cart[k].id), cart[k := cart[k].(quantity := cart[k].quantity + 1)])
      case None =>
        if Insert in faults then Outcome(Err(Fault("create cart")), cart)
        else Outcome(Success(Added, freshId), cart + [CartLine(freshId, claims.value.subject, productId, 1)])
  }

  /** Removes one of the caller's rows. */
  function DeleteCart(cart: seq<CartLine>, claims: Option<Claims>, cartId: Id, faults: set<Step>): (out: Outcome)
    ensures !Succeeded(out) ==> out.cart == cart
    ensures claims.Some? && CartLookup !in faults && !HasId(cart, cartId) ==>
      out.reply == Refused(NotFound(CartNotFound))
    ensures (claims.Some? && CartLookup !in faults && HasId(cart, cartId)
      && cart[FindById(cart, cartId).value].userId != claims.value.subject) ==>
      out.reply == Refused(BadRequest(NotOwnerDelete))
    ensures Succeeded(out) <==>
      && claims.Some? && CartLookup !in faults && Delete !in faults && HasId(cart, cartId)
      && cart[FindById(cart, cartId).value].userId == claims.value.subject
    ensures Succeeded(out) ==> out.cart == Remove(cart, cartId)
  {
    if claims.None? then Outcome(Err(NoClaims), cart)
    else if CartLookup in faults then Outcome(Err(Fault("get cart")), cart)
    else match FindById(cart, cartId)
      case None => Outcome(Refused(NotFound(CartNotFound)), cart)
      case Some(k) =>
        if cart[k].userId != claims.value.subject then Outcome(Refused(BadRequest(NotOwnerDelete)), cart)
        else if Delete in faults then Outcome(Err(Fault("delete cart")), cart)
        else Outcome(Success(Deleted, ""), Remove(cart, cartId))
  }

  /** Sets the quantity of one of the caller's rows, quantity 0 deleting
      it, either reporting a failed delete (`reportDelete`) or ignoring it. */
  function SetQuantity(cart: seq<CartLine>, claims: Option<Claims>, cartId: Id, newQuantity: int, faults: set<Step>,
                       reportDelete: bool): Outcome
  {
    if claims.None? then Outcome(Err(NoClaims), cart)
    else if CartLookup in faults then Outcome(Err(Fault("get cart")), cart)
    else match FindById(cart, cartId)
      case None => Outcome(Refused(NotFound(CartNotFound)), cart)
      case Some(k) =>
        if cart[k].userId != claims.value.subject then Outcome(Refused(BadRequest(NotOwnerUpdate)), cart)
        else if newQuantity == 0 then
          if Delete in faults then
            if reportDelete then Outcome(Err(Fault("delete cart")), cart)
            else Outcome(Success(Emptied, ""), cart)
          else Outcome(Success(Emptied, ""), Remove(cart, cartId))
        else if Update in faults then Outcome(Err(Fault("update cart")), cart)
        else Outcome(Success(Changed, ""), cart[k := cart[k].(quantity := newQuantity)])
  }

  /** Setting a quantity with every failure reported: a success means the
      row now holds exactly the requested quantity, or is gone for 0. */
  function UpdateCartQuantity(cart: seq<CartLine>, claims: Option<Claims>, cartId: Id, newQuantity: int, faults: set<Step>): (out: Outcome)
    ensures !Succeeded(out) ==> out.cart == cart
    ensures claims.Some? && CartLookup !in faults && !HasId(cart, cartId) ==>
      out.reply == Refused(NotFound(CartNotFound))
    ensures (claims.Some? && CartLookup !in faults && HasId(cart, cartId)
      && cart[FindById(cart, cartId).value].userId != claims.value.subject) ==>
      out.reply == Refused(BadRequest(NotOwnerUpdate))
    ensures Succeeded(out) <==>
      && claims.Some? && CartLookup !in faults && HasId(cart, cartId)
      && cart[FindById(cart, cartId).value].userId == claims.value.subject
      && (if newQuantity == 0 then Delete !in faults else Update !in faults)
    ensures Succeeded(out) && newQuantity == 0 ==> out.cart == Remove(cart, cartId) && !HasId(out.cart, cartId)
    ensures Succeeded(out) && newQuantity != 0 ==>
      var k := FindById(cart, cartId).value;
      out.cart == cart[k := cart[k].(quantity := newQuantity)]
  {
    RemoveDropsId(cart, cartId);
    SetQuantity(cart, claims, cartId, newQuantity, faults, true)
  }

  /** Setting a quantity as the service does it: the error of the delete
      behind quantity 0 is discarded, so the caller is told the row is gone
      even when it is still there. */
  function UpdateCartQuantityAsWritten(cart: seq<CartLine>, claims: Option<Claims>, cartId: Id, newQuantity: int, faults: set<Step>): (out: Outcome)
    ensures newQuantity != 0 || Delete !in faults ==> out == UpdateCartQuantity(cart, claims, cartId, newQuantity, faults)
    ensures newQuantity == 0 && Delete in faults ==>
      out.cart == cart && (Succeeded(out) <==> Succeeded(UpdateCartQuantity(cart, claims, cartId, 0, faults - {Delete})))
  {
    SetQuantity(cart, claims, cartId, newQuantity, faults, false)
  }

  lemma RemoveDropsId(cart: seq<CartLine>, id: Id)
    ensures !HasId(Remove(cart, id), id)
  {
    var r := Remove(cart, id);
    forall i | 0 <= i < |r|
      ensures r[i].id != id
    {
      assert r[i] in r;
    }
  }

  lemma WfTail(cart: seq<CartLine>)
    requires Wf(cart) && |cart| > 0
    ensures Wf(cart[1..])
    ensures forall l :: l in cart[1..] ==> Apart(cart[0], l)
  {
    assert forall i :: 0 <= i < |cart[1..]| ==> cart[1..][i] == cart[i + 1];
  }

  lemma WfCons(x: CartLine, rest: seq<CartLine>)
    requires Wf(rest) && forall l :: l in rest ==> Apart(x, l)
    ensures Wf([x] + rest)
  {
    var r := [x] + rest;
    forall i, j | 0 <= i < j < |r|
      ensures Apart(r[i], r[j])
    {
      assert r[j] == rest[j - 1];
      if i > 0 {
        assert r[i] == rest[i - 1];
      }
    }
  }

  /** Removing rows keeps the table well formed. */
  lemma {:induction false} RemovePreservesWf(cart: seq<CartLine>, id: Id)
    requires Wf(cart)
    ensures Wf(Remove(cart, id))
  {
    if |cart| > 0 {
      WfTail(cart);
      RemovePreservesWf(cart[1..], id);
      if cart[0].id != id {
        WfCons(cart[0], Remove(cart[1..], id));
      }
    }
  }

  /** Adding keeps "one row per user and product" and unique row ids. */
  lemma AddPreservesWf(cart: seq<CartLine>, products: set<Id>, claims: Option<Claims>, productId: Id, freshId: Id, faults: set<Step>)
    requires Wf(cart) && !HasId(cart, freshId)
    ensures Wf(AddProductToCart(cart, products, claims, productId, freshId, faults).cart)
  {
    var out := AddProductToCart(cart, products, claims, productId, freshId, faults);
    if Succeeded(out) && FindFor(cart, claims.value.subject, productId).None? {
      var r := out.cart;
      forall i, j | 0 <= i < j < |r|
        ensures Apart(r[i], r[j])
      {
        if j == |cart| {
          assert r[i] == cart[i];
        }
      }
    }
  }

  /** Deleting keeps the table well formed. */
  lemma DeletePreservesWf(cart: seq<CartLine>, claims: Option<Claims>, cartId: Id, faults: set<Step>)
    requires Wf(cart)
    ensures Wf(DeleteCart(cart, claims, cartId, faults).cart)
  {
    RemovePreservesWf(cart, cartId);
  }

  /** Setting a quantity keeps the table well formed. */
  lemma UpdatePreservesWf(cart: seq<CartLine>, claims: Option<Claims>, cartId: Id, newQuantity: int, faults: set<Step>)
    requires Wf(cart)
    ensures Wf(UpdateCartQuantity(cart, claims, cartId, newQuantity, faults).cart)
  {
    RemovePreservesWf(cart, cartId);
  }

  /** Adding twice for the same caller and product leaves one row with
      quantity two, not two rows. */
  lemma AddTwiceMerges(cart: seq<CartLine>, products: set<Id>, c: Claims, productId: Id, id1: Id, id2: Id)
    requires Wf(cart) && !HasId(cart, id1) && !HasId(cart, id2) && id1 != id2
    requires productId in products && FindFor(cart, c.subject, productId).None?
    ensures var once := AddProductToCart(cart, products, Some(c), productId, id1, {}).cart;
      var twice := AddProductToCart(once, products, Some(c), productId, id2, {});
      twice.reply.response.id == id1
      && twice.cart == cart + [CartLine(id1, c.subject, productId, 2)]
  {
    var once := AddProductToCart(cart, products, Some(c), productId, id1, {}).cart;
    assert !HasId(once, id2);
    assert once[|cart|].userId == c.subject && once[|cart|].productId == productId;
    var k := FindFor(once, c.subject, productId);
    assert k.Some?;
    assert forall j :: 0 <= j < |cart| ==> once[j] == cart[j];
    assert k.value == |cart|;
  }

  /** Deleting by the owner removes exactly that row: every other row is
      kept. */
  lemma DeleteKeepsOtherRows(cart: seq<CartLine>, claims: Option<Claims>, cartId: Id, faults: set<Step>, l: CartLine)
    requires Succeeded(DeleteCart(cart, claims, cartId, faults))
    requires l in cart && l.id != cartId
    ensures l in DeleteCart(cart, claims, cartId, faults).cart
    ensures !HasId(DeleteCart(cart, claims, cartId, faults).cart, cartId)
  {
    RemoveDropsId(cart, cartId);
  }

  /** The discarded delete error: a store that fails the delete still gets
      a success reply for quantity 0, and the row is still there. */
  lemma IgnoredDeleteFailure(l: CartLine, c: Claims)
    requires l.userId == c.subject
    ensures var out := UpdateCartQuantityAsWritten([l], Some(c), l.id, 0, {Delete});
      Succeeded(out) && HasId(out.cart, l.id)
    ensures !Succeeded(UpdateCartQuantity([l], Some(c), l.id, 0, {Delete}))
  {
    assert [l][0] == l;
  }
}
