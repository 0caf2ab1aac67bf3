/**
 * The marketplace: an order debits the buyer, credits every seller and marks
 * the products SOLD in one transaction.
 */
module Marketplace {
  import opened Common
  import opened Lists
  import opened Wallet

  datatype ProductStatus = DRAFT | ACTIVE | SOLD | EXPIRED | REMOVED

  datatype Product = Product(id: Id, sellerId: Id, priceCents: int, status: ProductStatus)

  datatype Item = Item(productId: Id, qty: int)

  datatype OrderItem = OrderItem(productId: Id, qty: int, unitPriceCents: int)

  datatype Order = Order(id: Id, buyerId: Id, totalCents: int, shippingCents: int, items: seq<OrderItem>)

  datatype OrderError = NoOperatorProfile | Unavailable | OwnProduct | InsufficientFunds | CreditFailed

  /** The tables an order reads and writes. */
  datatype Shop = Shop(books: Books, products: seq<Product>, orders: seq<Order>)

  // ---------- Constraints the schema and the request parser guarantee ----------

  function ProductId(): Product -> Id {
    (p: Product) => p.id
  }

  function ItemId(): Item -> Id {
    (i: Item) => i.productId
  }

  /** Product ids are a primary key and prices are positive. */
  predicate CatalogOk(products: seq<Product>) {
    Distinct(Map(products, ProductId())) && forall i :: 0 <= i < |products| ==> products[i].priceCents > 0
  }

  predicate ItemsOk(items: seq<Item>) {
    items != [] && forall i :: 0 <= i < |items| ==> items[i].qty > 0
  }

  // ---------- Arithmetic ----------

  /** Math.round(t * 0.05): the whole cent nearest to 5 percent, halves rounded up. */
  function ShippingCents(t: int): (r: int)
    ensures 20 * r - 10 <= t < 20 * r + 10
  {
    (t + 10) / 20
  }

  /** Math.round(s * 0.9): the whole cent nearest to 90 percent, halves rounded up. */
  function SellerCut(s: int): (r: int)
    ensures 10 * r - 5 <= 9 * s < 10 * r + 5
  {
    (9 * s + 5) / 10
  }

  predicate Wanted(items: seq<Item>, p: Product) {
    p.status == ACTIVE && p.id in Elements(Map(items, ItemId()))
  }

  /** findMany: the ACTIVE products among the requested ids, in table order. */
  function Found(products: seq<Product>, items: seq<Item>): seq<Product> {
    Filter(products, p => Wanted(items, p))
  }

  /** productMap.get(id).priceCents. */
  function PriceOf(found: seq<Product>, id: Id): int {
    if found == [] then 0 else if found[0].id == id then found[0].priceCents else PriceOf(found[1..], id)
  }

  /** items.find(i => i.productId === id).qty. */
  function QtyOf(items: seq<Item>, id: Id): int {
    if items == [] then 0 else if items[0].productId == id then items[0].qty else QtyOf(items[1..], id)
  }

  /** What the loop over products computes from a product, given f of its subtotal. */
  function PerProduct(items: seq<Item>, f: int -> int): Product -> int {
    (p: Product) => f(Subtotal(items, p))
  }

  /** The same of a requested item. */
  function PerItem(found: seq<Product>, f: int -> int): Item -> int {
    (i: Item) => f(PriceOf(found, i.productId) * i.qty)
  }

  function Whole(): int -> int {
    s => s
  }

  function Cut(): int -> int {
    s => SellerCut(s)
  }

  function Fee(): int -> int {
    s => s - SellerCut(s)
  }

  function Subtotal(items: seq<Item>, p: Product): int {
    p.priceCents * QtyOf(items, p.id)
  }

  /** The total, summed over the requested items. */
  function TotalCents(found: seq<Product>, items: seq<Item>): int {
    Sum(items, PerItem(found, Whole()))
  }

  function SaleEntry(items: seq<Item>, p: Product, orderId: Id): Entry {
    CreditEntry(p.sellerId, SellerCut(Subtotal(items, p)), MARKETPLACE_SALE, Some(orderId))
  }

  /** One credit per product found, in table order; None when one does not fit. */
  function PaySellers(b: Books, found: seq<Product>, items: seq<Item>, orderId: Id): Option<Books> {
    if found == [] then Some(b)
    else
      var paid := PaySellers(b, found[..|found| - 1], items, orderId);
      if paid.None? then None
      else
        var e := SaleEntry(items, found[|found| - 1], orderId);
        var o := Opened(paid.value, e.wallet);
        if CanPost(o.balances[e.wallet], e.amountCents) then Some(Posted(o, e)) else None
  }

  function SellOne(items: seq<Item>): Product -> Product {
    (p: Product) => if p.id in Elements(Map(items, ItemId())) then p.(status := SOLD) else p
  }

  function MarkSold(products: seq<Product>, items: seq<Item>): seq<Product> {
    Map(products, SellOne(items))
  }

  function OrderItems(found: seq<Product>, items: seq<Item>): seq<OrderItem> {
    Map(items, (i: Item) => OrderItem(i.productId, i.qty, PriceOf(found, i.productId)))
  }

  function OrderOf(found: seq<Product>, buyer: Id, items: seq<Item>, orderId: Id): Order {
    var total := TotalCents(found, items);
    Order(orderId, buyer, total + ShippingCents(total), ShippingCents(total), OrderItems(found, items))
  }

  function PurchaseEntry(found: seq<Product>, buyer: Id, items: seq<Item>, orderId: Id): Entry {
    DebitEntry(buyer, OrderOf(found, buyer, items, orderId).totalCents, MARKETPLACE_PURCHASE, Some(orderId))
  }

  /** The whole transaction for a buyer whose wallet is open. */
  function PlaceOrder(s: Shop, buyer: Id, items: seq<Item>, orderId: Id): Result<Shop, OrderError>
    requires buyer in s.books.balances
  {
    var found := Found(s.products, items);
    var order := OrderOf(found, buyer, items, orderId);
    if |found| != |items| then Err(Unavailable)
    else if exists i :: 0 <= i < |found| && found[i].sellerId == buyer then Err(OwnProduct)
    else if s.books.balances[buyer] < order.totalCents then Err(InsufficientFunds)
    else
      var paid := PaySellers(Posted(s.books, PurchaseEntry(found, buyer, items, orderId)), found, items, orderId);
      if paid.None? then Err(CreditFailed)
      else Ok(Shop(paid.value, MarkSold(s.products, items), s.orders + [order]))
  }

  // ---------- Items and products are the same rows ----------

  lemma {:induction false} PriceOfEach(found: seq<Product>, k: nat)
    requires Distinct(Map(found, ProductId())) && k < |found|
    ensures PriceOf(found, found[k].id) == found[k].priceCents
  {
    var ids := Map(found, ProductId());
    if k > 0 {
      assert ids[0] != ids[k];
      assert Map(found[1..], ProductId()) == ids[1..];
      PriceOfEach(found[1..], k - 1);
    }
  }

  lemma {:induction false} QtyOfEach(items: seq<Item>, k: nat)
    requires Distinct(Map(items, ItemId())) && k < |items|
    ensures QtyOf(items, items[k].productId) == items[k].qty
  {
    var ids := Map(items, ItemId());
    if k > 0 {
      assert ids[0] != ids[k];
      assert Map(items[1..], ItemId()) == ids[1..];
      QtyOfEach(items[1..], k - 1);
    }
  }

  /**
   * If as many ACTIVE products were found as items were asked for, the items
   * name pairwise distinct products and the products found are exactly those.
   */
  lemma FoundAreTheItems(products: seq<Product>, items: seq<Item>)
    requires CatalogOk(products) && |Found(products, items)| == |items|
    ensures Distinct(Map(items, ItemId()))
    ensures multiset(Map(Found(products, items), ProductId())) == multiset(Map(items, ItemId()))
  {
    var found := Found(products, items);
    var fids, iids := Map(found, ProductId()), Map(items, ItemId());
    FilterKeepsKeys(products, p => Wanted(items, p), ProductId());
    forall x | x in fids ensures x in iids {
      var k :| 0 <= k < |fids| && fids[k] == x;
      assert found[k] in found && Wanted(items, found[k]);
    }
    CountElements(fids);
    CountElements(iids);
    SubsetOfSameSize(Elements(fids), Elements(iids));
    SameElements(fids, iids);
  }

  /**
   * The seller loop visits each requested item exactly once: any amount that
   * depends on the subtotal sums to the same over the products found, in any
   * table order, as over the items, in request order.
   */
  lemma SellerLoopVisitsEachItem(products: seq<Product>, items: seq<Item>, f: int -> int)
    requires CatalogOk(products) && |Found(products, items)| == |items|
    ensures var found := Found(products, items);
            Sum(found, PerProduct(items, f)) == Sum(items, PerItem(found, f))
  {
    var found := Found(products, items);
    var byId := (id: Id) => f(PriceOf(found, id) * QtyOf(items, id));
    FoundAreTheItems(products, items);
    FilterKeepsKeys(products, p => Wanted(items, p), ProductId());
    forall p | p in found ensures PerProduct(items, f)(p) == byId(p.id) {
      var k :| 0 <= k < |found| && found[k] == p;
      PriceOfEach(found, k);
      assert Subtotal(items, p) == PriceOf(found, p.id) * QtyOf(items, p.id);
    }
    forall i | i in items ensures PerItem(found, f)(i) == byId(i.productId) {
      var k :| 0 <= k < |items| && items[k] == i;
      QtyOfEach(items, k);
    }
    SumOfMap(found, ProductId(), byId, PerProduct(items, f));
    SumOfMap(items, ItemId(), byId, PerItem(found, f));
    SumPermutation(Map(found, ProductId()), Map(items, ItemId()), byId);
  }

  // ---------- Where the money goes ----------

  /** The part of an order no wallet receives: shipping and the fees. */
  function PlatformTake(found: seq<Product>, items: seq<Item>): int {
    ShippingCents(TotalCents(found, items)) + Sum(items, PerItem(found, Fee()))
  }

  lemma {:induction false} SellersReceive(b: Books, found: seq<Product>, items: seq<Item>, orderId: Id)
    requires PaySellers(b, found, items, orderId).Some?
    ensures Total(PaySellers(b, found, items, orderId).value.balances)
            == Total(b.balances) + Sum(found, PerProduct(items, Cut()))
    decreases |found|
  {
    if found != [] {
      var n := |found| - 1;
      SellersReceive(b, found[..n], items, orderId);
      PostingMovesItsAmount(PaySellers(b, found[..n], items, orderId).value, SaleEntry(items, found[n], orderId));
      assert found == found[..n] + [found[n]];
      SumAppend(found[..n], [found[n]], PerProduct(items, Cut()));
    }
  }

  lemma {:induction false} SumOfDifferences(items: seq<Item>, a: Item -> int, b: Item -> int, c: Item -> int)
    requires forall i :: i in items ==> c(i) == a(i) - b(i)
    ensures Sum(items, c) == Sum(items, a) - Sum(items, b)
  {
    if items != [] {
      SumOfDifferences(items[1..], a, b, c);
    }
  }

  /** A successful order takes exactly the platform's share out of all wallets together. */
  lemma OrderConservesMoney(s: Shop, buyer: Id, items: seq<Item>, orderId: Id)
    requires buyer in s.books.balances && CatalogOk(s.products)
    requires PlaceOrder(s, buyer, items, orderId).Ok?
    ensures Total(PlaceOrder(s, buyer, items, orderId).value.books.balances)
            == Total(s.books.balances) - PlatformTake(Found(s.products, items), items)
  {
    var found := Found(s.products, items);
    var debit := PurchaseEntry(found, buyer, items, orderId);
    assert Opened(s.books, buyer) == s.books;
    PostingMovesItsAmount(s.books, debit);
    SellersReceive(Posted(s.books, debit), found, items, orderId);
    SellerLoopVisitsEachItem(s.products, items, Cut());
    SumOfDifferences(items, PerItem(found, Whole()), PerItem(found, Cut()), PerItem(found, Fee()));
  }

  lemma {:induction false} FeesNearTenPercent(items: seq<Item>, sub: Item -> int, fee: Item -> int)
    requires forall i :: i in items ==> sub(i) >= 0 && fee(i) == sub(i) - SellerCut(sub(i))
    ensures 0 <= Sum(items, fee)
    ensures Sum(items, sub) - 5 * |items| <= 10 * Sum(items, fee) <= Sum(items, sub) + 5 * |items|
    ensures Sum(items, sub) >= 0
  {
    if items != [] {
      FeesNearTenPercent(items[1..], sub, fee);
      assert items[0] in items;
    }
  }

  lemma {:induction false} PricesNotNegative(found: seq<Product>, id: Id)
    requires forall k :: 0 <= k < |found| ==> found[k].priceCents > 0
    ensures PriceOf(found, id) >= 0
  {
    if found != [] {
      PricesNotNegative(found[1..], id);
    }
  }

  /** The take is not negative and within (n + 1) / 2 cents of 15 percent of the item total. */
  lemma TakeIsFifteenPercent(products: seq<Product>, items: seq<Item>)
    requires CatalogOk(products) && ItemsOk(items)
    ensures var found := Found(products, items); var take := PlatformTake(found, items);
        var total := TotalCents(found, items);
            0 <= take && -10 * (|items| + 1) <= 20 * take - 3 * total <= 10 * (|items| + 1)
  {
    var found := Found(products, items);
    var sub, fee := PerItem(found, Whole()), PerItem(found, Fee());
    assert forall k :: 0 <= k < |found| ==> found[k] in found;
    forall i | i in items ensures sub(i) >= 0 {
      PricesNotNegative(found, i.productId);
    }
    FeesNearTenPercent(items, sub, fee);
  }

  // ---------- Every wallet, one by one ----------

  function ShareOf(items: seq<Item>, w: Id): Product -> int {
    (p: Product) => if p.sellerId == w then SellerCut(Subtotal(items, p)) else 0
  }

  lemma {:induction false} SellerReceives(b: Books, found: seq<Product>, items: seq<Item>, orderId: Id, w: Id)
    requires PaySellers(b, found, items, orderId).Some?
    ensures BalanceOf(PaySellers(b, found, items, orderId).value, w) == BalanceOf(b, w) + Sum(found, ShareOf(items, w))
    decreases |found|
  {
    if found != [] {
      var n := |found| - 1;
      SellerReceives(b, found[..n], items, orderId, w);
      assert found == found[..n] + [found[n]];
      SumAppend(found[..n], [found[n]], ShareOf(items, w));
    }
  }

  /** The buyer pays the order total; each seller gets the cuts of their own products; no one else is touched. */
  lemma EachWalletAfterOrder(s: Shop, buyer: Id, items: seq<Item>, orderId: Id, w: Id)
    requires buyer in s.books.balances && CatalogOk(s.products)
    requires PlaceOrder(s, buyer, items, orderId).Ok?
    ensures var found := Found(s.products, items); var after := PlaceOrder(s, buyer, items, orderId).value;
            BalanceOf(after.books, w) == BalanceOf(s.books, w) + Sum(found, ShareOf(items, w))
              - (if w == buyer then TotalCents(found, items) + ShippingCents(TotalCents(found, items)) else 0)
    ensures Sum(Found(s.products, items), ShareOf(items, buyer)) == 0
    ensures forall k, p :: 0 <= k < |items| && p in s.products && p.id == items[k].productId ==>
      Subtotal(items, p) == p.priceCents * items[k].qty
  {
    var found := Found(s.products, items);
    forall k, p | 0 <= k < |items| && p in s.products && p.id == items[k].productId
      ensures Subtotal(items, p) == p.priceCents * items[k].qty
    {
      PriceIsOfCatalogue(s.products, items, k, p);
    }
    SellerReceives(Posted(s.books, PurchaseEntry(found, buyer, items, orderId)), found, items, orderId, w);
    NoShare(found, items, buyer);
  }

  function LineTotal(): OrderItem -> int {
    (l: OrderItem) => l.unitPriceCents * l.qty
  }

  /** Each line has the id and quantity of its item, and the price of that product in the catalogue. */
  predicate LinesShow(lines: seq<OrderItem>, products: seq<Product>, items: seq<Item>) {
    && |lines| == |items|
    && forall k :: 0 <= k < |items| ==>
      && lines[k].productId == items[k].productId && lines[k].qty == items[k].qty
      && forall p :: p in products && p.id == items[k].productId ==> lines[k].unitPriceCents == p.priceCents
  }

  /**
   * What a successful order leaves behind: one order whose lines are the items
   * at catalogue prices and add up to its total less 5 percent shipping, and
   * exactly the ordered products, ACTIVE until then, are SOLD.
   */
  lemma OrderRecordsTheSale(s: Shop, buyer: Id, items: seq<Item>, orderId: Id)
    requires buyer in s.books.balances && CatalogOk(s.products)
    requires PlaceOrder(s, buyer, items, orderId).Ok?
    ensures var after := PlaceOrder(s, buyer, items, orderId).value;
            && |after.orders| == |s.orders| + 1 && after.orders[..|s.orders|] == s.orders
            && (var order := after.orders[|s.orders|]; var total := Sum(order.items, LineTotal());
                && order.id == orderId && order.buyerId == buyer && LinesShow(order.items, s.products, items)
                && order.totalCents == total + order.shippingCents
                && 20 * order.shippingCents - 10 <= total < 20 * order.shippingCents + 10)
            && |after.products| == |s.products|
            && forall k :: 0 <= k < |s.products| ==>
                 if s.products[k].id in Map(items, ItemId())
                 then s.products[k].status == ACTIVE && s.products[k].sellerId != buyer &&
                     after.products[k] == s.products[k].(status := SOLD)
                 else after.products[k] == s.products[k]
  {
    var found := Found(s.products, items);
    LinesAddUp(found, items);
    LinesAreItems(s.products, items);
    forall k | 0 <= k < |s.products| && s.products[k].id in Map(items, ItemId())
      ensures s.products[k].status == ACTIVE && s.products[k].sellerId != buyer
    {
      OrderedIsFound(s.products, items, k);
    }
  }

  lemma LinesAreItems(products: seq<Product>, items: seq<Item>)
    requires CatalogOk(products) && |Found(products, items)| == |items|
    ensures LinesShow(OrderItems(Found(products, items), items), products, items)
  {
    var found := Found(products, items);
    forall k, p | 0 <= k < |items| && p in products && p.id == items[k].productId
      ensures PriceOf(found, items[k].productId) == p.priceCents
    {
      PriceIsOfCatalogue(products, items, k, p);
    }
  }

  lemma PriceIsOfCatalogue(products: seq<Product>, items: seq<Item>, k: nat, p: Product)
    requires CatalogOk(products) && |Found(products, items)| == |items|
    requires k < |items| && p in products && p.id == items[k].productId
    ensures PriceOf(Found(products, items), p.id) == p.priceCents && Subtotal(items, p) == p.priceCents * items[k].qty
  {
    var found := Found(products, items);
    assert Map(items, ItemId())[k] == p.id;
    var i :| 0 <= i < |products| && products[i] == p;
    OrderedIsFound(products, items, i);
    var j :| 0 <= j < |found| && found[j] == p;
    FilterKeepsKeys(products, q => Wanted(items, q), ProductId());
    PriceOfEach(found, j);
    FoundAreTheItems(products, items);
    QtyOfEach(items, k);
  }

  lemma LinesAddUp(found: seq<Product>, items: seq<Item>)
    ensures Sum(OrderItems(found, items), LineTotal()) == TotalCents(found, items)
  {
    SumOfMap(items, (i: Item) => OrderItem(i.productId, i.qty, PriceOf(found, i.productId)), LineTotal(),
        PerItem(found, Whole()));
  }

  /** If every item was found, a product of the catalogue that was asked for is one of those found. */
  lemma OrderedIsFound(products: seq<Product>, items: seq<Item>, k: nat)
    requires CatalogOk(products) && |Found(products, items)| == |items|
    requires k < |products| && products[k].id in Map(items, ItemId())
    ensures products[k] in Found(products, items)
  {
    var found := Found(products, items);
    var ids := Map(found, ProductId());
    FoundAreTheItems(products, items);
    assert products[k].id in multiset(Map(items, ItemId())) && products[k].id in multiset(ids);
    var j :| 0 <= j < |found| && ids[j] == products[k].id;
    assert found[j] in found;
    var i :| 0 <= i < |products| && products[i] == found[j];
    assert Map(products, ProductId())[i] == Map(products, ProductId())[k];
  }

  lemma {:induction false} NoShare(found: seq<Product>, items: seq<Item>, w: Id)
    requires forall i :: 0 <= i < |found| ==> found[i].sellerId != w
    ensures Sum(found, ShareOf(items, w)) == 0
  {
    if found != [] {
      NoShare(found[1..], items, w);
    }
  }

  // ---------- When an order goes through ----------

  /** The items name different products, all of them ACTIVE in the catalogue. */
  predicate AllAvailable(products: seq<Product>, items: seq<Item>) {
    && (forall i, j :: 0 <= i < j < |items| ==> items[i].productId != items[j].productId)
    && forall i :: 0 <= i < |items| ==> exists p :: p in products && p.id == items[i].productId && p.status == ACTIVE
  }

  lemma AvailableExactlyWhen(products: seq<Product>, items: seq<Item>)
    requires CatalogOk(products)
    ensures |Found(products, items)| == |items| <==> AllAvailable(products, items)
  {
    if |Found(products, items)| == |items| {
      FoundIsAvailable(products, items);
    }
    if AllAvailable(products, items) {
      AvailableIsFound(products, items);
    }
  }

  lemma FoundIsAvailable(products: seq<Product>, items: seq<Item>)
    requires CatalogOk(products) && |Found(products, items)| == |items|
    ensures AllAvailable(products, items)
  {
    var found := Found(products, items);
    var fids, iids := Map(found, ProductId()), Map(items, ItemId());
    FoundAreTheItems(products, items);
    assert forall i :: 0 <= i < |items| ==> iids[i] == items[i].productId;
    forall i | 0 <= i < |items| ensures exists p :: p in products && p.id == items[i].productId && p.status == ACTIVE {
      assert iids[i] in multiset(iids) && iids[i] in multiset(fids);
      var j :| 0 <= j < |found| && fids[j] == iids[i];
      assert found[j] in found && Wanted(items, found[j]);
    }
  }

  lemma AvailableIsFound(products: seq<Product>, items: seq<Item>)
    requires CatalogOk(products) && AllAvailable(products, items)
    ensures |Found(products, items)| == |items|
  {
    var found := Found(products, items);
    var fids, iids := Map(found, ProductId()), Map(items, ItemId());
    FilterKeepsKeys(products, p => Wanted(items, p), ProductId());
    assert forall i :: 0 <= i < |items| ==> iids[i] == items[i].productId;
    forall x ensures x in fids <==> x in iids {
      FoundExactly(products, items, x);
    }
    assert Elements(fids) == Elements(iids);
    CountElements(fids);
    CountElements(iids);
  }

  lemma FoundExactly(products: seq<Product>, items: seq<Item>, x: Id)
    requires AllAvailable(products, items)
    ensures x in Map(Found(products, items), ProductId()) <==> x in Map(items, ItemId())
  {
    var found := Found(products, items);
    var fids, iids := Map(found, ProductId()), Map(items, ItemId());
    if x in fids {
      var k :| 0 <= k < |fids| && fids[k] == x;
      assert found[k] in found && Wanted(items, found[k]);
    }
    if x in iids {
      var k :| 0 <= k < |iids| && iids[k] == x;
      var p :| p in products && p.id == items[k].productId && p.status == ACTIVE;
      assert Wanted(items, p) && p in found;
      var j :| 0 <= j < |found| && found[j] == p;
      assert fids[j] == x;
    }
  }

  /** Some ordered product is the buyer's own. */
  predicate OrdersOwn(products: seq<Product>, buyer: Id, items: seq<Item>) {
    exists p :: p in products && p.sellerId == buyer && p.id in Map(items, ItemId())
  }

  lemma OwnExactlyWhen(products: seq<Product>, buyer: Id, items: seq<Item>)
    requires CatalogOk(products) && |Found(products, items)| == |items|
    ensures var found := Found(products, items);
            (exists i :: 0 <= i < |found| && found[i].sellerId == buyer) <==> OrdersOwn(products, buyer, items)
  {
    var found := Found(products, items);
    if i :| 0 <= i < |found| && found[i].sellerId == buyer {
      assert found[i] in found && Wanted(items, found[i]);
    }
    if p :| p in products && p.sellerId == buyer && p.id in Map(items, ItemId()) {
      var k :| 0 <= k < |products| && products[k] == p;
      OrderedIsFound(products, items, k);
      var i :| 0 <= i < |found| && found[i] == p;
    }
  }

  /** The cut of product k and the balance it makes, after those of the products before it, fit 32-bit columns. */
  predicate CreditFits(b: Books, found: seq<Product>, items: seq<Item>, k: nat)
    requires k < |found|
  {
    var cut := SellerCut(Subtotal(items, found[k]));
    var balance := BalanceOf(b, found[k].sellerId) + Sum(found[..k], ShareOf(items, found[k].sellerId));
    -0x8000_0000 <= cut < 0x8000_0000 && -0x8000_0000 <= balance + cut < 0x8000_0000
  }

  lemma OneMoreCredit(b: Books, found: seq<Product>, items: seq<Item>, orderId: Id, n: nat)
    requires n + 1 == |found|
    ensures PaySellers(b, found, items, orderId).Some? <==>
            PaySellers(b, found[..n], items, orderId).Some? && CreditFits(b, found, items, n)
  {
    if PaySellers(b, found[..n], items, orderId).Some? {
      SellerReceives(b, found[..n], items, orderId, found[n].sellerId);
    }
  }

  predicate AllCreditsFit(b: Books, found: seq<Product>, items: seq<Item>) {
    forall k :: 0 <= k < |found| ==> CreditFits(b, found, items, k)
  }

  lemma {:induction false} PaysExactlyWhen(b: Books, found: seq<Product>, items: seq<Item>, orderId: Id)
    ensures PaySellers(b, found, items, orderId).Some? <==> AllCreditsFit(b, found, items)
    decreases |found|
  {
    if found != [] {
      var n := |found| - 1;
      PaysExactlyWhen(b, found[..n], items, orderId);
      OneMoreCredit(b, found, items, orderId, n);
      forall k | 0 <= k < n ensures CreditFits(b, found[..n], items, k) == CreditFits(b, found, items, k) {
        assert found[..n][..k] == found[..k];
      }
    }
  }

  /**
   * Exactly when an order goes through, and why it does not: the first of these
   * that fails. The balance may equal the total.
   */
  lemma OrderAnswer(s: Shop, buyer: Id, items: seq<Item>, orderId: Id)
    requires buyer in s.books.balances && CatalogOk(s.products)
    ensures var found := Found(s.products, items);
            var total := TotalCents(found, items); var shipping := (total + 10) / 20;
            var r := PlaceOrder(s, buyer, items, orderId);
            if !AllAvailable(s.products, items) then r == Err(Unavailable)
            else if OrdersOwn(s.products, buyer, items) then r == Err(OwnProduct)
            else if !(s.books.balances[buyer] >= total + shipping) then r == Err(InsufficientFunds)
            else if !AllCreditsFit(s.books, found, items) then r == Err(CreditFailed)
            else r.Ok?
  {
    var found := Found(s.products, items);
    AvailableExactlyWhen(s.products, items);
    if |found| == |items| {
      OwnExactlyWhen(s.products, buyer, items);
      if forall i :: 0 <= i < |found| ==> found[i].sellerId != buyer {
        var debited := Posted(s.books, PurchaseEntry(found, buyer, items, orderId));
        PaysExactlyWhen(debited, found, items, orderId);
        assert forall k :: 0 <= k < |found| ==>
          CreditFits(debited, found, items, k) == CreditFits(s.books, found, items, k);
      }
    }
  }

  predicate IsSale(e: Entry, p: Product, items: seq<Item>, orderId: Id) {
    e == Entry(p.sellerId, MARKETPLACE_SALE, TxCompleted, SellerCut(Subtotal(items, p)), Some(orderId))
  }

  lemma OrderBooks(s: Shop, buyer: Id, items: seq<Item>, orderId: Id)
    requires buyer in s.books.balances && PlaceOrder(s, buyer, items, orderId).Ok?
    ensures var found := Found(s.products, items); var total := TotalCents(found, items);
            var e := Entry(buyer, MARKETPLACE_PURCHASE, TxCompleted, -(total + (total + 10) / 20), Some(orderId));
            PaySellers(Posted(s.books, e), found, items, orderId) ==
              Some(PlaceOrder(s, buyer, items, orderId).value.books)
  {
  }

  /** The ledger rows of a successful order: the purchase, then one sale per product found. */
  lemma OrderInTheLedger(s: Shop, buyer: Id, items: seq<Item>, orderId: Id)
    requires buyer in s.books.balances && PlaceOrder(s, buyer, items, orderId).Ok?
    ensures var found := Found(s.products, items); var total := TotalCents(found, items);
            IsSaleOf(s.books.ledger, PlaceOrder(s, buyer, items, orderId).value.books.ledger,
                Entry(buyer, MARKETPLACE_PURCHASE, TxCompleted, -(total + (total + 10) / 20), Some(orderId)),
                found, items, orderId)
  {
    var found := Found(s.products, items);
    var total := TotalCents(found, items);
    var e := Entry(buyer, MARKETPLACE_PURCHASE, TxCompleted, -(total + (total + 10) / 20), Some(orderId));
    OrderBooks(s, buyer, items, orderId);
    RowsOfSale(s.books, e, found, items, orderId);
  }

  /** A purchase row, and behind it one row per sale. */
  predicate IsSaleOf(before: seq<Entry>, after: seq<Entry>, e: Entry, found: seq<Product>, items: seq<Item>,
      orderId: Id) {
    && |after| == |before| + 1 + |found| && after[..|before|] == before && after[|before|] == e
    && forall k :: 0 <= k < |found| ==> IsSale(after[|before| + 1 + k], found[k], items, orderId)
  }

  lemma RowsOfSale(b: Books, e: Entry, found: seq<Product>, items: seq<Item>, orderId: Id)
    requires e.wallet in b.balances && PaySellers(Posted(b, e), found, items, orderId).Some?
    ensures IsSaleOf(b.ledger, PaySellers(Posted(b, e), found, items, orderId).value.ledger, e, found, items, orderId)
  {
    SalesInTheLedger(Posted(b, e), found, items, orderId);
    var ledger := PaySellers(Posted(b, e), found, items, orderId).value.ledger;
    assert ledger[..|b.ledger| + 1][..|b.ledger|] == ledger[..|b.ledger|];
    assert ledger[..|b.ledger| + 1][|b.ledger|] == ledger[|b.ledger|];
  }

  lemma {:induction false} SalesInTheLedger(b: Books, found: seq<Product>, items: seq<Item>, orderId: Id)
    requires PaySellers(b, found, items, orderId).Some?
    ensures var n := |b.ledger|; var ledger := PaySellers(b, found, items, orderId).value.ledger;
            && |ledger| == n + |found| && ledger[..n] == b.ledger
            && forall k :: 0 <= k < |found| ==> IsSale(ledger[n + k], found[k], items, orderId)
    decreases |found|
  {
    if found != [] {
      SalesInTheLedger(b, found[..|found| - 1], items, orderId);
    }
  }

  // ---------- Balances stay the ledger sums ----------

  lemma {:induction false} QtyNotNegative(items: seq<Item>, id: Id)
    requires forall i :: 0 <= i < |items| ==> items[i].qty > 0
    ensures QtyOf(items, id) >= 0
  {
    if items != [] {
      QtyNotNegative(items[1..], id);
    }
  }

  lemma {:induction false} PayingKeepsBalance(b: Books, found: seq<Product>, items: seq<Item>, orderId: Id)
    requires Balanced(b) && forall i :: 0 <= i < |items| ==> items[i].qty > 0
    requires forall k :: 0 <= k < |found| ==> found[k].priceCents > 0
    ensures var paid := PaySellers(b, found, items, orderId); paid.Some? ==> Balanced(paid.value)
    decreases |found|
  {
    if found != [] {
      var n := |found| - 1;
      PayingKeepsBalance(b, found[..n], items, orderId);
      var paid := PaySellers(b, found[..n], items, orderId);
      if paid.Some? {
        var e := SaleEntry(items, found[n], orderId);
        QtyNotNegative(items, found[n].id);
        assert Subtotal(items, found[n]) >= 0;
        OpeningKeepsBalance(paid.value, e.wallet);
        if CanPost(Opened(paid.value, e.wallet).balances[e.wallet], e.amountCents) {
          PostingKeepsBalance(Opened(paid.value, e.wallet), e);
        }
      }
    }
  }

  lemma {:induction false} PayingKeepsMatch(b: Books, found: seq<Product>, items: seq<Item>, orderId: Id)
    requires Matched(b)
    ensures var paid := PaySellers(b, found, items, orderId); paid.Some? ==> Matched(paid.value)
    decreases |found|
  {
    if found != [] {
      var n := |found| - 1;
      PayingKeepsMatch(b, found[..n], items, orderId);
      var paid := PaySellers(b, found[..n], items, orderId);
      if paid.Some? {
        var e := SaleEntry(items, found[n], orderId);
        OpeningKeepsMatch(paid.value, e.wallet);
        PostingKeepsMatch(Opened(paid.value, e.wallet), e);
      }
    }
  }

  lemma OrderKeepsMatch(s: Shop, buyer: Id, items: seq<Item>, orderId: Id)
    requires buyer in s.books.balances && Matched(s.books)
    ensures var r := PlaceOrder(s, buyer, items, orderId); r.Ok? ==> Matched(r.value.books)
  {
    var found := Found(s.products, items);
    PostingKeepsMatch(s.books, PurchaseEntry(found, buyer, items, orderId));
    PayingKeepsMatch(Posted(s.books, PurchaseEntry(found, buyer, items, orderId)), found, items, orderId);
  }

  lemma MarkSoldKeepsCatalogue(products: seq<Product>, items: seq<Item>)
    requires CatalogOk(products)
    ensures CatalogOk(MarkSold(products, items))
  {
    assert Map(MarkSold(products, items), ProductId()) == Map(products, ProductId());
  }

  lemma OrderKeepsBalance(s: Shop, buyer: Id, items: seq<Item>, orderId: Id)
    requires buyer in s.books.balances && Balanced(s.books) && CatalogOk(s.products) && ItemsOk(items)
    ensures var r := PlaceOrder(s, buyer, items, orderId); r.Ok? ==> Balanced(r.value.books)
  {
    var found := Found(s.products, items);
    var debit := PurchaseEntry(found, buyer, items, orderId);
    if PlaceOrder(s, buyer, items, orderId).Ok? {
      assert forall k :: 0 <= k < |found| ==> found[k] in found;
      assert forall k :: 0 <= k < |found| ==> found[k].priceCents > 0;
      TakeIsFifteenPercent(s.products, items);
      TotalNotNegative(found, items);
      PostingKeepsBalance(s.books, debit);
      PayingKeepsBalance(Posted(s.books, debit), found, items, orderId);
    }
  }

  lemma {:induction false} TotalNotNegative(found: seq<Product>, items: seq<Item>)
    requires forall i :: 0 <= i < |items| ==> items[i].qty > 0
    requires forall k :: 0 <= k < |found| ==> found[k].priceCents > 0
    ensures TotalCents(found, items) >= 0
    decreases |items|
  {
    if items != [] {
      TotalNotNegative(found, items[1..]);
      PricesNotNegative(found, items[0].productId);
    }
  }

  lemma {:induction false} FailureStays(b: Books, found: seq<Product>, items: seq<Item>, orderId: Id, k: nat)
    requires k <= |found| && PaySellers(b, found[..k], items, orderId).None?
    ensures PaySellers(b, found, items, orderId).None?
    decreases |found| - k
  {
    if k < |found| {
      assert found[..k + 1][..k] == found[..k];
      FailureStays(b, found, items, orderId, k + 1);
    } else {
      assert found[..k] == found;
    }
  }

  // ---------- The service ----------

  class MarketplaceService {
    const wallets: WalletService
    var products: seq<Product>
    var orders: seq<Order>

    constructor (wallets: WalletService)
      ensures this.wallets == wallets && products == [] && orders == []
    {
      this.wallets, products, orders := wallets, [], [];
    }

    ghost function TheShop(): Shop
      reads this, wallets
    {
      Shop(wallets.TheBooks(), products, orders)
    }

    /**
     * Opens the buyer's wallet, then runs the transaction: either all of its
     * writes are kept, or every table is put back as it was when it began.
     */
    method CreateOrder(userId: Id, items: seq<Item>, orderId: Id) returns (r: Result<Order, OrderError>)
      requires CatalogOk(products) && ItemsOk(items)
      modifies this`products, this`orders, wallets`balances, wallets`ledger
      ensures CatalogOk(products)
      ensures old(Matched(wallets.TheBooks())) ==> Matched(wallets.TheBooks())
      ensures old(Balanced(wallets.TheBooks())) ==> Balanced(wallets.TheBooks())
      ensures userId !in wallets.operators ==> r == Err(NoOperatorProfile) && TheShop() == old(TheShop())
      ensures userId in wallets.operators ==>
                var buyer := wallets.operators[userId];
                var start := old(TheShop()).(books := Opened(old(wallets.TheBooks()), buyer));
                match PlaceOrder(start, buyer, items, orderId)
                case Ok(after) => r.Ok? && TheShop() == after && r.value == orders[|orders| - 1]
                case Err(e) => r == Err(e) && TheShop() == start
    {
      ghost var before := wallets.TheBooks();
      var buyerWallet := wallets.GetOrCreate(userId);
      if buyerWallet.Err? {
        return Err(NoOperatorProfile);
      }
      var buyer := buyerWallet.value;
      OrderKeepsBooks(before, products, orders, buyer, items, orderId);
      var balances, ledger, orders0 := wallets.balances, wallets.ledger, orders; // for the rollback
      r := OrderTransaction(buyer, items, orderId);
      if r.Err? {
        wallets.balances, wallets.ledger, orders := balances, ledger, orders0;
      }
    }

    method SumItems(found: seq<Product>, items: seq<Item>) returns (totalCents: int)
      ensures totalCents == TotalCents(found, items)
    {
      totalCents := 0;
      for i := 0 to |items|
        invariant totalCents == Sum(items[..i], PerItem(found, Whole()))
      {
        assert items[..i + 1] == items[..i] + [items[i]];
        SumAppend(items[..i], [items[i]], PerItem(found, Whole()));
        totalCents := totalCents + PriceOf(found, items[i].productId) * items[i].qty;
      }
      assert items[..|items|] == items;
    }

    /** Credits the seller of each product found, opening wallets as needed. */
    method CreditSellers(found: seq<Product>, items: seq<Item>, orderId: Id) returns (ok: bool)
      modifies wallets`balances, wallets`ledger
      ensures PaySellers(old(wallets.TheBooks()), found, items, orderId) == if ok then Some(wallets.TheBooks())
          else None
    {
      ghost var books := wallets.TheBooks();
      for i := 0 to |found|
        invariant PaySellers(books, found[..i], items, orderId) == Some(wallets.TheBooks())
      {
        var product := found[i];
        assert found[..i + 1][..i] == found[..i];
        var subtotal := product.priceCents * QtyOf(items, product.id);
        wallets.Upsert(product.sellerId);
        var credited := wallets.Credit(product.sellerId, SellerCut(subtotal), MARKETPLACE_SALE, Some(orderId));
        if credited.Err? {
          FailureStays(books, found, items, orderId, i + 1);
          return false;
        }
      }
      assert found[..|found|] == found;
      return true;
    }

    /** The body of the transaction; on failure it stops where it is. */
    method OrderTransaction(buyer: Id, items: seq<Item>, orderId: Id) returns (r: Result<Order, OrderError>)
      requires buyer in wallets.balances && CatalogOk(products)
      modifies this`products, this`orders, wallets`balances, wallets`ledger
      ensures match PlaceOrder(old(TheShop()), buyer, items, orderId)
              case Ok(after) => r.Ok? && TheShop() == after && r.value == orders[|orders| - 1]
              case Err(e) => r == Err(e) && products == old(products)
    {
      var found := Found(products, items);
      if |found| != |items| {
        return Err(Unavailable);
      }
      if exists i :: 0 <= i < |found| && found[i].sellerId == buyer {
        return Err(OwnProduct);
      }
      var totalCents := SumItems(found, items);
      var shippingCents := ShippingCents(totalCents);
      var grand := totalCents + shippingCents;
      if wallets.balances[buyer] < grand {
        return Err(InsufficientFunds);
      }
      var order := Order(orderId, buyer, grand, shippingCents, OrderItems(found, items));
      orders := orders + [order];
      var debited := wallets.Debit(buyer, grand, MARKETPLACE_PURCHASE, Some(orderId));
      var paid := CreditSellers(found, items, orderId);
      if !paid {
        return Err(CreditFailed);
      }
      products := MarkSold(products, items);
      return Ok(order);
    }

    /** New products are ACTIVE. */
    method CreateProduct(userId: Id, id: Id, priceCents: int) returns (r: Result<(), EditError>)
      requires CatalogOk(products) && priceCents > 0
      modifies this`products
      ensures CatalogOk(products)
      ensures products == if userId in wallets.operators then
          Added(old(products), wallets.operators[userId], id, priceCents) else old(products)
      ensures r == if userId !in wallets.operators then Err(NoProfile)
                   else if FindProduct(old(products), id).Some? then Err(IdTaken) else Ok(())
    {
      if userId !in wallets.operators {
        return Err(NoProfile);
      }
      if FindProduct(products, id).Some? {
        return Err(IdTaken);
      }
      AddingKeepsCatalogue(products, wallets.operators[userId], id, priceCents);
      products := products + [Product(id, wallets.operators[userId], priceCents, ACTIVE)];
      return Ok(());
    }

    /** Sellers edit price and status of their own products, unless SOLD. */
    method UpdateProduct(userId: Id, id: Id, patch: Patch) returns (r: Result<(), EditError>)
      requires CatalogOk(products) && PatchOk(patch)
      modifies this`products
      ensures CatalogOk(products)
      ensures products == if userId in wallets.operators then
          Updated(old(products), wallets.operators[userId], id, patch) else old(products)
      ensures r == if userId !in wallets.operators then Err(NoProfile)
          else EditAnswer(old(products), wallets.operators[userId], id, false)
    {
      if userId !in wallets.operators {
        return Err(NoProfile);
      }
      var seller := wallets.operators[userId];
      EditsKeepCatalogue(products, seller, id, patch);
      var product := FindProduct(products, id);
      if product.None? {
        return Err(NotFound);
      }
      if product.value.sellerId != seller {
        return Err(NotYours);
      }
      if product.value.status == SOLD {
        return Err(AlreadySold);
      }
      products := Map(products, PatchOne(id, patch));
      return Ok(());
    }

    /** Removal does not look at the status. */
    method RemoveProduct(userId: Id, id: Id) returns (r: Result<(), EditError>)
      requires CatalogOk(products)
      modifies this`products
      ensures CatalogOk(products)
      ensures products == if userId in wallets.operators then Removed(old(products), wallets.operators[userId], id)
          else old(products)
      ensures r == if userId !in wallets.operators then Err(NoProfile)
          else EditAnswer(old(products), wallets.operators[userId], id, true)
    {
      if userId !in wallets.operators {
        return Err(NoProfile);
      }
      var seller := wallets.operators[userId];
      RemovalKeepsCatalogue(products, seller, id);
      var product := FindProduct(products, id);
      if product.None? {
        return Err(NotFound);
      }
      if product.value.sellerId != seller {
        return Err(NotYours);
      }
      products := Map(products, PatchOne(id, Patch(None, Some(REMOVED))));
      return Ok(());
    }
  }

  /** What the order leaves in the books, with the buyer's wallet opened first. */
  lemma OrderKeepsBooks(b: Books, products: seq<Product>, orders: seq<Order>, buyer: Id, items: seq<Item>, orderId: Id)
    requires CatalogOk(products) && ItemsOk(items)
    ensures var o := Opened(b, buyer); var r := PlaceOrder(Shop(o, products, orders), buyer, items, orderId);
            && (Matched(b) ==> Matched(o) && (r.Ok? ==> Matched(r.value.books)))
            && (Balanced(b) ==> Balanced(o) && (r.Ok? ==> Balanced(r.value.books)))
            && (r.Ok? ==> CatalogOk(r.value.products))
  {
    var o := Opened(b, buyer);
    var start := Shop(o, products, orders);
    MarkSoldKeepsCatalogue(products, items);
    if Matched(b) {
      OpeningKeepsMatch(b, buyer);
      OrderKeepsMatch(start, buyer, items, orderId);
    }
    if Balanced(b) {
      OpeningKeepsBalance(b, buyer);
      OrderKeepsBalance(start, buyer, items, orderId);
    }
  }

  /** Moderation of the catalogue. */
  class AdminService {
    const market: MarketplaceService

    constructor (market: MarketplaceService)
      ensures this.market == market
    {
      this.market := market;
    }

    /** Afterwards the product is REMOVED, whatever it was; without it nothing changes. */
    method RemoveProductAsAdmin(id: Id) returns (r: Result<(), EditError>)
      requires CatalogOk(market.products)
      modifies market`products
      ensures CatalogOk(market.products)
      ensures r == if FindProduct(old(market.products), id).Some? then Ok(()) else Err(NotFound)
      ensures r.Ok? ==> market.products == RemovedByAdmin(old(market.products), id) && !IsSold(market.products, id)
      ensures r.Err? ==> market.products == old(market.products)
    {
      if FindProduct(market.products, id).None? {
        return Err(NotFound);
      }
      PatchingKeepsCatalogue(market.products, id, Patch(None, Some(REMOVED)));
      FindInImage(market.products, PatchOne(id, Patch(None, Some(REMOVED))), id);
      FoundHasId(market.products, id);
      market.products := Map(market.products, PatchOne(id, Patch(None, Some(REMOVED))));
      return Ok(());
    }
  }

  // ---------- The catalogue ----------

  datatype EditError = NoProfile | NotFound | NotYours | AlreadySold | IdTaken

  datatype Patch = Patch(priceCents: Option<int>, status: Option<ProductStatus>)

  /** The parser takes positive prices and every status but SOLD. */
  predicate PatchOk(patch: Patch) {
    (patch.priceCents.Some? ==> patch.priceCents.value > 0) && patch.status != Some(SOLD)
  }

  /** findUnique by primary key. */
  function FindProduct(products: seq<Product>, id: Id): Option<Product> {
    if products == [] then None else if products[0].id == id then Some(products[0]) else FindProduct(products[1..], id)
  }

  function PatchOne(id: Id, patch: Patch): Product -> Product {
    (p: Product) =>
      if p.id == id then
          p.(priceCents := OrElse(patch.priceCents, p.priceCents), status := OrElse(patch.status, p.status)) else p
  }

  function EditAnswer(products: seq<Product>, seller: Id, id: Id, soldToo: bool): Result<(), EditError> {
    var p := FindProduct(products, id);
    if p.None? then Err(NotFound)
    else if p.value.sellerId != seller then Err(NotYours)
    else if p.value.status == SOLD && !soldToo then Err(AlreadySold)
    else Ok(())
  }

  function Updated(products: seq<Product>, seller: Id, id: Id, patch: Patch): seq<Product> {
    if EditAnswer(products, seller, id, false).Ok? then Map(products, PatchOne(id, patch)) else products
  }

  function Removed(products: seq<Product>, seller: Id, id: Id): seq<Product> {
    if EditAnswer(products, seller, id, true).Ok? then Map(products, PatchOne(id, Patch(None, Some(REMOVED))))
        else products
  }

  /** Moderation looks neither at the seller nor at the status. */
  function RemovedByAdmin(products: seq<Product>, id: Id): seq<Product> {
    Map(products, PatchOne(id, Patch(None, Some(REMOVED))))
  }

  function Added(products: seq<Product>, seller: Id, id: Id, priceCents: int): seq<Product> {
    if FindProduct(products, id).Some? then products else products + [Product(id, seller, priceCents, ACTIVE)]
  }

  lemma {:induction false} NotFoundIsAbsent(products: seq<Product>, id: Id)
    requires FindProduct(products, id).None?
    ensures forall i :: 0 <= i < |products| ==> products[i].id != id
  {
    if products != [] {
      NotFoundIsAbsent(products[1..], id);
      assert forall i :: 1 <= i < |products| ==> products[i] == products[1..][i - 1];
    }
  }

  lemma AddingKeepsCatalogue(products: seq<Product>, seller: Id, id: Id, priceCents: int)
    requires CatalogOk(products) && priceCents > 0
    ensures CatalogOk(Added(products, seller, id, priceCents))
  {
    if FindProduct(products, id).None? {
      NotFoundIsAbsent(products, id);
      var ids := Map(products, ProductId());
      assert Map(Added(products, seller, id, priceCents), ProductId()) == ids + [id];
    }
  }

  lemma PatchingKeepsCatalogue(products: seq<Product>, id: Id, patch: Patch)
    requires CatalogOk(products) && (patch.priceCents.Some? ==> patch.priceCents.value > 0)
    ensures CatalogOk(Map(products, PatchOne(id, patch)))
  {
    assert Map(Map(products, PatchOne(id, patch)), ProductId()) == Map(products, ProductId());
  }

  lemma EditsKeepCatalogue(products: seq<Product>, seller: Id, id: Id, patch: Patch)
    requires CatalogOk(products) && PatchOk(patch)
    ensures CatalogOk(Updated(products, seller, id, patch))
  {
    PatchingKeepsCatalogue(products, id, patch);
  }

  lemma RemovalKeepsCatalogue(products: seq<Product>, seller: Id, id: Id)
    requires CatalogOk(products)
    ensures CatalogOk(Removed(products, seller, id))
  {
    PatchingKeepsCatalogue(products, id, Patch(None, Some(REMOVED)));
  }

  // ---------- What the calls on the catalogue write ----------

  lemma {:induction false} FindsRow(products: seq<Product>, k: nat)
    requires Distinct(Map(products, ProductId())) && k < |products|
    ensures FindProduct(products, products[k].id) == Some(products[k])
  {
    var ids := Map(products, ProductId());
    assert Map(products[1..], ProductId()) == ids[1..];
    if k > 0 {
      assert ids[0] != ids[k];
      FindsRow(products[1..], k - 1);
    }
  }

  /** Each row after an edit: the seller's own unsold product has what the PATCH names, all other rows are as before. */
  lemma UpdatedRow(products: seq<Product>, seller: Id, id: Id, patch: Patch, k: nat)
    requires CatalogOk(products) && k < |products|
    ensures var p, after := products[k], Updated(products, seller, id, patch);
            && |after| == |products|
            && after[k] ==
               if p.id == id && p.sellerId == seller && p.status != SOLD then
                 Product(p.id, p.sellerId, if patch.priceCents.Some? then patch.priceCents.value else p.priceCents,
                         if patch.status.Some? then patch.status.value else p.status)
               else p
  {
    if products[k].id == id {
      FindsRow(products, k);
    }
  }

  /** Each row after a removal, by a seller or by an admin. */
  lemma RemovedRow(products: seq<Product>, seller: Id, id: Id, k: nat)
    requires CatalogOk(products) && k < |products|
    ensures var p := products[k];
            && |Removed(products, seller, id)| == |RemovedByAdmin(products, id)| == |products|
            && Removed(products, seller, id)[k] ==
               (if p.id == id && p.sellerId == seller then Product(p.id, p.sellerId, p.priceCents, REMOVED) else p)
            && RemovedByAdmin(products, id)[k] ==
               (if p.id == id then Product(p.id, p.sellerId, p.priceCents, REMOVED) else p)
  {
    if products[k].id == id {
      FindsRow(products, k);
    }
  }

  // ---------- How long a product stays SOLD ----------

  lemma {:induction false} FindInImage(products: seq<Product>, f: Product -> Product, id: Id)
    requires forall p :: f(p).id == p.id
    ensures var p := FindProduct(products, id); FindProduct(Map(products, f), id) == if p.Some? then Some(f(p.value))
        else None
  {
    if products != [] {
      assert Map(products, f)[1..] == Map(products[1..], f);
      FindInImage(products[1..], f, id);
    }
  }

  lemma {:induction false} FoundHasId(products: seq<Product>, id: Id)
    ensures FindProduct(products, id).Some? ==> FindProduct(products, id).value.id == id
  {
    if products != [] {
      FoundHasId(products[1..], id);
    }
  }

  lemma {:induction false} FindInLonger(products: seq<Product>, more: seq<Product>, id: Id)
    requires FindProduct(products, id).Some?
    ensures FindProduct(products + more, id) == FindProduct(products, id)
  {
    assert (products + more)[1..] == products[1..] + more;
    if products[0].id != id {
      FindInLonger(products[1..], more, id);
    }
  }

  predicate IsSold(products: seq<Product>, id: Id) {
    FindProduct(products, id).Some? && FindProduct(products, id).value.status == SOLD
  }

  predicate SoldBy(products: seq<Product>, id: Id, seller: Id) {
    IsSold(products, id) && FindProduct(products, id).value.sellerId == seller
  }

  lemma OrderKeepsSold(s: Shop, buyer: Id, items: seq<Item>, orderId: Id, id: Id, seller: Id)
    requires buyer in s.books.balances && SoldBy(s.products, id, seller)
    ensures var r := PlaceOrder(s, buyer, items, orderId); r.Ok? ==> SoldBy(r.value.products, id, seller)
  {
    FindInImage(s.products, SellOne(items), id);
  }

  lemma UpdateKeepsSold(products: seq<Product>, who: Id, edited: Id, patch: Patch, id: Id, seller: Id)
    requires SoldBy(products, id, seller)
    ensures SoldBy(Updated(products, who, edited, patch), id, seller)
  {
    FindInImage(products, PatchOne(edited, patch), id);
    FoundHasId(products, id);
  }

  /** Removal by its own seller is what ends SOLD. */
  lemma RemovalEndsSold(products: seq<Product>, who: Id, removed: Id, id: Id, seller: Id)
    requires SoldBy(products, id, seller)
    ensures IsSold(Removed(products, who, removed), id) <==> !(removed == id && who == seller)
    ensures IsSold(Removed(products, who, removed), id) ==> SoldBy(Removed(products, who, removed), id, seller)
  {
    FindInImage(products, PatchOne(removed, Patch(None, Some(REMOVED))), id);
    FoundHasId(products, id);
  }

  /** A removal by an admin ends it as well, whoever sells the product. */
  lemma AdminEndsSold(products: seq<Product>, removed: Id, id: Id, seller: Id)
    requires SoldBy(products, id, seller)
    ensures IsSold(RemovedByAdmin(products, removed), id) <==> removed != id
    ensures IsSold(RemovedByAdmin(products, removed), id) ==> SoldBy(RemovedByAdmin(products, removed), id, seller)
  {
    FindInImage(products, PatchOne(removed, Patch(None, Some(REMOVED))), id);
    FoundHasId(products, id);
  }

  lemma AddingKeepsSold(products: seq<Product>, who: Id, added: Id, priceCents: int, id: Id, seller: Id)
    requires SoldBy(products, id, seller)
    ensures SoldBy(Added(products, who, added, priceCents), id, seller)
  {
    if FindProduct(products, added).None? {
      FindInLonger(products, [Product(added, who, priceCents, ACTIVE)], id);
    }
  }

  /**
   * SOLD is not terminal: after a removal its seller can patch the product back
   * to ACTIVE, and an order finds it again.
   */
  lemma SoldCanBeListedAgain(products: seq<Product>, items: seq<Item>, id: Id, seller: Id)
    requires SoldBy(products, id, seller) && id in Elements(Map(items, ItemId()))
    ensures Updated(products, seller, id, Patch(None, Some(ACTIVE))) == products
    ensures Removed(products, seller, id) == RemovedByAdmin(products, id)
    ensures var relisted := Updated(RemovedByAdmin(products, id), seller, id, Patch(None, Some(ACTIVE)));
            exists p :: p in Found(relisted, items) && p.id == id
  {
    var first, second := PatchOne(id, Patch(None, Some(REMOVED))), PatchOne(id, Patch(None, Some(ACTIVE)));
    FindInImage(products, first, id);
    FindInImage(Map(products, first), second, id);
    FoundHasId(products, id);
    var relisted := Updated(RemovedByAdmin(products, id), seller, id, Patch(None, Some(ACTIVE)));
    var p := FindProduct(relisted, id).value;
    FoundIsRow(relisted, id);
    assert Wanted(items, p) && p in Found(relisted, items);
  }

  lemma {:induction false} FoundIsRow(products: seq<Product>, id: Id)
    requires FindProduct(products, id).Some?
    ensures FindProduct(products, id).value in products
  {
    if products[0].id != id {
      FoundIsRow(products[1..], id);
      assert products == [products[0]] + products[1..];
    }
  }
}
