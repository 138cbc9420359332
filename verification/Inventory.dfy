/**
 Inventory movements (services/inventory/service.py): stock is never stored, only
 summed from the inbound and outbound orders, and an outbound order is recorded
 only under the lock of its product's row.
 */
module Inventory {
  import opened Common
  import opened Sequences

  datatype Product = Product(id: string, sku: string, warehouse: string)

  datatype Direction = In | Out

  /** A movement asked for or recorded. The request model and a table check keep the quantity positive. */
  datatype Order = Order(product: string, quantity: nat)

  datatype InventoryError = NoActiveTransaction | ProductNotFound | InsufficientStock(available: int, requested: nat)

  /** The committed tables. */
  datatype Tables = Tables(products: seq<Product>, inbound: seq<Order>, outbound: seq<Order>)

  function ProductOf(o: Order): string { o.product }

  function QuantityOf(o: Order): int { o.quantity }

  predicate Exists(products: seq<Product>, id: string) {
    exists i :: 0 <= i < |products| && products[i].id == id
  }

  /** `_current_stock`: two sums over one product's orders. */
  function CurrentStock(inbound: seq<Order>, outbound: seq<Order>, product: string): int {
    SumIn(inbound, ProductOf, QuantityOf)(product) - SumIn(outbound, ProductOf, QuantityOf)(product)
  }

  // --- The grouped query ---------------------------------------------------------------

  datatype ProductSum = ProductSum(product: string, quantity: int)

  function SumFor(orders: seq<Order>): string -> ProductSum {
    p => ProductSum(p, SumIn(orders, ProductOf, QuantityOf)(p))
  }

  /** `select product_id, sum(quantity) group by product_id`: only products with orders appear. */
  function GroupedSums(orders: seq<Order>): seq<ProductSum> {
    MapSeq(Dedupe(MapSeq(orders, ProductOf)), SumFor(orders))
  }

  /** The joined sum, or 0 where the outer join found none. */
  function Coalesced(sums: seq<ProductSum>, product: string): int {
    if sums == [] then 0
    else if sums[0].product == product then sums[0].quantity
    else Coalesced(sums[1..], product)
  }

  function StockOf(t: Tables): Product -> int {
    (p: Product) => Coalesced(GroupedSums(t.inbound), p.id) - Coalesced(GroupedSums(t.outbound), p.id)
  }

  datatype StockLine = StockLine(product: Product, stock: int)

  function LineFor(t: Tables): Product -> StockLine {
    (p: Product) => StockLine(p, StockOf(t)(p))
  }

  /** `_stock_query`: every product with its stock. */
  function StockQuery(t: Tables): seq<StockLine> {
    MapSeq(t.products, LineFor(t))
  }

  lemma {:induction false} CoalescedLookup(products: seq<string>, orders: seq<Order>, product: string)
    ensures Coalesced(MapSeq(products, SumFor(orders)), product)
         == if product in products then SumFor(orders)(product).quantity else 0
  {
    if products != [] {
      CoalescedLookup(products[1..], orders, product);
    }
  }

  lemma GroupedSumIsTheSum(orders: seq<Order>, product: string)
    ensures Coalesced(GroupedSums(orders), product) == SumIn(orders, ProductOf, QuantityOf)(product)
  {
    var keys := MapSeq(orders, ProductOf);
    DedupeHolds(keys);
    CoalescedLookup(Dedupe(keys), orders, product);
    if product !in keys {
      SumSame(orders, Where(InGroup(ProductOf, product), QuantityOf), Zero());
      SumZero(orders);
    }
  }

  /** The grouped outer joins agree with the per-product sums for every product, with or without orders. */
  lemma GroupedStockAgrees(t: Tables, i: nat)
    requires i < |t.products|
    ensures StockQuery(t)[i] == StockLine(t.products[i], CurrentStock(t.inbound, t.outbound, t.products[i].id))
  {
    GroupedSumIsTheSum(t.inbound, t.products[i].id);
    GroupedSumIsTheSum(t.outbound, t.products[i].id);
    assert StockOf(t)(t.products[i]) == CurrentStock(t.inbound, t.outbound, t.products[i].id);
  }

  // --- One transaction at a time -------------------------------------------------------

  /** What recording one movement answers, and the tables it leaves. */
  function Record(t: Tables, direction: Direction, order: Order): Result<Tables, InventoryError> {
    if !Exists(t.products, order.product) then Failure(ProductNotFound)
    else
      match direction
      case In => Success(t.(inbound := t.inbound + [order]))
      case Out =>
        var stock := CurrentStock(t.inbound, t.outbound, order.product);
        if order.quantity > stock then Failure(InsufficientStock(stock, order.quantity))
        else Success(t.(outbound := t.outbound + [order]))
  }

  ghost predicate NeverNegative(inbound: seq<Order>, outbound: seq<Order>) {
    forall p :: CurrentStock(inbound, outbound, p) >= 0
  }

  lemma OneMoreOrder(orders: seq<Order>, order: Order, product: string)
    ensures SumIn(orders + [order], ProductOf, QuantityOf)(product)
         == SumIn(orders, ProductOf, QuantityOf)(product) + if order.product == product then order.quantity else 0
  {
    var f: Order -> int := Where(InGroup(ProductOf, product), QuantityOf);
    SumAppends(orders, [order], f);
    assert InGroup(ProductOf, product)(order) == (ProductOf(order) == product);
  }

  lemma RecordKeepsStock(t: Tables, direction: Direction, order: Order)
    requires NeverNegative(t.inbound, t.outbound) && Record(t, direction, order).Success?
    ensures NeverNegative(Record(t, direction, order).value.inbound, Record(t, direction, order).value.outbound)
  {
    var after := Record(t, direction, order).value;
    forall p
      ensures CurrentStock(after.inbound, after.outbound, p) >= 0
    {
      assert CurrentStock(t.inbound, t.outbound, p) >= 0;
      OneMoreOrder(t.inbound, order, p);
      OneMoreOrder(t.outbound, order, p);
    }
  }

  // --- What a movement does, in units --------------------------------------------------

  /** The units of a product in a list of orders. */
  function Units(orders: seq<Order>, product: string): nat {
    if orders == [] then 0
    else (if orders[0].product == product then orders[0].quantity else 0) + Units(orders[1..], product)
  }

  lemma {:induction false} SumIsUnits(orders: seq<Order>, product: string)
    ensures SumIn(orders, ProductOf, QuantityOf)(product) == Units(orders, product)
  {
    if orders != [] {
      SumIsUnits(orders[1..], product);
      assert InGroup(ProductOf, product)(orders[0]) == (ProductOf(orders[0]) == product);
    }
  }

  /** Stock is what came in less what went out. */
  lemma StockIsInLessOut(inbound: seq<Order>, outbound: seq<Order>, product: string)
    ensures CurrentStock(inbound, outbound, product) == Units(inbound, product) - Units(outbound, product)
  {
    SumIsUnits(inbound, product);
    SumIsUnits(outbound, product);
  }

  /**
   A movement is refused exactly when its product is unknown, or it would ship more
   than is there; otherwise it changes its product's stock by its quantity, and
   nothing else.
   */
  lemma MovementMoves(t: Tables, direction: Direction, order: Order)
    ensures var known := exists p :: p in t.products && p.id == order.product;
            var stock := Units(t.inbound, order.product) - Units(t.outbound, order.product);
            match Record(t, direction, order)
            case Failure(e) =>
              if !known then e == ProductNotFound
              else direction.Out? && order.quantity > stock && e == InsufficientStock(stock, order.quantity)
            case Success(after) =>
              && known && (direction.Out? ==> order.quantity <= stock)
              && after.products == t.products
              && t.inbound <= after.inbound && t.outbound <= after.outbound
              && forall p ::
                   Units(after.inbound, p) - Units(after.outbound, p)
                   == Units(t.inbound, p) - Units(t.outbound, p)
                      + if p != order.product then 0
                        else if direction.In? then order.quantity as int
                        else -(order.quantity as int)
  {
    assert Exists(t.products, order.product) <==> exists p :: p in t.products && p.id == order.product by {
      if p :| p in t.products && p.id == order.product {
        var i :| 0 <= i < |t.products| && t.products[i] == p;
      }
    }
    StockIsInLessOut(t.inbound, t.outbound, order.product);
    forall p
      ensures Units(t.inbound + [order], p) == Units(t.inbound, p) + if order.product == p then order.quantity else 0
      ensures Units(t.outbound + [order], p) == Units(t.outbound, p) + if order.product == p then order.quantity else 0
    {
      OneMoreOrder(t.inbound, order, p);
      OneMoreOrder(t.outbound, order, p);
      SumIsUnits(t.inbound + [order], p);
      SumIsUnits(t.outbound + [order], p);
      SumIsUnits(t.inbound, p);
      SumIsUnits(t.outbound, p);
    }
  }

  class InventorySession {
    var tables: Tables
    var inTransaction: bool

    constructor (products: seq<Product>)
      ensures tables == Tables(products, [], []) && !inTransaction
    {
      tables := Tables(products, [], []);
      inTransaction := false;
    }

    /** Records a movement in the caller's transaction. */
    method RecordOrder(direction: Direction, order: Order) returns (result: Result<Order, InventoryError>)
      requires NeverNegative(tables.inbound, tables.outbound)
      modifies this`tables
      ensures NeverNegative(tables.inbound, tables.outbound)
      ensures !inTransaction ==> result == Failure(NoActiveTransaction) && tables == old(tables)
      ensures inTransaction ==>
                match Record(old(tables), direction, order)
                case Failure(e) => result == Failure(e) && tables == old(tables)
                case Success(t) => result == Success(order) && tables == t
    {
      if !inTransaction {
        return Failure(NoActiveTransaction);
      }
      if !Exists(tables.products, order.product) {
        return Failure(ProductNotFound);
      }
      if direction.Out? {
        var stock := CurrentStock(tables.inbound, tables.outbound, order.product);
        if order.quantity > stock {
          return Failure(InsufficientStock(stock, order.quantity));
        }
      }
      RecordKeepsStock(tables, direction, order);
      if direction.In? {
        tables := tables.(inbound := tables.inbound + [order]);
      } else {
        tables := tables.(outbound := tables.outbound + [order]);
      }
      return Success(order);
    }

    /** One movement in a transaction of its own, rolled back when it is refused. */
    method CreateOrder(direction: Direction, order: Order) returns (result: Result<Order, InventoryError>)
      requires NeverNegative(tables.inbound, tables.outbound) && !inTransaction
      modifies this
      ensures NeverNegative(tables.inbound, tables.outbound) && !inTransaction
      ensures match Record(old(tables), direction, order)
              case Failure(e) => result == Failure(e) && tables == old(tables)
              case Success(t) => result == Success(order) && tables == t
    {
      inTransaction := true;
      result := RecordOrder(direction, order);
      inTransaction := false;
    }
  }
}
