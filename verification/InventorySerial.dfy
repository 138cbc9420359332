/**
 Interleaved movement transactions have the effect of running them one after another
 in the order they commit (services/inventory/service.py): each commit leaves the
 tables as if all of its movements had been recorded at that moment, none refused.
 */
module InventorySerial {
  import opened Common
  import Sequences
  import opened Inventory
  import opened InventoryTransactions

  datatype Movement = Movement(direction: Direction, order: Order)

  /** The movements recorded one after another, with nothing in between; the first refusal ends it. */
  function RecordAll(t: Tables, movements: seq<Movement>): Result<Tables, InventoryError> {
    if movements == [] then Success(t)
    else
      var last := movements[|movements| - 1];
      match RecordAll(t, movements[..|movements| - 1])
      case Failure(e) => Failure(e)
      case Success(soFar) => Record(soFar, last.direction, last.order)
  }

  function OrdersOf(movements: seq<Movement>, direction: Direction): seq<Order> {
    if movements == [] then []
    else
      var last := movements[|movements| - 1];
      OrdersOf(movements[..|movements| - 1], direction) + if last.direction == direction then [last.order] else []
  }

  function WithOrders(t: Tables, inbound: seq<Order>, outbound: seq<Order>): Tables {
    t.(inbound := t.inbound + inbound, outbound := t.outbound + outbound)
  }

  lemma OneMoreMovement(t: Tables, movements: seq<Movement>, m: Movement)
    ensures RecordAll(t, movements + [m]) ==
              match RecordAll(t, movements)
              case Failure(e) => Failure(e)
              case Success(soFar) => Record(soFar, m.direction, m.order)
    ensures forall d :: OrdersOf(movements + [m], d)
                        == OrdersOf(movements, d) + if m.direction == d then [m.order] else []
  {
    assert (movements + [m])[..|movements|] == movements;
  }

  lemma {:induction false} RecordAllAppends(t: Tables, movements: seq<Movement>)
    requires RecordAll(t, movements).Success?
    ensures RecordAll(t, movements).value == WithOrders(t, OrdersOf(movements, In), OrdersOf(movements, Out))
  {
    if movements != [] {
      RecordAllAppends(t, movements[..|movements| - 1]);
    }
  }

  // --- Recording elsewhere -------------------------------------------------------------

  /** The tables agree on whether the product exists and on its sums. */
  predicate SameFor(t: Tables, u: Tables, product: string) {
    && (Exists(t.products, product) ==> Exists(u.products, product))
    && Sequences.SumIn(t.inbound, ProductOf, QuantityOf)(product)
       == Sequences.SumIn(u.inbound, ProductOf, QuantityOf)(product)
    && Sequences.SumIn(t.outbound, ProductOf, QuantityOf)(product)
       == Sequences.SumIn(u.outbound, ProductOf, QuantityOf)(product)
  }

  lemma SameStock(t: Tables, u: Tables, inbound: seq<Order>, outbound: seq<Order>, product: string)
    requires SameFor(t, u, product)
    ensures CurrentStock(t.inbound + inbound, t.outbound + outbound, product)
         == CurrentStock(u.inbound + inbound, u.outbound + outbound, product)
  {
    var f: Order -> int := Sequences.Where(Sequences.InGroup(ProductOf, product), QuantityOf);
    Sequences.SumAppends(t.inbound, inbound, f);
    Sequences.SumAppends(t.outbound, outbound, f);
    Sequences.SumAppends(u.inbound, inbound, f);
    Sequences.SumAppends(u.outbound, outbound, f);
  }

  /** What changes other products, or only adds products, refuses none of the movements. */
  lemma {:induction false} RecordedElsewhere(t: Tables, u: Tables, movements: seq<Movement>)
    requires RecordAll(t, movements).Success?
    requires forall m :: m in movements ==> SameFor(t, u, m.order.product)
    ensures RecordAll(u, movements).Success?
  {
    if movements != [] {
      var front, last := movements[..|movements| - 1], movements[|movements| - 1];
      RecordedElsewhere(t, u, front);
      RecordAllAppends(t, front);
      RecordAllAppends(u, front);
      SameStock(t, u, OrdersOf(front, In), OrdersOf(front, Out), last.order.product);
    }
  }

  lemma {:induction false} MovementOrders(movements: seq<Movement>, m: Movement)
    requires m in movements
    ensures m.order in OrdersOf(movements, m.direction)
  {
    var front := movements[..|movements| - 1];
    if m != movements[|movements| - 1] {
      assert m in front;
      MovementOrders(front, m);
    }
  }

  // --- An open transaction can be replayed ---------------------------------------------

  /** The movements `who` has recorded since it began, after one more step. */
  function RecordedAfter(s: State, step: Step, who: int, soFar: seq<Movement>): seq<Movement>
    requires Enabled(s, step)
  {
    match step
    case Begin(w) => if w == who then [] else soFar
    case InsertOrder(w) =>
      if w == who then soFar + [Movement(s.active[w].phase.direction, s.active[w].phase.order)] else soFar
    case _ => soFar
  }

  ghost function Recorded(states: seq<State>, steps: seq<Step>, i: nat, who: int): seq<Movement>
    requires IsBehaviour(states, steps) && i < |states|
  {
    if i == 0 then [] else RecordedAfter(states[i - 1], steps[i - 1], who, Recorded(states, steps, i - 1, who))
  }

  /** The transaction's orders are those of its movements, and the committed tables would take them all. */
  predicate IsReplayable(tables: Tables, t: Transaction, movements: seq<Movement>) {
    && OrdersOf(movements, In) == t.inbound && OrdersOf(movements, Out) == t.outbound
    && RecordAll(tables, movements).Success?
    && (!t.phase.Ready? ==> Exists(tables.products, t.phase.order.product))
  }

  lemma InsertIsReplayable(s: State, who: int, movements: seq<Movement>)
    requires Invariant(s) && Enabled(s, InsertOrder(who)) && IsReplayable(s.tables, s.active[who], movements)
    ensures var after := After(s, InsertOrder(who));
            IsReplayable(after.tables, after.active[who], RecordedAfter(s, InsertOrder(who), who, movements))
  {
    var t := s.active[who];
    assert TransactionIsSound(s.tables, t, s.locks, who);
    RecordAllAppends(s.tables, movements);
    OneMoreMovement(s.tables, movements, Movement(t.phase.direction, t.phase.order));
  }

  lemma CommitKeepsReplayable(s: State, who: int, other: int, movements: seq<Movement>)
    requires Invariant(s) && Enabled(s, Commit(who)) && other in s.active && other != who
    requires IsReplayable(s.tables, s.active[other], movements)
    ensures IsReplayable(After(s, Commit(who)).tables, s.active[other], movements)
  {
    var mine, theirs, after := s.active[who], s.active[other], After(s, Commit(who)).tables;
    assert TransactionIsSound(s.tables, mine, s.locks, who) && TransactionIsSound(s.tables, theirs, s.locks, other);
    forall m | m in movements
      ensures SameFor(s.tables, after, m.order.product)
    {
      MovementOrders(movements, m);
      assert Holds(s.locks, other, m.order.product);
      NoOrdersNoSum(s.tables.inbound, mine.inbound, m.order.product);
      NoOrdersNoSum(s.tables.outbound, mine.outbound, m.order.product);
    }
    RecordedElsewhere(s.tables, after, movements);
  }

  lemma CreateKeepsReplayable(s: State, product: Product, t: Transaction, movements: seq<Movement>)
    requires Enabled(s, CreateProduct(product)) && IsReplayable(s.tables, t, movements)
    ensures IsReplayable(After(s, CreateProduct(product)).tables, t, movements)
  {
    var after := After(s, CreateProduct(product)).tables;
    forall id | Exists(s.tables.products, id)
      ensures Exists(after.products, id)
    {
      var i :| 0 <= i < |s.tables.products| && s.tables.products[i].id == id;
      assert after.products[i].id == id;
    }
    RecordedElsewhere(s.tables, after, movements);
  }

  lemma StepKeepsReplayable(s: State, step: Step, who: int, movements: seq<Movement>)
    requires Invariant(s) && Enabled(s, step)
    requires who in s.active ==> IsReplayable(s.tables, s.active[who], movements)
    ensures var after := After(s, step);
            who in after.active ==>
              IsReplayable(after.tables, after.active[who], RecordedAfter(s, step, who, movements))
  {
    match step
    case InsertOrder(w) =>
      if w == who {
        InsertIsReplayable(s, who, movements);
      }
    case Commit(w) =>
      if who in s.active && w != who {
        CommitKeepsReplayable(s, w, who, movements);
      }
    case CreateProduct(product) =>
      if who in s.active {
        CreateKeepsReplayable(s, product, s.active[who], movements);
      }
    case _ =>
  }

  lemma {:induction false} OpenTransactionsAreReplayable(states: seq<State>, steps: seq<Step>, i: nat, who: int)
    requires IsBehaviour(states, steps) && i < |states|
    ensures who in states[i].active ==>
              IsReplayable(states[i].tables, states[i].active[who], Recorded(states, steps, i, who))
  {
    if i > 0 {
      OpenTransactionsAreReplayable(states, steps, i - 1, who);
      StockIsNeverNegative(states, steps, i - 1);
      StepKeepsReplayable(states[i - 1], steps[i - 1], who, Recorded(states, steps, i - 1, who));
    }
  }

  // --- The interleaving is serial ------------------------------------------------------

  /** The tables when every transaction runs alone at the moment it commits. */
  ghost function Serial(states: seq<State>, steps: seq<Step>, i: nat): Result<Tables, InventoryError>
    requires IsBehaviour(states, steps) && i < |states|
  {
    if i == 0 then Success(states[0].tables)
    else
      var before := Serial(states, steps, i - 1);
      match steps[i - 1]
      case Commit(who) =>
        if before.Failure? then before else RecordAll(before.value, Recorded(states, steps, i - 1, who))
      case CreateProduct(product) =>
        if before.Failure? then before else Success(before.value.(products := before.value.products + [product]))
      case _ => before
  }

  /**
   However transactions interleave, the committed tables are those of running each
   transaction alone when it commits, with every movement checked against the stock
   at that moment and none refused.
   */
  lemma {:induction false} InterleavingIsSerial(states: seq<State>, steps: seq<Step>, i: nat)
    requires IsBehaviour(states, steps) && i < |states|
    ensures Serial(states, steps, i) == Success(states[i].tables)
  {
    if i > 0 {
      InterleavingIsSerial(states, steps, i - 1);
      if steps[i - 1].Commit? {
        var who := steps[i - 1].who;
        OpenTransactionsAreReplayable(states, steps, i - 1, who);
        RecordAllAppends(states[i - 1].tables, Recorded(states, steps, i - 1, who));
      }
    }
  }

  /** A check refuses exactly the orders for more than the committed and the transaction's own orders leave. */
  lemma CheckRefusesIff(states: seq<State>, steps: seq<Step>, i: nat)
    requires IsBehaviour(states, steps) && i < |steps| && steps[i].CheckStock?
    ensures var s, who := states[i], steps[i].who;
            var t := s.active[who];
            var stock := Units(s.tables.inbound + t.inbound, t.phase.order.product)
                         - Units(s.tables.outbound + t.outbound, t.phase.order.product);
            && (who in states[i + 1].active <==> t.phase.order.quantity <= stock)
            && (who in states[i + 1].active ==>
                  states[i + 1].active[who] == Transaction(t.inbound, t.outbound, Allowed(Out, t.phase.order)))
            && states[i + 1].tables == s.tables
  {
    StockIsNeverNegative(states, steps, i);
    var s, who := states[i], steps[i].who;
    var t := s.active[who];
    assert TransactionIsSound(s.tables, t, s.locks, who);
    SumIsUnits(s.tables.inbound + t.inbound, t.phase.order.product);
    SumIsUnits(s.tables.outbound + t.outbound, t.phase.order.product);
  }

  // --- Locks and a run -----------------------------------------------------------------

  lemma StepKeepsHoldersOpen(s: State, step: Step)
    requires Enabled(s, step) && forall p :: p in s.locks ==> s.locks[p] in s.active
    ensures var after := After(s, step); forall p :: p in after.locks ==> after.locks[p] in after.active
  {
    if step.LockProduct? {
      assert PhaseOf(s, step.who).Some?;
    }
  }

  /** Every lock is held by an open transaction: ending one releases its locks. */
  lemma {:induction false} LocksAreHeldByOpenTransactions(states: seq<State>, steps: seq<Step>, i: nat)
    requires IsBehaviour(states, steps) && i < |states|
    ensures forall p :: p in states[i].locks ==> states[i].locks[p] in states[i].active
  {
    if i > 0 {
      LocksAreHeldByOpenTransactions(states, steps, i - 1);
      StepKeepsHoldersOpen(states[i - 1], steps[i - 1]);
    }
  }

  /** An insert adds its one order and its transaction is ready for the next; nothing else changes. */
  lemma InsertAddsOneOrder(s: State, who: int)
    requires Enabled(s, InsertOrder(who))
    ensures var order, direction, t := s.active[who].phase.order, s.active[who].phase.direction, s.active[who];
            After(s, InsertOrder(who)) == State(
              s.tables,
              s.active[who := Transaction(
                t.inbound + (if direction == In then [order] else []),
                t.outbound + (if direction == Out then [order] else []), Ready)],
              s.locks)
  {
    var t := s.active[who];
    assert t.inbound + [] == t.inbound && t.outbound + [] == t.outbound;
  }

  datatype Run = Run(states: seq<State>, steps: seq<Step>)

  ghost predicate IsRun(run: Run) {
    IsBehaviour(run.states, run.steps)
  }

  function Last(run: Run): State
    requires run.states != []
  {
    run.states[|run.states| - 1]
  }

  lemma Extend(run: Run, step: Step) returns (longer: Run)
    requires IsRun(run) && Enabled(Last(run), step)
    ensures IsRun(longer) && Last(longer) == After(Last(run), step)
  {
    longer := Run(run.states + [After(Last(run), step)], run.steps + [step]);
  }

  lemma GoodsArrive(product: Product, quantity: nat) returns (run: Run)
    ensures IsRun(run)
    ensures Last(run) == State(
              Tables([product], [], []), map[0 := Transaction([Order(product.id, quantity)], [], Ready)],
              map[product.id := 0])
  {
    var order := Order(product.id, quantity);
    run := Run([State(Tables([], [], []), map[], map[])], []);
    run := Extend(run, CreateProduct(product));
    assert [] + [product] == [product];
    run := Extend(run, Begin(0));
    assert Last(run) == State(Tables([product], [], []), map[0 := Transaction([], [], Ready)], map[]);
    assert Last(run).tables.products[0].id == product.id;
    run := Extend(run, LockProduct(0, In, order));
    assert Last(run).active == map[0 := Transaction([], [], Locked(In, order))];
    assert [] + [order] == [order];
    InsertAddsOneOrder(Last(run), 0);
    run := Extend(run, InsertOrder(0));
  }

  /** A run, for any product: goods arrive and part of them ships in one transaction, which commits. */
  lemma GoodsArriveAndShip(product: Product, received: nat, shipped: nat) returns (run: Run)
    requires shipped <= received
    ensures IsRun(run) && Last(run).active == map[] && Last(run).locks == map[]
    ensures Last(run).tables == Tables([product], [Order(product.id, received)], [Order(product.id, shipped)])
  {
    var order := Order(product.id, shipped);
    run := GoodsArrive(product, received);
    assert Last(run).tables.products[0].id == product.id;
    run := Extend(run, LockProduct(0, Out, order));
    run := Extend(run, SumInbound(0));
    SumIsUnits([] + [Order(product.id, received)], product.id);
    SumIsUnits([], product.id);
    assert [] + [Order(product.id, received)] == [Order(product.id, received)];
    run := Extend(run, CheckStock(0));
    run := Extend(run, InsertOrder(0));
    run := Extend(run, Commit(0));
  }
}
