/**
 Any number of movement transactions interleaved (services/inventory/service.py).

 A transaction sees the committed orders and its own, may record several movements,
 and keeps the row lock of every product it touched until it ends.
 */
module InventoryTransactions {
  import opened Common
  import opened Sequences
  import opened Inventory

  /** Where a transaction is inside `record_order`. */
  datatype Phase =
    | Ready
    | Locked(direction: Direction, order: Order)
    | SawInbound(order: Order, received: int)
    | Allowed(direction: Direction, order: Order)

  datatype Transaction = Transaction(inbound: seq<Order>, outbound: seq<Order>, phase: Phase)

  type Transactions = map<int, Transaction>

  type Locks = map<string, int>

  datatype State = State(tables: Tables, active: Transactions, locks: Locks)

  datatype Step =
    | Begin(who: int)
    | LockProduct(who: int, direction: Direction, order: Order)
    | SumInbound(who: int)
    | CheckStock(who: int)
    | InsertOrder(who: int)
    | Commit(who: int)
    | RollBack(who: int)
    | CreateProduct(product: Product)

  function PhaseOf(s: State, who: int): Option<Phase> {
    if who in s.active then Some(s.active[who].phase) else None
  }

  predicate Enabled(s: State, step: Step) {
    match step
    case Begin(who) => who !in s.active
    case LockProduct(who, _, order) =>
      && PhaseOf(s, who) == Some(Ready)
      && Exists(s.tables.products, order.product)
      && (order.product in s.locks ==> s.locks[order.product] == who)
    case SumInbound(who) => who in s.active && s.active[who].phase.Locked? && s.active[who].phase.direction.Out?
    case CheckStock(who) => who in s.active && s.active[who].phase.SawInbound?
    case InsertOrder(who) => who in s.active && MayInsert(s.active[who].phase)
    case Commit(who) => PhaseOf(s, who) == Some(Ready)
    case RollBack(who) => who in s.active
    case CreateProduct(product) => !Exists(s.tables.products, product.id)
  }

  /** An inbound order goes straight from the lock to the insert; an outbound one is checked first. */
  predicate MayInsert(phase: Phase) {
    phase.Allowed? || (phase.Locked? && phase.direction.In?)
  }

  function InPhase(s: State, who: int, phase: Phase): State
    requires who in s.active
  {
    s.(active := s.active[who := s.active[who].(phase := phase)])
  }

  function Released(locks: Locks, who: int): Locks {
    map p | p in locks && locks[p] != who :: locks[p]
  }

  function Ended(s: State, who: int): State {
    s.(active := s.active - {who}, locks := Released(s.locks, who))
  }

  /** The next state. A refused check ends its transaction: the error leaves the `begin` block. */
  function After(s: State, step: Step): State
    requires Enabled(s, step)
  {
    match step
    case Begin(who) => s.(active := s.active[who := Transaction([], [], Ready)])
    case LockProduct(who, direction, order) =>
      InPhase(s, who, Locked(direction, order)).(locks := s.locks[order.product := who])
    case SumInbound(who) =>
      var t := s.active[who];
      var received := SumIn(s.tables.inbound + t.inbound, ProductOf, QuantityOf)(t.phase.order.product);
      InPhase(s, who, SawInbound(t.phase.order, received))
    case CheckStock(who) =>
      var t := s.active[who];
      var sent := SumIn(s.tables.outbound + t.outbound, ProductOf, QuantityOf)(t.phase.order.product);
      if t.phase.order.quantity > t.phase.received - sent then Ended(s, who)
      else InPhase(s, who, Allowed(Out, t.phase.order))
    case InsertOrder(who) =>
      var t := s.active[who];
      var done := if t.phase.direction.In? then t.(inbound := t.inbound + [t.phase.order], phase := Ready)
                  else t.(outbound := t.outbound + [t.phase.order], phase := Ready);
      s.(active := s.active[who := done])
    case Commit(who) =>
      var t := s.active[who];
      Ended(s, who).(tables := s.tables.(inbound := s.tables.inbound + t.inbound,
                                         outbound := s.tables.outbound + t.outbound))
    case RollBack(who) => Ended(s, who)
    case CreateProduct(product) => s.(tables := s.tables.(products := s.tables.products + [product]))
  }

  ghost predicate IsBehaviour(states: seq<State>, steps: seq<Step>) {
    && |states| == |steps| + 1
    && states[0].tables.inbound == [] && states[0].tables.outbound == []
    && states[0].active == map[] && states[0].locks == map[]
    && forall i :: 0 <= i < |steps| ==> Enabled(states[i], steps[i]) && states[i + 1] == After(states[i], steps[i])
  }

  // --- The invariant -------------------------------------------------------------------

  predicate Holds(locks: Locks, who: int, product: string) {
    product in locks && locks[product] == who
  }

  /** The product's stock as the transaction sees it. */
  function Seen(tables: Tables, t: Transaction, product: string): int {
    CurrentStock(tables.inbound + t.inbound, tables.outbound + t.outbound, product)
  }

  /** What the phase has established, for as long as the lock is held. */
  predicate PhaseIsSound(tables: Tables, t: Transaction, locks: Locks, who: int) {
    match t.phase
    case Ready => true
    case Locked(_, order) => Holds(locks, who, order.product)
    case SawInbound(order, received) =>
      && Holds(locks, who, order.product)
      && received == SumIn(tables.inbound + t.inbound, ProductOf, QuantityOf)(order.product)
    case Allowed(direction, order) =>
      && Holds(locks, who, order.product)
      && (direction.Out? ==> order.quantity <= Seen(tables, t, order.product))
  }

  ghost predicate OrdersAreLocked(t: Transaction, locks: Locks, who: int) {
    && (forall o :: o in t.inbound ==> Holds(locks, who, o.product))
    && (forall o :: o in t.outbound ==> Holds(locks, who, o.product))
  }

  ghost predicate TransactionIsSound(tables: Tables, t: Transaction, locks: Locks, who: int) {
    && OrdersAreLocked(t, locks, who)
    && (forall p :: Seen(tables, t, p) >= 0)
    && PhaseIsSound(tables, t, locks, who)
  }

  ghost predicate Invariant(s: State) {
    && NeverNegative(s.tables.inbound, s.tables.outbound)
    && forall who :: who in s.active ==> TransactionIsSound(s.tables, s.active[who], s.locks, who)
  }

  lemma NoOrdersNoSum(orders: seq<Order>, more: seq<Order>, product: string)
    requires forall o :: o in more ==> o.product != product
    ensures SumIn(orders + more, ProductOf, QuantityOf)(product) == SumIn(orders, ProductOf, QuantityOf)(product)
  {
    var f: Order -> int := Where(InGroup(ProductOf, product), QuantityOf);
    SumAppends(orders, more, f);
    SumSame(more, f, Zero());
    SumZero(more);
  }

  /** What another transaction commits does not touch a product this one has locked. */
  lemma CommitIsInvisibleUnderLock(tables: Tables, t: Transaction, other: Transaction, product: string)
    requires forall o :: o in other.inbound || o in other.outbound ==> o.product != product
    ensures SumIn((tables.inbound + other.inbound) + t.inbound, ProductOf, QuantityOf)(product)
         == SumIn(tables.inbound + t.inbound, ProductOf, QuantityOf)(product)
    ensures SumIn((tables.outbound + other.outbound) + t.outbound, ProductOf, QuantityOf)(product)
         == SumIn(tables.outbound + t.outbound, ProductOf, QuantityOf)(product)
  {
    var f: Order -> int := Where(InGroup(ProductOf, product), QuantityOf);
    NoOrdersNoSum(tables.inbound, other.inbound, product);
    NoOrdersNoSum(tables.outbound, other.outbound, product);
    SumAppends(tables.inbound + other.inbound, t.inbound, f);
    SumAppends(tables.inbound, t.inbound, f);
    SumAppends(tables.outbound + other.outbound, t.outbound, f);
    SumAppends(tables.outbound, t.outbound, f);
  }

  /** A product this transaction has no orders for: it sees the committed stock. */
  lemma SeesCommitted(tables: Tables, t: Transaction, product: string)
    requires forall o :: o in t.inbound || o in t.outbound ==> o.product != product
    ensures Seen(tables, t, product) == CurrentStock(tables.inbound, tables.outbound, product)
  {
    NoOrdersNoSum(tables.inbound, t.inbound, product);
    NoOrdersNoSum(tables.outbound, t.outbound, product);
  }

  lemma CommitKeepsOthersSound(s: State, who: int, other: int)
    requires Invariant(s) && Enabled(s, Commit(who)) && other in s.active && other != who
    ensures TransactionIsSound(After(s, Commit(who)).tables, s.active[other], Released(s.locks, who), other)
  {
    var mine, theirs, after := s.active[who], s.active[other], After(s, Commit(who)).tables;
    forall p
      ensures Holds(s.locks, other, p) ==>
                && SumIn(after.inbound + theirs.inbound, ProductOf, QuantityOf)(p)
                   == SumIn(s.tables.inbound + theirs.inbound, ProductOf, QuantityOf)(p)
                && Seen(after, theirs, p) == Seen(s.tables, theirs, p)
      ensures Seen(after, theirs, p) >= 0
    {
      if Holds(s.locks, other, p) {
        CommitIsInvisibleUnderLock(s.tables, theirs, mine, p);
      } else {
        SeesCommitted(after, theirs, p);
        assert CurrentStock(after.inbound, after.outbound, p) == Seen(s.tables, mine, p);
      }
    }
  }

  lemma CommitKeepsInvariant(s: State, who: int)
    requires Invariant(s) && Enabled(s, Commit(who))
    ensures Invariant(After(s, Commit(who)))
  {
    var after := After(s, Commit(who));
    forall p
      ensures CurrentStock(after.tables.inbound, after.tables.outbound, p) >= 0
    {
      assert CurrentStock(after.tables.inbound, after.tables.outbound, p) == Seen(s.tables, s.active[who], p);
    }
    forall other | other in after.active
      ensures TransactionIsSound(after.tables, after.active[other], after.locks, other)
    {
      CommitKeepsOthersSound(s, who, other);
    }
  }

  lemma InsertKeepsSound(s: State, who: int)
    requires Invariant(s) && Enabled(s, InsertOrder(who))
    ensures TransactionIsSound(s.tables, After(s, InsertOrder(who)).active[who], s.locks, who)
  {
    var t := s.active[who];
    var done := After(s, InsertOrder(who)).active[who];
    var order := t.phase.order;
    forall p
      ensures Seen(s.tables, done, p) >= 0
    {
      assert Seen(s.tables, t, p) >= 0;
      OneMoreOrder(s.tables.inbound + t.inbound, order, p);
      OneMoreOrder(s.tables.outbound + t.outbound, order, p);
      assert s.tables.inbound + (t.inbound + [order]) == (s.tables.inbound + t.inbound) + [order];
      assert s.tables.outbound + (t.outbound + [order]) == (s.tables.outbound + t.outbound) + [order];
    }
  }

  predicate IsLocal(step: Step) {
    !step.Commit? && !step.CreateProduct?
  }

  lemma SameOrdersSeeTheSame(tables: Tables, t: Transaction, u: Transaction)
    requires u.inbound == t.inbound && u.outbound == t.outbound && forall p :: Seen(tables, t, p) >= 0
    ensures forall p :: Seen(tables, u, p) >= 0
  {
    forall p
      ensures Seen(tables, u, p) >= 0
    {
      assert Seen(tables, u, p) == Seen(tables, t, p);
    }
  }

  lemma BeginsSound(s: State, who: int)
    requires Invariant(s) && Enabled(s, Begin(who))
    ensures TransactionIsSound(s.tables, After(s, Begin(who)).active[who], s.locks, who)
  {
    forall p
      ensures Seen(s.tables, Transaction([], [], Ready), p) >= 0
    {
      SeesCommitted(s.tables, Transaction([], [], Ready), p);
    }
  }

  /** A transaction's own step keeps it sound: what it read under its lock is still true. */
  lemma OwnStepKeepsSound(s: State, step: Step)
    requires Invariant(s) && Enabled(s, step) && IsLocal(step)
    ensures var after, who := After(s, step), step.who;
            who in after.active ==> TransactionIsSound(after.tables, after.active[who], after.locks, who)
  {
    var after, who := After(s, step), step.who;
    if step.Begin? {
      BeginsSound(s, who);
    } else if step.InsertOrder? {
      InsertKeepsSound(s, who);
    } else if who in after.active {
      SameOrdersSeeTheSame(s.tables, s.active[who], after.active[who]);
    }
  }

  lemma OtherStepKeepsSound(s: State, step: Step, other: int)
    requires Invariant(s) && Enabled(s, step) && IsLocal(step) && other in s.active && other != step.who
    ensures var after := After(s, step);
            && other in after.active && after.active[other] == s.active[other]
            && TransactionIsSound(after.tables, after.active[other], after.locks, other)
  {
    var after := After(s, step);
    assert TransactionIsSound(s.tables, s.active[other], s.locks, other);
  }

  lemma StepKeepsInvariant(s: State, step: Step)
    requires Invariant(s) && Enabled(s, step)
    ensures Invariant(After(s, step))
  {
    if step.Commit? {
      CommitKeepsInvariant(s, step.who);
    } else if step.CreateProduct? {
      CreateKeepsInvariant(s, step.product);
    } else {
      var after := After(s, step);
      OwnStepKeepsSound(s, step);
      forall other | other in after.active
        ensures TransactionIsSound(after.tables, after.active[other], after.locks, other)
      {
        if other != step.who {
          OtherStepKeepsSound(s, step, other);
        }
      }
    }
  }

  lemma CreateKeepsInvariant(s: State, product: Product)
    requires Invariant(s) && Enabled(s, CreateProduct(product))
    ensures Invariant(After(s, CreateProduct(product)))
  {
    var after := After(s, CreateProduct(product));
    forall who | who in after.active
      ensures TransactionIsSound(after.tables, after.active[who], after.locks, who)
    {
      var t := s.active[who];
      assert forall p :: Seen(after.tables, t, p) == Seen(s.tables, t, p);
    }
  }

  /**
   In every interleaving of movement transactions no product's committed stock is
   ever negative, nor is what any open transaction sees, and the grouped query
   reports that stock for every product.
   */
  lemma {:induction false} StockIsNeverNegative(states: seq<State>, steps: seq<Step>, i: nat)
    requires IsBehaviour(states, steps) && i < |states|
    ensures Invariant(states[i])
    ensures forall k :: 0 <= k < |states[i].tables.products| ==>
              StockQuery(states[i].tables)[k].product == states[i].tables.products[k]
                    && StockQuery(states[i].tables)[k].stock >= 0
  {
    if i == 0 {
      assert forall p :: CurrentStock([], [], p) == 0;
    } else {
      StockIsNeverNegative(states, steps, i - 1);
      StepKeepsInvariant(states[i - 1], steps[i - 1]);
    }
    forall k | 0 <= k < |states[i].tables.products|
      ensures StockQuery(states[i].tables)[k].product == states[i].tables.products[k]
            && StockQuery(states[i].tables)[k].stock >= 0
    {
      GroupedStockAgrees(states[i].tables, k);
    }
  }
}
