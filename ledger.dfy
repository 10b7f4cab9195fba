/**
 * The invariant the CRUD operations keep on the whole store, stated on
 * values: the CHECK constraints of every row, the UNIQUE names, the foreign
 * keys, and the conservation law that ties every in_progress bucket to the
 * orders that are still open.
 */
module Ledger {
  import opened Models
  import opened Orders
  import opened Products

  /** The UNIQUE constraint on components.name. */
  predicate ComponentNamesUnique(components: map<nat, Component>) {
    forall a, b :: a in components && b in components && a != b ==> components[a].name != components[b].name
  }

  /** The UNIQUE constraint on products.name. */
  predicate ProductNamesUnique(products: map<nat, Product>) {
    forall a, b :: a in products && b in products && a != b ==> products[a].name != products[b].name
  }

  /**
   * Every order row is valid and names an existing product; its allocations
   * name existing components, each at most once.
   */
  predicate OrdersConsistent(orders: seq<Order>, products: map<nat, Product>, components: map<nat, Component>) {
    forall i :: 0 <= i < |orders| ==>
      && OrderValid(orders[i]) && orders[i].productId in products
      && Distinct(AllocationIds(orders[i].allocations))
      && forall k :: 0 <= k < |orders[i].allocations| ==> orders[i].allocations[k].componentId in components
  }

  /** The units of component c allocated to orders that are not completed. */
  function InFlight(orders: seq<Order>, c: nat): (n: int) {
    if orders == [] then 0
    else
      var o := orders[|orders| - 1];
      InFlight(orders[..|orders| - 1], c) + (if o.status != Completed then AllocatedTo(o.allocations, c) else 0)
  }

  /** The units of component c allocated to orders that are completed. */
  function Delivered(orders: seq<Order>, c: nat): (n: int) {
    if orders == [] then 0
    else
      var o := orders[|orders| - 1];
      Delivered(orders[..|orders| - 1], c) + (if o.status == Completed then AllocatedTo(o.allocations, c) else 0)
  }

  /** The units of product p ordered by orders that are not completed. */
  function Committed(orders: seq<Order>, p: nat): (n: int) {
    if orders == [] then 0
    else
      var o := orders[|orders| - 1];
      Committed(orders[..|orders| - 1], p) + (if o.status != Completed && o.productId == p then o.quantity else 0)
  }

  /**
   * Conservation: every in_progress bucket holds exactly what the open orders
   * have taken, and every component's shipped bucket exactly what the
   * completed orders took from it.
   */
  ghost predicate Balanced(components: map<nat, Component>, products: map<nat, Product>, orders: seq<Order>) {
    && (forall c :: c in components ==>
          components[c].inProgress == InFlight(orders, c) && components[c].shipped == Delivered(orders, c))
    && (forall p :: p in products ==> products[p].inProgress == Committed(orders, p))
  }

  ghost predicate StoreInvariant(
    components: map<nat, Component>, products: map<nat, Product>, orders: seq<Order>,
    nextComponentId: nat, nextProductId: nat)
  {
    && 0 < nextComponentId && 0 < nextProductId
    && (forall c :: c in components ==> ComponentValid(components[c]) && 0 < c < nextComponentId)
    && (forall p :: p in products ==> ProductValid(products[p]) && Distinct(BomIds(products[p].bom)) && 0 < p < nextProductId)
    && CatalogueValid(components, products)
    && ComponentNamesUnique(components) && ProductNamesUnique(products)
    && OrdersConsistent(orders, products, components)
    && Balanced(components, products, orders)
  }

  /** The order row after complete_order: status completed, completion time stamped. */
  function MarkCompleted(o: Order): (done: Order)
    ensures done.status == Completed && done.completedAt
    ensures done.productId == o.productId && done.quantity == o.quantity && done.allocations == o.allocations
  {
    o.(status := Completed, completedAt := true)
  }

  // ---------------------------------------------------------------------------
  // Sums over allocations and orders
  // ---------------------------------------------------------------------------

  lemma {:induction false} AllocatedToNonNegative(allocs: seq<Allocation>, c: nat)
    requires forall k :: 0 <= k < |allocs| ==> AllocationValid(allocs[k])
    ensures AllocatedTo(allocs, c) >= 0
  {
    if allocs != [] {
      AllocatedToNonNegative(allocs[..|allocs| - 1], c);
    }
  }

  /** With positive allocations, a component's total covers each single allocation to it. */
  lemma {:induction false} AllocatedToCovers(allocs: seq<Allocation>, k: nat)
    requires k < |allocs| && forall j :: 0 <= j < |allocs| ==> AllocationValid(allocs[j])
    ensures AllocatedTo(allocs, allocs[k].componentId) >= allocs[k].quantityAllocated
  {
    var init := allocs[..|allocs| - 1];
    if k == |allocs| - 1 {
      AllocatedToNonNegative(init, allocs[k].componentId);
    } else {
      assert init[k] == allocs[k];
      AllocatedToCovers(init, k);
    }
  }

  lemma {:induction false} InFlightNonNegative(orders: seq<Order>, c: nat)
    requires forall i :: 0 <= i < |orders| ==> OrderValid(orders[i])
    ensures InFlight(orders, c) >= 0
  {
    if orders != [] {
      InFlightNonNegative(orders[..|orders| - 1], c);
      AllocatedToNonNegative(orders[|orders| - 1].allocations, c);
    }
  }

  lemma {:induction false} DeliveredNonNegative(orders: seq<Order>, c: nat)
    requires forall i :: 0 <= i < |orders| ==> OrderValid(orders[i])
    ensures Delivered(orders, c) >= 0
  {
    if orders != [] {
      DeliveredNonNegative(orders[..|orders| - 1], c);
      AllocatedToNonNegative(orders[|orders| - 1].allocations, c);
    }
  }

  lemma {:induction false} CommittedNonNegative(orders: seq<Order>, p: nat)
    requires forall i :: 0 <= i < |orders| ==> OrderValid(orders[i])
    ensures Committed(orders, p) >= 0
  {
    if orders != [] {
      CommittedNonNegative(orders[..|orders| - 1], p);
    }
  }

  /** An open order's allocations are part of the in-flight total of each component. */
  lemma {:induction false} InFlightCovers(orders: seq<Order>, i: nat, c: nat)
    requires i < |orders| && orders[i].status != Completed
    requires forall j :: 0 <= j < |orders| ==> OrderValid(orders[j])
    ensures InFlight(orders, c) >= AllocatedTo(orders[i].allocations, c)
  {
    var init := orders[..|orders| - 1];
    if i == |orders| - 1 {
      InFlightNonNegative(init, c);
    } else {
      assert init[i] == orders[i];
      InFlightCovers(init, i, c);
      AllocatedToNonNegative(orders[|orders| - 1].allocations, c);
    }
  }

  /** A completed order's allocations are part of the delivered total of each component. */
  lemma {:induction false} DeliveredCovers(orders: seq<Order>, i: nat, c: nat)
    requires i < |orders| && orders[i].status == Completed
    requires forall j :: 0 <= j < |orders| ==> OrderValid(orders[j])
    ensures Delivered(orders, c) >= AllocatedTo(orders[i].allocations, c)
  {
    var init := orders[..|orders| - 1];
    if i == |orders| - 1 {
      DeliveredNonNegative(init, c);
    } else {
      assert init[i] == orders[i];
      DeliveredCovers(init, i, c);
      AllocatedToNonNegative(orders[|orders| - 1].allocations, c);
    }
  }

  /** An open order's quantity is part of the committed total of its product. */
  lemma {:induction false} CommittedCovers(orders: seq<Order>, i: nat)
    requires i < |orders| && orders[i].status != Completed
    requires forall j :: 0 <= j < |orders| ==> OrderValid(orders[j])
    ensures Committed(orders, orders[i].productId) >= orders[i].quantity
  {
    var init := orders[..|orders| - 1];
    if i == |orders| - 1 {
      CommittedNonNegative(init, orders[i].productId);
    } else {
      assert init[i] == orders[i];
      CommittedCovers(init, i);
    }
  }

  lemma {:induction false} InFlightUnreferenced(orders: seq<Order>, c: nat)
    requires forall i :: 0 <= i < |orders| ==> c !in AllocationIds(orders[i].allocations)
    ensures InFlight(orders, c) == 0
  {
    if orders != [] {
      InFlightUnreferenced(orders[..|orders| - 1], c);
      AllocatedToAbsent(orders[|orders| - 1].allocations, c);
    }
  }

  lemma {:induction false} DeliveredUnreferenced(orders: seq<Order>, c: nat)
    requires forall i :: 0 <= i < |orders| ==> c !in AllocationIds(orders[i].allocations)
    ensures Delivered(orders, c) == 0
  {
    if orders != [] {
      DeliveredUnreferenced(orders[..|orders| - 1], c);
      AllocatedToAbsent(orders[|orders| - 1].allocations, c);
    }
  }

  lemma {:induction false} CommittedUnreferenced(orders: seq<Order>, p: nat)
    requires forall i :: 0 <= i < |orders| ==> orders[i].productId != p
    ensures Committed(orders, p) == 0
  {
    if orders != [] {
      CommittedUnreferenced(orders[..|orders| - 1], p);
    }
  }

  /** Completing an open order takes its allocations out of the in-flight totals. */
  lemma {:induction false} InFlightAfterCompletion(orders: seq<Order>, i: nat, c: nat)
    requires i < |orders| && orders[i].status != Completed
    ensures InFlight(orders[i := MarkCompleted(orders[i])], c) == InFlight(orders, c) - AllocatedTo(orders[i].allocations, c)
  {
    var after := orders[i := MarkCompleted(orders[i])];
    var n := |orders| - 1;
    if i == n {
      assert after[..n] == orders[..n];
    } else {
      assert after[..n] == orders[..n][i := MarkCompleted(orders[i])];
      assert orders[..n][i] == orders[i];
      InFlightAfterCompletion(orders[..n], i, c);
    }
  }

  /** Completing an open order adds its allocations to the delivered totals. */
  lemma {:induction false} DeliveredAfterCompletion(orders: seq<Order>, i: nat, c: nat)
    requires i < |orders| && orders[i].status != Completed
    ensures Delivered(orders[i := MarkCompleted(orders[i])], c) == Delivered(orders, c) + AllocatedTo(orders[i].allocations, c)
  {
    var after := orders[i := MarkCompleted(orders[i])];
    var n := |orders| - 1;
    if i == n {
      assert after[..n] == orders[..n];
    } else {
      assert after[..n] == orders[..n][i := MarkCompleted(orders[i])];
      assert orders[..n][i] == orders[i];
      DeliveredAfterCompletion(orders[..n], i, c);
    }
  }

  /** Completing an open order takes its quantity out of its product's committed total. */
  lemma {:induction false} CommittedAfterCompletion(orders: seq<Order>, i: nat, p: nat)
    requires i < |orders| && orders[i].status != Completed
    ensures Committed(orders[i := MarkCompleted(orders[i])], p)
            == Committed(orders, p) - (if orders[i].productId == p then orders[i].quantity else 0)
  {
    var after := orders[i := MarkCompleted(orders[i])];
    var n := |orders| - 1;
    if i == n {
      assert after[..n] == orders[..n];
    } else {
      assert after[..n] == orders[..n][i := MarkCompleted(orders[i])];
      assert orders[..n][i] == orders[i];
      CommittedAfterCompletion(orders[..n], i, p);
    }
  }

  /**
   * In a store that keeps the invariant, the in_progress guards of
   * complete_order always pass for an order that is not completed: every
   * component holds at least what the order allocated from it, and the
   * product at least the order's quantity. The 500 "data inconsistency"
   * answers cannot happen.
   */
  lemma CompletionCovered(
    components: map<nat, Component>, products: map<nat, Product>, orders: seq<Order>,
    nextComponentId: nat, nextProductId: nat, i: nat)
    requires StoreInvariant(components, products, orders, nextComponentId, nextProductId)
    requires i < |orders| && orders[i].status != Completed
    ensures orders[i].productId in products && orders[i].quantity <= products[orders[i].productId].inProgress
    ensures forall k :: 0 <= k < |orders[i].allocations| ==>
              var a := orders[i].allocations[k];
              a.componentId in components && a.quantityAllocated <= components[a.componentId].inProgress
  {
    assert forall j :: 0 <= j < |orders| ==> OrderValid(orders[j]);
    CommittedCovers(orders, i);
    var allocs := orders[i].allocations;
    forall k | 0 <= k < |allocs|
      ensures allocs[k].quantityAllocated <= InFlight(orders, allocs[k].componentId)
    {
      AllocatedToCovers(allocs, k);
      InFlightCovers(orders, i, allocs[k].componentId);
    }
  }

  /**
   * In a store that keeps the invariant, a component that some allocation
   * row references still holds units in progress (the order is open) or
   * shipped (the order is completed).
   */
  lemma AllocatedComponentHoldsStock(
    components: map<nat, Component>, products: map<nat, Product>, orders: seq<Order>,
    nextComponentId: nat, nextProductId: nat, i: nat, k: nat)
    requires StoreInvariant(components, products, orders, nextComponentId, nextProductId)
    requires i < |orders| && k < |orders[i].allocations|
    ensures var c := orders[i].allocations[k].componentId;
            c in components && (components[c].inProgress > 0 || components[c].shipped > 0)
  {
    assert forall j :: 0 <= j < |orders| ==> OrderValid(orders[j]);
    var c := orders[i].allocations[k].componentId;
    AllocatedToCovers(orders[i].allocations, k);
    if orders[i].status == Completed {
      DeliveredCovers(orders, i, c);
    } else {
      InFlightCovers(orders, i, c);
    }
  }

  // ---------------------------------------------------------------------------
  // The order transitions keep the invariant
  // ---------------------------------------------------------------------------

  /**
   * create_order on a stocked product: reserving the allocations, recording an
   * in-progress order and raising the product's in_progress keeps every CHECK
   * constraint, every reference and the conservation law.
   */
  lemma PlaceOrderKeepsInvariant(
    components: map<nat, Component>, products: map<nat, Product>, orders: seq<Order>,
    nextComponentId: nat, nextProductId: nat, pid: nat, qty: int,
    allocs: seq<Allocation>, components': map<nat, Component>, products': map<nat, Product>, orders': seq<Order>)
    requires StoreInvariant(components, products, orders, nextComponentId, nextProductId)
    requires pid in products && qty > 0
    requires Shortages(Requirements(products[pid].bom, components, qty)) == []
    requires allocs == AllocationsFor(Requirements(products[pid].bom, components, qty))
    requires components' == Reserve(components, allocs)
    requires products' == products[pid := products[pid].(inProgress := products[pid].inProgress + qty)]
    requires orders' == orders + [Order(pid, qty, InProgress, false, allocs)]
    ensures StoreInvariant(components', products', orders', nextComponentId, nextProductId)
  {
    PlacedAllocationsFit(components, products, orders, nextComponentId, nextProductId, pid, qty);
    PlacedCatalogue(components, products, orders, nextComponentId, nextProductId, pid, qty, components', products');
    PlacedOrdersConsistent(components, products, orders, pid, qty, allocs, components', products', orders');
    PlacedBalanced(components, products, orders, pid, qty, allocs, components', products', orders');
  }

  /** Reserving stock and raising a product's in_progress keep every row, name and BOM reference valid. */
  lemma PlacedCatalogue(
    components: map<nat, Component>, products: map<nat, Product>, orders: seq<Order>,
    nextComponentId: nat, nextProductId: nat, pid: nat, qty: int,
    components': map<nat, Component>, products': map<nat, Product>)
    requires StoreInvariant(components, products, orders, nextComponentId, nextProductId)
    requires pid in products && qty > 0
    requires components'.Keys == components.Keys
    requires forall c :: c in components ==>
               ComponentValid(components'[c]) && components'[c].name == components[c].name
    requires products' == products[pid := products[pid].(inProgress := products[pid].inProgress + qty)]
    ensures forall c :: c in components' ==> ComponentValid(components'[c]) && 0 < c < nextComponentId
    ensures forall p :: p in products' ==>
              ProductValid(products'[p]) && Distinct(BomIds(products'[p].bom)) && 0 < p < nextProductId
    ensures CatalogueValid(components', products')
    ensures ComponentNamesUnique(components') && ProductNamesUnique(products')
  {
    forall id | id in products' ensures BomPriced(products'[id].bom, components') {
      assert BomPriced(products[id].bom, components);
    }
  }

  /** The reserved stock stays valid, and the new allocation rows are valid and distinct. */
  lemma PlacedAllocationsFit(
    components: map<nat, Component>, products: map<nat, Product>, orders: seq<Order>,
    nextComponentId: nat, nextProductId: nat, pid: nat, qty: int)
    requires StoreInvariant(components, products, orders, nextComponentId, nextProductId)
    requires pid in products && qty > 0
    requires Shortages(Requirements(products[pid].bom, components, qty)) == []
    ensures var allocs := AllocationsFor(Requirements(products[pid].bom, components, qty));
      && Distinct(AllocationIds(allocs))
      && (forall k :: 0 <= k < |allocs| ==> AllocationValid(allocs[k]) && allocs[k].componentId in components)
      && (forall c :: c in components ==> ComponentValid(Reserve(components, allocs)[c]))
  {
    var bom := products[pid].bom;
    var reqs := Requirements(bom, components, qty);
    var allocs := AllocationsFor(reqs);
    assert AllocationIds(allocs) == BomIds(bom);
    NoShortagesIffCovered(reqs);
    ReserveMovesEachAllocation(components, allocs);
  }

  lemma PlacedOrdersConsistent(
    components: map<nat, Component>, products: map<nat, Product>, orders: seq<Order>,
    pid: nat, qty: int, allocs: seq<Allocation>,
    components': map<nat, Component>, products': map<nat, Product>, orders': seq<Order>)
    requires OrdersConsistent(orders, products, components) && pid in products && qty > 0
    requires Distinct(AllocationIds(allocs))
    requires forall k :: 0 <= k < |allocs| ==> AllocationValid(allocs[k]) && allocs[k].componentId in components
    requires components'.Keys == components.Keys && products'.Keys == products.Keys
    requires orders' == orders + [Order(pid, qty, InProgress, false, allocs)]
    ensures OrdersConsistent(orders', products', components')
  {
    forall i | 0 <= i < |orders'|
      ensures && OrderValid(orders'[i]) && orders'[i].productId in products'
              && Distinct(AllocationIds(orders'[i].allocations))
              && forall k :: 0 <= k < |orders'[i].allocations| ==> orders'[i].allocations[k].componentId in components'
    {
      if i < |orders| {
        assert orders'[i] == orders[i];
      }
    }
  }

  lemma PlacedBalanced(
    components: map<nat, Component>, products: map<nat, Product>, orders: seq<Order>,
    pid: nat, qty: int, allocs: seq<Allocation>,
    components': map<nat, Component>, products': map<nat, Product>, orders': seq<Order>)
    requires Balanced(components, products, orders) && pid in products
    requires components' == Reserve(components, allocs)
    requires products' == products[pid := products[pid].(inProgress := products[pid].inProgress + qty)]
    requires orders' == orders + [Order(pid, qty, InProgress, false, allocs)]
    ensures Balanced(components', products', orders')
  {
    assert orders'[..|orders|] == orders;
    forall c | c in components'
      ensures components'[c].inProgress == InFlight(orders', c) && components'[c].shipped == Delivered(orders', c)
    {
    }
    forall q | q in products' ensures products'[q].inProgress == Committed(orders', q) {
    }
  }

  /**
   * complete_order on an open order: shipping its allocations, moving its
   * quantity to the product's shipped bucket and marking it completed keeps
   * the invariant.
   */
  lemma CompleteOrderKeepsInvariant(
    components: map<nat, Component>, products: map<nat, Product>, orders: seq<Order>,
    nextComponentId: nat, nextProductId: nat, i: nat,
    components': map<nat, Component>, products': map<nat, Product>, orders': seq<Order>)
    requires StoreInvariant(components, products, orders, nextComponentId, nextProductId)
    requires i < |orders| && orders[i].status != Completed && orders[i].productId in products
    requires components' == Ship(components, orders[i].allocations)
    requires var o := orders[i];
             var p := products[o.productId];
             products' == products[o.productId := p.(inProgress := p.inProgress - o.quantity, shipped := p.shipped + o.quantity)]
    requires orders' == orders[i := MarkCompleted(orders[i])]
    ensures StoreInvariant(components', products', orders', nextComponentId, nextProductId)
  {
    var o := orders[i];
    var p := products[o.productId];
    CompletionCovered(components, products, orders, nextComponentId, nextProductId, i);
    ShipMovesEachAllocation(components, o.allocations);
    forall id | id in products' ensures BomPriced(products'[id].bom, components') {
      assert BomPriced(products[id].bom, components);
    }
    forall j | 0 <= j < |orders'|
      ensures && OrderValid(orders'[j]) && orders'[j].productId in products'
              && Distinct(AllocationIds(orders'[j].allocations))
              && forall k :: 0 <= k < |orders'[j].allocations| ==> orders'[j].allocations[k].componentId in components'
    {
    }
    assert OrdersConsistent(orders', products', components');
    forall c | c in components'
      ensures components'[c].inProgress == InFlight(orders', c) && components'[c].shipped == Delivered(orders', c)
    {
      InFlightAfterCompletion(orders, i, c);
      DeliveredAfterCompletion(orders, i, c);
    }
    forall q | q in products' ensures products'[q].inProgress == Committed(orders', q) {
      CommittedAfterCompletion(orders, i, q);
    }
  }
}
