/**
 * The pure half of the order lifecycle (backend/crud_orders.py): the
 * per-component requirements of an order, the stock check, the stock
 * movements that allocation and completion perform, and the order summary.
 * The state-changing transitions themselves are methods of Inventory.Store.
 */
module Orders {
  import opened Models
  import opened Quantities

  /** What one BOM line of a product costs an order of `quantity` units. */
  datatype Requirement = Requirement(componentId: nat, componentName: string, needed: int, available: int)

  /** Every BOM line is valid and names an existing, valid component. */
  predicate BomPriced(bom: seq<BomLine>, components: map<nat, Component>) {
    forall k :: 0 <= k < |bom| ==>
      && BomLineValid(bom[k])
      && bom[k].componentId in components
      && ComponentValid(components[bom[k].componentId])
  }

  /** The requirement of one BOM line: its component, ceil(q * (1 + s) * n) and the stock on hand. */
  function LineRequirement(line: BomLine, components: map<nat, Component>, quantity: int): (r: Requirement)
    requires BomLineValid(line) && line.componentId in components
    requires ComponentValid(components[line.componentId]) && quantity > 0
    ensures r.componentId == line.componentId && r.componentName == components[line.componentId].name
    ensures r.needed >= 1
    ensures r.needed as real >= ExactTotal(line.quantityRequired, components[line.componentId].spillage, quantity)
    ensures r.needed as real - 1.0 < ExactTotal(line.quantityRequired, components[line.componentId].spillage, quantity)
    ensures r.available == components[line.componentId].inStock
  {
    var c := components[line.componentId];
    NeededIsCeiling(line.quantityRequired, c.spillage, quantity);
    Requirement(line.componentId, c.name, Needed(line.quantityRequired, c.spillage, quantity), c.inStock)
  }

  /** The requirement list of an order, one entry per BOM line and in BOM order. */
  function Requirements(bom: seq<BomLine>, components: map<nat, Component>, quantity: int): (reqs: seq<Requirement>)
    requires BomPriced(bom, components) && quantity > 0
    ensures |reqs| == |bom|
    ensures forall k :: 0 <= k < |bom| ==> reqs[k] == LineRequirement(bom[k], components, quantity)
  {
    seq(|bom|, k requires 0 <= k < |bom| && BomPriced(bom, components) && quantity > 0 =>
      LineRequirement(bom[k], components, quantity))
  }

  /** The positions of the short requirements (available < needed), in increasing order. */
  function ShortPositions(reqs: seq<Requirement>): (ps: seq<nat>)
    ensures forall i :: 0 <= i < |ps| ==> ps[i] < |reqs| && reqs[ps[i]].available < reqs[ps[i]].needed
    ensures forall i, j :: 0 <= i < j < |ps| ==> ps[i] < ps[j]
    ensures forall k :: 0 <= k < |reqs| && reqs[k].available < reqs[k].needed ==> k in ps
  {
    if reqs == [] then []
    else
      var n := |reqs| - 1;
      ShortPositions(reqs[..n]) + (if reqs[n].available < reqs[n].needed then [n] else [])
  }

  /** The entry of the "insufficient_components" list for one requirement. */
  function ShortageOf(r: Requirement): Shortage {
    Shortage(r.componentId, r.componentName, r.needed, r.available)
  }

  /** The short components, in requirement order, as the "insufficient_components" list. */
  function Shortages(reqs: seq<Requirement>): (short: seq<Shortage>)
    ensures |short| <= |reqs|
    ensures forall i :: 0 <= i < |short| ==> short[i].available < short[i].needed
  {
    if reqs == [] then []
    else
      var r := reqs[|reqs| - 1];
      Shortages(reqs[..|reqs| - 1]) + (if r.available < r.needed then [ShortageOf(r)] else [])
  }

  /**
   * The shortage list holds exactly one entry per short requirement, taken
   * from that requirement, in increasing position order: no entry is made
   * up, dropped or repeated.
   */
  lemma {:induction false} ShortagesAreShortPositions(reqs: seq<Requirement>)
    ensures |Shortages(reqs)| == |ShortPositions(reqs)|
    ensures forall i :: 0 <= i < |Shortages(reqs)| ==> Shortages(reqs)[i] == ShortageOf(reqs[ShortPositions(reqs)[i]])
  {
    if reqs != [] {
      var init := reqs[..|reqs| - 1];
      ShortagesAreShortPositions(init);
      assert forall k :: 0 <= k < |init| ==> init[k] == reqs[k];
    }
  }

  /** Nothing is short exactly when every requirement is covered by the stock on hand. */
  lemma {:induction false} NoShortagesIffCovered(reqs: seq<Requirement>)
    ensures Shortages(reqs) == [] <==> forall k :: 0 <= k < |reqs| ==> reqs[k].needed <= reqs[k].available
  {
    if reqs != [] {
      var init := reqs[..|reqs| - 1];
      NoShortagesIffCovered(init);
      assert forall k :: 0 <= k < |init| ==> init[k] == reqs[k];
    }
  }

  /** Every short requirement is reported, with its own figures. */
  lemma {:induction false} ShortagesReportEveryShortLine(reqs: seq<Requirement>, k: nat)
    requires k < |reqs| && reqs[k].available < reqs[k].needed
    ensures exists i :: (0 <= i < |Shortages(reqs)| && Shortages(reqs)[i]
              == Shortage(reqs[k].componentId, reqs[k].componentName, reqs[k].needed, reqs[k].available))
  {
    var init := reqs[..|reqs| - 1];
    if k == |reqs| - 1 {
      var i := |Shortages(init)|;
      assert Shortages(reqs)[i] == Shortage(reqs[k].componentId, reqs[k].componentName, reqs[k].needed, reqs[k].available);
    } else {
      assert init[k] == reqs[k];
      ShortagesReportEveryShortLine(init, k);
      var i :| 0 <= i < |Shortages(init)| && Shortages(init)[i]
        == Shortage(reqs[k].componentId, reqs[k].componentName, reqs[k].needed, reqs[k].available);
      assert Shortages(reqs)[i] == Shortages(init)[i];
    }
  }

  /** The allocation rows of a successful order: one per requirement, for the needed quantity. */
  function AllocationsFor(reqs: seq<Requirement>): (allocs: seq<Allocation>)
    ensures |allocs| == |reqs|
    ensures forall k :: 0 <= k < |reqs| ==>
              allocs[k].componentId == reqs[k].componentId && allocs[k].quantityAllocated == reqs[k].needed
  {
    seq(|reqs|, k requires 0 <= k < |reqs| => Allocation(reqs[k].componentId, reqs[k].needed))
  }

  // ---------------------------------------------------------------------------
  // Stock movements
  // ---------------------------------------------------------------------------

  /** The total quantity a list of allocations assigns to component c. */
  function AllocatedTo(allocs: seq<Allocation>, c: nat): (n: int) {
    if allocs == [] then 0
    else
      var a := allocs[|allocs| - 1];
      AllocatedTo(allocs[..|allocs| - 1], c) + (if a.componentId == c then a.quantityAllocated else 0)
  }

  lemma {:induction false} AllocatedToAbsent(allocs: seq<Allocation>, c: nat)
    requires c !in AllocationIds(allocs)
    ensures AllocatedTo(allocs, c) == 0
  {
    if allocs != [] {
      var init := allocs[..|allocs| - 1];
      assert AllocationIds(init) == AllocationIds(allocs)[..|init|];
      AllocatedToAbsent(init, c);
    }
  }

  /** With distinct components, each allocation is the whole quantity assigned to its component. */
  lemma {:induction false} AllocatedToDistinct(allocs: seq<Allocation>, k: nat)
    requires k < |allocs| && Distinct(AllocationIds(allocs))
    ensures AllocatedTo(allocs, allocs[k].componentId) == allocs[k].quantityAllocated
  {
    var init := allocs[..|allocs| - 1];
    var c := allocs[k].componentId;
    assert AllocationIds(init) == AllocationIds(allocs)[..|init|];
    if k == |allocs| - 1 {
      forall j | 0 <= j < |init| ensures AllocationIds(init)[j] != c {
        assert AllocationIds(allocs)[j] != AllocationIds(allocs)[k];
      }
      AllocatedToAbsent(init, c);
    } else {
      assert allocs[|allocs| - 1].componentId != c by {
        assert AllocationIds(allocs)[k] != AllocationIds(allocs)[|allocs| - 1];
      }
      assert init[k] == allocs[k];
      assert Distinct(AllocationIds(init));
      AllocatedToDistinct(init, k);
    }
  }

  function BucketTotal(c: Component): (total: int) {
    c.inStock + c.inProgress + c.shipped
  }

  /** Allocation: each allocated quantity leaves in_stock and enters in_progress. */
  function Reserve(components: map<nat, Component>, allocs: seq<Allocation>): (r: map<nat, Component>)
    ensures r.Keys == components.Keys
    ensures forall c :: c in components ==> BucketTotal(r[c]) == BucketTotal(components[c])
    ensures forall c :: c in components ==> r[c].shipped == components[c].shipped
    ensures forall c :: c in components ==> r[c].name == components[c].name && r[c].spillage == components[c].spillage
    ensures forall c :: c in components && c !in AllocationIds(allocs) ==> r[c] == components[c]
  {
    forall c | c in components && c !in AllocationIds(allocs) ensures AllocatedTo(allocs, c) == 0 {
      AllocatedToAbsent(allocs, c);
    }
    map c | c in components ::
      var n := AllocatedTo(allocs, c);
      components[c].(inStock := components[c].inStock - n, inProgress := components[c].inProgress + n)
  }

  /** Completion: each allocated quantity leaves in_progress and enters shipped. */
  function Ship(components: map<nat, Component>, allocs: seq<Allocation>): (r: map<nat, Component>)
    ensures r.Keys == components.Keys
    ensures forall c :: c in components ==> BucketTotal(r[c]) == BucketTotal(components[c])
    ensures forall c :: c in components ==> r[c].inStock == components[c].inStock
    ensures forall c :: c in components ==> r[c].name == components[c].name && r[c].spillage == components[c].spillage
    ensures forall c :: c in components && c !in AllocationIds(allocs) ==> r[c] == components[c]
  {
    forall c | c in components && c !in AllocationIds(allocs) ensures AllocatedTo(allocs, c) == 0 {
      AllocatedToAbsent(allocs, c);
    }
    map c | c in components ::
      var n := AllocatedTo(allocs, c);
      components[c].(inProgress := components[c].inProgress - n, shipped := components[c].shipped + n)
  }

  /** With distinct components, no row before position i names the component of row i. */
  lemma PrefixExcludes(allocs: seq<Allocation>, i: nat)
    requires i < |allocs| && Distinct(AllocationIds(allocs))
    ensures allocs[i].componentId !in AllocationIds(allocs[..i])
  {
    forall k | 0 <= k < i ensures AllocationIds(allocs[..i])[k] != allocs[i].componentId {
      assert AllocationIds(allocs)[k] != AllocationIds(allocs)[i];
    }
  }

  /**
   * The allocation loop, one row at a time: if `before` is the table after
   * the first rows, moving the next row's quantity from in_stock to
   * in_progress gives the table after one more row.
   */
  lemma ReserveStep(
    components: map<nat, Component>, allocs: seq<Allocation>, a: Allocation,
    before: map<nat, Component>, after: map<nat, Component>)
    requires a.componentId in components
    requires before == Reserve(components, allocs)
    requires a.componentId in before
    requires after == before[a.componentId := before[a.componentId].(
               inStock := before[a.componentId].inStock - a.quantityAllocated,
               inProgress := before[a.componentId].inProgress + a.quantityAllocated)]
    ensures after == Reserve(components, allocs + [a])
  {
    assert (allocs + [a])[..|allocs|] == allocs;
  }

  /**
   * Before row i of a list of distinct allocations ships, row i's
   * component is still as it was in the starting table.
   */
  lemma ShipPending(components: map<nat, Component>, allocs: seq<Allocation>, i: nat)
    requires i < |allocs| && Distinct(AllocationIds(allocs))
    requires forall k :: 0 <= k < |allocs| ==> allocs[k].componentId in components
    ensures allocs[i].componentId in Ship(components, allocs[..i])
    ensures Ship(components, allocs[..i])[allocs[i].componentId] == components[allocs[i].componentId]
  {
    PrefixExcludes(allocs, i);
  }

  /**
   * The completion loop, one row at a time: if `before` is the table after
   * the first i rows, moving row i's quantity from in_progress to shipped
   * gives the table after i + 1 rows.
   */
  lemma ShipStep(
    components: map<nat, Component>, allocs: seq<Allocation>, i: nat,
    before: map<nat, Component>, after: map<nat, Component>)
    requires i < |allocs| && allocs[i].componentId in components
    requires before == Ship(components, allocs[..i])
    requires allocs[i].componentId in before
    requires after == before[allocs[i].componentId := before[allocs[i].componentId].(
               inProgress := before[allocs[i].componentId].inProgress - allocs[i].quantityAllocated,
               shipped := before[allocs[i].componentId].shipped + allocs[i].quantityAllocated)]
    ensures after == Ship(components, allocs[..i + 1])
  {
    assert allocs[..i + 1][..i] == allocs[..i];
  }

  /**
   * When every allocation is covered by in_stock and no component repeats,
   * allocation moves exactly each allocated quantity and keeps every stock
   * bucket non-negative.
   */
  lemma ReserveMovesEachAllocation(components: map<nat, Component>, allocs: seq<Allocation>)
    requires forall c :: c in components ==> ComponentValid(components[c])
    requires Distinct(AllocationIds(allocs))
    requires forall k :: 0 <= k < |allocs| ==> AllocationValid(allocs[k])
    requires forall k :: 0 <= k < |allocs| ==>
               allocs[k].componentId in components
               && allocs[k].quantityAllocated <= components[allocs[k].componentId].inStock
    ensures forall c :: c in components ==> ComponentValid(Reserve(components, allocs)[c])
    ensures forall k :: 0 <= k < |allocs| ==>
              var c := allocs[k].componentId;
              && Reserve(components, allocs)[c].inStock == components[c].inStock - allocs[k].quantityAllocated
              && Reserve(components, allocs)[c].inProgress == components[c].inProgress + allocs[k].quantityAllocated
  {
    forall k | 0 <= k < |allocs| ensures AllocatedTo(allocs, allocs[k].componentId) == allocs[k].quantityAllocated {
      AllocatedToDistinct(allocs, k);
    }
    forall c | c in components ensures ComponentValid(Reserve(components, allocs)[c]) {
      if c in AllocationIds(allocs) {
        var k :| 0 <= k < |allocs| && AllocationIds(allocs)[k] == c;
      }
    }
  }

  /**
   * When every allocation is covered by in_progress and no component repeats,
   * completion moves exactly each allocated quantity and keeps every stock
   * bucket non-negative.
   */
  lemma ShipMovesEachAllocation(components: map<nat, Component>, allocs: seq<Allocation>)
    requires forall c :: c in components ==> ComponentValid(components[c])
    requires Distinct(AllocationIds(allocs))
    requires forall k :: 0 <= k < |allocs| ==> AllocationValid(allocs[k])
    requires forall k :: 0 <= k < |allocs| ==>
               allocs[k].componentId in components
               && allocs[k].quantityAllocated <= components[allocs[k].componentId].inProgress
    ensures forall c :: c in components ==> ComponentValid(Ship(components, allocs)[c])
    ensures forall k :: 0 <= k < |allocs| ==>
              var c := allocs[k].componentId;
              && Ship(components, allocs)[c].inProgress == components[c].inProgress - allocs[k].quantityAllocated
              && Ship(components, allocs)[c].shipped == components[c].shipped + allocs[k].quantityAllocated
  {
    forall k | 0 <= k < |allocs| ensures AllocatedTo(allocs, allocs[k].componentId) == allocs[k].quantityAllocated {
      AllocatedToDistinct(allocs, k);
    }
    forall c | c in components ensures ComponentValid(Ship(components, allocs)[c]) {
      if c in AllocationIds(allocs) {
        var k :| 0 <= k < |allocs| && AllocationIds(allocs)[k] == c;
      }
    }
  }

  /**
   * Allocating and then completing the same allocations leaves in_progress
   * as it was: the units went from in_stock straight to shipped.
   */
  lemma ReserveThenShip(components: map<nat, Component>, allocs: seq<Allocation>)
    ensures forall c :: c in components ==>
              var after := Ship(Reserve(components, allocs), allocs)[c];
              var n := AllocatedTo(allocs, c);
              after == components[c].(inStock := components[c].inStock - n, shipped := components[c].shipped + n)
  {
  }

  // ---------------------------------------------------------------------------
  // Summary
  // ---------------------------------------------------------------------------

  function CountStatus(orders: seq<Order>, s: Status): (n: nat)
    ensures n <= |orders|
  {
    if orders == [] then 0
    else CountStatus(orders[..|orders| - 1], s) + (if orders[|orders| - 1].status == s then 1 else 0)
  }

  datatype OrderSummary = OrderSummary(totalOrders: nat, pending: nat, inProgress: nat, completed: nat, orders: seq<Order>)

  /** get_order_summary: the order list with its per-status counts. */
  function Summary(orders: seq<Order>): (s: OrderSummary)
    ensures s.totalOrders == |orders| && s.orders == orders
    ensures s.pending == CountStatus(orders, Pending)
    ensures s.inProgress == CountStatus(orders, InProgress)
    ensures s.completed == CountStatus(orders, Completed)
    ensures s.pending + s.inProgress + s.completed == s.totalOrders
  {
    StatusCountsPartition(orders);
    OrderSummary(|orders|, CountStatus(orders, Pending), CountStatus(orders, InProgress),
                 CountStatus(orders, Completed), orders)
  }

  /** Every order has exactly one of the three states, so the counts add up to the total. */
  lemma {:induction false} StatusCountsPartition(orders: seq<Order>)
    ensures CountStatus(orders, Pending) + CountStatus(orders, InProgress) + CountStatus(orders, Completed) == |orders|
  {
    if orders != [] {
      StatusCountsPartition(orders[..|orders| - 1]);
    }
  }

  /** Each count is the number of positions holding an order of that state. */
  lemma {:induction false} CountStatusCounts(orders: seq<Order>, s: Status)
    ensures CountStatus(orders, s) == |set i | 0 <= i < |orders| && orders[i].status == s|
  {
    var S := set i | 0 <= i < |orders| && orders[i].status == s;
    if orders != [] {
      var init := orders[..|orders| - 1];
      var last := |orders| - 1;
      CountStatusCounts(init, s);
      var T := set i | 0 <= i < |init| && init[i].status == s;
      if orders[last].status == s {
        assert S == T + {last};
      } else {
        assert S == T;
      }
    } else {
      assert S == {};
    }
  }
}
