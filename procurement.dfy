/**
 * The procurement report (backend/crud_procurement.py): for the open
 * (pending or in-progress) orders, the total each component is still needed
 * for, the number of orders that need it, and the components whose total
 * exceeds the stock on hand.
 */
module Procurement {
  import opened Models
  import opened Quantities
  import opened Orders
  import opened Products

  predicate IsOpen(o: Order) {
    o.status == Pending || o.status == InProgress
  }

  /** The orders the report reads, `status in ('pending', 'in_progress')`, each with its multiplicity. */
  function OpenOrders(orders: seq<Order>): (open: seq<Order>)
    ensures |open| <= |orders|
    ensures forall i :: 0 <= i < |open| ==> IsOpen(open[i]) && open[i] in orders
    ensures forall i :: 0 <= i < |orders| && IsOpen(orders[i]) ==> orders[i] in open
    ensures forall o :: multiset(open)[o] == if IsOpen(o) then multiset(orders)[o] else 0
  {
    if orders == [] then []
    else
      var init, o := orders[..|orders| - 1], orders[|orders| - 1];
      assert orders == init + [o];
      OpenOrders(init) + (if IsOpen(o) then [o] else [])
  }

  /** Every order names an existing product and a positive quantity. */
  predicate OrdersPriced(orders: seq<Order>, products: map<nat, Product>) {
    forall i :: 0 <= i < |orders| ==> orders[i].productId in products && orders[i].quantity > 0
  }

  lemma OpenOrdersPriced(orders: seq<Order>, products: map<nat, Product>)
    requires OrdersPriced(orders, products)
    ensures OrdersPriced(OpenOrders(orders), products)
  {
  }

  /**
   * What one BOM line of one order adds to its component's total: the
   * rounded-up requirement for a pending order, nothing for an order that
   * is already in progress (its stock is allocated).
   */
  function Contribution(o: Order, line: BomLine, components: map<nat, Component>): (n: int)
    requires o.quantity > 0 && BomLineValid(line) && line.componentId in components
    requires ComponentValid(components[line.componentId])
    ensures o.status == Pending ==> n >= 1
    ensures o.status != Pending ==> n == 0
    ensures o.status == Pending ==> n == LineRequirement(line, components, o.quantity).needed
  {
    if o.status == Pending then
      Needed(line.quantityRequired, components[line.componentId].spillage, o.quantity)
    else 0
  }

  /** Whether some line of a BOM names component c. */
  predicate Mentions(bom: seq<BomLine>, c: nat) {
    bom != [] && (Mentions(bom[..|bom| - 1], c) || bom[|bom| - 1].componentId == c)
  }

  /** The sum of the contributions of the lines of one order's BOM that name c. */
  function LineNeed(o: Order, bom: seq<BomLine>, c: nat, components: map<nat, Component>): (n: int)
    requires o.quantity > 0 && BomPriced(bom, components)
  {
    if bom == [] then 0
    else
      var l := bom[|bom| - 1];
      LineNeed(o, bom[..|bom| - 1], c, components) + (if l.componentId == c then Contribution(o, l, components) else 0)
  }

  /** How many lines of one order's BOM name c and contribute something. */
  function LineCount(o: Order, bom: seq<BomLine>, c: nat, components: map<nat, Component>): (n: int)
    requires o.quantity > 0 && BomPriced(bom, components)
  {
    if bom == [] then 0
    else
      var l := bom[|bom| - 1];
      LineCount(o, bom[..|bom| - 1], c, components)
        + (if l.componentId == c && Contribution(o, l, components) > 0 then 1 else 0)
  }

  /** Whether the BOM of some order in the list names c. */
  predicate ReferencedBy(orders: seq<Order>, products: map<nat, Product>, c: nat)
    requires OrdersPriced(orders, products)
  {
    orders != []
      && (ReferencedBy(orders[..|orders| - 1], products, c) || Mentions(products[orders[|orders| - 1].productId].bom, c))
  }

  /** `total_needed`: the contributions to c summed over the orders. */
  function TotalNeeded(orders: seq<Order>, products: map<nat, Product>, components: map<nat, Component>, c: nat): (n: int)
    requires OrdersPriced(orders, products) && CatalogueValid(components, products)
  {
    if orders == [] then 0
    else
      var o := orders[|orders| - 1];
      TotalNeeded(orders[..|orders| - 1], products, components, c) + LineNeed(o, products[o.productId].bom, c, components)
  }

  /** `orders_count`: the number of positive contributions to c over the orders. */
  function OrdersAffected(orders: seq<Order>, products: map<nat, Product>, components: map<nat, Component>, c: nat): (n: int)
    requires OrdersPriced(orders, products) && CatalogueValid(components, products)
  {
    if orders == [] then 0
    else
      var o := orders[|orders| - 1];
      OrdersAffected(orders[..|orders| - 1], products, components, c) + LineCount(o, products[o.productId].bom, c, components)
  }

  datatype ProcurementItem = ProcurementItem(
    componentId: nat,
    componentName: string,
    inStock: int,
    totalNeeded: int,
    shortage: int,
    ordersAffected: int)

  datatype ProcurementReport = ProcurementReport(componentsToOrder: seq<ProcurementItem>, totalItems: nat)

  /** The report line for component c over the given open orders. */
  function ItemFor(open: seq<Order>, products: map<nat, Product>, components: map<nat, Component>, c: nat)
    : ProcurementItem
    requires OrdersPriced(open, products) && CatalogueValid(components, products) && c in components
  {
    var total := TotalNeeded(open, products, components, c);
    ProcurementItem(c, components[c].name, components[c].inStock, total, total - components[c].inStock,
                    OrdersAffected(open, products, components, c))
  }

  function ItemIdsOf(items: seq<ProcurementItem>): (ids: seq<nat>)
    ensures |ids| == |items|
    ensures forall t :: 0 <= t < |items| ==> ids[t] == items[t].componentId
  {
    seq(|items|, t requires 0 <= t < |items| => items[t].componentId)
  }

  lemma {:induction false} MentionedComponentExists(bom: seq<BomLine>, components: map<nat, Component>, c: nat)
    requires BomPriced(bom, components) && Mentions(bom, c)
    ensures c in components
  {
    if !Mentions(bom[..|bom| - 1], c) {
      assert bom[|bom| - 1].componentId == c;
    } else {
      MentionedComponentExists(bom[..|bom| - 1], components, c);
    }
  }

  lemma {:induction false} ReferencedComponentExists(
    orders: seq<Order>, products: map<nat, Product>, components: map<nat, Component>, c: nat)
    requires OrdersPriced(orders, products) && CatalogueValid(components, products)
    requires ReferencedBy(orders, products, c)
    ensures c in components
  {
    var init := orders[..|orders| - 1];
    var o := orders[|orders| - 1];
    if ReferencedBy(init, products, c) {
      ReferencedComponentExists(init, products, components, c);
    } else {
      MentionedComponentExists(products[o.productId].bom, components, c);
    }
  }

  /**
   * `component_needs` after the orders `done`: the totals and counts are a
   * dictionary keyed by every component the BOM of one of those orders names,
   * with every key listed once in `keys` (AddOrder only appends to it).
   */
  ghost predicate Tallied(
    totals: map<nat, int>, counts: map<nat, int>, keys: seq<nat>,
    done: seq<Order>, products: map<nat, Product>, components: map<nat, Component>)
    requires OrdersPriced(done, products) && CatalogueValid(components, products)
  {
    && totals.Keys == counts.Keys == Elements(keys) && Distinct(keys)
    && (forall c :: c in totals <==> ReferencedBy(done, products, c))
    && (forall c :: c in totals ==>
          totals[c] == TotalNeeded(done, products, components, c)
          && counts[c] == OrdersAffected(done, products, components, c))
  }

  /**
   * The dictionary part-way through one order whose BOM so far is `lines`:
   * the totals and counts before the order plus what those lines contribute.
   */
  ghost predicate Partial(
    totals: map<nat, int>, counts: map<nat, int>, keys: seq<nat>,
    totals0: map<nat, int>, counts0: map<nat, int>, o: Order, lines: seq<BomLine>, components: map<nat, Component>)
    requires o.quantity > 0 && BomPriced(lines, components)
  {
    && totals0.Keys == counts0.Keys
    && totals.Keys == counts.Keys == Elements(keys) && Distinct(keys)
    && (forall c :: c in totals <==> c in totals0 || Mentions(lines, c))
    && (forall c :: c in totals ==>
          totals[c] == (if c in totals0 then totals0[c] else 0) + LineNeed(o, lines, c, components)
          && counts[c] == (if c in counts0 then counts0[c] else 0) + LineCount(o, lines, c, components))
  }

  /** The inner loop over one order's BOM lines (`total_needed +=`, `orders_count +=`). */
  method AddOrder(
    totals0: map<nat, int>, counts0: map<nat, int>, keys0: seq<nat>,
    done: seq<Order>, o: Order, products: map<nat, Product>, components: map<nat, Component>)
    returns (totals: map<nat, int>, counts: map<nat, int>, keys: seq<nat>)
    requires CatalogueValid(components, products) && OrdersPriced(done, products)
    requires o.productId in products && o.quantity > 0
    requires Tallied(totals0, counts0, keys0, done, products, components)
    ensures OrdersPriced(done + [o], products)
    ensures Tallied(totals, counts, keys, done + [o], products, components)
    ensures keys0 <= keys
  {
    var bom := products[o.productId].bom;
    totals, counts, keys := totals0, counts0, keys0;
    var j := 0;
    while j < |bom|
      invariant 0 <= j <= |bom|
      invariant Partial(totals, counts, keys, totals0, counts0, o, bom[..j], components)
      invariant keys0 <= keys
    {
      var line := bom[j];
      assert bom[..j + 1] == bom[..j] + [line];
      var actual := Contribution(o, line, components);
      ghost var t, n, ks := totals, counts, keys;
      if line.componentId !in totals {
        totals := totals[line.componentId := 0];
        counts := counts[line.componentId := 0];
        keys := keys + [line.componentId];
      }
      totals := totals[line.componentId := totals[line.componentId] + actual];
      if actual > 0 {
        counts := counts[line.componentId := counts[line.componentId] + 1];
      }
      AddLineStep(t, n, ks, totals, counts, keys, totals0, counts0, o, bom[..j], line, components);
      j := j + 1;
    }
    assert bom[..j] == bom;
    OrderTallied(totals, counts, keys, totals0, counts0, keys0, done, o, products, components);
  }

  /** One BOM line of the inner loop keeps the partial dictionary. */
  lemma AddLineStep(
    t: map<nat, int>, n: map<nat, int>, ks: seq<nat>,
    totals: map<nat, int>, counts: map<nat, int>, keys: seq<nat>,
    totals0: map<nat, int>, counts0: map<nat, int>, o: Order, lines: seq<BomLine>, line: BomLine,
    components: map<nat, Component>)
    requires o.quantity > 0 && BomPriced(lines, components)
    requires BomLineValid(line) && line.componentId in components && ComponentValid(components[line.componentId])
    requires Partial(t, n, ks, totals0, counts0, o, lines, components)
    requires var c, a := line.componentId, Contribution(o, line, components);
      && keys == (if c in t then ks else ks + [c])
      && totals.Keys == t.Keys + {c} && counts.Keys == n.Keys + {c}
      && totals[c] == (if c in t then t[c] else 0) + a
      && counts[c] == (if c in n then n[c] else 0) + (if a > 0 then 1 else 0)
      && (forall d :: d in t && d != c ==> totals[d] == t[d] && counts[d] == n[d])
    ensures BomPriced(lines + [line], components)
    ensures Partial(totals, counts, keys, totals0, counts0, o, lines + [line], components)
  {
    var all := lines + [line];
    var c := line.componentId;
    assert all[..|all| - 1] == lines;
    assert all[|all| - 1] == line;
    forall d | d in totals
      ensures totals[d] == (if d in totals0 then totals0[d] else 0) + LineNeed(o, all, d, components)
      ensures counts[d] == (if d in counts0 then counts0[d] else 0) + LineCount(o, all, d, components)
    {
      if d == c && c !in t {
        UnmentionedContributesNothing(o, lines, c, components);
      }
    }
    if c !in t {
      UnmentionedContributesNothing(o, lines, c, components);
      assert Elements(keys) == Elements(ks) + {c};
      forall i, j | 0 <= i < j < |keys| ensures keys[i] != keys[j] {
        if j == |ks| {
          assert keys[i] == ks[i] && ks[i] in Elements(ks);
        }
      }
    }
  }

  /** After the inner loop the dictionary covers the orders so far plus this one. */
  lemma OrderTallied(
    totals: map<nat, int>, counts: map<nat, int>, keys: seq<nat>,
    totals0: map<nat, int>, counts0: map<nat, int>, keys0: seq<nat>,
    done: seq<Order>, o: Order, products: map<nat, Product>, components: map<nat, Component>)
    requires CatalogueValid(components, products) && OrdersPriced(done, products)
    requires o.productId in products && o.quantity > 0
    requires Tallied(totals0, counts0, keys0, done, products, components)
    requires Partial(totals, counts, keys, totals0, counts0, o, products[o.productId].bom, components)
    ensures OrdersPriced(done + [o], products)
    ensures Tallied(totals, counts, keys, done + [o], products, components)
  {
    var bom := products[o.productId].bom;
    var all := done + [o];
    assert all[..|done|] == done;
    assert OrdersPriced(all, products);
    forall c | c in totals
      ensures totals[c] == TotalNeeded(all, products, components, c)
      ensures counts[c] == OrdersAffected(all, products, components, c)
    {
      if c !in totals0 {
        UnreferencedContributesNothing(done, products, components, c);
      }
    }
  }

  /** The second loop: one report line per dictionary entry with a positive shortage, in key order. */
  method ListShortages(
    totals: map<nat, int>, counts: map<nat, int>, keys: seq<nat>,
    open: seq<Order>, products: map<nat, Product>, components: map<nat, Component>)
    returns (items: seq<ProcurementItem>)
    requires CatalogueValid(components, products) && OrdersPriced(open, products)
    requires Tallied(totals, counts, keys, open, products, components)
    ensures Distinct(ItemIdsOf(items))
    ensures forall t :: 0 <= t < |items| ==>
              var c := items[t].componentId;
              && c in components && ReferencedBy(open, products, c)
              && items[t] == ItemFor(open, products, components, c) && items[t].shortage > 0
    ensures forall c :: c in components && ReferencedBy(open, products, c)
              && TotalNeeded(open, products, components, c) > components[c].inStock
              ==> c in ItemIdsOf(items)
  {
    items := [];
    var k := 0;
    while k < |keys|
      invariant 0 <= k <= |keys|
      invariant forall t :: 0 <= t < |items| ==>
                  var c := items[t].componentId;
                  && c in keys[..k] && c in components && ReferencedBy(open, products, c)
                  && items[t] == ItemFor(open, products, components, c) && items[t].shortage > 0
      invariant forall m :: 0 <= m < k && keys[m] in components
                  && TotalNeeded(open, products, components, keys[m]) > components[keys[m]].inStock
                  ==> keys[m] in ItemIdsOf(items)
      invariant Distinct(ItemIdsOf(items))
    {
      var c := keys[k];
      assert c in totals;
      ReferencedComponentExists(open, products, components, c);
      var available := components[c].inStock;
      var shortage := totals[c] - available;
      if shortage > 0 {
        forall t | 0 <= t < |items| ensures items[t].componentId != c {
          var m :| 0 <= m < k && keys[m] == items[t].componentId;
        }
        var before := items;
        items := items + [ProcurementItem(c, components[c].name, available, totals[c], shortage, counts[c])];
        assert ItemIdsOf(items) == ItemIdsOf(before) + [c];
      }
      k := k + 1;
    }
    forall c | c in components && ReferencedBy(open, products, c)
      && TotalNeeded(open, products, components, c) > components[c].inStock
      ensures c in ItemIdsOf(items)
    {
      assert c in Elements(keys);
      var m :| 0 <= m < |keys| && keys[m] == c;
    }
  }

  /**
   * calculate_procurement_needs. Every listed component is named by the BOM
   * of an open order and is short: its listed total is the sum of the
   * contributions of the open orders, its shortage is that total minus the
   * stock on hand and is positive, and its order count is the number of
   * positive contributions. Every such short component is listed, once.
   */
  method CalculateProcurementNeeds(
    components: map<nat, Component>, products: map<nat, Product>, orders: seq<Order>)
    returns (report: ProcurementReport)
    requires CatalogueValid(components, products) && OrdersPriced(orders, products)
    ensures OrdersPriced(OpenOrders(orders), products)
    ensures report.totalItems == |report.componentsToOrder|
    ensures OpenOrders(orders) == [] ==> report.componentsToOrder == []
    ensures Distinct(ItemIdsOf(report.componentsToOrder))
    ensures forall t :: 0 <= t < |report.componentsToOrder| ==>
              var c := report.componentsToOrder[t].componentId;
              && c in components
              && ReferencedBy(OpenOrders(orders), products, c)
              && report.componentsToOrder[t] == ItemFor(OpenOrders(orders), products, components, c)
              && report.componentsToOrder[t].shortage > 0
    ensures forall c :: c in components && ReferencedBy(OpenOrders(orders), products, c)
              && TotalNeeded(OpenOrders(orders), products, components, c) > components[c].inStock
              ==> c in ItemIdsOf(report.componentsToOrder)
  {
    var open := OpenOrders(orders);
    OpenOrdersPriced(orders, products);
    if open == [] {
      return ProcurementReport([], 0);
    }
    var totals: map<nat, int> := map[];
    var counts: map<nat, int> := map[];
    var keys: seq<nat> := [];
    var i := 0;
    while i < |open|
      invariant 0 <= i <= |open|
      invariant Tallied(totals, counts, keys, open[..i], products, components)
    {
      assert open[..i + 1] == open[..i] + [open[i]];
      assert OrdersPriced(open[..i], products);
      totals, counts, keys := AddOrder(totals, counts, keys, open[..i], open[i], products, components);
      i := i + 1;
    }
    assert open[..i] == open;
    var items := ListShortages(totals, counts, keys, open, products, components);
    report := ProcurementReport(items, |items|);
  }

  lemma {:induction false} UnmentionedContributesNothing(
    o: Order, bom: seq<BomLine>, c: nat, components: map<nat, Component>)
    requires o.quantity > 0 && BomPriced(bom, components) && !Mentions(bom, c)
    ensures LineNeed(o, bom, c, components) == 0 && LineCount(o, bom, c, components) == 0
  {
    if bom != [] {
      UnmentionedContributesNothing(o, bom[..|bom| - 1], c, components);
    }
  }

  lemma {:induction false} UnreferencedContributesNothing(
    orders: seq<Order>, products: map<nat, Product>, components: map<nat, Component>, c: nat)
    requires OrdersPriced(orders, products) && CatalogueValid(components, products)
    requires !ReferencedBy(orders, products, c)
    ensures TotalNeeded(orders, products, components, c) == 0 && OrdersAffected(orders, products, components, c) == 0
  {
    if orders != [] {
      var o := orders[|orders| - 1];
      UnreferencedContributesNothing(orders[..|orders| - 1], products, components, c);
      UnmentionedContributesNothing(o, products[o.productId].bom, c, components);
    }
  }

  // ---------------------------------------------------------------------------
  // Properties of the aggregation
  // ---------------------------------------------------------------------------

  lemma {:induction false} LineTermsNonNegative(o: Order, bom: seq<BomLine>, c: nat, components: map<nat, Component>)
    requires o.quantity > 0 && BomPriced(bom, components)
    ensures LineNeed(o, bom, c, components) >= 0 && LineCount(o, bom, c, components) >= 0
    ensures LineNeed(o, bom, c, components) > 0 <==> LineCount(o, bom, c, components) > 0
  {
    if bom != [] {
      LineTermsNonNegative(o, bom[..|bom| - 1], c, components);
    }
  }

  /**
   * A component is needed by the open orders exactly when at least one of
   * them is counted as affected: every counted contribution is positive, and
   * no contribution is negative.
   */
  lemma {:induction false} NeededIffSomeOrderAffected(
    orders: seq<Order>, products: map<nat, Product>, components: map<nat, Component>, c: nat)
    requires OrdersPriced(orders, products) && CatalogueValid(components, products)
    ensures TotalNeeded(orders, products, components, c) >= 0
    ensures OrdersAffected(orders, products, components, c) >= 0
    ensures TotalNeeded(orders, products, components, c) > 0 <==> OrdersAffected(orders, products, components, c) > 0
  {
    if orders != [] {
      var o := orders[|orders| - 1];
      NeededIffSomeOrderAffected(orders[..|orders| - 1], products, components, c);
      LineTermsNonNegative(o, products[o.productId].bom, c, components);
    }
  }

  /** Every listed component blocks at least one pending order. */
  lemma ListedItemsAffectSomeOrder(
    orders: seq<Order>, products: map<nat, Product>, components: map<nat, Component>, item: ProcurementItem)
    requires OrdersPriced(orders, products) && CatalogueValid(components, products)
    requires forall c :: c in components ==> ComponentValid(components[c])
    requires item.componentId in components && item == ItemFor(orders, products, components, item.componentId)
    requires item.shortage > 0
    ensures item.ordersAffected >= 1
  {
    NeededIffSomeOrderAffected(orders, products, components, item.componentId);
  }

  /** An order whose BOM names each component at most once is counted at most once per component. */
  lemma {:induction false} DistinctBomCountsOnce(o: Order, bom: seq<BomLine>, c: nat, components: map<nat, Component>)
    requires o.quantity > 0 && BomPriced(bom, components) && Distinct(BomIds(bom))
    ensures LineCount(o, bom, c, components) <= 1
  {
    if bom != [] {
      var init := bom[..|bom| - 1];
      assert BomIds(init) == BomIds(bom)[..|init|];
      DistinctBomCountsOnce(o, init, c, components);
      if bom[|bom| - 1].componentId == c {
        NotMentionedCountsZero(o, init, c, components, bom);
      }
    }
  }

  lemma {:induction false} NotMentionedCountsZero(
    o: Order, init: seq<BomLine>, c: nat, components: map<nat, Component>, bom: seq<BomLine>)
    requires o.quantity > 0 && BomPriced(init, components)
    requires bom != [] && init == bom[..|bom| - 1] && Distinct(BomIds(bom)) && bom[|bom| - 1].componentId == c
    ensures !Mentions(init, c) && LineCount(o, init, c, components) == 0
  {
    assert forall k :: 0 <= k < |init| ==> init[k].componentId != c by {
      forall k | 0 <= k < |init| ensures init[k].componentId != c {
        assert BomIds(bom)[k] != BomIds(bom)[|bom| - 1];
      }
    }
    NoMatchingLine(o, init, c, components);
  }

  lemma {:induction false} NoMatchingLine(o: Order, bom: seq<BomLine>, c: nat, components: map<nat, Component>)
    requires o.quantity > 0 && BomPriced(bom, components)
    requires forall k :: 0 <= k < |bom| ==> bom[k].componentId != c
    ensures !Mentions(bom, c) && LineCount(o, bom, c, components) == 0 && LineNeed(o, bom, c, components) == 0
  {
    if bom != [] {
      NoMatchingLine(o, bom[..|bom| - 1], c, components);
    }
  }

  /** With duplicate-free BOMs, no component is reported as affecting more orders than are open. */
  lemma {:induction false} AffectedAtMostOpen(
    orders: seq<Order>, products: map<nat, Product>, components: map<nat, Component>, c: nat)
    requires OrdersPriced(orders, products) && CatalogueValid(components, products)
    requires forall id :: id in products ==> Distinct(BomIds(products[id].bom))
    ensures OrdersAffected(orders, products, components, c) <= |orders|
  {
    if orders != [] {
      var o := orders[|orders| - 1];
      AffectedAtMostOpen(orders[..|orders| - 1], products, components, c);
      DistinctBomCountsOnce(o, products[o.productId].bom, c, components);
    }
  }
}
