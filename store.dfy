/**
 * The database session of the backend as one object: the component,
 * product and order tables, and the CRUD operations of
 * backend/crud_components.py, backend/crud_products.py and
 * backend/crud_orders.py that change them. Every operation either fails
 * with the HTTP error the source raises and leaves the tables as they were
 * (the rollback), or commits exactly the change stated in its contract.
 */
module Inventory {
  import opened Models
  import opened Schemas
  import opened Orders
  import opened Products
  import opened Ledger

  // ---------------------------------------------------------------------------
  // Queries the guards use
  // ---------------------------------------------------------------------------

  /** Whether a component already carries this name (a UNIQUE violation on insert). */
  predicate ComponentNameUsed(components: map<nat, Component>, name: string) {
    exists id :: id in components && components[id].name == name
  }

  /** Whether a component other than `id` carries this name (a UNIQUE violation on update). */
  predicate ComponentNameUsedByOther(components: map<nat, Component>, id: nat, name: string) {
    exists other :: other in components && other != id && components[other].name == name
  }

  predicate ProductNameUsed(products: map<nat, Product>, name: string) {
    exists id :: id in products && products[id].name == name
  }

  predicate ProductNameUsedByOther(products: map<nat, Product>, id: nat, name: string) {
    exists other :: other in products && other != id && products[other].name == name
  }

  /** The BOM-row count of delete_component is positive. */
  predicate UsedInSomeBom(products: map<nat, Product>, c: nat) {
    exists p :: p in products && c in BomIds(products[p].bom)
  }

  /** Some allocation row references the component (the foreign key of order_allocations). */
  predicate AllocatedBySomeOrder(orders: seq<Order>, c: nat) {
    exists i :: 0 <= i < |orders| && c in AllocationIds(orders[i].allocations)
  }

  /** Some order row references the product. */
  predicate OrderedBySomeOrder(orders: seq<Order>, p: nat) {
    exists i :: 0 <= i < |orders| && orders[i].productId == p
  }

  /** Every item of a BOM request names an existing component. */
  predicate ItemsExist(components: map<nat, Component>, items: seq<BomItemCreate>)
    requires BomItemsValid(items)
  {
    forall k :: 0 <= k < |items| ==> ItemIds(items)[k] in components
  }

  /**
   * update_component: `setattr` of every supplied field, nothing else. The
   * update schema has no in_progress or shipped field, so those two buckets
   * never change here.
   */
  function ApplyComponentUpdate(c: Component, u: ComponentUpdate): (r: Component)
    ensures u.name.Some? ==> r.name == u.name.value
    ensures u.name.None? ==> r.name == c.name
    ensures u.spillage.Some? ==> r.spillage == u.spillage.value
    ensures u.spillage.None? ==> r.spillage == c.spillage
    ensures u.inStock.Some? ==> r.inStock == u.inStock.value
    ensures u.inStock.None? ==> r.inStock == c.inStock
    ensures r.inProgress == c.inProgress && r.shipped == c.shipped
    ensures ComponentValid(c) && ComponentUpdateValid(u) ==> ComponentValid(r)
  {
    Component(u.name.GetOr(c.name), u.spillage.GetOr(c.spillage), u.inStock.GetOr(c.inStock), c.inProgress, c.shipped)
  }

  /** Applying the same partial update twice changes nothing more; an empty update changes nothing. */
  lemma ComponentUpdateIdempotent(c: Component, u: ComponentUpdate)
    ensures ApplyComponentUpdate(ApplyComponentUpdate(c, u), u) == ApplyComponentUpdate(c, u)
    ensures ApplyComponentUpdate(c, ComponentUpdate(None, None, None)) == c
  {
  }

  /** The BOM rows of a create or replace, added one item at a time. */
  method BuildBom(items: seq<BomItemCreate>) returns (bom: seq<BomLine>)
    requires BomItemsValid(items)
    ensures bom == ItemLines(items)
  {
    bom := [];
    var i := 0;
    while i < |items|
      invariant 0 <= i <= |items|
      invariant |bom| == i
      invariant forall k :: 0 <= k < i ==> bom[k] == BomLine(items[k].componentId as nat, items[k].quantityRequired)
    {
      bom := bom + [BomLine(items[i].componentId as nat, items[i].quantityRequired)];
      i := i + 1;
    }
  }

  /** The stock check of create_order: every short requirement, in BOM order. */
  method CollectShortages(reqs: seq<Requirement>) returns (short: seq<Shortage>)
    ensures short == Shortages(reqs)
  {
    short := [];
    var i := 0;
    while i < |reqs|
      invariant 0 <= i <= |reqs|
      invariant short == Shortages(reqs[..i])
    {
      assert reqs[..i + 1][..i] == reqs[..i];
      var rq := reqs[i];
      if rq.available < rq.needed {
        short := short + [ShortageOf(rq)];
      }
      i := i + 1;
    }
    assert reqs[..i] == reqs;
  }

  /**
   * The allocation loop of create_order, on the session's copy of the
   * component table: for each requirement in turn, the needed units leave
   * in_stock and enter in_progress, and one allocation row is recorded.
   */
  method ReserveAll(table: map<nat, Component>, reqs: seq<Requirement>)
    returns (session: map<nat, Component>, allocs: seq<Allocation>)
    requires forall k :: 0 <= k < |reqs| ==> reqs[k].componentId in table
    ensures allocs == AllocationsFor(reqs)
    ensures session == Reserve(table, allocs)
  {
    session := table;
    allocs := [];
    var j := 0;
    while j < |reqs|
      invariant 0 <= j <= |reqs|
      invariant |allocs| == j
      invariant forall k :: 0 <= k < j ==> allocs[k] == Allocation(reqs[k].componentId, reqs[k].needed)
      invariant session == Reserve(table, allocs)
    {
      var rq := reqs[j];
      var a := Allocation(rq.componentId, rq.needed);
      var c := session[rq.componentId];
      var next := session[rq.componentId := c.(inStock := c.inStock - rq.needed, inProgress := c.inProgress + rq.needed)];
      ReserveStep(table, allocs, a, session, next);
      session := next;
      allocs := allocs + [a];
      j := j + 1;
    }
  }

  /**
   * The stock loop of complete_order, on the session's copy of the
   * component table: each allocation in turn leaves the component's
   * in_progress and enters shipped. It stops with `false` at the first
   * component that holds less in progress than its allocation.
   */
  method ShipAll(table: map<nat, Component>, allocs: seq<Allocation>)
    returns (shipped: bool, session: map<nat, Component>)
    requires Distinct(AllocationIds(allocs))
    requires forall k :: 0 <= k < |allocs| ==> allocs[k].componentId in table
    ensures shipped <==> forall k :: 0 <= k < |allocs| ==>
                           allocs[k].quantityAllocated <= table[allocs[k].componentId].inProgress
    ensures shipped ==> session == Ship(table, allocs)
  {
    session := table;
    var i := 0;
    while i < |allocs|
      invariant 0 <= i <= |allocs|
      invariant session == Ship(table, allocs[..i])
      invariant forall k :: 0 <= k < i ==> allocs[k].quantityAllocated <= table[allocs[k].componentId].inProgress
    {
      ShipPending(table, allocs, i);
      var a := allocs[i];
      var c := session[a.componentId];
      if c.inProgress < a.quantityAllocated {
        assert !(allocs[i].quantityAllocated <= table[allocs[i].componentId].inProgress);
        return false, session;
      }
      var next := session[a.componentId := c.(inProgress := c.inProgress - a.quantityAllocated, shipped := c.shipped + a.quantityAllocated)];
      ShipStep(table, allocs, i, session, next);
      session := next;
      i := i + 1;
    }
    assert allocs[..i] == allocs;
    return true, session;
  }

  // ---------------------------------------------------------------------------
  // The store
  // ---------------------------------------------------------------------------

  class Store {
    var components: map<nat, Component>
    var products: map<nat, Product>
    /** The order table; an order's id is its position. Orders are never deleted. */
    var orders: seq<Order>
    /** The ids the next inserted component and product receive; they advance only on an insert. */
    var nextComponentId: nat
    var nextProductId: nat

    ghost predicate Valid()
      reads this
    {
      StoreInvariant(components, products, orders, nextComponentId, nextProductId)
    }

    constructor ()
      ensures Valid()
      ensures components == map[] && products == map[] && orders == []
    {
      components := map[];
      products := map[];
      orders := [];
      nextComponentId := 1;
      nextProductId := 1;
    }

    // -------------------------------------------------------------------------
    // Components
    // -------------------------------------------------------------------------

    /** create_component: a new row with in_progress = shipped = 0, or 409 for a taken name. */
    method CreateComponent(req: ComponentCreate) returns (r: Result<nat>)
      requires Valid() && ComponentCreateValid(req)
      modifies this
      ensures Valid()
      ensures r.Ok? || r == Err(Conflict)
      ensures r == Err(Conflict) <==> ComponentNameUsed(old(components), req.name)
      ensures r.Err? ==> unchanged(this)
      ensures r.Ok? ==>
        && r.value == old(nextComponentId) && r.value !in old(components)
        && components == old(components)[r.value := Component(req.name, req.spillage, req.inStock, 0, 0)]
        && nextComponentId == old(nextComponentId) + 1
        && products == old(products) && orders == old(orders) && nextProductId == old(nextProductId)
    {
      if ComponentNameUsed(components, req.name) {
        return Err(Conflict);
      }
      var id := nextComponentId;
      NewComponentKeepsInvariant(components, products, orders, nextComponentId, nextProductId, req);
      components := components[id := Component(req.name, req.spillage, req.inStock, 0, 0)];
      nextComponentId := nextComponentId + 1;
      return Ok(id);
    }

    /** update_component: 404 for an unknown id, 409 when the new name belongs to another component. */
    method UpdateComponent(id: nat, u: ComponentUpdate) returns (r: Result<Component>)
      requires Valid() && ComponentUpdateValid(u)
      modifies this
      ensures Valid()
      ensures r.Ok? || r == Err(NotFound) || r == Err(Conflict)
      ensures r == Err(NotFound) <==> id !in old(components)
      ensures r == Err(Conflict) <==>
                id in old(components) && u.name.Some? && ComponentNameUsedByOther(old(components), id, u.name.value)
      ensures r.Err? ==> unchanged(this)
      ensures r.Ok? ==>
        && id in old(components)
        && r.value == ApplyComponentUpdate(old(components)[id], u)
        && components == old(components)[id := r.value]
        && products == old(products) && orders == old(orders)
        && nextComponentId == old(nextComponentId) && nextProductId == old(nextProductId)
    {
      if id !in components {
        return Err(NotFound);
      }
      var c := components[id];
      if u.name.Some? {
        c := c.(name := u.name.value);
      }
      if u.spillage.Some? {
        c := c.(spillage := u.spillage.value);
      }
      if u.inStock.Some? {
        c := c.(inStock := u.inStock.value);
      }
      if u.name.Some? && ComponentNameUsedByOther(components, id, u.name.value) {
        return Err(Conflict);
      }
      assert c == ApplyComponentUpdate(components[id], u);
      ReplaceComponentKeepsInvariant(components, products, orders, nextComponentId, nextProductId, id, c);
      components := components[id := c];
      return Ok(c);
    }

    /**
     * delete_component: 404 for an unknown id; 409 when a BOM uses it or
     * when it has stock in progress or shipped; otherwise the row is
     * removed. The foreign-key fallback after the delete cannot fire: no
     * allocation row references such a component (UnstockedIsUnallocated).
     */
    method DeleteComponent(id: nat) returns (failure: Option<Error>)
      requires Valid()
      modifies this
      ensures Valid()
      ensures failure.None? || failure == Some(NotFound) || failure == Some(Conflict)
      ensures failure == Some(NotFound) <==> id !in old(components)
      ensures failure == Some(Conflict) <==>
                id in old(components)
                && (UsedInSomeBom(old(products), id)
                    || old(components)[id].inProgress > 0 || old(components)[id].shipped > 0)
      ensures failure.Some? ==> unchanged(this)
      ensures failure.None? ==>
        && components == old(components) - {id}
        && products == old(products) && orders == old(orders)
        && nextComponentId == old(nextComponentId) && nextProductId == old(nextProductId)
    {
      if id !in components {
        return Some(NotFound);
      }
      if UsedInSomeBom(products, id) {
        return Some(Conflict);
      }
      var c := components[id];
      if c.inProgress > 0 || c.shipped > 0 {
        return Some(Conflict);
      }
      UnstockedIsUnallocated(components, products, orders, nextComponentId, nextProductId, id);
      RemoveComponentKeepsInvariant(components, products, orders, nextComponentId, nextProductId, id);
      components := components - {id};
      return None;
    }

    /** adjust_component_stock: in_stock moves by a signed amount; 400 when it would go negative. */
    method AdjustComponentStock(id: nat, adjustment: int) returns (r: Result<Component>)
      requires Valid()
      modifies this
      ensures Valid()
      ensures r.Ok? || r == Err(NotFound) || r == Err(BadRequest)
      ensures r == Err(NotFound) <==> id !in old(components)
      ensures r == Err(BadRequest) <==> id in old(components) && old(components)[id].inStock + adjustment < 0
      ensures r.Err? ==> unchanged(this)
      ensures r.Ok? ==>
        && id in old(components)
        && r.value == old(components)[id].(inStock := old(components)[id].inStock + adjustment)
        && r.value.inStock >= 0
        && components == old(components)[id := r.value]
        && products == old(products) && orders == old(orders)
        && nextComponentId == old(nextComponentId) && nextProductId == old(nextProductId)
    {
      if id !in components {
        return Err(NotFound);
      }
      var c := components[id];
      var newStock := c.inStock + adjustment;
      if newStock < 0 {
        return Err(BadRequest);
      }
      c := c.(inStock := newStock);
      ReplaceComponentKeepsInvariant(components, products, orders, nextComponentId, nextProductId, id, c);
      components := components[id := c];
      return Ok(c);
    }

    // -------------------------------------------------------------------------
    // Products
    // -------------------------------------------------------------------------

    /**
     * create_product: 404 when an item names a missing component, then 400
     * when a component repeats, then 409 for a taken name; otherwise a new
     * product with empty buckets and one BOM row per item, in order.
     */
    method CreateProduct(req: ProductCreate) returns (r: Result<ProductDetail>)
      requires Valid() && ProductCreateValid(req)
      modifies this
      ensures Valid()
      ensures r.Ok? || r == Err(NotFound) || r == Err(BadRequest) || r == Err(Conflict)
      ensures r == Err(NotFound) <==> !ItemsExist(old(components), req.bom)
      ensures r == Err(BadRequest) <==> ItemsExist(old(components), req.bom) && !Distinct(ItemIds(req.bom))
      ensures r == Err(Conflict) <==>
                ItemsExist(old(components), req.bom) && Distinct(ItemIds(req.bom))
                && ProductNameUsed(old(products), req.name)
      ensures r.Err? ==> unchanged(this)
      ensures r.Ok? ==>
        var id := old(nextProductId);
        && id !in old(products)
        && products == old(products)[id := Product(req.name, 0, 0, ItemLines(req.bom))]
        && nextProductId == id + 1
        && components == old(components) && orders == old(orders) && nextComponentId == old(nextComponentId)
        && CatalogueValid(components, products)
        && r == GetProductWithBom(products, components, id)
    {
      var failure := ValidateBom(components, req.bom);
      if failure.Some? {
        return Err(failure.value);
      }
      if ProductNameUsed(products, req.name) {
        return Err(Conflict);
      }
      var id := nextProductId;
      var bom := BuildBom(req.bom);
      NewProductKeepsInvariant(components, products, orders, nextComponentId, nextProductId, req.name, req.bom);
      products := products[id := Product(req.name, 0, 0, bom)];
      nextProductId := nextProductId + 1;
      return GetProductWithBom(products, components, id);
    }

    /** update_product: only the name can change; 404 for an unknown id, 409 for a taken name. */
    method UpdateProduct(id: nat, u: ProductUpdate) returns (r: Result<Product>)
      requires Valid() && ProductUpdateValid(u)
      modifies this
      ensures Valid()
      ensures r.Ok? || r == Err(NotFound) || r == Err(Conflict)
      ensures r == Err(NotFound) <==> id !in old(products)
      ensures r == Err(Conflict) <==>
                id in old(products) && u.name.Some? && ProductNameUsedByOther(old(products), id, u.name.value)
      ensures r.Err? ==> unchanged(this)
      ensures r.Ok? ==>
        && id in old(products)
        && r.value == old(products)[id].(name := u.name.GetOr(old(products)[id].name))
        && products == old(products)[id := r.value]
        && components == old(components) && orders == old(orders)
        && nextComponentId == old(nextComponentId) && nextProductId == old(nextProductId)
    {
      if id !in products {
        return Err(NotFound);
      }
      var p := products[id];
      if u.name.Some? {
        p := p.(name := u.name.value);
      }
      if u.name.Some? && ProductNameUsedByOther(products, id, u.name.value) {
        return Err(Conflict);
      }
      RenameProductKeepsInvariant(components, products, orders, nextComponentId, nextProductId, id, p.name);
      products := products[id := p];
      return Ok(p);
    }

    /**
     * delete_product: 404 for an unknown id; 409 when it has units in
     * progress or shipped, or when any order references it; otherwise the
     * product and, by the cascade, its BOM rows are removed.
     */
    method DeleteProduct(id: nat) returns (failure: Option<Error>)
      requires Valid()
      modifies this
      ensures Valid()
      ensures failure.None? || failure == Some(NotFound) || failure == Some(Conflict)
      ensures failure == Some(NotFound) <==> id !in old(products)
      ensures failure == Some(Conflict) <==>
                id in old(products)
                && (old(products)[id].inProgress > 0 || old(products)[id].shipped > 0
                    || OrderedBySomeOrder(old(orders), id))
      ensures failure.Some? ==> unchanged(this)
      ensures failure.None? ==>
        && products == old(products) - {id}
        && components == old(components) && orders == old(orders)
        && nextComponentId == old(nextComponentId) && nextProductId == old(nextProductId)
    {
      if id !in products {
        return Some(NotFound);
      }
      var p := products[id];
      if p.inProgress > 0 || p.shipped > 0 {
        return Some(Conflict);
      }
      if OrderedBySomeOrder(orders, id) {
        return Some(Conflict);
      }
      RemoveProductKeepsInvariant(components, products, orders, nextComponentId, nextProductId, id);
      products := products - {id};
      return None;
    }

    /**
     * update_product_bom: 404 for an unknown product, then the two BOM
     * checks of create_product; on success the BOM is exactly the submitted
     * list, in order, and nothing else changes.
     */
    method UpdateProductBom(id: nat, items: seq<BomItemCreate>) returns (r: Result<ProductDetail>)
      requires Valid() && BomItemsValid(items)
      modifies this
      ensures Valid()
      ensures r.Ok? || r == Err(NotFound) || r == Err(BadRequest)
      ensures r == Err(NotFound) <==> id !in old(products) || !ItemsExist(old(components), items)
      ensures r == Err(BadRequest) <==>
                id in old(products) && ItemsExist(old(components), items) && !Distinct(ItemIds(items))
      ensures r.Err? ==> unchanged(this)
      ensures r.Ok? ==>
        && id in old(products)
        && products == old(products)[id := old(products)[id].(bom := ItemLines(items))]
        && components == old(components) && orders == old(orders)
        && nextComponentId == old(nextComponentId) && nextProductId == old(nextProductId)
        && CatalogueValid(components, products)
        && r == GetProductWithBom(products, components, id)
    {
      if id !in products {
        return Err(NotFound);
      }
      var failure := ValidateBom(components, items);
      if failure.Some? {
        return Err(failure.value);
      }
      var bom := BuildBom(items);
      ReplaceBomKeepsInvariant(components, products, orders, nextComponentId, nextProductId, id, items);
      products := products[id := products[id].(bom := bom)];
      return GetProductWithBom(products, components, id);
    }

    // -------------------------------------------------------------------------
    // Orders
    // -------------------------------------------------------------------------

    /** create_order, committing the outcome of PlaceOrder to the tables. */
    method CreateOrder(req: OrderCreate) returns (r: Result<nat>)
      requires Valid() && OrderCreateValid(req)
      modifies this
      ensures Valid()
      ensures OrderPlaced(old(components), old(products), old(orders), req, r, components, products, orders)
      ensures r.Err? ==> unchanged(this)
      ensures nextComponentId == old(nextComponentId) && nextProductId == old(nextProductId)
    {
      r, components, products, orders := PlaceOrder(components, products, orders, nextComponentId, nextProductId, req);
    }

    /** complete_order, committing the outcome of ShipOrder to the tables. */
    method CompleteOrder(orderId: nat) returns (r: Result<Order>)
      requires Valid()
      modifies this
      ensures Valid()
      ensures OrderShipped(old(components), old(products), old(orders), orderId, r, components, products, orders)
      ensures r.Err? ==> unchanged(this)
      ensures nextComponentId == old(nextComponentId) && nextProductId == old(nextProductId)
    {
      r, components, products, orders := ShipOrder(components, products, orders, nextComponentId, nextProductId, orderId);
    }
  }

  // ---------------------------------------------------------------------------
  // The order transactions, on the session's copy of the tables
  // ---------------------------------------------------------------------------

  /**
   * The outcome of create_order on tables C, P, O: the answer r and the
   * tables C', P', O' afterwards. 404 for an unknown product and 400 for a
   * product without BOM rows. Otherwise every BOM line is priced at
   * ceil(q * (1 + s) * n); if any component has less in stock than that,
   * the answer lists every short component and no table changes. Otherwise
   * each needed quantity moves from in_stock to in_progress, an in-progress
   * order with one allocation per BOM line is recorded under the next id,
   * and the product's in_progress grows by the order quantity.
   */
  predicate OrderPlaced(
    C: map<nat, Component>, P: map<nat, Product>, O: seq<Order>, req: OrderCreate,
    r: Result<nat>, C': map<nat, Component>, P': map<nat, Product>, O': seq<Order>)
    requires CatalogueValid(C, P) && OrderCreateValid(req)
  {
    && (r == Err(NotFound) <==> req.productId !in P)
    && (r == Err(BadRequest) <==> req.productId in P && P[req.productId].bom == [])
    && (r.Err? ==> C' == C && P' == P && O' == O)
    && (req.productId in P && P[req.productId].bom != [] ==>
         var p := P[req.productId];
         var reqs := Requirements(p.bom, C, req.quantity);
         && (Shortages(reqs) != [] <==> r == Err(InsufficientStock(Shortages(reqs))))
         && (Shortages(reqs) == [] <==> r.Ok?)
         && (r.Ok? ==>
              var allocs := AllocationsFor(reqs);
              && r.value == |O|
              && C' == Reserve(C, allocs)
              && P' == P[req.productId := p.(inProgress := p.inProgress + req.quantity)]
              && O' == O + [Order(req.productId, req.quantity, InProgress, false, allocs)]))
  }

  /** create_order as a transaction on the tables; the store invariant holds afterwards. */
  method PlaceOrder(
    components: map<nat, Component>, products: map<nat, Product>, orders: seq<Order>,
    nextComponentId: nat, nextProductId: nat, req: OrderCreate)
    returns (r: Result<nat>, components': map<nat, Component>, products': map<nat, Product>, orders': seq<Order>)
    requires StoreInvariant(components, products, orders, nextComponentId, nextProductId) && OrderCreateValid(req)
    ensures StoreInvariant(components', products', orders', nextComponentId, nextProductId)
    ensures OrderPlaced(components, products, orders, req, r, components', products', orders')
  {
    components', products', orders' := components, products, orders;
    var pid := req.productId as nat;
    if pid !in products {
      return Err(NotFound), components', products', orders';
    }
    var product := products[pid];
    if product.bom == [] {
      return Err(BadRequest), components', products', orders';
    }
    var reqs := Requirements(product.bom, components, req.quantity);
    var short := CollectShortages(reqs);
    if short != [] {
      return Err(InsufficientStock(short)), components', products', orders';
    }
    var allocs;
    components', allocs := ReserveAll(components, reqs);
    products' := products[pid := product.(inProgress := product.inProgress + req.quantity)];
    orders' := orders + [Order(pid, req.quantity, InProgress, false, allocs)];
    assert products' == products[req.productId := products[req.productId].(inProgress := products[req.productId].inProgress + req.quantity)];
    PlaceOrderKeepsInvariant(components, products, orders, nextComponentId, nextProductId, pid, req.quantity,
                             allocs, components', products', orders');
    r := Ok(|orders|);
  }

  /**
   * The outcome of complete_order on tables C, P, O: the answer r and the
   * tables C', P', O' afterwards. 404 for an unknown order and 400 for one
   * already completed; any other status proceeds. Then the answer is 500,
   * with no table changed, exactly when some allocated component or the
   * product holds less in progress than is to be moved; otherwise each
   * allocation moves from the component's in_progress to shipped, the
   * order quantity from the product's in_progress to shipped, and the
   * order is marked completed and returned.
   */
  predicate OrderShipped(
    C: map<nat, Component>, P: map<nat, Product>, O: seq<Order>, orderId: nat,
    r: Result<Order>, C': map<nat, Component>, P': map<nat, Product>, O': seq<Order>)
    requires OrdersConsistent(O, P, C)
  {
    && (r == Err(NotFound) <==> orderId >= |O|)
    && (r == Err(BadRequest) <==> orderId < |O| && O[orderId].status == Completed)
    && (r.Err? ==> C' == C && P' == P && O' == O)
    && (orderId < |O| && O[orderId].status != Completed ==>
         var o := O[orderId];
         var p := P[o.productId];
         && (r.Ok? || r == Err(Internal))
         && (r == Err(Internal) <==>
              (exists k :: 0 <= k < |o.allocations|
                 && C[o.allocations[k].componentId].inProgress < o.allocations[k].quantityAllocated)
              || p.inProgress < o.quantity)
         && (r.Ok? ==>
              && r.value == MarkCompleted(o)
              && C' == Ship(C, o.allocations)
              && P' == P[o.productId := p.(inProgress := p.inProgress - o.quantity, shipped := p.shipped + o.quantity)]
              && O' == O[orderId := MarkCompleted(o)]))
  }

  /** complete_order as a transaction on the tables; the store invariant holds afterwards. */
  method ShipOrder(
    components: map<nat, Component>, products: map<nat, Product>, orders: seq<Order>,
    nextComponentId: nat, nextProductId: nat, orderId: nat)
    returns (r: Result<Order>, components': map<nat, Component>, products': map<nat, Product>, orders': seq<Order>)
    requires StoreInvariant(components, products, orders, nextComponentId, nextProductId)
    ensures StoreInvariant(components', products', orders', nextComponentId, nextProductId)
    ensures OrderShipped(components, products, orders, orderId, r, components', products', orders')
  {
    components', products', orders' := components, products, orders;
    if orderId >= |orders| {
      return Err(NotFound), components', products', orders';
    }
    var order := orders[orderId];
    if order.status == Completed {
      return Err(BadRequest), components', products', orders';
    }
    var shipped, session := ShipAll(components, order.allocations);
    if !shipped {
      return Err(Internal), components', products', orders';
    }
    var product := products[order.productId];
    if product.inProgress < order.quantity {
      return Err(Internal), components', products', orders';
    }
    var done := MarkCompleted(order);
    components' := session;
    products' := products[order.productId := product.(inProgress := product.inProgress - order.quantity, shipped := product.shipped + order.quantity)];
    orders' := orders[orderId := done];
    CompleteOrderKeepsInvariant(components, products, orders, nextComponentId, nextProductId, orderId,
                                components', products', orders');
    r := Ok(done);
  }

  // ---------------------------------------------------------------------------
  // The table edits keep the invariant
  // ---------------------------------------------------------------------------

  lemma NewComponentKeepsInvariant(
    components: map<nat, Component>, products: map<nat, Product>, orders: seq<Order>,
    nextComponentId: nat, nextProductId: nat, req: ComponentCreate)
    requires StoreInvariant(components, products, orders, nextComponentId, nextProductId)
    requires ComponentCreateValid(req) && !ComponentNameUsed(components, req.name)
    ensures nextComponentId !in components
    ensures StoreInvariant(components[nextComponentId := Component(req.name, req.spillage, req.inStock, 0, 0)],
                           products, orders, nextComponentId + 1, nextProductId)
  {
    var id := nextComponentId;
    var components' := components[id := Component(req.name, req.spillage, req.inStock, 0, 0)];
    forall p | p in products ensures BomPriced(products[p].bom, components') {
      assert BomPriced(products[p].bom, components);
    }
    forall i | 0 <= i < |orders| ensures id !in AllocationIds(orders[i].allocations) {
      var allocs := orders[i].allocations;
      forall k | 0 <= k < |allocs| ensures AllocationIds(allocs)[k] != id {
        assert allocs[k].componentId in components;
      }
    }
    InFlightUnreferenced(orders, id);
    DeliveredUnreferenced(orders, id);
    assert ComponentNamesUnique(components');
    assert OrdersConsistent(orders, products, components');
  }

  /** Replacing a component row by one with the same in_progress and shipped buckets keeps the invariant. */
  lemma ReplaceComponentKeepsInvariant(
    components: map<nat, Component>, products: map<nat, Product>, orders: seq<Order>,
    nextComponentId: nat, nextProductId: nat, id: nat, c: Component)
    requires StoreInvariant(components, products, orders, nextComponentId, nextProductId)
    requires id in components && ComponentValid(c)
    requires c.inProgress == components[id].inProgress && c.shipped == components[id].shipped
    requires !ComponentNameUsedByOther(components, id, c.name)
    ensures StoreInvariant(components[id := c], products, orders, nextComponentId, nextProductId)
  {
    var components' := components[id := c];
    forall p | p in products ensures BomPriced(products[p].bom, components') {
      assert BomPriced(products[p].bom, components);
    }
    assert OrdersConsistent(orders, products, components');
  }

  /**
   * A component with nothing in progress and nothing shipped is referenced
   * by no allocation row, so deleting it never meets the foreign key of
   * order_allocations.
   */
  lemma UnstockedIsUnallocated(
    components: map<nat, Component>, products: map<nat, Product>, orders: seq<Order>,
    nextComponentId: nat, nextProductId: nat, id: nat)
    requires StoreInvariant(components, products, orders, nextComponentId, nextProductId)
    requires id in components && components[id].inProgress == 0 && components[id].shipped == 0
    ensures !AllocatedBySomeOrder(orders, id)
  {
    forall i, k | 0 <= i < |orders| && 0 <= k < |orders[i].allocations|
      ensures AllocationIds(orders[i].allocations)[k] != id
    {
      AllocatedComponentHoldsStock(components, products, orders, nextComponentId, nextProductId, i, k);
    }
  }

  lemma RemoveComponentKeepsInvariant(
    components: map<nat, Component>, products: map<nat, Product>, orders: seq<Order>,
    nextComponentId: nat, nextProductId: nat, id: nat)
    requires StoreInvariant(components, products, orders, nextComponentId, nextProductId)
    requires !UsedInSomeBom(products, id) && !AllocatedBySomeOrder(orders, id)
    ensures StoreInvariant(components - {id}, products, orders, nextComponentId, nextProductId)
  {
    var components' := components - {id};
    forall p | p in products ensures BomPriced(products[p].bom, components') {
      forall k | 0 <= k < |products[p].bom| ensures products[p].bom[k].componentId != id {
        assert BomIds(products[p].bom)[k] == products[p].bom[k].componentId;
      }
    }
    forall i, k | 0 <= i < |orders| && 0 <= k < |orders[i].allocations|
      ensures orders[i].allocations[k].componentId in components'
    {
      assert AllocationIds(orders[i].allocations)[k] == orders[i].allocations[k].componentId;
    }
    assert OrdersConsistent(orders, products, components');
  }

  lemma NewProductKeepsInvariant(
    components: map<nat, Component>, products: map<nat, Product>, orders: seq<Order>,
    nextComponentId: nat, nextProductId: nat, name: string, items: seq<BomItemCreate>)
    requires StoreInvariant(components, products, orders, nextComponentId, nextProductId)
    requires BomItemsValid(items) && ItemsExist(components, items) && Distinct(ItemIds(items))
    requires !ProductNameUsed(products, name)
    ensures nextProductId !in products
    ensures StoreInvariant(components, products[nextProductId := Product(name, 0, 0, ItemLines(items))],
                           orders, nextComponentId, nextProductId + 1)
  {
    var id := nextProductId;
    var bom := ItemLines(items);
    var products' := products[id := Product(name, 0, 0, bom)];
    assert BomPriced(bom, components);
    forall i | 0 <= i < |orders| ensures orders[i].productId != id {
      assert orders[i].productId in products;
    }
    CommittedUnreferenced(orders, id);
    assert ProductNamesUnique(products');
    assert CatalogueValid(components, products');
    assert OrdersConsistent(orders, products', components);
  }

  lemma RenameProductKeepsInvariant(
    components: map<nat, Component>, products: map<nat, Product>, orders: seq<Order>,
    nextComponentId: nat, nextProductId: nat, id: nat, name: string)
    requires StoreInvariant(components, products, orders, nextComponentId, nextProductId)
    requires id in products && !ProductNameUsedByOther(products, id, name)
    ensures StoreInvariant(components, products[id := products[id].(name := name)], orders, nextComponentId, nextProductId)
  {
    var products' := products[id := products[id].(name := name)];
    assert CatalogueValid(components, products');
    assert OrdersConsistent(orders, products', components);
  }

  lemma RemoveProductKeepsInvariant(
    components: map<nat, Component>, products: map<nat, Product>, orders: seq<Order>,
    nextComponentId: nat, nextProductId: nat, id: nat)
    requires StoreInvariant(components, products, orders, nextComponentId, nextProductId)
    requires !OrderedBySomeOrder(orders, id)
    ensures StoreInvariant(components, products - {id}, orders, nextComponentId, nextProductId)
  {
    var products' := products - {id};
    assert CatalogueValid(components, products');
    assert OrdersConsistent(orders, products', components);
  }

  lemma ReplaceBomKeepsInvariant(
    components: map<nat, Component>, products: map<nat, Product>, orders: seq<Order>,
    nextComponentId: nat, nextProductId: nat, id: nat, items: seq<BomItemCreate>)
    requires StoreInvariant(components, products, orders, nextComponentId, nextProductId)
    requires id in products
    requires BomItemsValid(items) && ItemsExist(components, items) && Distinct(ItemIds(items))
    ensures StoreInvariant(components, products[id := products[id].(bom := ItemLines(items))],
                           orders, nextComponentId, nextProductId)
  {
    var bom := ItemLines(items);
    var products' := products[id := products[id].(bom := bom)];
    assert BomPriced(bom, components);
    assert CatalogueValid(components, products');
    assert OrdersConsistent(orders, products', components);
  }
}
