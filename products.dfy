/**
 * The read side of product management (backend/crud_products.py): the
 * product detail with exact spillage quantities, the BOM validation shared
 * by product creation and BOM replacement, and the production-capacity
 * report. The state-changing operations are methods of Inventory.Store.
 */
module Products {
  import opened Models
  import opened Schemas
  import opened Quantities
  import opened Orders

  /** Every product's BOM names existing, valid components with positive quantities. */
  predicate CatalogueValid(components: map<nat, Component>, products: map<nat, Product>) {
    forall id :: id in products ==> BomPriced(products[id].bom, components)
  }

  // ---------------------------------------------------------------------------
  // Product detail
  // ---------------------------------------------------------------------------

  datatype BomDetail = BomDetail(
    componentId: nat,
    componentName: string,
    quantityRequired: int,
    spillage: int,
    quantityWithSpillage: real)

  datatype ProductDetail = ProductDetail(id: nat, name: string, inProgress: int, shipped: int, bom: seq<BomDetail>)

  function LineDetail(line: BomLine, components: map<nat, Component>): (d: BomDetail)
    requires line.componentId in components
  {
    var c := components[line.componentId];
    BomDetail(line.componentId, c.name, line.quantityRequired, c.spillage,
              QuantityWithSpillage(line.quantityRequired, c.spillage))
  }

  /**
   * get_product_with_bom: 404 for an unknown product; otherwise the product
   * with one detail row per BOM line, in BOM order, whose quantity with
   * spillage is exactly q * (1 + s), between q and 11 * q.
   */
  function GetProductWithBom(products: map<nat, Product>, components: map<nat, Component>, id: nat)
    : (r: Result<ProductDetail>)
    requires CatalogueValid(components, products)
    ensures id in products <==> r.Ok?
    ensures !r.Ok? ==> r == Err(NotFound)
    ensures r.Ok? ==>
      var p := products[id];
      && r.value.id == id && r.value.name == p.name
      && r.value.inProgress == p.inProgress && r.value.shipped == p.shipped
      && |r.value.bom| == |p.bom|
      && forall k :: 0 <= k < |p.bom| ==>
           var c := components[p.bom[k].componentId];
           && r.value.bom[k].componentId == p.bom[k].componentId
           && r.value.bom[k].componentName == c.name
           && r.value.bom[k].quantityRequired == p.bom[k].quantityRequired
           && r.value.bom[k].spillage == c.spillage
           && r.value.bom[k].quantityWithSpillage * SPILLAGE_SCALE as real
              == p.bom[k].quantityRequired as real * (SPILLAGE_SCALE + c.spillage) as real
           && p.bom[k].quantityRequired as real <= r.value.bom[k].quantityWithSpillage
           && r.value.bom[k].quantityWithSpillage < 11.0 * p.bom[k].quantityRequired as real
  {
    if id !in products then Err(NotFound)
    else
      var p := products[id];
      var details := seq(|p.bom|, k requires 0 <= k < |p.bom| && CatalogueValid(components, products) && id in products =>
        LineDetail(p.bom[k], components));
      assert forall k :: 0 <= k < |p.bom| ==> details[k] == LineDetail(p.bom[k], components);
      forall k | 0 <= k < |p.bom|
        ensures var c := components[p.bom[k].componentId];
          && details[k].quantityWithSpillage * SPILLAGE_SCALE as real
             == p.bom[k].quantityRequired as real * (SPILLAGE_SCALE + c.spillage) as real
          && p.bom[k].quantityRequired as real <= details[k].quantityWithSpillage
          && details[k].quantityWithSpillage < 11.0 * p.bom[k].quantityRequired as real
      {
        QuantityWithSpillageBounds(p.bom[k].quantityRequired, components[p.bom[k].componentId].spillage);
      }
      Ok(ProductDetail(id, p.name, p.inProgress, p.shipped, details))
  }

  lemma QuantityWithSpillageBounds(q: int, k: int)
    requires q > 0 && SpillageInRange(k)
    ensures QuantityWithSpillage(q, k) * SPILLAGE_SCALE as real == q as real * (SPILLAGE_SCALE + k) as real
    ensures q as real <= QuantityWithSpillage(q, k) < 11.0 * q as real
  {
    ScaledFactorBounds(q as real, k as real);
    assert QuantityWithSpillage(q, k) == q as real * (1.0 + k as real / 10000.0);
  }

  /** The real-number core of the bounds: Q * (1 + K / 10000) for 0 <= K < 100000. */
  lemma ScaledFactorBounds(Q: real, K: real)
    requires Q > 0.0 && 0.0 <= K < 100000.0
    ensures Q * (1.0 + K / 10000.0) * 10000.0 == Q * (10000.0 + K)
    ensures Q <= Q * (1.0 + K / 10000.0) < 11.0 * Q
  {
    var F := K / 10000.0;
    assert F * 10000.0 == K;
    assert Q * (1.0 + F) == Q + Q * F;
    assert 0.0 <= Q * F < Q * 10.0;
  }

  // ---------------------------------------------------------------------------
  // BOM validation
  // ---------------------------------------------------------------------------

  /**
   * The two checks run before a BOM is stored: every referenced component
   * must exist (404, checked first, item by item), and no component id may
   * repeat (400, via `len(ids) != len(set(ids))`).
   */
  method ValidateBom(components: map<nat, Component>, items: seq<BomItemCreate>) returns (failure: Option<Error>)
    requires BomItemsValid(items)
    ensures failure == Some(NotFound) <==> exists k :: 0 <= k < |items| && ItemIds(items)[k] !in components
    ensures failure == Some(BadRequest) <==>
              (forall k :: 0 <= k < |items| ==> ItemIds(items)[k] in components) && !Distinct(ItemIds(items))
    ensures failure == None <==>
              (forall k :: 0 <= k < |items| ==> ItemIds(items)[k] in components) && Distinct(ItemIds(items))
  {
    var ids := ItemIds(items);
    var i := 0;
    while i < |ids|
      invariant 0 <= i <= |ids|
      invariant forall k :: 0 <= k < i ==> ids[k] in components
    {
      if ids[i] !in components {
        return Some(NotFound);
      }
      i := i + 1;
    }
    DistinctIffNoCollapse(ids);
    if |ids| != |Elements(ids)| {
      return Some(BadRequest);
    }
    return None;
  }

  // ---------------------------------------------------------------------------
  // Production capacity
  // ---------------------------------------------------------------------------

  const NO_BOM_DEFINED: string := "No BOM defined"

  /** One entry of `max_quantities`: a component and the units its stock allows. */
  datatype LineLimit = LineLimit(componentName: string, maxUnits: int)

  /** The units one BOM line allows: floor(in_stock / (q * (1 + s))). */
  function BomLineBound(line: BomLine, components: map<nat, Component>): (bound: int)
    requires line.componentId in components && ComponentValid(components[line.componentId])
  {
    var c := components[line.componentId];
    LineBound(c.inStock, line.quantityRequired, c.spillage)
  }

  function LineLimits(bom: seq<BomLine>, components: map<nat, Component>): (limits: seq<LineLimit>)
    requires BomPriced(bom, components)
    ensures |limits| == |bom|
    ensures forall k :: 0 <= k < |bom| ==>
              limits[k] == LineLimit(components[bom[k].componentId].name, BomLineBound(bom[k], components))
  {
    seq(|bom|, k requires 0 <= k < |bom| && BomPriced(bom, components) =>
      LineLimit(components[bom[k].componentId].name, BomLineBound(bom[k], components)))
  }

  /** The position Python's `min(limits, key=max_units)` picks: the first one of least value. */
  function FirstMinimum(limits: seq<LineLimit>): (j: nat)
    requires |limits| > 0
    ensures j < |limits|
    ensures forall i :: 0 <= i < |limits| ==> limits[j].maxUnits <= limits[i].maxUnits
    ensures forall i :: 0 <= i < j ==> limits[i].maxUnits > limits[j].maxUnits
  {
    if |limits| == 1 then 0
    else
      var j := FirstMinimum(limits[..|limits| - 1]);
      if limits[|limits| - 1].maxUnits < limits[j].maxUnits then |limits| - 1 else j
  }

  datatype CapacityEntry = CapacityEntry(
    id: nat,
    name: string,
    inProgress: int,
    shipped: int,
    maxProducible: int,
    limitingComponent: string)

  /**
   * The capacity of one product. Without a BOM it is 0, limited by
   * "No BOM defined". Otherwise it is the least per-line bound, and the
   * limiting component is the first line that attains it.
   */
  function ProductCapacity(id: nat, p: Product, components: map<nat, Component>): (e: CapacityEntry)
    requires BomPriced(p.bom, components)
    ensures e.id == id && e.name == p.name && e.inProgress == p.inProgress && e.shipped == p.shipped
    ensures p.bom == [] ==> e.maxProducible == 0 && e.limitingComponent == NO_BOM_DEFINED
    ensures p.bom != [] ==>
      exists j :: 0 <= j < |p.bom|
        && e.maxProducible == BomLineBound(p.bom[j], components)
        && e.limitingComponent == components[p.bom[j].componentId].name
        && (forall i :: 0 <= i < j ==> BomLineBound(p.bom[i], components) > e.maxProducible)
    ensures forall i :: 0 <= i < |p.bom| ==> e.maxProducible <= BomLineBound(p.bom[i], components)
    ensures e.maxProducible >= 0
  {
    if p.bom == [] then
      CapacityEntry(id, p.name, p.inProgress, p.shipped, 0, NO_BOM_DEFINED)
    else
      var limits := LineLimits(p.bom, components);
      var j := FirstMinimum(limits);
      forall i | 0 <= i < |p.bom| ensures BomLineBound(p.bom[i], components) >= 0 {
        var c := components[p.bom[i].componentId];
        LineBoundIsFloor(c.inStock, p.bom[i].quantityRequired, c.spillage);
      }
      CapacityEntry(id, p.name, p.inProgress, p.shipped, limits[j].maxUnits, limits[j].componentName)
  }

  /** calculate_production_capacity: one entry per product, each computed on its own. */
  function CapacityReport(products: map<nat, Product>, components: map<nat, Component>)
    : (report: map<nat, CapacityEntry>)
    requires CatalogueValid(components, products)
    ensures report.Keys == products.Keys
    ensures forall id :: id in products ==> report[id] == ProductCapacity(id, products[id], components)
  {
    map id | id in products :: ProductCapacity(id, products[id], components)
  }

  /**
   * The capacity report and order creation agree: an order of n units for a
   * product with a BOM passes the stock check exactly when n does not exceed
   * the product's reported capacity.
   */
  lemma CapacityAgreesWithOrderCheck(id: nat, p: Product, components: map<nat, Component>, n: int)
    requires BomPriced(p.bom, components) && p.bom != [] && n > 0
    ensures n <= ProductCapacity(id, p, components).maxProducible
            <==> Shortages(Requirements(p.bom, components, n)) == []
  {
    var reqs := Requirements(p.bom, components, n);
    var e := ProductCapacity(id, p, components);
    NoShortagesIffCovered(reqs);
    forall k | 0 <= k < |p.bom|
      ensures reqs[k].needed <= reqs[k].available <==> n <= BomLineBound(p.bom[k], components)
    {
      var c := components[p.bom[k].componentId];
      NeededWithinStockIffWithinBound(c.inStock, p.bom[k].quantityRequired, c.spillage, n);
    }
    var j :| 0 <= j < |p.bom| && e.maxProducible == BomLineBound(p.bom[j], components);
    if n <= e.maxProducible {
      assert forall k :: 0 <= k < |p.bom| ==> reqs[k].needed <= reqs[k].available;
    } else {
      assert !(reqs[j].needed <= reqs[j].available);
    }
  }
}
