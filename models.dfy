/**
 * The persistent records of the stock-management backend (backend/models.py):
 * components, products with their bill of materials, orders and their
 * allocations, and the database CHECK constraints on each of them.
 */
module Models {

  /** Spillage is stored as DECIMAL(5,4): an integer number of ten-thousandths. */
  const SPILLAGE_SCALE: int := 10000
  /** The largest storable spillage, 9.9999, in ten-thousandths. */
  const MAX_SPILLAGE: int := 99999

  datatype Option<T> = None | Some(value: T) {
    function GetOr(default: T): T {
      match this
      case Some(v) => v
      case None => default
    }
  }

  /** The HTTP failures raised by the CRUD layer, one kind per status code. */
  datatype Error =
    | NotFound                                     // 404
    | BadRequest                                   // 400
    | Conflict                                     // 409
    | Internal                                     // 500: data inconsistency, rolled back
    | InsufficientStock(shortages: seq<Shortage>)  // 400 listing every short component

  /** One line of the "Insufficient inventory" detail of order creation. */
  datatype Shortage = Shortage(componentId: nat, componentName: string, needed: int, available: int)

  datatype Result<T> = Ok(value: T) | Err(error: Error)

  /** The three order states; a new order row defaults to in_progress. */
  datatype Status = Pending | InProgress | Completed

  datatype Component = Component(
    name: string,
    spillage: int,     // ten-thousandths
    inStock: int,
    inProgress: int,
    shipped: int)

  /** A bill-of-materials row of one product. */
  datatype BomLine = BomLine(componentId: nat, quantityRequired: int)

  datatype Product = Product(name: string, inProgress: int, shipped: int, bom: seq<BomLine>)

  datatype Allocation = Allocation(componentId: nat, quantityAllocated: int)

  /** `completedAt` records only whether the completion time has been stamped. */
  datatype Order = Order(
    productId: nat,
    quantity: int,
    status: Status,
    completedAt: bool,
    allocations: seq<Allocation>)

  // ---------------------------------------------------------------------------
  // CHECK constraints
  // ---------------------------------------------------------------------------

  predicate SpillageInRange(k: int) {
    0 <= k <= MAX_SPILLAGE
  }

  /** check_spillage_range and check_component_quantities; the name is NOT NULL. */
  predicate ComponentValid(c: Component) {
    && SpillageInRange(c.spillage)
    && c.inStock >= 0 && c.inProgress >= 0 && c.shipped >= 0
  }

  /** check_quantity_positive. */
  predicate BomLineValid(l: BomLine) {
    l.quantityRequired > 0
  }

  /** check_product_quantities plus the constraint of every BOM row. */
  predicate ProductValid(p: Product) {
    && p.inProgress >= 0 && p.shipped >= 0
    && forall k :: 0 <= k < |p.bom| ==> BomLineValid(p.bom[k])
  }

  /** check_allocation_positive. */
  predicate AllocationValid(a: Allocation) {
    a.quantityAllocated > 0
  }

  /** check_order_quantity_positive plus the constraint of every allocation row. */
  predicate OrderValid(o: Order) {
    && o.quantity > 0
    && forall k :: 0 <= k < |o.allocations| ==> AllocationValid(o.allocations[k])
  }

  // ---------------------------------------------------------------------------
  // Identifier lists
  // ---------------------------------------------------------------------------

  function BomIds(bom: seq<BomLine>): (ids: seq<nat>)
    ensures |ids| == |bom|
    ensures forall k :: 0 <= k < |bom| ==> ids[k] == bom[k].componentId
  {
    seq(|bom|, k requires 0 <= k < |bom| => bom[k].componentId)
  }

  function AllocationIds(allocs: seq<Allocation>): (ids: seq<nat>)
    ensures |ids| == |allocs|
    ensures forall k :: 0 <= k < |allocs| ==> ids[k] == allocs[k].componentId
  {
    seq(|allocs|, k requires 0 <= k < |allocs| => allocs[k].componentId)
  }

  predicate Distinct(ids: seq<nat>) {
    forall i, j :: 0 <= i < j < |ids| ==> ids[i] != ids[j]
  }

  /** The elements of a list as a set, as Python's `set(ids)`. */
  function Elements(ids: seq<nat>): set<nat> {
    set x | x in ids
  }

  /**
   * The duplicate test of the CRUD layer, `len(ids) != len(set(ids))`,
   * holds exactly when some identifier repeats.
   */
  lemma {:induction false} DistinctIffNoCollapse(ids: seq<nat>)
    ensures |Elements(ids)| <= |ids|
    ensures Distinct(ids) <==> |Elements(ids)| == |ids|
  {
    if ids == [] {
      assert Elements(ids) == {};
    } else {
      var init, last := ids[..|ids| - 1], ids[|ids| - 1];
      DistinctIffNoCollapse(init);
      assert ids == init + [last];
      assert Elements(ids) == Elements(init) + {last};
      if last in init {
        assert Elements(ids) == Elements(init);
        var j :| 0 <= j < |init| && init[j] == last;
        assert ids[j] == ids[|ids| - 1];
        assert !Distinct(ids);
      } else {
        assert |Elements(ids)| == |Elements(init)| + 1;
        if Distinct(init) {
          forall i, j | 0 <= i < j < |ids| ensures ids[i] != ids[j] {
            if j < |ids| - 1 {
              assert ids[i] == init[i] && ids[j] == init[j];
            } else {
              assert ids[i] == init[i];
            }
          }
        } else {
          var i, j :| 0 <= i < j < |init| && init[i] == init[j];
          assert ids[i] == ids[j];
        }
      }
    }
  }
}
