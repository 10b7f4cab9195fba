/**
 * The request bodies accepted by the backend (backend/schemas.py) and their
 * field bounds. The validators run before any CRUD function, so the CRUD
 * operations take a valid request as a precondition.
 */
module Schemas {
  import opened Models

  const MAX_NAME_LENGTH: int := 255

  predicate NameValid(name: string) {
    1 <= |name| <= MAX_NAME_LENGTH
  }

  /**
   * ComponentCreate: a name, a spillage in [0, 9.9999] and an initial stock.
   * Both numbers default to 0, so a request that gives only a name is
   * ComponentCreate(name, 0, 0).
   */
  datatype ComponentCreate = ComponentCreate(name: string, spillage: int, inStock: int)

  predicate ComponentCreateValid(c: ComponentCreate) {
    NameValid(c.name) && SpillageInRange(c.spillage) && c.inStock >= 0
  }

  /** ComponentUpdate: every field optional; a supplied field obeys the creation bounds. */
  datatype ComponentUpdate = ComponentUpdate(name: Option<string>, spillage: Option<int>, inStock: Option<int>)

  predicate ComponentUpdateValid(u: ComponentUpdate) {
    && (u.name.Some? ==> NameValid(u.name.value))
    && (u.spillage.Some? ==> SpillageInRange(u.spillage.value))
    && (u.inStock.Some? ==> u.inStock.value >= 0)
  }

  /** BOMItemCreate: both the component id and the quantity are positive. */
  datatype BomItemCreate = BomItemCreate(componentId: int, quantityRequired: int)

  predicate BomItemValid(b: BomItemCreate) {
    b.componentId > 0 && b.quantityRequired > 0
  }

  predicate BomItemsValid(items: seq<BomItemCreate>) {
    forall k :: 0 <= k < |items| ==> BomItemValid(items[k])
  }

  /** ProductCreate: a name and one list of (component id, quantity) items. */
  datatype ProductCreate = ProductCreate(name: string, bom: seq<BomItemCreate>)

  predicate ProductCreateValid(p: ProductCreate) {
    NameValid(p.name) && BomItemsValid(p.bom)
  }

  /** ProductUpdate: only the name, optional. */
  datatype ProductUpdate = ProductUpdate(name: Option<string>)

  predicate ProductUpdateValid(u: ProductUpdate) {
    u.name.Some? ==> NameValid(u.name.value)
  }

  /** OrderCreate: both the product id and the quantity are positive. */
  datatype OrderCreate = OrderCreate(productId: int, quantity: int)

  predicate OrderCreateValid(o: OrderCreate) {
    o.productId > 0 && o.quantity > 0
  }

  /** The component ids of a list of BOM items, as `[item.component_id for item in items]`. */
  function ItemIds(items: seq<BomItemCreate>): (ids: seq<nat>)
    requires BomItemsValid(items)
    ensures |ids| == |items|
    ensures forall k :: 0 <= k < |items| ==> ids[k] == items[k].componentId
  {
    seq(|items|, k requires 0 <= k < |items| && BomItemsValid(items) => items[k].componentId as nat)
  }

  /** The BOM rows that a list of items is stored as, in order. */
  function ItemLines(items: seq<BomItemCreate>): (bom: seq<BomLine>)
    requires BomItemsValid(items)
    ensures |bom| == |items|
    ensures forall k :: 0 <= k < |items| ==>
              bom[k].componentId == items[k].componentId && bom[k].quantityRequired == items[k].quantityRequired
    ensures forall k :: 0 <= k < |bom| ==> BomLineValid(bom[k])
    ensures BomIds(bom) == ItemIds(items)
  {
    seq(|items|, k requires 0 <= k < |items| && BomItemsValid(items) =>
      BomLine(items[k].componentId as nat, items[k].quantityRequired))
  }
}
