# Inventory-Manager backend: a Dafny model

This project models the core of the Inventory-Manager backend. The backend
keeps three tables:

- **components**: name, spillage coefficient, and three stock buckets (`in_stock`, `in_progress`, `shipped`).
- **products**: name, `in_progress` and `shipped` counters, and a bill of materials (BOM), which lists the components and quantities one unit needs.
- **orders**: each order has a status and its allocation rows, one per component the order reserved.

The CRUD layer moves stock between the three buckets:

- Creating an order reserves `ceil(q * (1 + s) * n)` units of every BOM component. They leave `in_stock` and enter `in_progress`.
- Completing an order moves those units on to `shipped`.

Three read-only reports sit beside the CRUD operations:

- the production-capacity report,
- the order summary,
- the procurement report, which lists the components open orders are short of.

The modules follow the backend's files:

| module | file | contents |
|---|---|---|
| `Models` | models.dfy | row datatypes and the CHECK constraints of `backend/models.py` |
| `Schemas` | schemas.dfy | request datatypes and the field bounds of `backend/schemas.py` |
| `Quantities` | quantities.dfy | spillage arithmetic: exact quantity, rounded-up requirement, per-line capacity |
| `Orders` | orders.dfy | the pure part of `backend/crud_orders.py`: requirements, shortages, the allocation and completion transfers, the order summary |
| `Products` | products.dfy | the read side of `backend/crud_products.py`: product detail, BOM validation, production capacity |
| `Procurement` | procurement.dfy | `calculate_procurement_needs`, as nested loops over the open orders proved against sums |
| `Ledger` | ledger.dfy | the invariant the whole store keeps, and its preservation by order creation and completion |
| `Inventory` | store.dfy | `class Store`, whose fields are the three tables; one method per state-changing CRUD function |

Numbers are modelled like this:

- A spillage coefficient is stored as `DECIMAL(5,4)`. The model keeps it as an integer `k` in ten-thousandths, with `0 <= k <= 99999`.
- The exact decimal arithmetic of the source becomes integer arithmetic on those scaled values.
- `quantity_with_spillage` is the exact real `q * (1 + k/10000)`.

Every Store method has the same shape. It either returns the HTTP error the source raises and leaves every table as it was (the rollback), or it commits exactly the change its contract states. Every method keeps `Valid()`, the store invariant:

- every CHECK constraint holds, and the UNIQUE names are unique;
- every foreign key resolves: BOM rows, order rows and allocation rows;
- BOM component ids are distinct within each product;
- the **conservation law** holds:
  - each component's `in_progress` equals the units allocated to it by orders that are not completed;
  - each component's `shipped` equals the units allocated to it by completed orders;
  - each product's `in_progress` equals the units ordered by its orders that are not completed.

The conservation law has two consequences:

- The two "Data inconsistency" 500 answers of `complete_order` can never occur. `Ledger.CompletionCovered` proves this.
- A component with nothing in progress and nothing shipped has no allocation rows, so the foreign-key fallback of `delete_component` can never fire. `Ledger.AllocatedComponentHoldsStock` and `Inventory.UnstockedIsUnallocated` prove this.

A component creation request that gives only a name takes spillage 0 and in_stock 0. In the model that request is `ComponentCreate(name, 0, 0)`.

`create_order` and `complete_order` each touch several tables. Each one works on the session's copy of the tables as a value-level transaction (`Inventory.PlaceOrder`, `Inventory.ShipOrder`). The Store method then commits the result to its fields. The component loops in those transactions (`ReserveAll`, `ShipAll`) update their copy one allocation at a time, as the source does.

The source behaves differently from what one might expect in these places, and the model does what the source does:

- **Insufficient stock.** `create_order` answers 400 and creates nothing. It does not persist a pending order.
- **New orders.** They are created directly `in_progress`.
- **Completion.** `complete_order` rejects only completed orders, so a pending order can also be completed.
- **Empty BOM.** A product may be created with an empty BOM.
- **Procurement totals.** The procurement report sums the full rounded-up requirement of every pending order, and subtracts the stock on hand once per component. It does not sum per-order shortages.
- **Orders affected.** An order counts as affected when its contribution is positive.
- **Open orders.** In-progress orders are read but contribute 0.

## Model

| member | source | states |
|---|---|---|
| Models.DistinctIffNoCollapse | backend/crud_products.py:67-73 | `len(ids) != len(set(ids))` holds exactly when some component id repeats |
| Schemas.ItemLines | backend/crud_products.py:86-93 | one BOM row per submitted item, in order, with the item's component id and quantity; every row satisfies quantity_required > 0 |
| Quantities.ScaledTotalIsExact | backend/crud_orders.py:74-78 | the exact decimal total q * (1 + s) * n equals the scaled integer total divided by 10000 |
| Quantities.NeededScaledBounds | backend/crud_orders.py:80-81 | the rounded-up requirement, in ten-thousandths, lies in [exact, exact + 1 unit) |
| Quantities.NeededIsCeiling | backend/crud_orders.py:74-81 | the allocated quantity is never below the exact requirement, exceeds it by less than one unit, and is at least q * n >= 1 |
| Quantities.NeededAtMost | backend/crud_orders.py:95-100 | a whole stock m covers the rounded-up requirement exactly when it covers the exact scaled requirement |
| Quantities.NeededWithinStockIffWithinBound | backend/crud_products.py:257-263 | for one BOM line, the order check `needed <= in_stock` passes exactly when n is at most the line's capacity floor(in_stock / (q * (1 + s))) |
| Quantities.LineBoundIsFloor | backend/crud_products.py:257-265 | a line's capacity is the largest whole n with n * q * (1 + s) <= in_stock, and is never negative |
| Orders.LineRequirement | backend/crud_orders.py:70-90 | a BOM line's requirement names its component, with the component's name and the stock on hand; its needed quantity is the ceiling of the exact total and at least 1 |
| Orders.Requirements | backend/crud_orders.py:68-90 | one requirement per BOM line, in BOM order |
| Orders.Shortages | backend/crud_orders.py:93-106 | the shortage list is no longer than the requirement list, and every entry is short (available < needed) |
| Orders.ShortPositions | backend/crud_orders.py:95-100 | the positions of the short requirements: strictly increasing, each one short, and every short position present |
| Orders.ShortagesAreShortPositions | backend/crud_orders.py:93-106 | the shortage list has exactly one entry per short position, in increasing position order, each built from that requirement's id, name, needed and available figures |
| Orders.NoShortagesIffCovered | backend/crud_orders.py:95-108 | the shortage list is empty exactly when every requirement is covered by in_stock |
| Orders.ShortagesReportEveryShortLine | backend/crud_orders.py:100-106 | every short requirement appears in the shortage list with its own name, needed and available figures |
| Orders.AllocationsFor | backend/crud_orders.py:133-148 | one allocation row per requirement, for its component and needed quantity |
| Orders.Reserve | backend/crud_orders.py:133-140 | allocation changes no component's bucket total, shipped, name or spillage, and leaves components without an allocation untouched |
| Orders.Ship | backend/crud_orders.py:184-197 | completion changes no component's bucket total, in_stock, name or spillage, and leaves components without an allocation untouched |
| Orders.ReserveMovesEachAllocation | backend/crud_orders.py:133-140 | with distinct components covered by stock, each allocated quantity moves from in_stock to in_progress, and every bucket stays >= 0 |
| Orders.ShipMovesEachAllocation | backend/crud_orders.py:184-197 | with distinct components covered by in_progress, each allocated quantity moves from in_progress to shipped, and every bucket stays >= 0 |
| Orders.ReserveThenShip | backend/crud_orders.py:133-197 | allocating and then completing the same rows leaves in_progress as it was, and moves the units from in_stock to shipped |
| Orders.CountStatus | backend/crud_orders.py:235-237 | a status count is at most the number of orders |
| Orders.Summary | backend/crud_orders.py:231-258 | total_orders is the number of orders and the order list is the orders; pending, in_progress and completed are each the number of orders with that status (CountStatusCounts), and the three add up to the total |
| Orders.StatusCountsPartition | backend/crud_orders.py:232-257 | the pending, in_progress and completed counts partition the order list |
| Orders.CountStatusCounts | backend/crud_orders.py:235-237 | each count equals the number of positions holding an order with that status |
| Products.GetProductWithBom | backend/crud_products.py:17-53 | 404 exactly for an unknown product; otherwise the product's fields and one detail row per BOM line, in order, with the component's name and spillage and an exact quantity with spillage q * (1 + s), which lies in [q, 11q) |
| Products.QuantityWithSpillageBounds | backend/crud_products.py:31-33 | quantity_with_spillage times 10000 is exactly q * (10000 + k), with no rounding, and q <= it < 11q |
| Products.ValidateBom | backend/crud_products.py:56-73 | 404 exactly when some item names a missing component; otherwise 400 exactly when a component id repeats; otherwise no failure |
| Products.LineLimits | backend/crud_products.py:251-270 | one (component name, max_units) entry per BOM line, in order, with max_units the line's capacity |
| Products.FirstMinimum | backend/crud_products.py:272-273 | `min(..., key=max_units)` picks the first position of least max_units |
| Products.ProductCapacity | backend/crud_products.py:234-282 | with no BOM: max_producible 0, limited by "No BOM defined"; otherwise max_producible is the least per-line capacity, the limiting component is the first line that attains it, and the value is >= 0 |
| Products.CapacityReport | backend/crud_products.py:230-284 | one capacity entry per product, each computed from that product and the component table alone |
| Products.CapacityAgreesWithOrderCheck | backend/crud_products.py:251-280 | in exact arithmetic, for a product with a BOM, an order of n units passes create_order's stock check exactly when n <= the reported max_producible (the source's float division can report one less; see Left out) |
| Procurement.OpenOrders | backend/crud_procurement.py:7-8 | the report reads exactly the pending and in-progress orders, each as many times as it occurs; no order of the rows is promised, as the query has no ORDER BY |
| Procurement.Contribution | backend/crud_procurement.py:26-36 | a pending order's BOM line adds its rounded-up requirement (>= 1), an in-progress order's line adds 0 |
| Procurement.AddOrder | backend/crud_procurement.py:18-47 | after one more order the dictionary holds, for every component named by the BOMs so far, the summed contributions and the number of positive ones; every key is listed once, and the keys from before the order stay a prefix of the key list |
| Procurement.ListShortages | backend/crud_procurement.py:49-65 | the listed items are distinct; each lists a referenced component with its total, in_stock, shortage = total - in_stock > 0 and order count; every referenced component whose total exceeds its stock is listed |
| Procurement.CalculateProcurementNeeds | backend/crud_procurement.py:6-70 | no open orders gives an empty list; total_items is the list length; every item is a distinct, short, referenced component with total_needed the sum of contributions over the open orders and orders_affected the count of positive ones; every short referenced component is listed |
| Procurement.LineTermsNonNegative | backend/crud_procurement.py:45-47 | one order's summed contribution and count for a component are >= 0, and the contribution is positive exactly when the count is |
| Procurement.NeededIffSomeOrderAffected | backend/crud_procurement.py:38-47 | a component's total_needed is positive exactly when its orders_affected is positive |
| Procurement.ListedItemsAffectSomeOrder | backend/crud_procurement.py:46-65 | every listed component is counted against at least one order |
| Procurement.DistinctBomCountsOnce | backend/crud_procurement.py:23-47 | an order whose BOM names each component at most once adds at most 1 to a component's order count |
| Procurement.AffectedAtMostOpen | backend/crud_procurement.py:18-47 | with duplicate-free BOMs, orders_affected never exceeds the number of open orders |
| Ledger.MarkCompleted | backend/crud_orders.py:211-213 | a completed order has status completed and completed_at stamped, and its product, quantity and allocations are kept |
| Ledger.InFlightAfterCompletion | backend/crud_orders.py:184-197 | completing an open order lowers each component's in-flight total by exactly what the order allocated from it |
| Ledger.CommittedAfterCompletion | backend/crud_orders.py:199-212 | completing an open order lowers its product's committed total by exactly the order's quantity |
| Ledger.DeliveredAfterCompletion | backend/crud_orders.py:184-197 | completing an open order raises each component's delivered total by exactly what the order allocated from it |
| Ledger.AllocatedComponentHoldsStock | backend/crud_orders.py:133-197 | in a store that keeps the invariant, a component referenced by an allocation row holds units in progress (open order) or shipped (completed order) |
| Ledger.CompletionCovered | backend/crud_orders.py:189-206 | in a store that keeps the invariant, every component of an open order holds at least its allocation in_progress, and the product holds at least the quantity, so both 500 guards always pass |
| Ledger.PlaceOrderKeepsInvariant | backend/crud_orders.py:121-154 | reserving the stock, recording the in-progress order and raising the product's in_progress keeps every constraint, reference and the conservation law |
| Ledger.CompleteOrderKeepsInvariant | backend/crud_orders.py:183-215 | shipping an open order's allocations and quantity and marking it completed keeps the invariant |
| Inventory.ApplyComponentUpdate | backend/crud_components.py:54-59 | each supplied field is set, each omitted field is kept, in_progress and shipped never change, and a valid update keeps the row valid |
| Inventory.ComponentUpdateIdempotent | backend/crud_components.py:54-59 | applying the same partial update twice equals applying it once; an empty update changes nothing |
| Inventory.BuildBom | backend/crud_products.py:86-93 | the BOM rows built item by item are exactly the submitted list |
| Inventory.CollectShortages | backend/crud_orders.py:92-106 | the stock-check loop collects exactly the shortage list |
| Inventory.ReserveAll | backend/crud_orders.py:133-148 | the allocation loop records one row per requirement and leaves the component table as `Reserve` of those rows |
| Inventory.ShipAll | backend/crud_orders.py:184-197 | the completion loop succeeds exactly when every allocated component holds its allocation in_progress, and then leaves the table as `Ship` of the rows |
| Inventory.PlaceOrder | backend/crud_orders.py:46-158 | the create_order transaction: the outcome `OrderPlaced` (404 unknown product, 400 empty BOM, 400 listing every shortage, else the reserved stock, the new in-progress order at the next id and the raised product in_progress), and the invariant kept |
| Inventory.ShipOrder | backend/crud_orders.py:168-222 | the complete_order transaction: the outcome `OrderShipped` (404 unknown, 400 already completed, 500 exactly when an in_progress guard fails, else shipped stock, shipped product quantity and the order marked completed), and the invariant kept |
| Inventory.Store.constructor | backend/models.py:14-91 | an empty store keeps the invariant |
| Inventory.Store.CreateComponent | backend/crud_components.py:15-44 | 409 exactly when an identical name is taken (the database collation is left out); otherwise a new row at the next fresh id with the given name, spillage and in_stock and in_progress = shipped = 0; nothing else changes |
| Inventory.Store.UpdateComponent | backend/crud_components.py:47-77 | 404 for an unknown id, 409 exactly when the new name belongs to another component; otherwise only the supplied fields change |
| Inventory.Store.DeleteComponent | backend/crud_components.py:80-127 | 404 for an unknown id; 409 exactly when a BOM uses it or in_progress or shipped is positive; otherwise only that row is removed, and the invariant is kept |
| Inventory.Store.AdjustComponentStock | backend/crud_components.py:131-153 | 404 for an unknown id, 400 exactly when in_stock + adjustment < 0; otherwise in_stock becomes in_stock + adjustment and nothing else changes |
| Inventory.Store.CreateProduct | backend/crud_products.py:55-115 | 404 for a missing component, then 400 for a repeated one, then 409 when an identical name is taken (the database collation is left out); otherwise a new product at the next fresh id with in_progress = shipped = 0 and exactly the submitted BOM, answered with its detail |
| Inventory.Store.UpdateProduct | backend/crud_products.py:118-147 | 404 for an unknown id, 409 exactly when the new name belongs to another product; otherwise only the name changes, and only when supplied |
| Inventory.Store.DeleteProduct | backend/crud_products.py:150-180 | 404 for an unknown id; 409 exactly when in_progress > 0, shipped > 0 or some order references it; otherwise the product and its BOM are removed |
| Inventory.Store.UpdateProductBom | backend/crud_products.py:183-227 | 404 for an unknown product or missing component, 400 for a repeated component, each leaving the old BOM; otherwise the BOM is exactly the submitted list, answered with the product detail |
| Inventory.Store.CreateOrder | backend/crud_orders.py:46-165 | commits `OrderPlaced` to the tables and keeps the invariant; any error leaves the store unchanged |
| Inventory.Store.CompleteOrder | backend/crud_orders.py:168-228 | commits `OrderShipped` to the tables and keeps the invariant; any error, the 500s included, leaves the store unchanged |
| Inventory.NewComponentKeepsInvariant | backend/crud_components.py:17-29 | inserting a valid component with a fresh name at the next id keeps the invariant |
| Inventory.ReplaceComponentKeepsInvariant | backend/crud_components.py:54-64 | replacing a row by one with the same in_progress and shipped, a valid spillage and a name no other row carries keeps the invariant |
| Inventory.UnstockedIsUnallocated | backend/crud_components.py:100-121 | in a store that keeps the invariant, a component with in_progress = shipped = 0 is referenced by no allocation row, so the delete never meets the foreign key and the fallback after it cannot fire |
| Inventory.RemoveComponentKeepsInvariant | backend/crud_components.py:86-110 | removing a component no BOM or allocation references, with empty in_progress and shipped, keeps the invariant |
| Inventory.NewProductKeepsInvariant | backend/crud_products.py:75-97 | inserting a product with a fresh name and a validated BOM keeps the invariant |
| Inventory.RenameProductKeepsInvariant | backend/crud_products.py:124-132 | renaming a product to a name no other product carries keeps the invariant |
| Inventory.RemoveProductKeepsInvariant | backend/crud_products.py:156-175 | removing a product with empty buckets and no orders keeps the invariant |
| Inventory.ReplaceBomKeepsInvariant | backend/crud_products.py:208-221 | replacing a product's BOM by a validated list keeps the invariant |

## Left out

- Floating point. Several source computations go through floats: `math.ceil(float(exact_total))` in create_order and the procurement report, and `float(spillage)` and `int(in_stock / required_per_unit)` in the capacity report. The model computes them exactly on rationals and scaled integers. Float rounding is not modelled.
- Products.ProductCapacity / Products.CapacityAgreesWithOrderCheck: max_units is the exact floor of in_stock / (q * (1 + s)). The source divides in binary floating point (backend/crud_products.py:258-263), which can come out one below the exact floor on small, ordinary values. With in_stock = 33, q = 1 and s = 0.1, the source computes `int(33 / 1.1) = int(29.999999999999996) = 29`, while the model gives 30. create_order, working in decimals, accepts 30 units there. The agreement theorem holds for the exact model, not for the float computation.
- The generic `except Exception` 500 answers, and the 400 "Database error" answers to an IntegrityError other than a recognised UNIQUE clash. Three inputs reach them and are listed on the lines below: out-of-range integers, an explicit null name, and a name clash the database reports in another form. The other causes of these answers, such as a lost connection, are failures the model does not have. The request validators enforce the field bounds on every non-null value before any CRUD function runs, and the model takes those bounds as preconditions. The validators do not reject an explicit `null` for an optional field.
- Inventory.Store.AdjustComponentStock / Inventory.Store.CreateComponent / Inventory.Store.UpdateComponent / Inventory.PlaceOrder / Inventory.Store.CreateOrder / Inventory.ShipOrder / Inventory.Store.CompleteOrder: the counters `in_stock`, `in_progress`, `shipped` and `quantity` are unbounded integers here. In the database they are `Column(Integer)` (backend/models.py:20-22, 42-43, 80, 101), 32-bit signed on MySQL, and no request field bounds them from above. A value that leaves the column's range makes the commit fail, and the source answers 500 after a rollback. The model answers Ok instead: for example, an adjustment of 2^31 on in_stock = 0 (backend/crud_components.py:137-153), or an order whose allocation or `+=` pushes a counter past 2^31 - 1.
- Inventory.Store.CreateComponent: names clash only when they are identical sequences of characters. The source leaves the check to the UNIQUE index on `name` (backend/models.py:18, 41), so the database's collation decides which names are equal. MySQL's default collations ignore letter case. With "Bolt" stored, creating "bolt" gets 409 from the source and Ok from the model. Case folding and collations are not modelled.
- Inventory.Store.CreateProduct: names clash only when identical, as for CreateComponent. The database's collation, case-insensitive on MySQL, is not modelled.
- Inventory.Store.UpdateComponent: names clash only when identical, as for CreateComponent.
- Inventory.Store.UpdateProduct: names clash only when identical, as for CreateComponent.
- Inventory.Store.UpdateComponent / Inventory.Store.UpdateProduct / Inventory.Store.CreateProduct: these answer 409 for any name clash. The source recognises a clash only by MySQL's "Duplicate entry" message (backend/crud_components.py:68, backend/crud_products.py:105, 137). Only create_component also matches SQLite's "UNIQUE constraint" (backend/crud_components.py:34). On another database engine these three would answer 400 "Database error" instead.
- Inventory.Store.UpdateProduct / Inventory.Store.UpdateComponent: an explicit `{"name": null}` is modelled like an omitted name. The model answers Ok and leaves the name unchanged. The source passes the null through `model_dump(exclude_unset=True)` and writes NULL into the NOT NULL `name` column (backend/models.py:18, 41). The commit then fails with an IntegrityError that is not a "Duplicate entry", and the source answers 400 (backend/crud_products.py:143, backend/crud_components.py:74).
- Inventory.Store.DeleteComponent: the IntegrityError fallback after the delete (backend/crud_components.py:111-124) is not modelled as a branch. `Inventory.UnstockedIsUnallocated` proves that it cannot be reached in a store that keeps the invariant. Were it reached, the database would report a NOT NULL violation on `order_allocations.component_id`, and the source would answer 400, not 409.
- Inventory.ApplyComponentUpdate: an update that sends a field as an explicit `null` is modelled like an omitted field. The source keeps an explicit null (`model_dump(exclude_unset=True)`, backend/crud_components.py:55) and writes NULL into the nullable `spillage_coefficient` or `in_stock` column (backend/models.py:19-20). A later create_order on a product using that component then fails with a 500. The model's rows always hold numbers.
- Inventory.Store.CreateOrder: answers with the new order's id. The detailed order response of `get_order_with_details` is not rebuilt.
- Inventory.Store.CompleteOrder: answers with the completed order row, not the detailed response.
- Procurement.CalculateProcurementNeeds: does not state the order of the listed items. The loop keeps the dictionary's insertion order in `keys`, but the contract says only that the items are distinct and complete.
- Products.CapacityReport: a map keyed by product id. The source returns a list in the order of `get_all_products`.
- Order ids. An order's id is its position in the order table, counted from 0. The database counts from 1. Orders are never deleted in the core.
- Component and product ids: the model's counters advance only when a row is inserted. InnoDB also uses up an AUTO_INCREMENT value on an INSERT that fails, as on the 409 paths. After such a failure the source's next id is therefore larger than the model's, though still fresh.
- The read helpers `get_all_*`, `get_*_by_id` and `get_order_with_details`. Only their results are used, as table lookups.
- Timestamps `created_at` and `updated_at` are left out. `completed_at` is modelled as a flag telling whether it is set.
- Error-message texts and response formatting. Each error is modelled by its HTTP status, and an insufficient-stock answer by its list of shortages.
- Nested product BOMs (`product_bom`, `ProductBOMItemCreate`). They exist only as schema types, and no CRUD function uses them.
- The routes of backend/main.py that call `update_product_full_bom`, `allocate_pending_order` and `get_order_requirements`. Those functions are not part of this model, since they do not exist in the CRUD modules.
- The request schemas name the product BOM `component_bom`, while the CRUD code reads `product.bom`. The model uses one list of (component id, quantity) pairs. The response side has the same mismatch: `get_product_with_bom` builds `ProductDetailResponse(..., bom=...)` (backend/crud_products.py:45-53), but that schema requires `component_bom` and `product_bom` (backend/schemas.py:103-105). As written, every product-detail answer fails validation and becomes a 500. `update_product_bom` has then already committed the new BOM when it answers 500 (backend/crud_products.py:219-227). The model follows the evident intent: the detail is answered, and the committed BOM is the same either way.
- HTTP routing, CORS, the health check and the frontend.
- Concurrency. Each operation is atomic and runs alone, like one committed database transaction.
