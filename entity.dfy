/**
 * The persistent entities, as the rows their tables hold. An id is null
 * (None) until `persist` assigns one from the table's IDENTITY column.
 * Decimal columns (BigDecimal) are exact reals.
 */
module Entity {
  import opened Wrappers

  datatype Product = Product(id: Option<int>, name: string, value: real)

  datatype RawMaterial = RawMaterial(id: Option<int>, name: string, stockQuantity: real)

  /**
   * A bill-of-materials line of product_raw_materials: how much of one raw
   * material one unit of one product needs. The product and the raw material
   * are held by their foreign keys, product_id and raw_material_id.
   */
  datatype ProductRawMaterial = ProductRawMaterial(
    id: Option<int>,
    productId: int,
    rawMaterialId: int,
    quantityNeeded: real)

  /**
   * A row of the read-only relation production_suggestions. Its numbers are
   * computed by the database; the application only reads them.
   */
  datatype ProductionSuggestion = ProductionSuggestion(
    productId: int,
    productName: string,
    productValue: real,
    suggestedQuantity: int,
    totalValue: real,
    priorityRank: int)
}
