/**
 * Request and response records of the REST API, the bean-validation
 * constraints on the requests, and the page envelope.
 */
module Dto {
  import opened Wrappers
  import opened Text

  // ---------------------------------------------------------------------------
  // Requests and their constraints
  // ---------------------------------------------------------------------------

  datatype ProductRequestDto = ProductRequestDto(name: Option<string>, value: Option<real>)

  datatype RawMaterialRequestDto = RawMaterialRequestDto(name: Option<string>, stockQuantity: Option<real>)

  datatype ProductRawMaterialRequestDto = ProductRawMaterialRequestDto(
    rawMaterialId: Option<int>,
    quantityNeeded: Option<real>)

  /** @NotBlank: not null and not only whitespace. */
  predicate NotBlank(s: Option<string>) {
    s.Some? && HasText(s.value)
  }

  /** @DecimalMin(min), inclusive; a null value passes (it is @NotNull's to reject). */
  predicate DecimalMin(v: Option<real>, min: real) {
    v.None? || v.value >= min
  }

  /** The messages of the violated constraints, one per failed constraint, in field order. */
  function ProductRequestViolations(dto: ProductRequestDto): (r: seq<string>)
    ensures r == [] <==> dto.name.Some? && HasText(dto.name.value) && dto.value.Some? && dto.value.value >= 0.01
    ensures |r| <= 2
  {
    (if NotBlank(dto.name) then [] else ["Name is required"])
    + (if dto.value.Some? then [] else ["Value is required"])
    + (if DecimalMin(dto.value, 0.01) then [] else ["Value must be greater than zero"])
  }

  function RawMaterialRequestViolations(dto: RawMaterialRequestDto): (r: seq<string>)
    ensures r == [] <==> dto.name.Some? && HasText(dto.name.value) && dto.stockQuantity.Some? && dto.stockQuantity.value >= 0.0
    ensures |r| <= 2
  {
    (if NotBlank(dto.name) then [] else ["Name is required"])
    + (if dto.stockQuantity.Some? then [] else ["Stock quantity is required"])
    + (if DecimalMin(dto.stockQuantity, 0.0) then [] else ["Stock quantity must be greater than or equal to zero"])
  }

  function ProductRawMaterialRequestViolations(dto: ProductRawMaterialRequestDto): (r: seq<string>)
    ensures r == [] <==> dto.rawMaterialId.Some? && dto.quantityNeeded.Some? && dto.quantityNeeded.value >= 0.01
    ensures |r| <= 2
  {
    (if dto.rawMaterialId.Some? then [] else ["Raw material ID is required"])
    + (if dto.quantityNeeded.Some? then [] else ["Quantity needed is required"])
    + (if DecimalMin(dto.quantityNeeded, 0.01) then [] else ["Quantity needed must be greater than zero"])
  }

  /** A request that passes @Valid. */
  predicate ValidProductRequest(dto: ProductRequestDto) {
    ProductRequestViolations(dto) == []
  }

  predicate ValidRawMaterialRequest(dto: RawMaterialRequestDto) {
    RawMaterialRequestViolations(dto) == []
  }

  predicate ValidProductRawMaterialRequest(dto: ProductRawMaterialRequestDto) {
    ProductRawMaterialRequestViolations(dto) == []
  }

  /** The bounds are inclusive: 0.01 is the smallest valid price and quantity, 0 the smallest stock. */
  lemma {:induction false} RequestBoundsAreInclusive(name: string)
    requires HasText(name)
    ensures ValidProductRequest(ProductRequestDto(Some(name), Some(0.01)))
    ensures !ValidProductRequest(ProductRequestDto(Some(name), Some(0.0)))
    ensures ValidRawMaterialRequest(RawMaterialRequestDto(Some(name), Some(0.0)))
    ensures !ValidRawMaterialRequest(RawMaterialRequestDto(Some(name), Some(-0.01)))
    ensures ValidProductRawMaterialRequest(ProductRawMaterialRequestDto(Some(1), Some(0.01)))
    ensures !ValidProductRawMaterialRequest(ProductRawMaterialRequestDto(Some(1), Some(0.009)))
  {
  }

  /** A blank name and a negative amount each break a constraint. */
  lemma {:induction false} InvalidCreateRequests()
    ensures ProductRequestViolations(ProductRequestDto(Some(""), Some(-10.0)))
      == ["Name is required", "Value must be greater than zero"]
    ensures RawMaterialRequestViolations(RawMaterialRequestDto(Some(""), Some(-10.0)))
      == ["Name is required", "Stock quantity must be greater than or equal to zero"]
    ensures ProductRequestViolations(ProductRequestDto(Some("  "), Some(5.0))) == ["Name is required"]
    ensures ProductRequestViolations(ProductRequestDto(None, None)) == ["Name is required", "Value is required"]
  {
    assert !HasText("") && !HasText("  ");
  }

  // ---------------------------------------------------------------------------
  // Responses
  // ---------------------------------------------------------------------------

  datatype ProductResponseDto = ProductResponseDto(id: Option<int>, name: string, value: real)

  datatype RawMaterialResponseDto = RawMaterialResponseDto(id: Option<int>, name: string, stockQuantity: real)

  datatype ProductRawMaterialResponseDto = ProductRawMaterialResponseDto(
    id: Option<int>,
    productId: Option<int>,
    productName: string,
    rawMaterialId: Option<int>,
    rawMaterialName: string,
    quantityNeeded: real)

  datatype ProductionSuggestionResponseDto = ProductionSuggestionResponseDto(
    productId: int,
    productName: string,
    productValue: real,
    suggestedQuantity: int,
    totalValue: real,
    priorityRank: int)

  /** One page of a listing and the size of the whole filtered listing. */
  datatype PageResponse<T> = PageResponse(content: seq<T>, pageNumber: int, pageSize: int, totalElements: int)
}
