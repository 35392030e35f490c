/** ProductMapper: request -> new entity, entity -> response, request -> existing entity. */
module ProductMapper {
  import opened Wrappers
  import opened Entity
  import opened Dto

  /** A new, not yet persisted product carrying the request's name and value. */
  function ToEntity(dto: ProductRequestDto): (p: Product)
    requires dto.name.Some? && dto.value.Some?
    ensures p.id.None?
    ensures Some(p.name) == dto.name && Some(p.value) == dto.value
  {
    Product(None, dto.name.value, dto.value.value)
  }

  function ToResponseDto(p: Product): (r: ProductResponseDto)
    ensures r.id == p.id && r.name == p.name && r.value == p.value
  {
    ProductResponseDto(p.id, p.name, p.value)
  }

  /** The entity after its name and value are overwritten from the request; the id stays. */
  function UpdateEntityFromDto(p: Product, dto: ProductRequestDto): (r: Product)
    requires dto.name.Some? && dto.value.Some?
    ensures r.id == p.id
    ensures Some(r.name) == dto.name && Some(r.value) == dto.value
  {
    p.(name := dto.name.value, value := dto.value.value)
  }

  /** Creating then responding gives back the request's name and value, with no id yet. */
  lemma {:induction false} RoundTrip(dto: ProductRequestDto)
    requires dto.name.Some? && dto.value.Some?
    ensures ToResponseDto(ToEntity(dto)) == ProductResponseDto(None, dto.name.value, dto.value.value)
  {
  }

  /** Updating twice from the same request is the same as updating once. */
  lemma {:induction false} UpdateIdempotent(p: Product, dto: ProductRequestDto)
    requires dto.name.Some? && dto.value.Some?
    ensures UpdateEntityFromDto(UpdateEntityFromDto(p, dto), dto) == UpdateEntityFromDto(p, dto)
  {
  }
}

/** RawMaterialMapper: the same three conversions for raw materials. */
module RawMaterialMapper {
  import opened Wrappers
  import opened Entity
  import opened Dto

  function ToEntity(dto: RawMaterialRequestDto): (m: RawMaterial)
    requires dto.name.Some? && dto.stockQuantity.Some?
    ensures m.id.None?
    ensures Some(m.name) == dto.name && Some(m.stockQuantity) == dto.stockQuantity
  {
    RawMaterial(None, dto.name.value, dto.stockQuantity.value)
  }

  function ToResponseDto(m: RawMaterial): (r: RawMaterialResponseDto)
    ensures r.id == m.id && r.name == m.name && r.stockQuantity == m.stockQuantity
  {
    RawMaterialResponseDto(m.id, m.name, m.stockQuantity)
  }

  function UpdateEntityFromDto(m: RawMaterial, dto: RawMaterialRequestDto): (r: RawMaterial)
    requires dto.name.Some? && dto.stockQuantity.Some?
    ensures r.id == m.id
    ensures Some(r.name) == dto.name && Some(r.stockQuantity) == dto.stockQuantity
  {
    m.(name := dto.name.value, stockQuantity := dto.stockQuantity.value)
  }

  lemma {:induction false} RoundTrip(dto: RawMaterialRequestDto)
    requires dto.name.Some? && dto.stockQuantity.Some?
    ensures ToResponseDto(ToEntity(dto)) == RawMaterialResponseDto(None, dto.name.value, dto.stockQuantity.value)
  {
  }

  lemma {:induction false} UpdateIdempotent(m: RawMaterial, dto: RawMaterialRequestDto)
    requires dto.name.Some? && dto.stockQuantity.Some?
    ensures UpdateEntityFromDto(UpdateEntityFromDto(m, dto), dto) == UpdateEntityFromDto(m, dto)
  {
  }
}

/** ProductRawMaterialMapper: a BOM line with the product and raw material it references. */
module ProductRawMaterialMapper {
  import opened Wrappers
  import opened Entity
  import opened Dto

  /**
   * `product` and `rawMaterial` are what the line's getProduct() and
   * getRawMaterial() return: the rows its foreign keys name.
   */
  function ToResponseDto(line: ProductRawMaterial, product: Product, rawMaterial: RawMaterial): (r: ProductRawMaterialResponseDto)
    requires product.id == Some(line.productId) && rawMaterial.id == Some(line.rawMaterialId)
    ensures r.id == line.id
    ensures r.productId == Some(line.productId) && r.productName == product.name
    ensures r.rawMaterialId == Some(line.rawMaterialId) && r.rawMaterialName == rawMaterial.name
    ensures r.quantityNeeded == line.quantityNeeded
  {
    ProductRawMaterialResponseDto(line.id, product.id, product.name, rawMaterial.id, rawMaterial.name, line.quantityNeeded)
  }
}

/** ProductionSuggestionMapper: a field-for-field copy; nothing is recomputed. */
module ProductionSuggestionMapper {
  import opened Entity
  import opened Dto

  function ToResponseDto(s: ProductionSuggestion): (r: ProductionSuggestionResponseDto)
    ensures r.productId == s.productId && r.productName == s.productName
    ensures r.productValue == s.productValue
    ensures r.suggestedQuantity == s.suggestedQuantity && r.totalValue == s.totalValue
    ensures r.priorityRank == s.priorityRank
  {
    ProductionSuggestionResponseDto(s.productId, s.productName, s.productValue,
      s.suggestedQuantity, s.totalValue, s.priorityRank)
  }

  /** Distinct rows give distinct responses: the copy loses nothing. */
  lemma {:induction false} ToResponseDtoInjective(a: ProductionSuggestion, b: ProductionSuggestion)
    requires ToResponseDto(a) == ToResponseDto(b)
    ensures a == b
  {
  }
}
