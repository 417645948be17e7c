/** products/serializers.py: the field validators of ProductSerializer. */
module ProductSerializers {
  import opened Wrappers

  datatype FieldProblem = PriceNotPositive | StockNegative

  /** validate_price: a price of zero or less is refused; an accepted price is returned unchanged. */
  function ValidatePrice(value: int): (r: Result<int, FieldProblem>)
    ensures r.Success? <==> value > 0
    ensures r.Success? ==> r.value == value
    ensures r.Failure? ==> r.error == PriceNotPositive
  {
    if value <= 0 then Failure(PriceNotPositive) else Success(value)
  }

  /** validate_stock: a negative stock is refused, zero is accepted; an accepted stock is returned unchanged. */
  function ValidateStock(value: int): (r: Result<int, FieldProblem>)
    ensures r.Success? <==> value >= 0
    ensures r.Success? ==> r.value == value
    ensures r.Failure? ==> r.error == StockNegative
  {
    if value < 0 then Failure(StockNegative) else Success(value)
  }
}
