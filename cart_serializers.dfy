/**
 * cart/serializers.py: the line serializers' validators (identical for user and guest lines) and
 * the add-to-cart request serializers.
 */
module CartSerializers {
  import opened Wrappers
  import opened ProductModels

  datatype Problem =
    | FieldMissing        // a required field is absent
    | QuantityNotPositive // min_value=1, or validate_quantity
    | InvalidChoice       // selected_format outside paperback / ebook
    | FormatRequired      // a both-format product without a selected format
    | FormatInvalid       // a both-format product with a format other than paperback / ebook
    | PaperbackOnly       // another format chosen for a paperback-only product
    | EbookOnly           // another format chosen for an ebook-only product
    | NotEnoughStock      // quantity above the product's stock

  /** validate_quantity of the line serializers and of the add serializers. */
  function ValidateQuantity(value: int): (r: Result<int, Problem>)
    ensures r.Success? <==> value > 0
    ensures r.Success? ==> r.value == value
  {
    if value <= 0 then Failure(QuantityNotPositive) else Success(value)
  }

  /**
   * The attrs CartItemSerializer.validate receives: each key may be absent; a None selected format
   * stands for a null or blank one.
   */
  datatype LineAttrs = LineAttrs(product: Option<Product>, quantity: Option<int>, format: Option<Format>)

  /** The format a single-format product forces, and the formats a both-format product accepts. */
  predicate FitsProduct(f: Format, p: Product) {
    if p.format == Both then f == Paperback || f == Ebook else f == p.format
  }

  /**
   * CartItemSerializer.validate / GuestCartItemSerializer.validate. Without a product the attrs pass
   * unchanged. With one, the chosen format must suit it (a both-format product needs paperback or
   * ebook; a single-format product refuses any other non-empty choice and stores its own format),
   * and a non-zero quantity must not exceed the stock.
   */
  function ValidateLine(attrs: LineAttrs): (r: Result<LineAttrs, Problem>)
    ensures attrs.product.None? ==> r == Success(attrs)
    ensures r.Success? ==> r.value == attrs.(format := r.value.format)
    ensures r.Success? && attrs.product.Some? ==>
      r.value.format.Some? && FitsProduct(r.value.format.value, attrs.product.value)
    ensures r.Success? && attrs.product.Some? && attrs.quantity.Some? && attrs.quantity.value != 0 ==>
      attrs.quantity.value <= attrs.product.value.stock
    ensures attrs.product.Some? && attrs.format.Some? && !FitsProduct(attrs.format.value, attrs.product.value) ==>
      r.Failure?
    ensures attrs.product.Some? && attrs.product.value.format == Both && attrs.format.None? ==>
      r == Failure(FormatRequired)
  {
    match attrs.product
    case None => Success(attrs)
    case Some(p) =>
      var chosen :=
        match p.format
        case Both =>
          if attrs.format.None? then Failure(FormatRequired)
          else if attrs.format.value != Paperback && attrs.format.value != Ebook then Failure(FormatInvalid)
          else Success(attrs.format)
        case Paperback =>
          if attrs.format.Some? && attrs.format.value != Paperback then Failure(PaperbackOnly) else Success(Some(Paperback))
        case Ebook =>
          if attrs.format.Some? && attrs.format.value != Ebook then Failure(EbookOnly) else Success(Some(Ebook));
      if chosen.Failure? then Failure(chosen.error)
      else if attrs.quantity.Some? && attrs.quantity.value != 0 && attrs.quantity.value > p.stock then Failure(NotEnoughStock)
      else Success(attrs.(format := chosen.value))
  }

  /** Validation is stable: validated attrs validate to themselves. */
  lemma ValidateLineIdempotent(attrs: LineAttrs)
    requires ValidateLine(attrs).Success?
    ensures ValidateLine(ValidateLine(attrs).value) == ValidateLine(attrs)
  {
  }

  /**
   * The body of an add request (AddToCartSerializer / AddToGuestCartSerializer): absent or non-integer
   * fields are None, and a null selected format is None as well.
   */
  datatype AddRequest = AddRequest(productId: Option<int>, quantity: Option<int>, format: Option<string>)

  /** The validated add request: quantity at least 1 and a format, if any, of paperback or ebook. */
  datatype AddCommand = AddCommand(productId: int, quantity: int, format: Option<Format>)

  /** The selected_format choice field: only the codes "paperback" and "ebook" are accepted. */
  function ParseChoice(code: string): (r: Option<Format>)
    ensures r.Some? <==> code == "paperback" || code == "ebook"
    ensures r.Some? ==> FormatCode(r.value) == code && r.value != Both
  {
    if code == "paperback" then Some(Paperback) else if code == "ebook" then Some(Ebook) else None
  }

  function ValidateAdd(req: AddRequest): (r: Result<AddCommand, Problem>)
    ensures r.Success? <==>
      (req.productId.Some? && req.quantity.Some? && req.quantity.value >= 1 &&
       (req.format.None? || ParseChoice(req.format.value).Some?))
    ensures r.Success? ==> r.value.productId == req.productId.value && r.value.quantity == req.quantity.value
    ensures r.Success? ==> r.value.quantity >= 1 && r.value.format != Some(Both)
    ensures r.Success? && req.format.Some? ==> r.value.format.Some? && FormatCode(r.value.format.value) == req.format.value
    ensures r.Success? && req.format.None? ==> r.value.format.None?
  {
    if req.productId.None? || req.quantity.None? then Failure(FieldMissing)
    else if req.quantity.value < 1 then Failure(QuantityNotPositive)
    else if req.format.Some? && ParseChoice(req.format.value).None? then Failure(InvalidChoice)
    else
      var format := if req.format.Some? then ParseChoice(req.format.value) else None;
      Success(AddCommand(req.productId.value, req.quantity.value, format))
  }
}
