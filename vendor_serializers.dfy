/**
 * products/vendor_serializers.py: VendorProductSerializer. Request values arrive as JSON strings,
 * integers or null under string keys; each writable field cleans its value as its DRF field class
 * does (CharField, URLField, IntegerField, ChoiceField, with the model's null/blank/max_length
 * options), field errors are reported together, and the object-level validate() then refuses a
 * changed title, author or price.
 */
module VendorSerializers {
  import opened Wrappers
  import opened Text
  import opened ProductModels

  /** A JSON request value (booleans and floats are not modelled). */
  datatype Value = Str(s: string) | Int(n: int) | Null

  /** Request data: values under the keys the client sent. */
  type Data = map<string, Value>

  /** The fields of Meta.fields. */
  datatype Field =
    | IdField | VendorCompanyField | VendorCompanyNameField | TitleField | AuthorField | GenreField
    | FormatField | DescriptionField | PriceField | StockField | ImageUrlField | PublicationYearField
    | PublisherField | IsbnField | PageCountField | CreatedAtField

  /** Validated attrs: cleaned values by field. */
  type Attrs = map<Field, Value>

  /** The request key of each field. */
  function Name(f: Field): (key: string)
    ensures key != ""
  {
    match f
    case IdField => "id"
    case VendorCompanyField => "vendor_company"
    case VendorCompanyNameField => "vendor_company_name"
    case TitleField => "title"
    case AuthorField => "author"
    case GenreField => "genre"
    case FormatField => "format"
    case DescriptionField => "description"
    case PriceField => "price"
    case StockField => "stock"
    case ImageUrlField => "image_url"
    case PublicationYearField => "publication_year"
    case PublisherField => "publisher"
    case IsbnField => "isbn"
    case PageCountField => "page_count"
    case CreatedAtField => "created_at"
  }

  /** Meta.read_only_fields, and the read-only vendor_company_name: input under these keys is ignored. */
  predicate ReadOnly(f: Field) {
    f in {IdField, VendorCompanyField, VendorCompanyNameField, TitleField, AuthorField, PriceField, CreatedAtField}
  }

  /** The fields validate() protects, in the order it checks them. */
  const ProtectedFields: seq<Field> := [TitleField, AuthorField, PriceField]

  // ---- field cleaning ----

  /** str(data), as a CharField takes a string or an integer; None for null. */
  function AsText(v: Value): (t: Option<string>)
    ensures t.None? <==> v.Null?
  {
    match v
    case Str(s) => Some(s)
    case Int(n) => Some(Show(n))
    case Null => None
  }

  predicate Fits(s: string, maxLength: Option<nat>) {
    maxLength.None? || |s| <= maxLength.value
  }

  /**
   * A CharField: null passes only when allowed; a value blank after stripping is "" when blank is
   * allowed and refused otherwise; any other value is stripped, then checked against max_length
   * and the field's extra validator `valid`.
   */
  function CleanChar(v: Value, allowNull: bool, allowBlank: bool, maxLength: Option<nat>, valid: string -> bool): (r: Option<Value>)
    ensures v.Null? ==> (r.Some? <==> allowNull) && (r.Some? ==> r.value == Null)
    ensures v.Str? && Strip(v.s) == "" ==> (r.Some? <==> allowBlank) && (r.Some? ==> r.value == Str(""))
    ensures v.Str? && Strip(v.s) != "" ==>
      (r.Some? <==> Fits(Strip(v.s), maxLength) && valid(Strip(v.s))) && (r.Some? ==> r.value == Str(Strip(v.s)))
    ensures v.Int? ==> (r.Some? <==> Fits(Show(v.n), maxLength) && valid(Show(v.n))) && (r.Some? ==> r.value == Str(Show(v.n)))
    ensures r.Some? ==> r.value.Null? || r.value.Str?
  {
    match AsText(v)
    case None => if allowNull then Some(Null) else None
    case Some(t) =>
      StripOfTrimmed(Show(if v.Int? then v.n else 0));
      var c := Strip(t);
      if c == "" then (if allowBlank then Some(Str("")) else None)
      else if Fits(c, maxLength) && valid(c) then Some(Str(c))
      else None
  }

  /** An IntegerField: an integer passes; a string passes when int() parses it; null only when allowed. */
  function CleanInt(v: Value, allowNull: bool): (r: Option<Value>)
    ensures v.Null? ==> (r.Some? <==> allowNull) && (r.Some? ==> r.value == Null)
    ensures v.Int? ==> r == Some(v)
    ensures v.Str? ==> (r.Some? <==> |v.s| <= 1000 && ParseInt(v.s).Some?)
    ensures v.Str? && r.Some? ==> r.value == Int(ParseInt(v.s).value)
  {
    match v
    case Null => if allowNull then Some(Null) else None
    case Int(_) => Some(v)
    case Str(s) =>
      if |s| > 1000 then None
      else match ParseInt(s)
        case None => None
        case Some(n) => Some(Int(n))
  }

  /** The genre stored under a code, if any. */
  function GenreOf(code: string): (g: Option<Genre>)
    ensures g.Some? ==> GenreCode(g.value) == code
    ensures forall x: Genre :: GenreCode(x) == code ==> g == Some(x)
  {
    if code == "romance" then Some(Romance)
    else if code == "mystery" then Some(Mystery)
    else if code == "thriller" then Some(Thriller)
    else if code == "fantasy" then Some(Fantasy)
    else if code == "science-fiction" then Some(ScienceFiction)
    else if code == "young-adult" then Some(YoungAdult)
    else if code == "horror" then Some(Horror)
    else None
  }

  /** The format stored under a code, if any. */
  function FormatOf(code: string): (f: Option<Format>)
    ensures f.Some? ==> FormatCode(f.value) == code
    ensures forall x: Format :: FormatCode(x) == code ==> f == Some(x)
  {
    if code == "paperback" then Some(Paperback)
    else if code == "ebook" then Some(Ebook)
    else if code == "both" then Some(Both)
    else None
  }

  /** The shape a cleaned value of each writable field has. */
  predicate Cleaned(f: Field, v: Value) {
    match f
    case GenreField => v.Str? && GenreOf(v.s).Some?
    case FormatField => v.Str? && FormatOf(v.s).Some?
    case DescriptionField => v.Str?
    case StockField => v.Int?
    case PageCountField => v.Int? || v.Null?
    case PublicationYearField => v.Int? || v.Null?
    case _ => v.Str? || v.Null?
  }

  /**
   * The field class each writable column gets: genre and format are choice fields over the stored
   * codes (exact match, no stripping, no null); description a required TextField; stock a non-null
   * integer; page_count and publication_year nullable integers; image_url a nullable, blankable
   * URLField of at most 500 characters; publisher a nullable, blankable CharField of at most 255;
   * isbn a nullable, blankable CharField of at most 13 whose value no other product may have.
   * `isUrl` is the URL syntax validator; `taken` holds the isbns of the other products.
   */
  function CleanField(f: Field, v: Value, isUrl: string -> bool, taken: set<string>): (r: Option<Value>)
    requires !ReadOnly(f)
    ensures r.Some? ==> Cleaned(f, r.value)
    ensures f == GenreField ==> (r.Some? <==> v.Str? && GenreOf(v.s).Some?) && (r.Some? ==> r.value == v)
    ensures f == FormatField ==> (r.Some? <==> v.Str? && FormatOf(v.s).Some?) && (r.Some? ==> r.value == v)
    ensures f == StockField ==> r == CleanInt(v, false)
    ensures f == PageCountField || f == PublicationYearField ==> r == CleanInt(v, true)
    ensures f == DescriptionField ==> r == CleanChar(v, false, false, None, s => true)
    ensures f == ImageUrlField ==> r == CleanChar(v, true, true, Some(500), isUrl)
    ensures f == PublisherField ==> r == CleanChar(v, true, true, Some(255), s => true)
    ensures f == IsbnField ==> r == CleanChar(v, true, true, Some(13), s => s !in taken)
  {
    match f
    case GenreField => if v.Str? && GenreOf(v.s).Some? then Some(v) else None
    case FormatField => if v.Str? && FormatOf(v.s).Some? then Some(v) else None
    case StockField => CleanInt(v, false)
    case PageCountField => CleanInt(v, true)
    case PublicationYearField => CleanInt(v, true)
    case DescriptionField => CleanChar(v, false, false, None, s => true)
    case ImageUrlField => CleanChar(v, true, true, Some(500), isUrl)
    case PublisherField => CleanChar(v, true, true, Some(255), s => true)
    case IsbnField => CleanChar(v, true, true, Some(13), s => s !in taken)
  }

  /** Every writable field the data gives has a value its field accepts. */
  predicate FieldsClean(data: Data, isUrl: string -> bool, taken: set<string>) {
    forall f :: !ReadOnly(f) && Name(f) in data ==> CleanField(f, data[Name(f)], isUrl, taken).Some?
  }

  /**
   * The writable fields that fail: a given one whose value its field refuses, and on a full
   * (non-partial) update the one required field, description, when it is missing. Unknown and
   * read-only keys are ignored.
   */
  function FieldErrors(data: Data, partial: bool, isUrl: string -> bool, taken: set<string>): (errors: set<Field>)
    ensures forall f :: f in errors <==> (!ReadOnly(f) &&
      (if Name(f) in data then CleanField(f, data[Name(f)], isUrl, taken).None? else !partial && f == DescriptionField))
    ensures errors == {} <==> FieldsClean(data, isUrl, taken) && (partial || Name(DescriptionField) in data)
  {
    var errors := set f: Field | !ReadOnly(f) &&
      (if Name(f) in data then CleanField(f, data[Name(f)], isUrl, taken).None? else !partial && f == DescriptionField);
    assert !partial && Name(DescriptionField) !in data ==> DescriptionField in errors;
    errors
  }

  /** The validated attrs: the cleaned value of every writable field the data gives. */
  function CleanedAttrs(data: Data, isUrl: string -> bool, taken: set<string>): (attrs: Attrs)
    requires FieldsClean(data, isUrl, taken)
    ensures forall f :: f in attrs <==> !ReadOnly(f) && Name(f) in data
    ensures forall f :: f in attrs ==> Cleaned(f, attrs[f]) && Some(attrs[f]) == CleanField(f, data[Name(f)], isUrl, taken)
  {
    map f: Field | !ReadOnly(f) && Name(f) in data :: CleanField(f, data[Name(f)], isUrl, taken).value
  }

  // ---- VendorProductSerializer.validate ----

  /** The request value a stored optional text column reads back as. */
  function TextValue(o: Option<string>): Value {
    if o.Some? then Str(o.value) else Null
  }

  /** The request value a stored optional integer column reads back as. */
  function IntValue(o: Option<int>): Value {
    if o.Some? then Int(o.value) else Null
  }

  /**
   * getattr(instance, field) as a request value: choices as their codes, prices as integer
   * grosze, a missing optional column as null. id, vendor_company_name and created_at are not
   * columns of the product model here and read as null.
   */
  function Stored(p: Product, f: Field): Value {
    match f
    case TitleField => Str(p.title)
    case AuthorField => Str(p.author)
    case PriceField => Int(p.price)
    case GenreField => Str(GenreCode(p.genre))
    case FormatField => Str(FormatCode(p.format))
    case DescriptionField => Str(p.description)
    case StockField => Int(p.stock)
    case ImageUrlField => TextValue(p.imageUrl)
    case PublisherField => TextValue(p.publisher)
    case IsbnField => TextValue(p.isbn)
    case PageCountField => IntValue(p.pageCount)
    case PublicationYearField => IntValue(p.publicationYear)
    case VendorCompanyField => IntValue(p.company)
    case _ => Null
  }

  /** The attrs give this field with a value other than the stored one. */
  predicate Changed(p: Product, attrs: Attrs, f: Field) {
    f in attrs && attrs[f] != Stored(p, f)
  }

  /** The first of `fields` the attrs change. */
  function FirstChanged(p: Product, attrs: Attrs, fields: seq<Field>): (r: Option<nat>)
    ensures r.Some? ==> r.value < |fields| && Changed(p, attrs, fields[r.value])
    ensures r.Some? ==> forall j :: 0 <= j < r.value ==> !Changed(p, attrs, fields[j])
    ensures r.None? <==> forall j :: 0 <= j < |fields| ==> !Changed(p, attrs, fields[j])
  {
    if fields == [] then None
    else if Changed(p, attrs, fields[0]) then Some(0)
    else
      var rest := FirstChanged(p, attrs, fields[1..]);
      if rest.None? then None else Some(rest.value + 1)
  }

  /**
   * validate(): on an update, the first protected field (title, author, price, in that order)
   * given with a value other than the stored one is refused, naming that field; with no instance
   * nothing is checked. The attrs are returned unchanged.
   */
  function Validate(instance: Option<Product>, attrs: Attrs): (r: Result<Attrs, Field>)
    ensures instance.None? ==> r == Success(attrs)
    ensures r.Success? ==> r.value == attrs
    ensures r.Success? <==> instance.None? || forall f :: f in ProtectedFields ==> !Changed(instance.value, attrs, f)
    ensures r.Failure? ==> r.error in ProtectedFields && Changed(instance.value, attrs, r.error)
    ensures r.Failure? && r.error != TitleField ==> !Changed(instance.value, attrs, TitleField)
    ensures r == Failure(PriceField) ==> !Changed(instance.value, attrs, AuthorField)
  {
    match instance
    case None => Success(attrs)
    case Some(p) =>
      match FirstChanged(p, attrs, ProtectedFields)
      case None => Success(attrs)
      case Some(i) =>
        assert i == 2 ==> !Changed(p, attrs, ProtectedFields[1]);
        Failure(ProtectedFields[i])
  }

  /**
   * Attrs built by field cleaning never hold a read-only field, and title, author and price are
   * read-only: so the protected-field check never refuses anything the serializer produced.
   */
  lemma ProtectedCheckUnreachable(p: Product, data: Data, isUrl: string -> bool, taken: set<string>)
    requires FieldsClean(data, isUrl, taken)
    ensures Validate(Some(p), CleanedAttrs(data, isUrl, taken)).Success?
  {
    var attrs := CleanedAttrs(data, isUrl, taken);
    forall f | f in ProtectedFields ensures !Changed(p, attrs, f) {
      assert ReadOnly(f);
    }
  }

  // ---- is_valid() and save() ----

  /** Why is_valid() failed: field errors, or validate() naming a protected field. */
  datatype Problem = FieldProblems(fields: set<Field>) | ProtectedField(field: Field)

  /** is_valid(): field cleaning first; validate() runs only on attrs every field passed. */
  function RunValidation(instance: Option<Product>, data: Data, partial: bool, isUrl: string -> bool, taken: set<string>): (r: Result<Attrs, Problem>)
    ensures r.Failure? && r.error.FieldProblems? <==> FieldErrors(data, partial, isUrl, taken) != {}
    ensures r.Failure? && r.error.FieldProblems? ==> r.error.fields == FieldErrors(data, partial, isUrl, taken)
    ensures r.Success? ==> FieldsClean(data, isUrl, taken) && r.value == CleanedAttrs(data, isUrl, taken)
  {
    var errors := FieldErrors(data, partial, isUrl, taken);
    if errors != {} then Failure(FieldProblems(errors))
    else
      match Validate(instance, CleanedAttrs(data, isUrl, taken))
      case Success(a) => Success(a)
      case Failure(f) => Failure(ProtectedField(f))
  }

  /** Validation succeeds exactly when no field fails: the protected check never refuses. */
  lemma RunValidationOnlyFieldProblems(instance: Option<Product>, data: Data, partial: bool, isUrl: string -> bool, taken: set<string>)
    ensures RunValidation(instance, data, partial, isUrl, taken).Success? <==> FieldErrors(data, partial, isUrl, taken) == {}
  {
    if FieldErrors(data, partial, isUrl, taken) == {} && instance.Some? {
      ProtectedCheckUnreachable(instance.value, data, isUrl, taken);
    }
  }

  function TextOrNone(v: Value): Option<string> {
    if v.Str? then Some(v.s) else None
  }

  function IntOrNone(v: Value): Option<int> {
    if v.Int? then Some(v.n) else None
  }

  /** Attrs that only hold cleaned values of writable fields. */
  predicate Saveable(attrs: Attrs) {
    forall f :: f in attrs ==> !ReadOnly(f) && Cleaned(f, attrs[f])
  }

  /**
   * save() on an update: every writable field the attrs give takes its cleaned value (null as
   * None); every other column keeps its stored value.
   */
  function Apply(p: Product, attrs: Attrs): (q: Product)
    requires Saveable(attrs)
    ensures q.company == p.company && q.title == p.title && q.author == p.author && q.price == p.price
    ensures GenreField in attrs ==> GenreCode(q.genre) == attrs[GenreField].s
    ensures FormatField in attrs ==> FormatCode(q.format) == attrs[FormatField].s
    ensures DescriptionField in attrs ==> q.description == attrs[DescriptionField].s
    ensures StockField in attrs ==> q.stock == attrs[StockField].n
    ensures ImageUrlField in attrs ==> q.imageUrl == TextOrNone(attrs[ImageUrlField])
    ensures PublisherField in attrs ==> q.publisher == TextOrNone(attrs[PublisherField])
    ensures IsbnField in attrs ==> q.isbn == TextOrNone(attrs[IsbnField])
    ensures PageCountField in attrs ==> q.pageCount == IntOrNone(attrs[PageCountField])
    ensures PublicationYearField in attrs ==> q.publicationYear == IntOrNone(attrs[PublicationYearField])
    ensures GenreField !in attrs ==> q.genre == p.genre
    ensures FormatField !in attrs ==> q.format == p.format
    ensures DescriptionField !in attrs ==> q.description == p.description
    ensures StockField !in attrs ==> q.stock == p.stock
    ensures ImageUrlField !in attrs ==> q.imageUrl == p.imageUrl
    ensures PublisherField !in attrs ==> q.publisher == p.publisher
    ensures IsbnField !in attrs ==> q.isbn == p.isbn
    ensures PageCountField !in attrs ==> q.pageCount == p.pageCount
    ensures PublicationYearField !in attrs ==> q.publicationYear == p.publicationYear
  {
    assert GenreField in attrs ==> Cleaned(GenreField, attrs[GenreField]);
    assert FormatField in attrs ==> Cleaned(FormatField, attrs[FormatField]);
    assert DescriptionField in attrs ==> Cleaned(DescriptionField, attrs[DescriptionField]);
    assert StockField in attrs ==> Cleaned(StockField, attrs[StockField]);
    p.(
      genre := if GenreField in attrs then GenreOf(attrs[GenreField].s).value else p.genre,
      format := if FormatField in attrs then FormatOf(attrs[FormatField].s).value else p.format,
      description := if DescriptionField in attrs then attrs[DescriptionField].s else p.description,
      stock := if StockField in attrs then attrs[StockField].n else p.stock,
      imageUrl := if ImageUrlField in attrs then TextOrNone(attrs[ImageUrlField]) else p.imageUrl,
      publisher := if PublisherField in attrs then TextOrNone(attrs[PublisherField]) else p.publisher,
      isbn := if IsbnField in attrs then TextOrNone(attrs[IsbnField]) else p.isbn,
      pageCount := if PageCountField in attrs then IntOrNone(attrs[PageCountField]) else p.pageCount,
      publicationYear := if PublicationYearField in attrs then IntOrNone(attrs[PublicationYearField]) else p.publicationYear)
  }

  /** Cleaned attrs can be saved. */
  lemma CleanedAttrsSaveable(data: Data, isUrl: string -> bool, taken: set<string>)
    requires FieldsClean(data, isUrl, taken)
    ensures Saveable(CleanedAttrs(data, isUrl, taken))
  {
  }

  /** After a save, every field the attrs gave reads back as the value it was given. */
  lemma ApplyStoresAttrs(p: Product, attrs: Attrs)
    requires Saveable(attrs)
    ensures forall f :: f in attrs ==> Stored(Apply(p, attrs), f) == attrs[f]
  {
    var q := Apply(p, attrs);
    forall f | f in attrs ensures Stored(q, f) == attrs[f] {
      assert Cleaned(f, attrs[f]);
    }
  }
}
