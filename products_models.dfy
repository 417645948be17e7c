/** products/models.py: the catalog entry and its genre and format choices. */
module ProductModels {
  import opened Wrappers
  import UserModels

  type ProductId = nat

  /** Product.GENRE_CHOICES; stored as the codes GenreCode gives. */
  datatype Genre = Romance | Mystery | Thriller | Fantasy | ScienceFiction | YoungAdult | Horror

  /** Product.FORMAT_CHOICES; stored as the codes FormatCode gives. */
  datatype Format = Paperback | Ebook | Both

  function GenreCode(g: Genre): (code: string)
    ensures code != ""
  {
    match g
    case Romance => "romance"
    case Mystery => "mystery"
    case Thriller => "thriller"
    case Fantasy => "fantasy"
    case ScienceFiction => "science-fiction"
    case YoungAdult => "young-adult"
    case Horror => "horror"
  }

  function FormatCode(f: Format): (code: string)
    ensures code != ""
  {
    match f
    case Paperback => "paperback"
    case Ebook => "ebook"
    case Both => "both"
  }

  /** Distinct genres are stored under distinct codes, so filtering by code selects exactly one genre. */
  lemma GenreCodeInjective(a: Genre, b: Genre)
    ensures GenreCode(a) == GenreCode(b) ==> a == b
  {
  }

  lemma FormatCodeInjective(a: Format, b: Format)
    ensures FormatCode(a) == FormatCode(b) ==> a == b
  {
  }

  /**
   * A catalog row. Prices are integer grosze (the column has two decimal places); stock is a plain
   * integer with no storage-level lower bound. The row's position in the table stands for its
   * creation order, so `created_at` is not carried.
   */
  datatype Product = Product(
    company: Option<UserModels.CompanyId>,
    title: string,
    author: string,
    genre: Genre,
    format: Format,
    description: string,
    price: int,
    stock: int,
    imageUrl: Option<string>,
    publicationYear: Option<int>,
    publisher: Option<string>,
    isbn: Option<string>,
    pageCount: Option<int>)

  /** A product created with only its required fields takes the column defaults. */
  function NewProduct(title: string, author: string, description: string, price: int): (p: Product)
    ensures p.genre == Fantasy && p.format == Paperback && p.stock == 0
    ensures p.company.None? && p.isbn.None? && p.imageUrl.None?
    ensures p.title == title && p.author == author && p.description == description && p.price == price
  {
    Product(None, title, author, Fantasy, Paperback, description, price, 0, None, None, None, None, None)
  }

  /** Product.is_in_stock. */
  predicate IsInStock(p: Product) {
    p.stock > 0
  }

  /** The unique constraint on isbn: two distinct rows never share a present isbn. */
  ghost predicate IsbnUnique(products: map<ProductId, Product>) {
    forall a, b :: a in products && b in products && a != b && products[a].isbn.Some? ==>
      products[a].isbn != products[b].isbn
  }
}
