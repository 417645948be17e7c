/**
 * products/views.py: the public catalog lists. `catalog` is the product table in its ordering
 * (newest first); query parameters arrive as optional strings and an empty one filters nothing.
 */
module ProductViews {
  import opened Wrappers
  import opened ProductModels
  import Seqs

  /** A query parameter that is present and non-empty (Python truthiness). */
  predicate Given(param: Option<string>) {
    param.Some? && param.value != ""
  }

  predicate GenreMatches(p: Product, genre: Option<string>) {
    Given(genre) ==> GenreCode(p.genre) == genre.value
  }

  /** ProductListView.get_queryset: an optional genre filter and an optional format filter, in conjunction. */
  function ProductList(catalog: seq<Product>, genre: Option<string>, format: Option<string>): (r: seq<Product>)
    ensures forall p :: p in r <==> p in catalog && GenreMatches(p, genre) && (Given(format) ==> FormatCode(p.format) == format.value)
  {
    var byGenre := if Given(genre) then Seqs.Filter(catalog, (p: Product) => GenreCode(p.genre) == genre.value) else catalog;
    if Given(format) then Seqs.Filter(byGenre, (p: Product) => FormatCode(p.format) == format.value) else byGenre
  }

  /** With no query parameters the list is the whole catalog, in order. */
  lemma UnfilteredListIsCatalog(catalog: seq<Product>, genre: Option<string>, format: Option<string>)
    requires !Given(genre) && !Given(format)
    ensures ProductList(catalog, genre, format) == catalog
  {
  }

  /** A genre parameter naming no genre (such as "fiction") yields an empty list. */
  lemma UnknownGenreListsNothing(catalog: seq<Product>, genre: Option<string>, format: Option<string>)
    requires Given(genre) && forall g: Genre :: GenreCode(g) != genre.value
    ensures ProductList(catalog, genre, format) == []
  {
  }

  /** BookListView.get_queryset: paperback and both-format products, optionally of one genre. */
  function BookList(catalog: seq<Product>, genre: Option<string>): (r: seq<Product>)
    ensures forall p :: p in r <==> p in catalog && (p.format == Paperback || p.format == Both) && GenreMatches(p, genre)
  {
    var books := Seqs.Filter(catalog, (p: Product) => p.format == Paperback || p.format == Both);
    if Given(genre) then Seqs.Filter(books, (p: Product) => GenreCode(p.genre) == genre.value) else books
  }

  /** EbookListView.get_queryset: ebook and both-format products, optionally of one genre. */
  function EbookList(catalog: seq<Product>, genre: Option<string>): (r: seq<Product>)
    ensures forall p :: p in r <==> p in catalog && (p.format == Ebook || p.format == Both) && GenreMatches(p, genre)
  {
    var ebooks := Seqs.Filter(catalog, (p: Product) => p.format == Ebook || p.format == Both);
    if Given(genre) then Seqs.Filter(ebooks, (p: Product) => GenreCode(p.genre) == genre.value) else ebooks
  }

  /**
   * The two format lists split the catalog: a both-format product is listed in each, a single-format
   * product in exactly one, and each list is the general list filtered by the matching format codes.
   */
  lemma FormatListsPartition(catalog: seq<Product>, genre: Option<string>, p: Product)
    requires p in catalog && GenreMatches(p, genre)
    ensures p.format == Both ==> p in BookList(catalog, genre) && p in EbookList(catalog, genre)
    ensures p.format != Both ==> (p in BookList(catalog, genre) <==> p !in EbookList(catalog, genre))
    ensures p in BookList(catalog, genre) <==>
      p in ProductList(catalog, genre, Some("paperback")) || p in ProductList(catalog, genre, Some("both"))
  {
  }
}
