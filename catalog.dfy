/** The product catalog page: the category filter and the choice between the
    product grid and the "No products found" message. */
module Catalog {
  import opened Seqs
  import opened Sheets

  /** The filter button that shows every product; it is also the initial filter. */
  const AllCategories: string := "All"

  /** `p.category === filter`: an exact, case-sensitive comparison; a product
      without a category never equals a filter. */
  function InCategory(filter: string): Row -> bool
  {
    (p: Row) => "category" in p && p["category"] == filter
  }

  /** `filteredProducts` */
  function FilteredProducts(products: seq<Row>, filter: string): (r: seq<Row>)
    ensures filter == AllCategories ==> r == products
    ensures filter != AllCategories ==>
              forall p :: p in r <==> p in products && "category" in p && p["category"] == filter
    ensures filter != AllCategories ==>
              forall p :: multiset(r)[p] == if InCategory(filter)(p) then multiset(products)[p] else 0
    ensures IsSubsequence(r, products)
  {
    if filter == AllCategories then
      SubsequenceRefl(products);
      products
    else
      Filter(products, InCategory(filter))
  }

  /** What the product area shows. */
  datatype Grid = NoProductsMessage(category: string) | Cards(cards: seq<Row>)

  /** One card per filtered product, or the message naming the filter when there
      is none. */
  function CatalogGrid(products: seq<Row>, filter: string): (g: Grid)
    ensures g.Cards? ==> |g.cards| > 0 && g.cards == FilteredProducts(products, filter)
    ensures g.NoProductsMessage? ==> g.category == filter && FilteredProducts(products, filter) == []
  {
    var shown := FilteredProducts(products, filter);
    if |shown| > 0 then Cards(shown) else NoProductsMessage(filter)
  }

  /** The message appears exactly when no product is in the chosen category (for
      "All": exactly when there are no products at all). */
  lemma {:induction false} EmptyMessageIff(products: seq<Row>, filter: string)
    ensures CatalogGrid(products, filter).NoProductsMessage? <==>
              if filter == AllCategories then products == []
              else forall p :: p in products ==> !("category" in p && p["category"] == filter)
  {
    var shown := FilteredProducts(products, filter);
    if filter != AllCategories && shown != [] {
      assert shown[0] in shown;
    }
  }
}
