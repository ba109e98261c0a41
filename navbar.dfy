/** The universal search of the navigation bar: a case-insensitive substring
    filter over the project and product rows, projects first, tagged with the
    page they open and cut to six entries, and the small state (`query`,
    `results`, `isSearching`) its handlers keep. */
module Navbar {
  import opened Seqs
  import opened Text
  import opened Sheets

  /** The dropdown never lists more than this many results. */
  const MaxResults: nat := 6

  const ProjectTag: string := "PROJECT"
  const ProjectPath: string := "/projects"
  const ProductTag: string := "PRODUCT"
  const ProductPath: string := "/catalog"

  /** `row[key] && row[key].toLowerCase().includes(lowerText)`: an absent or empty
      field never matches. */
  predicate FieldIncludes(row: Row, key: string, lowerText: string)
  {
    Has(row, key) && Contains(ToLower(row[key]), lowerText)
  }

  /** A project matches on its name or its location. */
  function ProjectMatches(lowerText: string): Row -> bool
  {
    (p: Row) => FieldIncludes(p, "name", lowerText) || FieldIncludes(p, "location", lowerText)
  }

  /** A product matches on its name or its category. */
  function ProductMatches(lowerText: string): Row -> bool
  {
    (p: Row) => FieldIncludes(p, "name", lowerText) || FieldIncludes(p, "category", lowerText)
  }

  /** `{ ...p, type: kind, path: path }` */
  function Tagged(row: Row, kind: string, path: string): (r: Row)
    ensures "type" in r && r["type"] == kind
    ensures "path" in r && r["path"] == path
    ensures r.Keys == row.Keys + {"type", "path"}
    ensures forall k :: k in row && k != "type" && k != "path" ==> r[k] == row[k]
  {
    row["type" := kind]["path" := path]
  }

  function TagAll(rows: seq<Row>, kind: string, path: string): (r: seq<Row>)
    ensures |r| == |rows|
    ensures forall i :: 0 <= i < |rows| ==> r[i] == Tagged(rows[i], kind, path)
  {
    seq(|rows|, i requires 0 <= i < |rows| => Tagged(rows[i], kind, path))
  }

  /** `matchingProjects`: the matching projects in their order, each tagged. */
  function MatchingProjects(projects: seq<Row>, lowerText: string): (r: seq<Row>)
    ensures |r| == |Filter(projects, ProjectMatches(lowerText))|
    ensures forall i :: 0 <= i < |r| ==>
              r[i] == Tagged(Filter(projects, ProjectMatches(lowerText))[i], ProjectTag, ProjectPath)
  {
    TagAll(Filter(projects, ProjectMatches(lowerText)), ProjectTag, ProjectPath)
  }

  /** `matchingProducts`: the matching products in their order, each tagged. */
  function MatchingProducts(products: seq<Row>, lowerText: string): (r: seq<Row>)
    ensures |r| == |Filter(products, ProductMatches(lowerText))|
    ensures forall i :: 0 <= i < |r| ==>
              r[i] == Tagged(Filter(products, ProductMatches(lowerText))[i], ProductTag, ProductPath)
  {
    TagAll(Filter(products, ProductMatches(lowerText)), ProductTag, ProductPath)
  }

  /** Tagging the selection of `rows` by `matches` lists the tagged form of exactly
      the rows that match. */
  lemma TagAllSelects(rows: seq<Row>, matches: Row -> bool, kind: string, path: string)
    ensures forall p :: p in rows && matches(p) ==> Tagged(p, kind, path) in TagAll(Filter(rows, matches), kind, path)
    ensures forall x :: x in TagAll(Filter(rows, matches), kind, path) ==>
              exists p :: p in rows && matches(p) && x == Tagged(p, kind, path)
  {
    var found := Filter(rows, matches);
    var r := TagAll(found, kind, path);
    forall p | p in rows && matches(p)
      ensures Tagged(p, kind, path) in r
    {
      var k := FirstIndex(found, p);
      assert r[k] == Tagged(p, kind, path);
    }
    forall x | x in r
      ensures exists p :: p in rows && matches(p) && x == Tagged(p, kind, path)
    {
      var i :| 0 <= i < |r| && r[i] == x;
      assert found[i] in found;
    }
  }

  /** A project is among the matches exactly when its name or location includes
      the lower-cased text. */
  lemma MatchingProjectsSelect(projects: seq<Row>, lowerText: string)
    ensures forall p :: p in projects && ProjectMatches(lowerText)(p) ==>
              Tagged(p, ProjectTag, ProjectPath) in MatchingProjects(projects, lowerText)
    ensures forall x :: x in MatchingProjects(projects, lowerText) ==>
              exists p :: p in projects && x == Tagged(p, ProjectTag, ProjectPath)
                          && (FieldIncludes(p, "name", lowerText) || FieldIncludes(p, "location", lowerText))
  {
    TagAllSelects(projects, ProjectMatches(lowerText), ProjectTag, ProjectPath);
  }

  /** A product is among the matches exactly when its name or category includes
      the lower-cased text. */
  lemma MatchingProductsSelect(products: seq<Row>, lowerText: string)
    ensures forall p :: p in products && ProductMatches(lowerText)(p) ==>
              Tagged(p, ProductTag, ProductPath) in MatchingProducts(products, lowerText)
    ensures forall x :: x in MatchingProducts(products, lowerText) ==>
              exists p :: p in products && x == Tagged(p, ProductTag, ProductPath)
                          && (FieldIncludes(p, "name", lowerText) || FieldIncludes(p, "category", lowerText))
  {
    TagAllSelects(products, ProductMatches(lowerText), ProductTag, ProductPath);
  }

  /** `[...matchingProjects, ...matchingProducts].slice(0, 6)` for the typed text. */
  function SearchResults(text: string, projects: seq<Row>, products: seq<Row>): (r: seq<Row>)
    ensures |r| <= MaxResults
    ensures r <= MatchingProjects(projects, ToLower(text)) + MatchingProducts(products, ToLower(text))
    ensures |r| == if |MatchingProjects(projects, ToLower(text)) + MatchingProducts(products, ToLower(text))| <= MaxResults
                   then |MatchingProjects(projects, ToLower(text)) + MatchingProducts(products, ToLower(text))|
                   else MaxResults
  {
    var lowerText := ToLower(text);
    Take(MatchingProjects(projects, lowerText) + MatchingProducts(products, lowerText), MaxResults)
  }

  /** Every result is a tagged project or a tagged product, and the result opens
      the page of its kind. */
  predicate IsTaggedResult(row: Row)
  {
    "type" in row && "path" in row
    && ((row["type"] == ProjectTag && row["path"] == ProjectPath)
        || (row["type"] == ProductTag && row["path"] == ProductPath))
  }

  /** The layout of the result list: the matching projects come first, then the
      matching products, each group in its source order. */
  lemma SearchLayout(text: string, projects: seq<Row>, products: seq<Row>)
    ensures forall i :: 0 <= i < |SearchResults(text, projects, products)| && i < |Filter(projects, ProjectMatches(ToLower(text)))| ==>
              SearchResults(text, projects, products)[i]
              == Tagged(Filter(projects, ProjectMatches(ToLower(text)))[i], ProjectTag, ProjectPath)
    ensures forall i :: |Filter(projects, ProjectMatches(ToLower(text)))| <= i < |SearchResults(text, projects, products)| ==>
              SearchResults(text, projects, products)[i]
              == Tagged(Filter(products, ProductMatches(ToLower(text)))[i - |Filter(projects, ProjectMatches(ToLower(text)))|],
                        ProductTag, ProductPath)
  {
    var lowerText := ToLower(text);
    TakeConcat(MatchingProjects(projects, lowerText), MatchingProducts(products, lowerText), MaxResults);
  }

  /** Every result is a tagged project or product, and a result is a project
      exactly when it lies before the end of the project group. */
  lemma SearchKinds(text: string, projects: seq<Row>, products: seq<Row>)
    ensures var r := SearchResults(text, projects, products);
            var ps := Filter(projects, ProjectMatches(ToLower(text)));
            (forall i :: 0 <= i < |r| ==> IsTaggedResult(r[i]))
            && (forall i :: 0 <= i < |r| ==> (r[i]["type"] == ProjectTag <==> i < |ps|))
  {
    SearchLayout(text, projects, products);
    var r := SearchResults(text, projects, products);
    var ps := Filter(projects, ProjectMatches(ToLower(text)));
    var ds := Filter(products, ProductMatches(ToLower(text)));
    forall i | 0 <= i < |r|
      ensures IsTaggedResult(r[i]) && (r[i]["type"] == ProjectTag <==> i < |ps|)
    {
      if i < |ps| {
        assert r[i] == Tagged(ps[i], ProjectTag, ProjectPath);
      } else {
        assert r[i] == Tagged(ds[i - |ps|], ProductTag, ProductPath);
      }
    }
  }

  /** Every result is tagged with its kind and its page. */
  lemma SearchResultsTagged(text: string, projects: seq<Row>, products: seq<Row>)
    ensures forall x :: x in SearchResults(text, projects, products) ==> IsTaggedResult(x)
  {
    SearchKinds(text, projects, products);
  }

  /** The search ignores the case of the typed text. */
  lemma SearchIgnoresCase(text: string, projects: seq<Row>, products: seq<Row>)
    ensures SearchResults(ToLower(text), projects, products) == SearchResults(text, projects, products)
  {
    ToLowerFixes(text);
  }

  /** The search box with its dropdown. */
  class SearchBar {
    var query: string
    var results: seq<Row>
    var isSearching: bool
    var allProjects: seq<Row>
    var allProducts: seq<Row>

    /** The dropdown is only ever open for a non-empty query, an empty query has
        no results, and the results are at most six tagged rows. */
    predicate Valid()
      reads this
    {
      (isSearching ==> query != "")
      && (query == "" ==> results == [])
      && |results| <= MaxResults
      && (forall x :: x in results ==> IsTaggedResult(x))
    }

    /** The dropdown is drawn when the search is open and has results; in a
        valid state it then lists between one and six results for a non-empty
        query. */
    function DropdownShown(): (shown: bool)
      reads this
      ensures shown && Valid() ==> query != "" && 0 < |results| <= MaxResults
    {
      isSearching && |results| > 0
    }

    constructor ()
      ensures Valid()
      ensures query == "" && results == [] && !isSearching
      ensures allProjects == [] && allProducts == []
    {
      query := "";
      results := [];
      isSearching := false;
      allProjects := [];
      allProducts := [];
    }

    /** The loading effect has stored the rows of the two sheets. */
    method SetData(projects: seq<Row>, products: seq<Row>)
      requires Valid()
      modifies this
      ensures Valid()
      ensures allProjects == projects && allProducts == products
      ensures query == old(query) && results == old(results) && isSearching == old(isSearching)
    {
      allProjects := projects;
      allProducts := products;
    }

    /** `handleSearch`: the typed text becomes the query; a non-empty one opens the
        dropdown with the combined, truncated matches, an empty one closes it. */
    method HandleSearch(text: string)
      requires Valid()
      modifies this
      ensures Valid()
      ensures query == text
      ensures isSearching <==> text != ""
      ensures results == if text == "" then [] else SearchResults(text, allProjects, allProducts)
      ensures DropdownShown() <==> text != "" && SearchResults(text, allProjects, allProducts) != []
      ensures allProjects == old(allProjects) && allProducts == old(allProducts)
    {
      query := text;
      if |text| > 0 {
        isSearching := true;
        SearchResultsTagged(text, allProjects, allProducts);
        results := SearchResults(text, allProjects, allProducts);
      } else {
        isSearching := false;
        results := [];
      }
    }

    /** `clearSearch`: empty query, no results, dropdown closed. */
    method ClearSearch()
      requires Valid()
      modifies this
      ensures Valid()
      ensures query == "" && results == [] && !isSearching
      ensures !DropdownShown()
      ensures allProjects == old(allProjects) && allProducts == old(allProducts)
    {
      query := "";
      results := [];
      isSearching := false;
    }

    /** The input regains focus: the dropdown reopens when there is a query. */
    method Focus()
      requires Valid()
      modifies this
      ensures Valid()
      ensures isSearching == (old(isSearching) || query != "")
      ensures DropdownShown() <==> query != "" && results != []
      ensures query == old(query) && results == old(results)
      ensures allProjects == old(allProjects) && allProducts == old(allProducts)
    {
      if |query| > 0 {
        isSearching := true;
      }
    }

    /** A mouse press outside the search box closes the dropdown, keeping the query
        and the results. */
    method ClickOutside()
      requires Valid()
      modifies this
      ensures Valid()
      ensures !isSearching && !DropdownShown()
      ensures query == old(query) && results == old(results)
      ensures allProjects == old(allProjects) && allProducts == old(allProducts)
    {
      isSearching := false;
    }

    /** `handleResultClick`: the search is cleared and the page of the item's kind
        is opened. */
    method ResultClick(item: Row) returns (path: string)
      requires Valid() && item in results
      modifies this
      ensures Valid()
      ensures path == item["path"]
      ensures path == ProjectPath || path == ProductPath
      ensures query == "" && results == [] && !isSearching
      ensures allProjects == old(allProjects) && allProducts == old(allProducts)
    {
      ClearSearch();
      path := item["path"];
    }
  }
}
