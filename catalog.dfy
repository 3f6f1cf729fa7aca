/**
 * The catalogue page: the category filter (the menu uses plural
 * categories, the database singular ones), the picture of each product
 * card, and the `categorie` query parameter that mirrors the filter.
 */
module ProductsPage {
  import Seqs
  import ColorImages

  datatype CatalogProduct = CatalogProduct(id: string, name: string, category: string, images: map<string, seq<string>>)

  /** The filter value that shows every product. */
  const All := "all"

  /** The menu's plural category as stored in the database. */
  function DbCategory(cat: string): (r: string)
    ensures cat == "chaînes" ==> r == "chaîne"
    ensures cat == "bracelets" ==> r == "bracelet"
    ensures cat == "bagues" ==> r == "bague"
    ensures cat !in {"chaînes", "bracelets", "bagues"} ==> r == cat
  {
    if cat == "chaînes" then "chaîne"
    else if cat == "bracelets" then "bracelet"
    else if cat == "bagues" then "bague"
    else cat
  }

  /** `filtered` */
  function Filtered(products: seq<CatalogProduct>, active: string): (r: seq<CatalogProduct>)
    ensures active == All ==> r == products
    ensures active != All ==> forall i :: 0 <= i < |r| ==> r[i] in products && r[i].category == DbCategory(active)
    ensures active != All ==> forall i :: 0 <= i < |products| && products[i].category == DbCategory(active) ==> products[i] in r
  {
    if active == All then products
    else
      var keep := (p: CatalogProduct) => p.category == DbCategory(active);
      Seqs.FilterKeepsPassing(products, keep);
      Seqs.Filter(products, keep)
  }

  /**
   * Any category filter keeps the products of that category in their
   * original order, each as many times as it was listed, and drops every
   * other product.
   */
  lemma FilterKeepsOrderAndCount(products: seq<CatalogProduct>, active: string, p: CatalogProduct)
    requires active != All
    ensures Seqs.IsSubsequence(Filtered(products, active), products)
    ensures multiset(Filtered(products, active))[p] ==
      if p.category == DbCategory(active) then multiset(products)[p] else 0
  {
    var keep := (q: CatalogProduct) => q.category == DbCategory(active);
    Seqs.FilterIsSubsequence(products, keep);
    Seqs.FilterMultiplicity(products, keep, p);
  }

  /** Choosing the plural or the singular name of a category shows the same products. */
  lemma PluralAndSingularAgree(products: seq<CatalogProduct>)
    ensures Filtered(products, "bagues") == Filtered(products, "bague")
    ensures Filtered(products, "bracelets") == Filtered(products, "bracelet")
    ensures Filtered(products, "chaînes") == Filtered(products, "chaîne")
  {
    var a := (q: CatalogProduct) => q.category == DbCategory("bagues");
    var b := (q: CatalogProduct) => q.category == DbCategory("bague");
    assert forall q :: a(q) == b(q);
    SameFilter(products, a, b);
    var c := (q: CatalogProduct) => q.category == DbCategory("bracelets");
    var d := (q: CatalogProduct) => q.category == DbCategory("bracelet");
    SameFilter(products, c, d);
    var e := (q: CatalogProduct) => q.category == DbCategory("chaînes");
    var f := (q: CatalogProduct) => q.category == DbCategory("chaîne");
    SameFilter(products, e, f);
  }

  lemma {:induction false} SameFilter(products: seq<CatalogProduct>, a: CatalogProduct -> bool, b: CatalogProduct -> bool)
    requires forall q :: a(q) == b(q)
    ensures Seqs.Filter(products, a) == Seqs.Filter(products, b)
    decreases |products|
  {
    if products != [] {
      SameFilter(products[1..], a, b);
    }
  }

  /** `getFirstImage` of the catalogue: the first silver image, then the first gold one, then a silver placeholder. */
  function FirstImage(images: map<string, seq<string>>): (r: ColorImages.Picture)
    ensures "argent" in images && |images["argent"]| > 0 ==> r == ColorImages.Path(ColorImages.ImageDir + images["argent"][0])
    ensures !("argent" in images && |images["argent"]| > 0) && "doré" in images && |images["doré"]| > 0 ==>
      r == ColorImages.Path(ColorImages.ImageDir + images["doré"][0])
    ensures r.Placeholder? <==> !("argent" in images && |images["argent"]| > 0) && !("doré" in images && |images["doré"]| > 0)
    ensures r.Placeholder? ==> r == ColorImages.Placeholder(ColorImages.Silver, "Produit")
  {
    if "argent" in images && |images["argent"]| > 0 then ColorImages.Path(ColorImages.ImageDir + images["argent"][0])
    else if "doré" in images && |images["doré"]| > 0 then ColorImages.Path(ColorImages.ImageDir + images["doré"][0])
    else ColorImages.Placeholder(ColorImages.Silver, "Produit")
  }

  /** The query key that carries the category. */
  const CategoryParam := "categorie"

  /** `searchParams.get("categorie") || "all"` */
  function InitialCategory(params: map<string, string>): string
  {
    if CategoryParam in params && params[CategoryParam] != "" then params[CategoryParam] else All
  }

  /** The search params `handleFilter` sets. */
  function ParamsFor(cat: string): (r: map<string, string>)
    ensures cat == All ==> r == map[]
    ensures cat != All ==> r == map[CategoryParam := cat]
  {
    if cat == All then map[] else map[CategoryParam := cat]
  }

  /** Reloading the page from the params a filter wrote selects the same filter again. */
  lemma ParamsRoundTrip(cat: string)
    requires cat != ""
    ensures InitialCategory(ParamsFor(cat)) == cat
  {
  }

  /** The page's `activeCategory` state and the URL's search params. */
  class CatalogPage {
    var activeCategory: string
    var searchParams: map<string, string>

    constructor(params: map<string, string>)
      ensures activeCategory == InitialCategory(params) && searchParams == params
    {
      activeCategory := InitialCategory(params);
      searchParams := params;
    }

    /** `handleFilter` */
    method HandleFilter(cat: string)
      modifies this
      ensures activeCategory == cat
      ensures searchParams == ParamsFor(cat)
      ensures cat != "" ==> InitialCategory(searchParams) == activeCategory
    {
      activeCategory := cat;
      searchParams := ParamsFor(cat);
      if cat != "" {
        ParamsRoundTrip(cat);
      }
    }
  }
}
