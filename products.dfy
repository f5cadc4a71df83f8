/**
  The product catalogue of assets/js/products.js: the price and brand filter, the name and
  brand search, and the like toggle.

  The renderer keeps the full product list and the list currently shown. The shown list is
  a shallow copy or a filter of the full one, so it holds the very same product objects;
  here it is kept as the positions of those products in the full list, which makes a like
  click on a product visible through the shown list as it is in the browser.
 */
module Catalogue {
  import opened Optional
  import opened Seqs
  import opened Text

  datatype Product = Product(
    id: int, name: string, brand: string, price: real, rating: real, image: string, isLiked: bool)

  /** The criteria filterProducts reads; each may be absent. `{}` is NoFilters. */
  datatype Filters = Filters(minPrice: Option<real>, maxPrice: Option<real>, brand: Option<string>)

  const NoFilters: Filters := Filters(None, None, None)

  /**
    `filters.brand && filters.brand !== 'all'`: an absent or empty brand, or exactly 'all'
    (compared case-sensitively), sets no constraint.
   */
  predicate BrandConstrains(f: Filters) {
    f.brand.Some? && f.brand.value != "" && f.brand.value != "all"
  }

  /** The filter test: no given bound is crossed, and a constraining brand matches ignoring case. */
  predicate Passes(f: Filters, p: Product) {
    && !(f.minPrice.Some? && p.price < f.minPrice.value)
    && !(f.maxPrice.Some? && p.price > f.maxPrice.value)
    && !(BrandConstrains(f) && Lower(p.brand) != Lower(f.brand.value))
  }

  function PassesFilters(f: Filters): Product -> bool {
    (p: Product) => Passes(f, p)
  }

  /** What filterProducts selects: passing products only, and every passing product. */
  function Filtered(products: seq<Product>, f: Filters): (r: seq<Product>)
    ensures |r| <= |products|
    ensures forall k :: 0 <= k < |r| ==> Passes(f, r[k])
    ensures forall j :: 0 <= j < |products| && Passes(f, products[j]) ==> products[j] in r
  {
    var r := Keep(products, PassesFilters(f));
    assert forall k :: 0 <= k < |r| ==> PassesFilters(f)(r[k]);
    assert forall j :: 0 <= j < |products| && Passes(f, products[j]) ==> PassesFilters(f)(products[j]);
    r
  }

  /** The search test: the lower-cased name or brand contains the lower-cased query. */
  predicate Matches(query: string, p: Product) {
    Includes(Lower(p.name), Lower(query)) || Includes(Lower(p.brand), Lower(query))
  }

  function MatchesQuery(query: string): Product -> bool {
    (p: Product) => Matches(query, p)
  }

  /** What searchProducts selects: everything for a blank query, the matching products otherwise. */
  function Searched(products: seq<Product>, query: string): (r: seq<Product>)
    ensures |r| <= |products|
    ensures IsBlank(query) ==> r == products
    ensures !IsBlank(query) ==> forall k :: 0 <= k < |r| ==> Matches(query, r[k])
  {
    if IsBlank(query) then products
    else
      var r := Keep(products, MatchesQuery(query));
      assert forall k :: 0 <= k < |r| ==> MatchesQuery(query)(r[k]);
      r
  }

  /** The positions searchProducts shows: all of them for a blank query, the matching ones otherwise. */
  function SearchedPositions(products: seq<Product>, query: string): seq<nat> {
    if IsBlank(query) then AllIndices(|products|) else KeptIndices(products, MatchesQuery(query))
  }

  function HasProductId(id: int): Product -> bool {
    (p: Product) => p.id == id
  }

  /** handleLikeClick: the first product with the id has its like flipped; only likes change. */
  function ToggledLike(products: seq<Product>, id: int): (r: seq<Product>)
    ensures |r| == |products|
    ensures forall k :: 0 <= k < |r| ==> r[k] == products[k].(isLiked := r[k].isLiked)
    ensures forall k :: 0 <= k < |r| && products[k].id != id ==> r[k] == products[k]
  {
    match First(products, HasProductId(id))
    case Some(i) => products[i := products[i].(isLiked := !products[i].isLiked)]
    case None => products
  }

  /** The ProductRenderer object, without its DOM container. */
  class ProductRenderer {
    var products: seq<Product>
    /** filteredProducts, as positions in `products` of the same product objects. */
    var shown: seq<nat>

    ghost predicate Valid()
      reads this
    {
      forall k :: 0 <= k < |shown| ==> shown[k] < |products|
    }

    ghost function FilteredProducts(): seq<Product>
      reads this
      requires Valid()
    {
      Select(products, shown)
    }

    /** Starts from the whole catalogue, all of it shown. */
    constructor(catalogue: seq<Product>)
      ensures Valid() && products == catalogue && shown == AllIndices(|catalogue|)
      ensures FilteredProducts() == catalogue
    {
      products := catalogue;
      shown := AllIndices(|catalogue|);
      new;
      SelectAll(catalogue);
    }

    method FilterProducts(f: Filters)
      requires Valid()
      modifies this`shown
      ensures Valid() && products == old(products)
      ensures shown == KeptIndices(products, PassesFilters(f))
      ensures FilteredProducts() == Filtered(products, f)
    {
      shown := KeptIndices(products, PassesFilters(f));
      KeepIsSelection(products, PassesFilters(f));
    }

    method SearchProducts(query: string)
      requires Valid()
      modifies this`shown
      ensures Valid() && products == old(products)
      ensures shown == SearchedPositions(products, query)
      ensures FilteredProducts() == Searched(products, query)
      ensures IsBlank(query) ==> FilteredProducts() == products
    {
      if IsBlank(query) {
        shown := AllIndices(|products|);
        SelectAll(products);
      } else {
        shown := KeptIndices(products, MatchesQuery(query));
        KeepIsSelection(products, MatchesQuery(query));
      }
    }

    /**
      A click on a like button: the button's data-product-id text is read with parseInt and
      the like of the product with that id is flipped, in the list both views share. Text
      with no digits reads as NaN, which equals no id, so nothing changes.
     */
    method HandleLikeClick(attribute: string)
      requires Valid()
      modifies this`products
      ensures Valid() && shown == old(shown)
      ensures ParseInt(attribute).Some? ==> products == ToggledLike(old(products), ParseInt(attribute).value)
      ensures ParseInt(attribute).None? ==> products == old(products)
      ensures forall f: Filters :: old(shown) == KeptIndices(old(products), PassesFilters(f)) ==>
                FilteredProducts() == Filtered(products, f)
      ensures forall query: string :: old(shown) == SearchedPositions(old(products), query) ==>
                FilteredProducts() == Searched(products, query)
    {
      var parsed := ParseInt(attribute);
      var id := if parsed.Some? then parsed.value else 0;
      if parsed.Some? {
        var found := FindFirst(products, HasProductId(id));
        if found.Some? {
          var i := found.value;
          products := products[i := products[i].(isLiked := !products[i].isLiked)];
        }
      }
      forall f: Filters | old(shown) == KeptIndices(old(products), PassesFilters(f))
        ensures FilteredProducts() == Filtered(products, f)
      {
        if parsed.Some? {
          LikeSeenThroughFilter(old(products), id, f);
        } else {
          KeepIsSelection(products, PassesFilters(f));
        }
      }
      forall query: string | old(shown) == SearchedPositions(old(products), query)
        ensures FilteredProducts() == Searched(products, query)
      {
        if parsed.Some? {
          LikeSeenThroughSearch(old(products), id, query);
        } else {
          SearchShowsItsPositions(products, query);
        }
      }
    }
  }

  /**
    A shopper filters the catalogue and then likes a product through a rendered button: the
    shown list is still the filter's result, and the product is liked in it.
   */
  method FilterThenLike(r: ProductRenderer, f: Filters, id: int)
    requires r.Valid()
    modifies r
    ensures r.Valid() && r.products == ToggledLike(old(r.products), id)
    ensures r.FilteredProducts() == Filtered(r.products, f)
  {
    r.FilterProducts(f);
    RenderedButtonNamesItsProduct(id);
    r.HandleLikeClick(DecimalString(id));
  }

  // ---- filterProducts ------------------------------------------------------------------

  /** The positions a filter keeps, read back, are the filter's result. */
  lemma FilterShowsItsPositions(products: seq<Product>, f: Filters)
    ensures Select(products, KeptIndices(products, PassesFilters(f))) == Filtered(products, f)
  {
    KeepIsSelection(products, PassesFilters(f));
  }

  /**
    The filter keeps the products in their original order, at exactly the positions whose
    product passes; each kept product is within every given bound, and each dropped one
    crosses a given bound or fails a constraining brand.
   */
  lemma FilterSelectsExactly(products: seq<Product>, f: Filters)
    ensures Filtered(products, f) == Select(products, KeptIndices(products, PassesFilters(f)))
    ensures forall k, l :: 0 <= k < l < |KeptIndices(products, PassesFilters(f))| ==>
              KeptIndices(products, PassesFilters(f))[k] < KeptIndices(products, PassesFilters(f))[l]
    ensures forall i :: 0 <= i < |products| ==> (i in KeptIndices(products, PassesFilters(f)) <==> Passes(f, products[i]))
    ensures forall k :: 0 <= k < |Filtered(products, f)| ==>
              && (f.minPrice.Some? ==> f.minPrice.value <= Filtered(products, f)[k].price)
              && (f.maxPrice.Some? ==> Filtered(products, f)[k].price <= f.maxPrice.value)
    ensures forall i :: 0 <= i < |products| && i !in KeptIndices(products, PassesFilters(f)) ==>
              || (f.minPrice.Some? && products[i].price < f.minPrice.value)
              || (f.maxPrice.Some? && products[i].price > f.maxPrice.value)
              || (BrandConstrains(f) && Lower(products[i].brand) != Lower(f.brand.value))
  {
    KeepIsSelection(products, PassesFilters(f));
    forall k | 0 <= k < |Filtered(products, f)| ensures Passes(f, Filtered(products, f)[k]) {
      assert PassesFilters(f)(Filtered(products, f)[k]);
    }
  }

  /** filterProducts() with the default `{}` keeps every product. */
  lemma NoFiltersKeepsAll(products: seq<Product>)
    ensures Filtered(products, NoFilters) == products
  {
    KeepAll(products, PassesFilters(NoFilters));
  }

  /** A brand of 'all' or '' filters exactly as no brand at all. */
  lemma BrandAllIsNoConstraint(products: seq<Product>, minPrice: Option<real>, maxPrice: Option<real>)
    ensures Filtered(products, Filters(minPrice, maxPrice, Some("all"))) == Filtered(products, Filters(minPrice, maxPrice, None))
    ensures Filtered(products, Filters(minPrice, maxPrice, Some(""))) == Filtered(products, Filters(minPrice, maxPrice, None))
  {
    KeepCongruent(products, PassesFilters(Filters(minPrice, maxPrice, Some("all"))), PassesFilters(Filters(minPrice, maxPrice, None)));
    KeepCongruent(products, PassesFilters(Filters(minPrice, maxPrice, Some(""))), PassesFilters(Filters(minPrice, maxPrice, None)));
  }

  /**
    The brand is compared ignoring case, so a brand and its lower-cased form filter alike,
    unless lower-casing turns it into 'all': 'ALL' is a constraint, 'all' is not.
   */
  lemma BrandIgnoresCase(products: seq<Product>, f: Filters, b: string)
    requires Lower(b) != "all"
    ensures Filtered(products, f.(brand := Some(b))) == Filtered(products, f.(brand := Some(Lower(b))))
  {
    LowerIdempotent(b);
    assert b != "all";
    assert b == "" <==> Lower(b) == "";
    KeepCongruent(products, PassesFilters(f.(brand := Some(b))), PassesFilters(f.(brand := Some(Lower(b)))));
  }

  // ---- searchProducts ------------------------------------------------------------------

  /** The positions a search shows, read back, are the search's result. */
  lemma SearchShowsItsPositions(products: seq<Product>, query: string)
    ensures Select(products, SearchedPositions(products, query)) == Searched(products, query)
  {
    if IsBlank(query) {
      SelectAll(products);
    } else {
      KeepIsSelection(products, MatchesQuery(query));
    }
  }

  /**
    A non-blank query keeps the products in their original order, at exactly the positions
    whose lower-cased name or brand contains the lower-cased query.
   */
  lemma SearchSelectsExactly(products: seq<Product>, query: string)
    requires !IsBlank(query)
    ensures Searched(products, query) == Select(products, KeptIndices(products, MatchesQuery(query)))
    ensures forall k, l :: 0 <= k < l < |KeptIndices(products, MatchesQuery(query))| ==>
              KeptIndices(products, MatchesQuery(query))[k] < KeptIndices(products, MatchesQuery(query))[l]
    ensures forall i :: 0 <= i < |products| ==>
              (i in KeptIndices(products, MatchesQuery(query)) <==>
                 Includes(Lower(products[i].name), Lower(query)) || Includes(Lower(products[i].brand), Lower(query)))
  {
    KeepIsSelection(products, MatchesQuery(query));
  }

  /** Searching ignores the case of the query. */
  lemma SearchIgnoresCase(products: seq<Product>, query: string)
    ensures Searched(products, Lower(query)) == Searched(products, query)
  {
    LowerKeepsBlank(query);
    LowerIdempotent(query);
    KeepCongruent(products, MatchesQuery(Lower(query)), MatchesQuery(query));
  }

  // ---- handleLikeClick -----------------------------------------------------------------

  /** A like click on a listed id flips that product's like and changes nothing else. */
  lemma LikeFlipsOnlyThatProduct(products: seq<Product>, id: int, i: nat)
    requires i < |products| && products[i].id == id
    requires forall j :: 0 <= j < i ==> products[j].id != id
    ensures |ToggledLike(products, id)| == |products|
    ensures ToggledLike(products, id)[i] == products[i].(isLiked := !products[i].isLiked)
    ensures forall j :: 0 <= j < |products| && j != i ==> ToggledLike(products, id)[j] == products[j]
  {
    assert HasProductId(id)(products[i]);
    assert forall j :: 0 <= j < i ==> !HasProductId(id)(products[j]);
  }

  /** An id that is not listed changes nothing. */
  lemma LikeUnknownIdIsNoOp(products: seq<Product>, id: int)
    requires forall j :: 0 <= j < |products| ==> products[j].id != id
    ensures ToggledLike(products, id) == products
  {
    assert forall j :: 0 <= j < |products| ==> !HasProductId(id)(products[j]);
  }

  /** The button rendered for a product carries its id written in decimal, which parseInt reads back. */
  lemma RenderedButtonNamesItsProduct(id: int)
    ensures ParseInt(DecimalString(id)) == Some(id)
  {
    ParseIntDecimal(id, []);
    assert DecimalString(id) + [] == DecimalString(id);
  }

  /** Two like clicks on the same id restore every product. */
  lemma LikeTwiceRestores(products: seq<Product>, id: int)
    ensures ToggledLike(ToggledLike(products, id), id) == products
  {
    var once := ToggledLike(products, id);
    FirstCongruent(once, products, HasProductId(id), HasProductId(id));
  }

  /**
    A like click does not change which positions a filter or a search selects, so after it
    the shown list is still the filter's (or search's) result, showing the flipped like.
   */
  lemma LikeKeepsSelections(products: seq<Product>, id: int, f: Filters, query: string)
    ensures KeptIndices(ToggledLike(products, id), PassesFilters(f)) == KeptIndices(products, PassesFilters(f))
    ensures KeptIndices(ToggledLike(products, id), MatchesQuery(query)) == KeptIndices(products, MatchesQuery(query))
  {
    var liked := ToggledLike(products, id);
    KeptFromCongruent(liked, products, PassesFilters(f), PassesFilters(f), 0);
    KeptFromCongruent(liked, products, MatchesQuery(query), MatchesQuery(query), 0);
  }

  /**
    The products a filter showed before a like click, read from the clicked list, are what the
    same filter selects from it: the flipped like is seen through the shown list.
   */
  lemma LikeSeenThroughFilter(products: seq<Product>, id: int, f: Filters)
    ensures Select(ToggledLike(products, id), KeptIndices(products, PassesFilters(f)))
         == Filtered(ToggledLike(products, id), f)
  {
    var liked := ToggledLike(products, id);
    LikeKeepsSelections(products, id, f, []);
    FilterShowsItsPositions(liked, f);
  }

  /** The same for a search: the positions it showed still show its result after a like click. */
  lemma LikeSeenThroughSearch(products: seq<Product>, id: int, query: string)
    ensures SearchedPositions(products, query) == SearchedPositions(ToggledLike(products, id), query)
    ensures Select(ToggledLike(products, id), SearchedPositions(products, query))
         == Searched(ToggledLike(products, id), query)
  {
    var liked := ToggledLike(products, id);
    LikeKeepsSelections(products, id, NoFilters, query);
    SearchShowsItsPositions(liked, query);
  }
}
