/** The catalogue page: category, brand and free-text filtering, four sort
    orders, pagination by six, and the page controls. */
module Catalog {
  import Text
  import Seqs
  import opened Products

  const ItemsPerPage: int := 6

  datatype SortOption = ByName | PriceAsc | PriceDesc | ByRating

  // ------------------------------------------------------------ filtering

  predicate InCategory(p: Product, category: string) {
    category == All || p.category == category
  }

  predicate OfBrand(p: Product, brand: string) {
    brand == All || p.brand == brand
  }

  /** Case-insensitive substring match of the query on name or description. */
  predicate MatchesQuery(p: Product, query: string) {
    query == ""
    || Text.Includes(Text.Lower(p.name), Text.Lower(query))
    || Text.Includes(Text.Lower(p.description), Text.Lower(query))
  }

  predicate Matches(p: Product, category: string, brand: string, query: string) {
    InCategory(p, category) && OfBrand(p, brand) && MatchesQuery(p, query)
  }

  function CategoryFilter(category: string): Product -> bool {
    p => InCategory(p, category)
  }

  function BrandFilter(brand: string): Product -> bool {
    p => OfBrand(p, brand)
  }

  function QueryFilter(query: string): Product -> bool {
    p => MatchesQuery(p, query)
  }

  function MatchFilter(category: string, brand: string, query: string): Product -> bool {
    p => Matches(p, category, brand, query)
  }

  /** The category stage of `filteredAndSortedProducts`: applied only when a
      category other than "All" is chosen. */
  function CategoryStage(products: seq<Product>, category: string): seq<Product> {
    if category != All then Seqs.Filter(products, (p: Product) => p.category == category) else products
  }

  function BrandStage(products: seq<Product>, brand: string): seq<Product> {
    if brand != All then Seqs.Filter(products, (p: Product) => p.brand == brand) else products
  }

  function QueryStage(products: seq<Product>, query: string): seq<Product> {
    var q := Text.Lower(query);
    if query != "" then
      Seqs.Filter(products, (p: Product) => Text.Includes(Text.Lower(p.name), q)
                                          || Text.Includes(Text.Lower(p.description), q))
    else products
  }

  lemma CategoryStageFilters(products: seq<Product>, category: string)
    ensures CategoryStage(products, category) == Seqs.Filter(products, CategoryFilter(category))
  {
    if category != All {
      Seqs.FilterExt(products, (p: Product) => p.category == category, CategoryFilter(category));
    } else {
      Seqs.FilterAll(products, CategoryFilter(category));
    }
  }

  lemma BrandStageFilters(products: seq<Product>, brand: string)
    ensures BrandStage(products, brand) == Seqs.Filter(products, BrandFilter(brand))
  {
    if brand != All {
      Seqs.FilterExt(products, (p: Product) => p.brand == brand, BrandFilter(brand));
    } else {
      Seqs.FilterAll(products, BrandFilter(brand));
    }
  }

  lemma QueryStageFilters(products: seq<Product>, query: string)
    ensures QueryStage(products, query) == Seqs.Filter(products, QueryFilter(query))
  {
    var q := Text.Lower(query);
    if query != "" {
      Seqs.FilterExt(products, (p: Product) => Text.Includes(Text.Lower(p.name), q)
                                             || Text.Includes(Text.Lower(p.description), q),
                     QueryFilter(query));
    } else {
      Seqs.FilterAll(products, QueryFilter(query));
    }
  }

  /** The three successive filters of `filteredAndSortedProducts`. The result
      is exactly the products matching all three controls, in their original
      order. */
  function FilterProducts(products: seq<Product>, category: string, brand: string, query: string): (r: seq<Product>)
    ensures r == Seqs.Filter(products, MatchFilter(category, brand, query))
    ensures forall p :: p in r <==> p in products && Matches(p, category, brand, query)
  {
    var r := QueryStage(BrandStage(CategoryStage(products, category), brand), query);
    FilterStagesAgree(products, category, brand, query);
    r
  }

  /** Composing the stage filters gives the single combined filter. */
  lemma FilterStagesAgree(products: seq<Product>, category: string, brand: string, query: string)
    ensures QueryStage(BrandStage(CategoryStage(products, category), brand), query)
            == Seqs.Filter(products, MatchFilter(category, brand, query))
  {
    var cb: Product -> bool := x => InCategory(x, category) && OfBrand(x, brand);
    CategoryStageFilters(products, category);
    var cs := CategoryStage(products, category);
    BrandStageFilters(cs, brand);
    Seqs.FilterConj(products, CategoryFilter(category), BrandFilter(brand), cb);
    var bs := BrandStage(cs, brand);
    QueryStageFilters(bs, query);
    Seqs.FilterConj(products, cb, QueryFilter(query), MatchFilter(category, brand, query));
  }

  // -------------------------------------------------------------- sorting

  /** "a may come before b" for each sort option: the comparator returns a
      value <= 0. Name order is the locale collation `nameLe`. */
  function Precedes(sortBy: SortOption, nameLe: (string, string) -> bool): (Product, Product) -> bool {
    match sortBy
    case PriceAsc => (a: Product, b: Product) => a.price <= b.price
    case PriceDesc => (a: Product, b: Product) => b.price <= a.price
    case ByRating => (a: Product, b: Product) => b.rating <= a.rating
    case ByName => (a: Product, b: Product) => nameLe(a.name, b.name)
  }

  lemma PrecedesIsPreorder(sortBy: SortOption, nameLe: (string, string) -> bool)
    requires Seqs.TotalPreorder(nameLe)
    ensures Seqs.TotalPreorder(Precedes(sortBy, nameLe))
  {
    var le := Precedes(sortBy, nameLe);
    if sortBy == ByName {
      forall a: Product, b: Product, c: Product | le(a, b) && le(b, c) ensures le(a, c) {
        assert nameLe(a.name, b.name) && nameLe(b.name, c.name);
      }
      forall a: Product, b: Product ensures le(a, b) || le(b, a) {
        assert nameLe(a.name, b.name) || nameLe(b.name, a.name);
      }
    }
  }

  /** The filtered and sorted list the page shows. */
  function FilteredAndSorted(products: seq<Product>, category: string, brand: string, query: string,
                             sortBy: SortOption, nameLe: (string, string) -> bool): (r: seq<Product>)
    requires Seqs.TotalPreorder(nameLe)
    ensures multiset(r) == multiset(FilterProducts(products, category, brand, query))
    ensures forall p :: p in r <==> p in products && Matches(p, category, brand, query)
    ensures Seqs.SortedBy(r, Precedes(sortBy, nameLe))
  {
    PrecedesIsPreorder(sortBy, nameLe);
    var filtered := FilterProducts(products, category, brand, query);
    var r := Seqs.Sort(filtered, Precedes(sortBy, nameLe));
    assert forall p :: p in r <==> p in multiset(r);
    assert forall p :: p in filtered <==> p in multiset(filtered);
    r
  }

  // ----------------------------------------------------------- pagination

  function Clamp(x: int, lo: int, hi: int): int
    requires lo <= hi
  {
    if x < lo then lo else if x > hi then hi else x
  }

  /** `Array.prototype.slice(start, end)`: negative bounds count from the end,
      and both are clamped to the list. */
  function JsSlice<T>(s: seq<T>, start: int, end: int): (r: seq<T>)
    ensures 0 <= start <= end ==> r == s[Clamp(start, 0, |s|)..Clamp(end, 0, |s|)]
    ensures |r| <= |s|
  {
    var from := if start < 0 then Clamp(|s| + start, 0, |s|) else Clamp(start, 0, |s|);
    var to := if end < 0 then Clamp(|s| + end, 0, |s|) else Clamp(end, 0, |s|);
    if from < to then s[from..to] else []
  }

  /** The items shown on page `page` (pages are numbered from 1). */
  function PageItems<T>(list: seq<T>, page: int): (r: seq<T>)
    ensures |r| <= ItemsPerPage
    ensures page >= 1 ==> r == list[Clamp((page - 1) * ItemsPerPage, 0, |list|)..Clamp(page * ItemsPerPage, 0, |list|)]
  {
    var start := (page - 1) * ItemsPerPage;
    JsSlice(list, start, start + ItemsPerPage)
  }

  /** `Math.ceil(n / 6)`. */
  function TotalPages(n: nat): (t: nat)
    ensures t == 0 <==> n == 0
    ensures n > 0 ==> ItemsPerPage * (t - 1) < n <= ItemsPerPage * t
  {
    (n + ItemsPerPage - 1) / ItemsPerPage
  }

  /** Pages 1 .. k laid end to end. */
  function FirstPages<T>(list: seq<T>, k: nat): seq<T> {
    if k == 0 then [] else FirstPages(list, k - 1) + PageItems(list, k)
  }

  lemma {:induction false} FirstPagesPrefix<T>(list: seq<T>, k: nat)
    ensures FirstPages(list, k) == list[..Clamp(k * ItemsPerPage, 0, |list|)]
  {
    if k > 0 {
      FirstPagesPrefix(list, k - 1);
      var a := Clamp((k - 1) * ItemsPerPage, 0, |list|);
      var b := Clamp(k * ItemsPerPage, 0, |list|);
      assert list[..a] + list[a..b] == list[..b];
    }
  }

  /** The pages 1 .. TotalPages together show every item exactly once, in order. */
  lemma PagesPartition<T>(list: seq<T>)
    ensures FirstPages(list, TotalPages(|list|)) == list
  {
    FirstPagesPrefix(list, TotalPages(|list|));
  }

  /** The "previous" button: `Math.max(1, p - 1)`. */
  function PreviousPage(page: int): (p: int)
    ensures p >= 1
    ensures page > 1 ==> p == page - 1
  {
    if page - 1 < 1 then 1 else page - 1
  }

  /** The "next" button: `Math.min(totalPages, p + 1)`. */
  function NextPage(page: int, totalPages: int): (p: int)
    ensures p <= totalPages
    ensures page < totalPages ==> p == page + 1
    ensures 1 <= page <= totalPages ==> 1 <= p <= totalPages
  {
    if totalPages < page + 1 then totalPages else page + 1
  }

  /** The catalogue controls. */
  datatype View = View(query: string, category: string, brand: string, sortBy: SortOption, page: int)

  /** Typing in the search box resets the page to 1. */
  function SetQuery(v: View, query: string): (r: View)
    ensures r == v.(query := query, page := 1)
  {
    View(query, v.category, v.brand, v.sortBy, 1)
  }

  /** Choosing a category resets the page to 1. */
  function SetCategory(v: View, category: string): (r: View)
    ensures r == v.(category := category, page := 1)
  {
    View(v.query, category, v.brand, v.sortBy, 1)
  }

  /** Choosing a brand resets the page to 1. */
  function SetBrand(v: View, brand: string): (r: View)
    ensures r == v.(brand := brand, page := 1)
  {
    View(v.query, v.category, brand, v.sortBy, 1)
  }

  /** After any change of search text, category or brand, the list shows its first page. */
  lemma FilterChangeShowsFirstPage<T>(v: View, query: string, category: string, brand: string, list: seq<T>)
    ensures PageItems(list, SetQuery(v, query).page) == list[..Clamp(ItemsPerPage, 0, |list|)]
    ensures PageItems(list, SetCategory(v, category).page) == list[..Clamp(ItemsPerPage, 0, |list|)]
    ensures PageItems(list, SetBrand(v, brand).page) == list[..Clamp(ItemsPerPage, 0, |list|)]
  {
  }
}
