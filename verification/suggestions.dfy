/** `search_suggestions`: up to five matching product names followed by up to
    three matching category names, for queries of at least two characters. */
module Suggestions {
  import Seqs
  import Catalog

  const MinQueryLength: nat := 2
  const MaxProducts: nat := 5
  const MaxCategories: nat := 3
  const MaxSuggestions: nat := 8
  const CategoryLabel: string := "Category: "

  /** `icontains(haystack, needle)`: the database's case-insensitive substring test. */
  type ContainsTest = (string, string) -> bool

  function Min(a: nat, b: nat): nat {
    if a <= b then a else b
  }

  /** A product matches when its name or its description contains the query. */
  predicate ProductMatches(icontains: ContainsTest, q: string, p: Catalog.Product) {
    icontains(p.name, q) || icontains(p.description, q)
  }

  predicate CategoryMatches(icontains: ContainsTest, q: string, c: Catalog.Category) {
    icontains(c.name, q)
  }

  /** The product rows the filter returns, in table order. */
  function MatchingProducts(icontains: ContainsTest, q: string, products: seq<Catalog.Product>): seq<Catalog.Product> {
    Seqs.Filter((p: Catalog.Product) => ProductMatches(icontains, q, p), products)
  }

  function MatchingCategories(icontains: ContainsTest, q: string, categories: seq<Catalog.Category>): seq<Catalog.Category> {
    Seqs.Filter((c: Catalog.Category) => CategoryMatches(icontains, q, c), categories)
  }

  function Names(products: seq<Catalog.Product>): seq<string> {
    Seqs.MapSeq((p: Catalog.Product) => p.name, products)
  }

  function Labels(categories: seq<Catalog.Category>): seq<string> {
    Seqs.MapSeq((c: Catalog.Category) => CategoryLabel + c.name, categories)
  }

  /** The product half: the names of the first five matching products. */
  function ProductPart(icontains: ContainsTest, q: string, products: seq<Catalog.Product>): seq<string> {
    Seqs.Take(Names(MatchingProducts(icontains, q, products)), MaxProducts)
  }

  /** The category half, each name behind the "Category: " label. */
  function CategoryPart(icontains: ContainsTest, q: string, categories: seq<Catalog.Category>): seq<string> {
    Seqs.Take(Labels(MatchingCategories(icontains, q, categories)), MaxCategories)
  }

  /** The `suggestions` list of the response. */
  function Suggestions(products: seq<Catalog.Product>, categories: seq<Catalog.Category>, q: string,
                       icontains: ContainsTest): (r: seq<string>)
    ensures |r| <= MaxSuggestions
    ensures |q| < MinQueryLength ==> r == []
    ensures |q| >= MinQueryLength ==>
              |r| == Min(MaxProducts, |MatchingProducts(icontains, q, products)|)
                     + Min(MaxCategories, |MatchingCategories(icontains, q, categories)|)
  {
    if |q| >= MinQueryLength then
      Seqs.Take(ProductPart(icontains, q, products) + CategoryPart(icontains, q, categories), MaxSuggestions)
    else
      []
  }

  /** The final `[:8]` never removes anything: five products and three categories
      already fit, so the list is exactly the two halves one after the other. */
  lemma SuggestionCapNeverBinds(products: seq<Catalog.Product>, categories: seq<Catalog.Category>, q: string,
                                icontains: ContainsTest)
    requires |q| >= MinQueryLength
    ensures Suggestions(products, categories, q, icontains)
            == ProductPart(icontains, q, products) + CategoryPart(icontains, q, categories)
  {
  }

  /** The first suggestions are names of matching products, in table order: a
      prefix of the names of all matching products. */
  lemma ProductSuggestionsSound(products: seq<Catalog.Product>, categories: seq<Catalog.Category>, q: string,
                                icontains: ContainsTest)
    requires |q| >= MinQueryLength
    ensures var r := Suggestions(products, categories, q, icontains);
            var n := Min(MaxProducts, |MatchingProducts(icontains, q, products)|);
            && r[..n] == Names(MatchingProducts(icontains, q, products))[..n]
            && forall k :: 0 <= k < n ==>
                 exists p :: p in products && ProductMatches(icontains, q, p) && r[k] == p.name
  {
    var matching := MatchingProducts(icontains, q, products);
    var r := Suggestions(products, categories, q, icontains);
    var n := Min(MaxProducts, |matching|);
    SuggestionCapNeverBinds(products, categories, q, icontains);
    forall k | 0 <= k < n
      ensures exists p :: p in products && ProductMatches(icontains, q, p) && r[k] == p.name
    {
      Seqs.FilterMembership((p: Catalog.Product) => ProductMatches(icontains, q, p), products, matching[k]);
      assert r[k] == matching[k].name;
    }
  }

  /** The remaining suggestions are labelled names of matching categories, in table
      order: a prefix of the labels of all matching categories. */
  lemma CategorySuggestionsSound(products: seq<Catalog.Product>, categories: seq<Catalog.Category>, q: string,
                                 icontains: ContainsTest)
    requires |q| >= MinQueryLength
    ensures var r := Suggestions(products, categories, q, icontains);
            var n := Min(MaxProducts, |MatchingProducts(icontains, q, products)|);
            && r[n..] == Labels(MatchingCategories(icontains, q, categories))[..|r| - n]
            && forall k :: n <= k < |r| ==>
                 exists c :: c in categories && CategoryMatches(icontains, q, c) && r[k] == CategoryLabel + c.name
  {
    var matching := MatchingCategories(icontains, q, categories);
    var r := Suggestions(products, categories, q, icontains);
    var n := Min(MaxProducts, |MatchingProducts(icontains, q, products)|);
    SuggestionCapNeverBinds(products, categories, q, icontains);
    forall k | n <= k < |r|
      ensures exists c :: c in categories && CategoryMatches(icontains, q, c) && r[k] == CategoryLabel + c.name
    {
      Seqs.FilterMembership((c: Catalog.Category) => CategoryMatches(icontains, q, c), categories, matching[k - n]);
      assert r[k] == CategoryLabel + matching[k - n].name;
    }
  }

  /** When no more than five products match, every one of them is suggested; when
      no more than three categories match, every one of them is suggested. */
  lemma SuggestionsComplete(products: seq<Catalog.Product>, categories: seq<Catalog.Category>, q: string,
                            icontains: ContainsTest)
    requires |q| >= MinQueryLength
    ensures |MatchingProducts(icontains, q, products)| <= MaxProducts ==>
              forall p :: p in products && ProductMatches(icontains, q, p) ==>
                p.name in Suggestions(products, categories, q, icontains)
    ensures |MatchingCategories(icontains, q, categories)| <= MaxCategories ==>
              forall c :: c in categories && CategoryMatches(icontains, q, c) ==>
                CategoryLabel + c.name in Suggestions(products, categories, q, icontains)
  {
    var mp := MatchingProducts(icontains, q, products);
    var mc := MatchingCategories(icontains, q, categories);
    var r := Suggestions(products, categories, q, icontains);
    SuggestionCapNeverBinds(products, categories, q, icontains);
    if |mp| <= MaxProducts {
      forall p | p in products && ProductMatches(icontains, q, p)
        ensures p.name in r
      {
        Seqs.FilterMembership((p: Catalog.Product) => ProductMatches(icontains, q, p), products, p);
        var k :| 0 <= k < |mp| && mp[k] == p;
        assert r[k] == p.name;
      }
    }
    if |mc| <= MaxCategories {
      forall c | c in categories && CategoryMatches(icontains, q, c)
        ensures CategoryLabel + c.name in r
      {
        Seqs.FilterMembership((c: Catalog.Category) => CategoryMatches(icontains, q, c), categories, c);
        var k :| 0 <= k < |mc| && mc[k] == c;
        assert r[|ProductPart(icontains, q, products)| + k] == CategoryLabel + c.name;
      }
    }
  }

  /** Scanning the first `i` rows finds a prefix of what scanning them all finds. */
  lemma MatchingPrefix(icontains: ContainsTest, q: string, products: seq<Catalog.Product>, i: nat)
    requires i <= |products|
    ensures var all := Names(MatchingProducts(icontains, q, products));
            var some := Names(MatchingProducts(icontains, q, products[..i]));
            |some| <= |all| && all[..|some|] == some
  {
    var pred := (p: Catalog.Product) => ProductMatches(icontains, q, p);
    assert products == products[..i] + products[i..];
    Seqs.FilterAppend(pred, products[..i], products[i..]);
    Seqs.MapAppend((p: Catalog.Product) => p.name, Seqs.Filter(pred, products[..i]), Seqs.Filter(pred, products[i..]));
  }

  lemma CategoryMatchingPrefix(icontains: ContainsTest, q: string, categories: seq<Catalog.Category>, i: nat)
    requires i <= |categories|
    ensures var all := Labels(MatchingCategories(icontains, q, categories));
            var some := Labels(MatchingCategories(icontains, q, categories[..i]));
            |some| <= |all| && all[..|some|] == some
  {
    var pred := (c: Catalog.Category) => CategoryMatches(icontains, q, c);
    assert categories == categories[..i] + categories[i..];
    Seqs.FilterAppend(pred, categories[..i], categories[i..]);
    Seqs.MapAppend((c: Catalog.Category) => CategoryLabel + c.name,
                   Seqs.Filter(pred, categories[..i]), Seqs.Filter(pred, categories[i..]));
  }

  /** The database's evaluation of the sliced product query: scan the table
      in order and stop as soon as five names are found. */
  method CollectProductNames(products: seq<Catalog.Product>, q: string, icontains: ContainsTest)
    returns (names: seq<string>)
    ensures names == ProductPart(icontains, q, products)
  {
    names := [];
    var i := 0;
    while i < |products| && |names| < MaxProducts
      invariant 0 <= i <= |products|
      invariant names == Names(MatchingProducts(icontains, q, products[..i]))
      invariant |names| <= MaxProducts
    {
      Seqs.FilterSnoc((p: Catalog.Product) => ProductMatches(icontains, q, p), products, i);
      Seqs.MapAppend((p: Catalog.Product) => p.name, MatchingProducts(icontains, q, products[..i]),
                     if ProductMatches(icontains, q, products[i]) then [products[i]] else []);
      if ProductMatches(icontains, q, products[i]) {
        names := names + [products[i].name];
      }
      i := i + 1;
    }
    MatchingPrefix(icontains, q, products, i);
    if i == |products| {
      assert products[..i] == products;
    }
  }

  /** The same scan over the categories, stopping after three. */
  method CollectCategoryLabels(categories: seq<Catalog.Category>, q: string, icontains: ContainsTest)
    returns (labels: seq<string>)
    ensures labels == CategoryPart(icontains, q, categories)
  {
    labels := [];
    var j := 0;
    while j < |categories| && |labels| < MaxCategories
      invariant 0 <= j <= |categories|
      invariant labels == Labels(MatchingCategories(icontains, q, categories[..j]))
      invariant |labels| <= MaxCategories
    {
      Seqs.FilterSnoc((c: Catalog.Category) => CategoryMatches(icontains, q, c), categories, j);
      Seqs.MapAppend((c: Catalog.Category) => CategoryLabel + c.name, MatchingCategories(icontains, q, categories[..j]),
                     if CategoryMatches(icontains, q, categories[j]) then [categories[j]] else []);
      if CategoryMatches(icontains, q, categories[j]) {
        labels := labels + [CategoryLabel + categories[j].name];
      }
      j := j + 1;
    }
    CategoryMatchingPrefix(icontains, q, categories, j);
    if j == |categories| {
      assert categories[..j] == categories;
    }
  }

  /** The view body: both scans, then the two halves joined and capped at eight. */
  method CollectSuggestions(products: seq<Catalog.Product>, categories: seq<Catalog.Category>, q: string,
                            icontains: ContainsTest) returns (r: seq<string>)
    ensures r == Suggestions(products, categories, q, icontains)
  {
    if |q| < MinQueryLength {
      return [];
    }
    var names := CollectProductNames(products, q, icontains);
    var labels := CollectCategoryLabels(categories, q, icontains);
    r := Seqs.Take(names + labels, MaxSuggestions);
  }
}
