/**
 * The product catalog of server/routes/productRoutes.js: the `/search`
 * handler (filters built from the query string, one of six sort orders,
 * skip/limit pagination and the matching count), the lookups by id, by slug
 * and by category, the distinct-category listing, and the records that
 * `/addproduct` and `/update/:id` write.
 */
module Catalog {
  import opened Base

  datatype Product = Product(
    id: ProductId,
    name: string,
    slug: string,
    image: string,
    brand: string,
    description: string,
    price: real,
    countInStock: int,
    rating: real,
    numReviews: int,
    category: string,
    featured: int,   // sort attribute of `order=featured`
    createAt: int)   // sort attribute of `order=newest`

  /** The request body of `/addproduct` and `/update/:id`: every mutable field but the slug. */
  datatype ProductFields = ProductFields(
    name: string,
    image: string,
    brand: string,
    description: string,
    price: real,
    countInStock: int,
    rating: real,
    numReviews: int,
    category: string)

  /** The product `/addproduct` stores: the slug is derived from the name by `toSlug`. */
  function NewProduct(id: ProductId, f: ProductFields, toSlug: string -> string, featured: int, createAt: int): (p: Product)
    ensures p.id == id && p.slug == toSlug(f.name) && FieldsOf(p) == f
  {
    Product(id, f.name, toSlug(f.name), f.image, f.brand, f.description, f.price,
            f.countInStock, f.rating, f.numReviews, f.category, featured, createAt)
  }

  /** The product `/update/:id` saves: all ten mutable fields replaced, identity and sort attributes kept. */
  function Updated(p: Product, f: ProductFields, toSlug: string -> string): (u: Product)
    ensures u.id == p.id && u.featured == p.featured && u.createAt == p.createAt
    ensures u.slug == toSlug(f.name) && FieldsOf(u) == f
  {
    p.(name := f.name, slug := toSlug(f.name), image := f.image, brand := f.brand,
       description := f.description, price := f.price, countInStock := f.countInStock,
       rating := f.rating, numReviews := f.numReviews, category := f.category)
  }

  function FieldsOf(p: Product): ProductFields
  {
    ProductFields(p.name, p.image, p.brand, p.description, p.price, p.countInStock,
                  p.rating, p.numReviews, p.category)
  }

  // ---------------------------------------------------------------------------
  // Query string and filters
  // ---------------------------------------------------------------------------

  /**
   * The query string of `/search`. A missing parameter and an empty one are
   * both the empty string; `page` and `pageSize` are None when missing or empty.
   */
  datatype SearchQuery = SearchQuery(
    query: string,
    category: string,
    brand: string,
    price: string,
    rating: string,
    order: string,
    page: Option<int>,
    pageSize: Option<int>)

  /** The outcome of JavaScript's `Number(...)` on a query fragment. */
  datatype JsNumber = NaN | Num(n: nat)

  /**
   * The filter the handler spreads into one Mongo query. Each dimension is
   * None when its parameter is empty or "all"; the price dimension holds the
   * `$gte` and `$lte` bounds, the rating dimension the `$gte` bound.
   */
  datatype Filter = Filter(
    name: Option<string>,
    category: Option<string>,
    price: Option<(JsNumber, JsNumber)>,
    rating: Option<JsNumber>)

  const PAGE_SIZE: nat := 3

  /** A parameter takes part in the query unless it is empty or the sentinel "all". */
  predicate Active(v: string)
  {
    v != "" && v != "all"
  }

  predicate IsDigit(c: char)
  {
    '0' <= c <= '9'
  }

  predicate AllDigits(s: string)
  {
    forall i :: 0 <= i < |s| ==> IsDigit(s[i])
  }

  /** The decimal value of a digit string. */
  function DigitsValue(s: string): nat
    requires AllDigits(s)
  {
    if s == [] then 0
    else DigitsValue(s[..|s| - 1]) * 10 + (s[|s| - 1] as int - '0' as int)
  }

  /**
   * `Number(v)` for the values the handler passes: `undefined` (None) is NaN,
   * the empty string is 0, a decimal digit string is its value, anything else
   * is NaN.
   */
  function ToNumber(v: Option<string>): (r: JsNumber)
    ensures v == Some("") ==> r == Num(0)
    ensures v.None? ==> r == NaN
    ensures v.Some? ==> (r.Num? <==> AllDigits(v.value))
    ensures v.Some? && AllDigits(v.value) ==> r == Num(DigitsValue(v.value))
  {
    match v
    case None => NaN
    case Some(s) => if AllDigits(s) then Num(DigitsValue(s)) else NaN
  }

  /** `parts.join(sep)`, the inverse of `Split`. */
  function Join(parts: seq<string>, sep: char): string
    requires |parts| >= 1
  {
    if |parts| == 1 then parts[0] else parts[0] + [sep] + Join(parts[1..], sep)
  }

  /**
   * `s.split(sep)`: the pieces between the separators, always at least one;
   * no piece holds the separator, and joining them again gives back `s`.
   */
  function Split(s: string, sep: char): (parts: seq<string>)
    ensures |parts| >= 1
    ensures forall i :: 0 <= i < |parts| ==> sep !in parts[i]
    ensures Join(parts, sep) == s
  {
    if s == [] then [""]
    else if s[0] == sep then
      var rest := Split(s[1..], sep);
      assert ([""] + rest)[1..] == rest;
      assert s == [sep] + s[1..];
      [""] + rest
    else
      var rest := Split(s[1..], sep);
      var r := [[s[0]] + rest[0]] + rest[1..];
      assert r[1..] == rest[1..];
      assert s == [s[0]] + s[1..];
      assert Join(r, sep) == [s[0]] + Join(rest, sep);
      r
  }

  /** `parts[i]`, which is `undefined` past the end. */
  function Piece(parts: seq<string>, i: nat): (r: Option<string>)
    ensures r.Some? <==> i < |parts|
    ensures r.Some? ==> r.value == parts[i]
  {
    if i < |parts| then Some(parts[i]) else None
  }

  function Lower(c: char): char
  {
    if 'A' <= c <= 'Z' then (c as int - 'A' as int + 'a' as int) as char else c
  }

  function LowerString(s: string): (r: string)
    ensures |r| == |s|
  {
    seq(|s|, i requires 0 <= i < |s| => Lower(s[i]))
  }

  /** `t` occurs in `s` starting at position `i`. */
  predicate OccursAt(s: string, t: string, i: nat)
  {
    i + |t| <= |s| && s[i..i + |t|] == t
  }

  /** `t` occurs in `s` at some position. */
  predicate Contains(s: string, t: string)
  {
    exists i | 0 <= i <= |s| :: OccursAt(s, t, i)
  }

  /** The filter objects of the handler, one per dimension, built from the query string. */
  function BuildFilter(q: SearchQuery): (f: Filter)
    ensures f.name.Some? <==> Active(q.query)
    ensures f.category.Some? <==> Active(q.category)
    ensures f.price.Some? <==> Active(q.price)
    ensures f.rating.Some? <==> Active(q.rating)
  {
    var parts := Split(q.price, '-');
    Filter(
      if Active(q.query) then Some(q.query) else None,
      if Active(q.category) then Some(q.category) else None,
      if Active(q.price) then Some((ToNumber(Piece(parts, 0)), ToNumber(Piece(parts, 1)))) else None,
      if Active(q.rating) then Some(ToNumber(Some(q.rating))) else None)
  }

  /** `$gte`: a NaN bound admits nothing. */
  predicate AtLeast(x: real, b: JsNumber)
  {
    b.Num? && x >= b.n as real
  }

  /** `$lte`: a NaN bound admits nothing. */
  predicate AtMost(x: real, b: JsNumber)
  {
    b.Num? && x <= b.n as real
  }

  /**
   * The merged Mongo query: every present dimension must hold. The empty
   * query matches everything; a NaN bound or a different category rules a
   * product out.
   */
  predicate Matches(p: Product, f: Filter)
    ensures f == Filter(None, None, None, None) ==> Matches(p, f)
    ensures f.price.Some? && (f.price.value.0.NaN? || f.price.value.1.NaN?) ==> !Matches(p, f)
    ensures f.rating.Some? && f.rating.value.NaN? ==> !Matches(p, f)
    ensures f.category.Some? && p.category != f.category.value ==> !Matches(p, f)
  {
    && (f.name.Some? ==> Contains(LowerString(p.name), LowerString(f.name.value)))
    && (f.category.Some? ==> p.category == f.category.value)
    && (f.price.Some? ==> AtLeast(p.price, f.price.value.0) && AtMost(p.price, f.price.value.1))
    && (f.rating.Some? ==> AtLeast(p.rating, f.rating.value))
  }

  /** `Product.find(filter)`: the matching products, in store order. */
  function Select(ps: seq<Product>, f: Filter): (r: seq<Product>)
    ensures |r| <= |ps|
    ensures forall p :: p in r <==> p in ps && Matches(p, f)
  {
    if ps == [] then []
    else if Matches(ps[0], f) then [ps[0]] + Select(ps[1..], f)
    else Select(ps[1..], f)
  }

  /**
   * The selection keeps every stored copy of a matching product and nothing
   * else, so its length, the handler's `countProducts`, is the number of
   * matching products.
   */
  lemma {:induction false} SelectMultiplicity(ps: seq<Product>, f: Filter)
    ensures forall p :: multiset(Select(ps, f))[p] == if Matches(p, f) then multiset(ps)[p] else 0
  {
    if ps != [] {
      SelectMultiplicity(ps[1..], f);
      assert ps == [ps[0]] + ps[1..];
    }
  }

  // ---------------------------------------------------------------------------
  // Sorting
  // ---------------------------------------------------------------------------

  datatype SortKey = Featured | Lowest | Highest | TopRated | Newest | NewestId

  /** The `order` parameter to the sort object; anything unrecognised sorts by `_id: -1`. */
  function SortKeyOf(order: string): (k: SortKey)
    ensures order == "featured" ==> k == Featured
    ensures order == "lowest" ==> k == Lowest
    ensures order == "highest" ==> k == Highest
    ensures order == "toprated" ==> k == TopRated
    ensures order == "newest" ==> k == Newest
    ensures k == NewestId <==>
      order !in {"featured", "lowest", "highest", "toprated", "newest"}
  {
    if order == "featured" then Featured
    else if order == "lowest" then Lowest
    else if order == "highest" then Highest
    else if order == "toprated" then TopRated
    else if order == "newest" then Newest
    else NewestId
  }

  /** Position of a product under a sort key: smaller ranks come first. */
  function Rank(p: Product, k: SortKey): real
  {
    match k
    case Featured => -(p.featured as real)
    case Lowest => p.price
    case Highest => -p.price
    case TopRated => -p.rating
    case Newest => -(p.createAt as real)
    case NewestId => -(p.id as real)
  }

  predicate SortedBy(s: seq<Product>, k: SortKey)
  {
    forall i, j :: 0 <= i < j < |s| ==> Rank(s[i], k) <= Rank(s[j], k)
  }

  /** What each sort key promises about neighbours in the result. */
  lemma SortKeyMeaning(s: seq<Product>, k: SortKey)
    requires SortedBy(s, k)
    ensures k == Lowest ==> forall i, j :: 0 <= i < j < |s| ==> s[i].price <= s[j].price
    ensures k == Highest ==> forall i, j :: 0 <= i < j < |s| ==> s[i].price >= s[j].price
    ensures k == TopRated ==> forall i, j :: 0 <= i < j < |s| ==> s[i].rating >= s[j].rating
    ensures k == Newest ==> forall i, j :: 0 <= i < j < |s| ==> s[i].createAt >= s[j].createAt
    ensures k == Featured ==> forall i, j :: 0 <= i < j < |s| ==> s[i].featured >= s[j].featured
    ensures k == NewestId ==> forall i, j :: 0 <= i < j < |s| ==> s[i].id >= s[j].id
  {
  }

  /** Inserts `x` into a sorted sequence before the first element that ranks no earlier. */
  function Insert(x: Product, s: seq<Product>, k: SortKey): (r: seq<Product>)
    requires SortedBy(s, k)
    ensures SortedBy(r, k)
    ensures multiset(r) == multiset(s) + multiset{x}
  {
    if s == [] then [x]
    else if Rank(x, k) <= Rank(s[0], k) then [x] + s
    else
      var t := Insert(x, s[1..], k);
      assert s == [s[0]] + s[1..];
      forall j | 0 <= j < |t| ensures Rank(s[0], k) <= Rank(t[j], k) {
        assert t[j] in multiset(t);
        assert t[j] == x || t[j] in s[1..];
      }
      ConsSorted(s[0], t, k);
      [s[0]] + t
  }

  /** Putting an element that ranks no later than all of a sorted sequence in front keeps it sorted. */
  lemma ConsSorted(a: Product, t: seq<Product>, k: SortKey)
    requires SortedBy(t, k)
    requires forall j :: 0 <= j < |t| ==> Rank(a, k) <= Rank(t[j], k)
    ensures SortedBy([a] + t, k)
  {
    forall i, j | 0 <= i < j < |[a] + t| ensures Rank(([a] + t)[i], k) <= Rank(([a] + t)[j], k) {
      assert ([a] + t)[j] == t[j - 1];
      if i > 0 {
        assert ([a] + t)[i] == t[i - 1];
      }
    }
  }

  /** The `.sort(sortOrder)` step: a permutation of its input ordered by the key. */
  function Sort(s: seq<Product>, k: SortKey): (r: seq<Product>)
    ensures SortedBy(r, k)
    ensures multiset(r) == multiset(s)
  {
    if s == [] then []
    else
      assert s == [s[0]] + s[1..];
      Insert(s[0], Sort(s[1..], k), k)
  }

  // ---------------------------------------------------------------------------
  // Pagination and the search handler
  // ---------------------------------------------------------------------------

  function Min(a: int, b: int): int
  {
    if a <= b then a else b
  }

  /** `.skip(size * (page - 1)).limit(size)` on a sorted result. */
  function Window<T>(s: seq<T>, size: nat, page: nat): (r: seq<T>)
    requires size >= 1 && page >= 1
    ensures |r| <= size
    ensures size * (page - 1) >= |s| ==> r == []
    ensures size * (page - 1) < |s| ==> |r| == Min(size, |s| - size * (page - 1))
    ensures forall i :: 0 <= i < |r| ==> size * (page - 1) + i < |s| && r[i] == s[size * (page - 1) + i]
  {
    var lo := Min(size * (page - 1), |s|);
    var hi := Min(size * (page - 1) + size, |s|);
    s[lo..hi]
  }

  /** `Math.ceil(n / d)` for a positive divisor. */
  function CeilDiv(n: nat, d: nat): (r: nat)
    requires d >= 1
    ensures r * d >= n
    ensures r * d < n + d
  {
    var r := (n + d - 1) / d;
    assert r * d + (n + d - 1) % d == n + d - 1;
    r
  }

  datatype SearchResult = SearchResult(products: seq<Product>, countProducts: nat, page: nat, pages: nat)

  /** `query.pageSize || PAGE_SIZE`. */
  function PageSizeOf(q: SearchQuery): (n: int)
    ensures q.pageSize.None? ==> n == PAGE_SIZE
    ensures q.pageSize.Some? ==> n == q.pageSize.value
  {
    match q.pageSize
    case None => PAGE_SIZE
    case Some(n) => n
  }

  /** `query.page || 1`. */
  function PageOf(q: SearchQuery): (n: int)
    ensures q.page.None? ==> n == 1
    ensures q.page.Some? ==> n == q.page.value
  {
    match q.page
    case None => 1
    case Some(n) => n
  }

  /**
   * The schema casts every bound of a Number field: a NaN price or rating
   * bound is rejected before the query runs.
   */
  predicate Castable(f: Filter)
  {
    && (f.price.Some? ==> f.price.value.0.Num? && f.price.value.1.Num?)
    && (f.rating.Some? ==> f.rating.value.Num?)
  }

  /**
   * The `/search` handler: the page of the sorted matching products, the count
   * of every matching product, the page number and the number of pages. A
   * bound that is not a number fails the query with a cast error.
   */
  function Search(ps: seq<Product>, q: SearchQuery): (r: Result<SearchResult>)
    ensures r.Err? <==> !Castable(BuildFilter(q)) || PageSizeOf(q) < 1 || PageOf(q) < 1
    ensures !Castable(BuildFilter(q)) ==> r == Err(CastError)
    ensures Castable(BuildFilter(q)) && r.Err? ==> r.error == InvalidArgument
    ensures Active(q.price) && |Split(q.price, '-')| < 2 ==> r == Err(CastError)
    ensures r.Ok? ==> r.value.page == PageOf(q)
    ensures r.Ok? ==> r.value.countProducts == |Select(ps, BuildFilter(q))|
    ensures r.Ok? ==>
      r.value.products == Window(Sort(Select(ps, BuildFilter(q)), SortKeyOf(q.order)), PageSizeOf(q), PageOf(q))
    ensures r.Ok? ==> r.value.pages * PageSizeOf(q) >= r.value.countProducts
    ensures r.Ok? ==> r.value.pages * PageSizeOf(q) < r.value.countProducts + PageSizeOf(q)
  {
    var size, page := PageSizeOf(q), PageOf(q);
    if !Castable(BuildFilter(q)) then Err(CastError)
    else if size < 1 || page < 1 then Err(InvalidArgument)
    else
      var matching := Select(ps, BuildFilter(q));
      var sorted := Sort(matching, SortKeyOf(q.order));
      Ok(SearchResult(Window(sorted, size, page), |matching|, page, CeilDiv(|matching|, size)))
  }

  lemma WindowOfSorted(s: seq<Product>, size: nat, page: nat, k: SortKey)
    requires size >= 1 && page >= 1 && SortedBy(s, k)
    ensures SortedBy(Window(s, size, page), k)
    ensures forall p :: p in Window(s, size, page) ==> p in s
  {
    var w := Window(s, size, page);
    forall i, j | 0 <= i < j < |w|
      ensures Rank(w[i], k) <= Rank(w[j], k)
    {
      assert w[i] == s[size * (page - 1) + i];
      assert w[j] == s[size * (page - 1) + j];
    }
    forall p | p in w ensures p in s {
      var i :| 0 <= i < |w| && w[i] == p;
      assert w[i] == s[size * (page - 1) + i];
    }
  }

  /**
   * A page holds at most `pageSize` products, each of them a stored product
   * that passes the filter, in the order the sort key asks for.
   */
  lemma SearchPageShape(ps: seq<Product>, q: SearchQuery)
    requires Search(ps, q).Ok?
    ensures var r := Search(ps, q).value;
      && |r.products| <= PageSizeOf(q)
      && SortedBy(r.products, SortKeyOf(q.order))
      && forall p :: p in r.products ==> p in ps && Matches(p, BuildFilter(q))
  {
    var matching := Select(ps, BuildFilter(q));
    var sorted := Sort(matching, SortKeyOf(q.order));
    WindowOfSorted(sorted, PageSizeOf(q), PageOf(q), SortKeyOf(q.order));
    forall p | p in sorted ensures p in matching {
      assert p in multiset(sorted);
    }
  }

  // ---------------------------------------------------------------------------
  // Properties of the search
  // ---------------------------------------------------------------------------

  /** A product passes the merged query exactly when it passes every active parameter. */
  lemma FilterSemantics(p: Product, q: SearchQuery)
    ensures Matches(p, BuildFilter(q)) <==>
      && (Active(q.query) ==> Contains(LowerString(p.name), LowerString(q.query)))
      && (Active(q.category) ==> p.category == q.category)
      && (Active(q.price) ==>
            var parts := Split(q.price, '-');
            AtLeast(p.price, ToNumber(Piece(parts, 0))) && AtMost(p.price, ToNumber(Piece(parts, 1))))
      && (Active(q.rating) ==> AtLeast(p.rating, ToNumber(Some(q.rating))))
  {
  }

  /** With every filter parameter empty or "all", the search selects the whole catalog. */
  lemma {:induction false} NoFilterSelectsAll(ps: seq<Product>, q: SearchQuery)
    requires !Active(q.query) && !Active(q.category) && !Active(q.price) && !Active(q.rating)
    ensures Select(ps, BuildFilter(q)) == ps
  {
    if ps != [] {
      NoFilterSelectsAll(ps[1..], q);
      assert ps == [ps[0]] + ps[1..];
    }
  }

  lemma {:induction false} SplitNoSeparator(a: string, sep: char)
    requires sep !in a
    ensures Split(a, sep) == [a]
  {
    if a != [] {
      SplitNoSeparator(a[1..], sep);
      assert [a[0]] + a[1..] == a;
    }
  }

  lemma {:induction false} SplitAtSeparator(a: string, b: string, sep: char)
    requires sep !in a
    ensures Split(a + [sep] + b, sep) == [a] + Split(b, sep)
  {
    if a == [] {
      assert a + [sep] + b == [sep] + b;
      assert ([sep] + b)[1..] == b;
    } else {
      assert (a + [sep] + b)[1..] == a[1..] + [sep] + b;
      SplitAtSeparator(a[1..], b, sep);
      assert [a[0]] + a[1..] == a;
    }
  }

  /**
   * For `price = "<min>-<max>"` with two digit strings, the price filter is the
   * inclusive range between the values of the two halves.
   */
  lemma PriceRangeHalves(p: Product, q: SearchQuery, lo: string, hi: string)
    requires AllDigits(lo) && AllDigits(hi)
    requires q.price == lo + "-" + hi
    ensures BuildFilter(q).price == Some((Num(DigitsValue(lo)), Num(DigitsValue(hi))))
    ensures Active(q.price)
    ensures BuildFilter(q).price.Some? ==>
      (AtLeast(p.price, BuildFilter(q).price.value.0) && AtMost(p.price, BuildFilter(q).price.value.1)
       <==> DigitsValue(lo) as real <= p.price <= DigitsValue(hi) as real)
  {
    assert forall i :: 0 <= i < |lo| ==> lo[i] != '-';
    assert forall i :: 0 <= i < |hi| ==> hi[i] != '-';
    SplitAtSeparator(lo, hi, '-');
    SplitNoSeparator(hi, '-');
    assert lo + "-" + hi == lo + ['-'] + hi;
    assert q.price != "all" by {
      if lo == "" {
        assert q.price[0] == '-';
      } else {
        assert q.price[0] == lo[0];
        assert IsDigit(lo[0]);
      }
    }
  }

  /** The pages 1..k of a sorted result, concatenated. */
  function Pages<T>(s: seq<T>, size: nat, k: nat): seq<T>
    requires size >= 1
  {
    if k == 0 then [] else Pages(s, size, k - 1) + Window(s, size, k)
  }

  lemma {:induction false} PagesPrefix<T>(s: seq<T>, size: nat, k: nat)
    requires size >= 1
    ensures Pages(s, size, k) == s[..Min(k * size, |s|)]
  {
    if k > 0 {
      PagesPrefix(s, size, k - 1);
      var lo := Min(size * (k - 1), |s|);
      var hi := Min(size * (k - 1) + size, |s|);
      assert (k - 1) * size == size * (k - 1);
      assert k * size == size * (k - 1) + size;
      assert s[..lo] + s[lo..hi] == s[..hi];
    }
  }

  /** Pages 1 to `pages` together list the sorted matches exactly once, in order. */
  lemma PagesCoverResult(ps: seq<Product>, q: SearchQuery)
    requires Search(ps, q).Ok?
    ensures
      var sorted := Sort(Select(ps, BuildFilter(q)), SortKeyOf(q.order));
      Pages(sorted, PageSizeOf(q), Search(ps, q).value.pages) == sorted
  {
    var sorted := Sort(Select(ps, BuildFilter(q)), SortKeyOf(q.order));
    var r := Search(ps, q).value;
    PagesPrefix(sorted, PageSizeOf(q), r.pages);
    assert |sorted| == r.countProducts by {
      assert |multiset(sorted)| == |multiset(Select(ps, BuildFilter(q)))|;
    }
  }

  /** The `brand` parameter is read but never used: the search does not depend on it. */
  lemma BrandIgnored(ps: seq<Product>, q: SearchQuery, brand: string)
    ensures Search(ps, q.(brand := brand)) == Search(ps, q)
  {
  }

  function Reverse<T>(s: seq<T>): (r: seq<T>)
    ensures |r| == |s|
  {
    if s == [] then [] else Reverse(s[1..]) + [s[0]]
  }

  lemma {:induction false} ReverseFacts<T>(s: seq<T>)
    ensures forall i :: 0 <= i < |s| ==> Reverse(s)[i] == s[|s| - 1 - i]
    ensures multiset(Reverse(s)) == multiset(s)
  {
    if s != [] {
      ReverseFacts(s[1..]);
      assert s == [s[0]] + s[1..];
    }
  }

  /** No two different products share a rank under `k`. */
  predicate DistinctRanks(s: seq<Product>, k: SortKey)
  {
    forall x, y :: x in s && y in s && Rank(x, k) == Rank(y, k) ==> x == y
  }

  /** Two sorted permutations of each other begin with the same product when ranks are distinct. */
  lemma SortedHeadsAgree(a: seq<Product>, b: seq<Product>, k: SortKey)
    requires a != [] && multiset(a) == multiset(b)
    requires SortedBy(a, k) && SortedBy(b, k) && DistinctRanks(a, k)
    ensures b != [] && a[0] == b[0]
  {
    assert a[0] in multiset(b);
    assert b != [];
    assert b[0] in multiset(a);
    var m :| 0 <= m < |b| && b[m] == a[0];
    var n :| 0 <= n < |a| && a[n] == b[0];
    assert Rank(a[0], k) <= Rank(a[n], k);
    assert Rank(b[0], k) <= Rank(b[m], k);
    assert a[0] in a && b[0] in a;
  }

  lemma TailsPermuted<T>(a: seq<T>, b: seq<T>)
    requires a != [] && b != [] && a[0] == b[0] && multiset(a) == multiset(b)
    ensures multiset(a[1..]) == multiset(b[1..])
  {
    assert a == [a[0]] + a[1..] && b == [b[0]] + b[1..];
    assert multiset(a[1..]) == multiset(a) - multiset{a[0]};
    assert multiset(b[1..]) == multiset(b) - multiset{b[0]};
  }

  lemma TailKeepsOrder(a: seq<Product>, k: SortKey)
    requires a != [] && SortedBy(a, k) && DistinctRanks(a, k)
    ensures SortedBy(a[1..], k) && DistinctRanks(a[1..], k)
  {
  }

  /** With distinct ranks, a sorted permutation is unique. */
  lemma {:induction false} SortedPermutationUnique(a: seq<Product>, b: seq<Product>, k: SortKey)
    requires multiset(a) == multiset(b)
    requires SortedBy(a, k) && SortedBy(b, k) && DistinctRanks(a, k)
    ensures a == b
  {
    if a == [] {
      assert |multiset(b)| == 0;
    } else {
      SortedHeadsAgree(a, b, k);
      TailsPermuted(a, b);
      TailKeepsOrder(a, k);
      assert SortedBy(b[1..], k) by {
        forall i, j | 0 <= i < j < |b[1..]| ensures Rank(b[1..][i], k) <= Rank(b[1..][j], k) {
          assert b[1..][i] == b[i + 1] && b[1..][j] == b[j + 1];
        }
      }
      SortedPermutationUnique(a[1..], b[1..], k);
      assert a == [a[0]] + a[1..] && b == [b[0]] + b[1..];
    }
  }

  /** When the prices are distinct, `highest` lists exactly the reverse of `lowest`. */
  lemma LowestHighestReversed(s: seq<Product>)
    requires forall x, y :: x in s && y in s && x.price == y.price ==> x == y
    ensures Sort(s, Highest) == Reverse(Sort(s, Lowest))
  {
    var low, high := Sort(s, Lowest), Sort(s, Highest);
    var rev := Reverse(low);
    ReverseFacts(low);
    forall x | x in high ensures x in s {
      assert x in multiset(high);
    }
    forall i, j | 0 <= i < j < |rev| ensures Rank(rev[i], Highest) <= Rank(rev[j], Highest) {
      assert Rank(low[|low| - 1 - j], Lowest) <= Rank(low[|low| - 1 - i], Lowest);
    }
    SortedPermutationUnique(high, rev, Highest);
  }

  /** The seed catalog: the four shirts of the sample data, with ids 1 to 4. */
  function SeedProducts(): seq<Product>
  {
    [ Product(1, "Nike slim shirt", "nike-slim-shirt", "/images/p1.jpg", "Nike", "high quality shirt",
              120.0, 10, 4.5, 10, "Shirts", 0, 0),
      Product(2, "qua slim shirt", "qua-slim-shirt", "/images/p2.jpg", "Nike", "high quality shirt",
              100.0, 12, 4.6, 6, "Shirts", 0, 0),
      Product(3, "Adidas slim shirt", "Adidas-slim-shirt", "/images/p3.jpg", "Adidas", "high quality shirt",
              80.0, 11, 4.1, 5, "Shirts", 0, 0),
      Product(4, "Li slim shirt", "Li-slim-shirt", "/images/p4.jpg", "Paint", "high quality shirt",
              40.0, 14, 4.8, 2, "Paint", 0, 0) ]
  }

  lemma SeedPriceFilter(q: SearchQuery)
    requires q == SearchQuery("", "", "", "50-150", "", "", None, None)
    ensures BuildFilter(q) == Filter(None, None, Some((Num(50), Num(150))), None)
  {
    assert DigitsValue("5") == 5;
    assert DigitsValue("50") == 50 by { assert "50"[..1] == "5"; }
    assert DigitsValue("1") == 1;
    assert DigitsValue("15") == 15 by { assert "15"[..1] == "1"; }
    assert DigitsValue("150") == 150 by { assert "150"[..2] == "15"; }
    assert AllDigits("50") && AllDigits("150");
    assert "50-150" == "50" + "-" + "150";
    PriceRangeHalves(SeedProducts()[0], q, "50", "150");
  }

  lemma SeedSelect(f: Filter)
    requires f == Filter(None, None, Some((Num(50), Num(150))), None)
    ensures Select(SeedProducts(), f) == SeedProducts()[..3]
  {
    var ps := SeedProducts();
    assert !Matches(ps[3], f);
    assert Select(ps[3..], f) == [] by { assert ps[3..][1..] == []; }
    assert Matches(ps[2], f) && Matches(ps[1], f) && Matches(ps[0], f);
    assert ps[2..][1..] == ps[3..];
    assert ps[1..][1..] == ps[2..];
    assert ps[1..] == [ps[1]] + ps[2..];
    assert ps[..3] == [ps[0], ps[1], ps[2]];
  }

  /** On the seed catalog, `price=50-150` matches the shirts priced 120, 100 and 80: three products. */
  lemma SeedPriceRange(q: SearchQuery)
    requires q == SearchQuery("", "", "", "50-150", "", "", None, None)
    ensures Search(SeedProducts(), q).Ok?
    ensures Search(SeedProducts(), q).value.countProducts == 3
    ensures Select(SeedProducts(), BuildFilter(q)) == SeedProducts()[..3]
  {
    SeedPriceFilter(q);
    SeedSelect(BuildFilter(q));
    assert |SeedProducts()[..3]| == 3;
  }

  // ---------------------------------------------------------------------------
  // Lookups and listings
  // ---------------------------------------------------------------------------

  /** `GET /:id`: the product with that id, or NotFound. */
  function FindById(ps: seq<Product>, id: ProductId): (r: Result<Product>)
    ensures r.Err? <==> forall p :: p in ps ==> p.id != id
    ensures r.Err? ==> r.error == NotFound
    ensures r.Ok? ==> r.value in ps && r.value.id == id
  {
    if ps == [] then Err(NotFound)
    else if ps[0].id == id then Ok(ps[0])
    else FindById(ps[1..], id)
  }

  /** `GET /slug/:slug`: the first product in store order with that slug, or NotFound. */
  function FindBySlug(ps: seq<Product>, slug: string): (r: Result<Product>)
    ensures r.Err? <==> forall p :: p in ps ==> p.slug != slug
    ensures r.Err? ==> r.error == NotFound
    ensures r.Ok? ==> exists k :: 0 <= k < |ps| && ps[k] == r.value && r.value.slug == slug &&
                                  forall j :: 0 <= j < k ==> ps[j].slug != slug
  {
    if ps == [] then Err(NotFound)
    else if ps[0].slug == slug then Ok(ps[0])
    else
      var r := FindBySlug(ps[1..], slug);
      if r.Ok? then
        var k :| 0 <= k < |ps[1..]| && ps[1..][k] == r.value && r.value.slug == slug &&
                 forall j :: 0 <= j < k ==> ps[1..][j].slug != slug;
        assert ps[k + 1] == r.value;
        r
      else r
  }

  /** The reply of `GET /cate/:x`. */
  datatype CategoryReply = NotYetSent | Listed(pro: seq<Product>)

  /** `GET /cate/:x`: the products of category `x`, except for the sentinel "aaa". */
  function ByCategory(ps: seq<Product>, x: string): (r: CategoryReply)
    ensures r.NotYetSent? <==> x == "aaa"
    ensures r.Listed? ==> forall p :: p in r.pro <==> p in ps && p.category == x
    ensures r.Listed? ==> forall p :: multiset(r.pro)[p] == if p.category == x then multiset(ps)[p] else 0
  {
    if x == "aaa" then NotYetSent
    else
      SelectMultiplicity(ps, Filter(None, Some(x), None, None));
      Listed(Select(ps, Filter(None, Some(x), None, None)))
  }

  /** `GET /categories`: the distinct category values. */
  function Categories(ps: seq<Product>): (r: set<string>)
    ensures forall c :: c in r <==> exists p :: p in ps && p.category == c
  {
    set p | p in ps :: p.category
  }

  /** There are never more distinct categories than products. */
  lemma {:induction false} CategoriesAtMostProducts(ps: seq<Product>)
    ensures |Categories(ps)| <= |ps|
  {
    if ps != [] {
      CategoriesAtMostProducts(ps[1..]);
      assert ps == [ps[0]] + ps[1..];
      assert Categories(ps) == Categories(ps[1..]) + {ps[0].category};
    }
  }

  /** No two stored products share an `_id`. */
  predicate UniqueIds(ps: seq<Product>)
  {
    forall i, j :: 0 <= i < j < |ps| ==> ps[i].id != ps[j].id
  }

  lemma UniqueTail(ps: seq<Product>)
    requires ps != [] && UniqueIds(ps)
    ensures UniqueIds(ps[1..])
    ensures forall p :: p in ps[1..] ==> p.id != ps[0].id
  {
  }

  /** `DELETE /delete/:id`: the catalog without the products of that id; a missing id changes nothing. */
  function RemoveId(ps: seq<Product>, id: ProductId): (r: seq<Product>)
    ensures forall p :: p in r <==> p in ps && p.id != id
    ensures (forall p :: p in ps ==> p.id != id) ==> r == ps
    ensures UniqueIds(ps) ==> UniqueIds(r)
    ensures |r| <= |ps|
  {
    if ps == [] then []
    else
      assert ps == [ps[0]] + ps[1..];
      var rest := RemoveId(ps[1..], id);
      assert (forall p :: p in ps ==> p.id != id) ==> rest == ps[1..] by {
        if forall p :: p in ps ==> p.id != id {
          assert forall p :: p in ps[1..] ==> p in ps;
        }
      }
      if ps[0].id == id then
        assert UniqueIds(ps) ==> UniqueIds(rest) by {
          if UniqueIds(ps) { UniqueTail(ps); }
        }
        rest
      else
        assert UniqueIds(ps) ==> UniqueIds([ps[0]] + rest) by {
          if UniqueIds(ps) {
            UniqueTail(ps);
            var r := [ps[0]] + rest;
            forall i, j | 0 <= i < j < |r| ensures r[i].id != r[j].id {
              assert r[j] == rest[j - 1] && r[j] in ps[1..];
              if i > 0 { assert r[i] == rest[i - 1]; }
            }
          }
        }
        [ps[0]] + rest
  }
}
