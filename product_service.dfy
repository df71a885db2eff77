/** The front end's catalogue service (`ProductService`): the list queries
    that it computes over the whole fetched catalogue (search, status and
    category filters, most recent products, statistics), and the objects it
    builds for a product creation and a product update. Every HTTP call goes
    through the gateway client and is a parameter here. */
module Catalog {
  import opened Common
  import opened Models
  import Gateway

  /** `GetAllProductsAsync`: the fetched array, or an empty one when the
      gateway returned nothing. */
  function AllProducts(fetched: Option<seq<Product>>): (r: seq<Product>)
    ensures fetched.None? ==> r == []
    ensures fetched.Some? ==> r == fetched.value
  {
    if fetched.Some? then fetched.value else []
  }

  // ---------------------------------------------------------------------
  // Search by name

  /** The case mapping of an ordinal case-insensitive comparison, on the
      Basic Latin and Latin-1 letters: every lower-case letter becomes its
      upper-case form, every other character is left as it is. */
  function FoldChar(c: char): (r: char)
    ensures 'a' <= c <= 'z' ==> 'A' <= r <= 'Z' && r as int == c as int - 32
    ensures IsLatin1Lower(c) ==> r as int == c as int - 32 && '\U{C0}' <= r <= '\U{DE}'
    ensures c == '\U{FF}' ==> r == '\U{178}'
    ensures c == '\U{B5}' ==> r == '\U{39C}'
    ensures !('a' <= c <= 'z') && !IsLatin1Lower(c) && c != '\U{FF}' && c != '\U{B5}' ==> r == c
  {
    if 'a' <= c <= 'z' then (c as int - 32) as char
    else if IsLatin1Lower(c) then (c as int - 32) as char
    else if c == '\U{FF}' then '\U{178}'
    else if c == '\U{B5}' then '\U{39C}'
    else c
  }

  /** The Latin-1 lower-case letters à to þ, without the division sign. */
  predicate IsLatin1Lower(c: char)
  {
    '\U{E0}' <= c <= '\U{FE}' && c != '\U{F7}'
  }

  /** Case mapping is idempotent: a mapped character is left as it is. */
  lemma FoldCharIdempotent(c: char)
    ensures FoldChar(FoldChar(c)) == FoldChar(c)
    ensures !('a' <= FoldChar(c) <= 'z') && !IsLatin1Lower(FoldChar(c))
  {
  }

  /** A string with each character case-mapped. */
  function Fold(s: string): (r: string)
    ensures |r| == |s| && forall i | 0 <= i < |s| :: r[i] == FoldChar(s[i])
  {
    seq(|s|, i requires 0 <= i < |s| => FoldChar(s[i]))
  }

  /** `t` occurs in `s` at position `i`. */
  predicate OccursAt(t: string, s: string, i: int)
  {
    0 <= i <= |s| - |t| && s[i..i + |t|] == t
  }

  /** `t` occurs in `s` at some position. */
  predicate IsInfix(t: string, s: string)
  {
    exists i | 0 <= i <= |s| - |t| :: OccursAt(t, s, i)
  }

  /** `s.Contains(term, StringComparison.OrdinalIgnoreCase)`. */
  predicate ContainsIgnoreCase(s: string, term: string)
  {
    IsInfix(Fold(term), Fold(s))
  }

  function NameMatches(term: string): Product -> bool
  {
    (p: Product) => ContainsIgnoreCase(p.nom, term)
  }

  /** `SearchProductsByNameAsync`. */
  function Search(all: seq<Product>, term: string): seq<Product>
  {
    Filter(all, NameMatches(term))
  }

  /** The search returns, in catalogue order, exactly the products whose name
      contains the term without regard to case. */
  lemma SearchFindsExactlyMatches(all: seq<Product>, term: string)
    ensures forall p :: p in Search(all, term) <==> p in all && ContainsIgnoreCase(p.nom, term)
    ensures IsSubsequence(Search(all, term), all)
  {
    forall p | p in all && ContainsIgnoreCase(p.nom, term)
      ensures p in Search(all, term)
    {
      FilterKeepsAll(all, NameMatches(term), p);
    }
    FilterIsSubsequence(all, NameMatches(term));
  }

  /** An empty term matches every name. */
  lemma SearchEmptyTermReturnsAll(all: seq<Product>)
    ensures Search(all, "") == all
  {
    forall p | p in all
      ensures NameMatches("")(p)
    {
      assert OccursAt(Fold(""), Fold(p.nom), 0);
    }
    FilterAll(all, NameMatches(""));
  }

  /** Folding a name or a term first changes nothing in the comparison. */
  lemma ContainsIgnoreCaseOfFolded(name: string, term: string)
    ensures ContainsIgnoreCase(Fold(name), term) == ContainsIgnoreCase(name, term)
    ensures ContainsIgnoreCase(name, Fold(term)) == ContainsIgnoreCase(name, term)
  {
    FoldIdempotent(name);
    FoldIdempotent(term);
  }

  lemma FoldIdempotent(s: string)
    ensures Fold(Fold(s)) == Fold(s)
  {
    forall i | 0 <= i < |s|
      ensures Fold(Fold(s))[i] == Fold(s)[i]
    {
      FoldCharIdempotent(s[i]);
    }
  }

  /** Two terms that differ only in case find the same products. */
  lemma SearchIgnoresCase(all: seq<Product>, t1: string, t2: string)
    requires Fold(t1) == Fold(t2)
    ensures Search(all, t1) == Search(all, t2)
  {
    FilterExtensional(all, NameMatches(t1), NameMatches(t2));
  }

  /** The names of the search example, case-mapped. */
  lemma ExampleNamesMatch()
    ensures ContainsIgnoreCase("Ours brun", "ours") && ContainsIgnoreCase("OURS", "ours")
    ensures !ContainsIgnoreCase("Lapin", "ours")
  {
    assert Fold("ours") == "OURS";
    assert OccursAt("OURS", Fold("Ours brun"), 0);
    assert OccursAt("OURS", Fold("OURS"), 0);
    assert Fold("Lapin") == "LAPIN";
    forall i | 0 <= i <= |"LAPIN"| - 4
      ensures !OccursAt("OURS", "LAPIN", i)
    {
      assert "LAPIN"[i..i + 4][0] == "LAPIN"[i] != 'O';
    }
  }

  /** "ours" finds "Ours brun" and "OURS", not "Lapin". */
  lemma SearchExample()
    ensures var a := DefaultProduct.(id := 1, nom := "Ours brun");
            var b := DefaultProduct.(id := 2, nom := "Lapin");
            var c := DefaultProduct.(id := 3, nom := "OURS");
            Search([a, b, c], "ours") == [a, c]
  {
    var a := DefaultProduct.(id := 1, nom := "Ours brun");
    var b := DefaultProduct.(id := 2, nom := "Lapin");
    var c := DefaultProduct.(id := 3, nom := "OURS");
    ExampleNamesMatch();
    var f := NameMatches("ours");
    assert f(a) && !f(b) && f(c);
    assert [a, b, c][1..] == [b, c] && [b, c][1..] == [c];
    assert Filter([c], f) == [c] + Filter([], f);
    assert Filter([b, c], f) == Filter([c], f);
    assert Filter([a, b, c], f) == [a] + Filter([b, c], f);
  }

  // ---------------------------------------------------------------------
  // Status and category filters

  function HasStatus(isPublished: bool): Product -> bool
  {
    (p: Product) => p.isPublished == isPublished
  }

  /** `GetProductsByStatusAsync`. */
  function ByStatus(all: seq<Product>, isPublished: bool): seq<Product>
  {
    Filter(all, HasStatus(isPublished))
  }

  /** Published and draft products split the catalogue: no product is in
      both, together they are as many as the catalogue, and each keeps the
      catalogue's order. */
  lemma ByStatusPartitions(all: seq<Product>)
    ensures |ByStatus(all, true)| + |ByStatus(all, false)| == |all|
    ensures forall p :: p in ByStatus(all, true) ==> p !in ByStatus(all, false)
    ensures forall p :: p in all ==> p in ByStatus(all, p.isPublished)
    ensures IsSubsequence(ByStatus(all, true), all) && IsSubsequence(ByStatus(all, false), all)
  {
    FilterPartition(all, HasStatus(true), HasStatus(false));
    forall p | p in all
      ensures p in ByStatus(all, p.isPublished)
    {
      FilterKeepsAll(all, HasStatus(p.isPublished), p);
    }
    FilterIsSubsequence(all, HasStatus(true));
    FilterIsSubsequence(all, HasStatus(false));
  }

  function InCategory(categoryId: Int32): Product -> bool
  {
    (p: Product) => p.categorieId == Some(categoryId)
  }

  /** `GetProductsByCategoryAsync`: the lifted comparison of a nullable key
      with an `int` is false for a product without a category. */
  function ByCategory(all: seq<Product>, categoryId: Int32): seq<Product>
  {
    Filter(all, InCategory(categoryId))
  }

  /** The category filter returns exactly the products of that category, in
      catalogue order; a product without a category is never returned. */
  lemma ByCategoryExact(all: seq<Product>, categoryId: Int32)
    ensures forall p :: p in ByCategory(all, categoryId) <==> p in all && p.categorieId == Some(categoryId)
    ensures forall p :: p in ByCategory(all, categoryId) ==> p.categorieId.Some?
    ensures IsSubsequence(ByCategory(all, categoryId), all)
  {
    forall p | p in all && p.categorieId == Some(categoryId)
      ensures p in ByCategory(all, categoryId)
    {
      FilterKeepsAll(all, InCategory(categoryId), p);
    }
    FilterIsSubsequence(all, InCategory(categoryId));
  }

  // ---------------------------------------------------------------------
  // Most recent products

  /** Non-increasing creation time. */
  predicate NewestFirst(s: seq<Product>)
  {
    forall i, j | 0 <= i < j < |s| :: s[i].createdAt >= s[j].createdAt
  }

  /** Inserts `x` before the first product that is not newer than it. */
  function InsertByDate(x: Product, sorted: seq<Product>): seq<Product>
  {
    if sorted == [] then [x]
    else if x.createdAt >= sorted[0].createdAt then [x] + sorted
    else [sorted[0]] + InsertByDate(x, sorted[1..])
  }

  /** `OrderByDescending(p => p.CreatedAt)`: a stable sort, newest first. */
  function SortByNewest(s: seq<Product>): seq<Product>
  {
    if s == [] then [] else InsertByDate(s[0], SortByNewest(s[1..]))
  }

  /** `Take(count)`: the first `count` elements, none when `count` is not
      positive, all when there are fewer. */
  function Take(s: seq<Product>, count: int): (r: seq<Product>)
    ensures |r| == if count <= 0 then 0 else if count < |s| then count else |s|
    ensures r == s[..|r|]
  {
    if count <= 0 then [] else if count >= |s| then s else s[..count]
  }

  /** `GetRecentProductsAsync(count)`. */
  function Recent(all: seq<Product>, count: int): seq<Product>
  {
    Take(SortByNewest(all), count)
  }

  /** The default of `count`. */
  const DefaultRecentCount: int := 10

  /** `GetRecentProductsAsync()` without an argument: the ten newest products,
      or all of them when there are fewer. */
  function RecentDefault(all: seq<Product>): (r: seq<Product>)
    ensures r == Recent(all, DefaultRecentCount)
    ensures |r| == if |all| < 10 then |all| else 10
  {
    SortByNewestSorts(all);
    Recent(all, DefaultRecentCount)
  }

  /** The products created at exactly `t`. */
  function CreatedAt(t: Timestamp): Product -> bool
  {
    (p: Product) => p.createdAt == t
  }

  /** Every product of `s` is created no later than `t`. */
  predicate NoneNewerThan(s: seq<Product>, t: Timestamp)
  {
    forall k | 0 <= k < |s| :: s[k].createdAt <= t
  }

  lemma {:induction false} InsertNoneNewer(x: Product, sorted: seq<Product>, t: Timestamp)
    requires NoneNewerThan(sorted, t) && x.createdAt <= t
    ensures NoneNewerThan(InsertByDate(x, sorted), t)
  {
    if sorted != [] && x.createdAt < sorted[0].createdAt {
      InsertNoneNewer(x, sorted[1..], t);
    }
  }

  lemma {:induction false} InsertSorted(x: Product, sorted: seq<Product>)
    requires NewestFirst(sorted)
    ensures NewestFirst(InsertByDate(x, sorted))
  {
    if sorted != [] && x.createdAt < sorted[0].createdAt {
      var rest := sorted[1..];
      InsertSorted(x, rest);
      InsertNoneNewer(x, rest, sorted[0].createdAt);
      var r := InsertByDate(x, sorted);
      assert r[1..] == InsertByDate(x, rest);
    }
  }

  lemma {:induction false} InsertPermutes(x: Product, sorted: seq<Product>)
    ensures multiset(InsertByDate(x, sorted)) == multiset(sorted) + multiset{x}
  {
    if sorted != [] && x.createdAt < sorted[0].createdAt {
      InsertPermutes(x, sorted[1..]);
      assert sorted == [sorted[0]] + sorted[1..];
    }
  }

  /** Inserting keeps, among products of one creation time, their order:
      `x` goes before those already there. */
  lemma {:induction false} InsertStable(x: Product, sorted: seq<Product>, t: Timestamp)
    ensures Filter(InsertByDate(x, sorted), CreatedAt(t))
            == (if x.createdAt == t then [x] else []) + Filter(sorted, CreatedAt(t))
  {
    if sorted == [] {
    } else if x.createdAt >= sorted[0].createdAt {
      assert ([x] + sorted)[1..] == sorted;
    } else {
      var rest := sorted[1..];
      InsertStable(x, rest, t);
      var r := [sorted[0]] + InsertByDate(x, rest);
      assert r[1..] == InsertByDate(x, rest);
    }
  }

  /** The sort puts products newest first and is a permutation. */
  lemma {:induction false} SortByNewestSorts(s: seq<Product>)
    ensures NewestFirst(SortByNewest(s))
    ensures multiset(SortByNewest(s)) == multiset(s)
    ensures |SortByNewest(s)| == |s|
  {
    if s != [] {
      SortByNewestSorts(s[1..]);
      InsertSorted(s[0], SortByNewest(s[1..]));
      InsertPermutes(s[0], SortByNewest(s[1..]));
      assert s == [s[0]] + s[1..];
    }
  }

  /** The sort is stable: the products of any one creation time come out in
      their catalogue order. */
  lemma {:induction false} SortByNewestStable(s: seq<Product>, t: Timestamp)
    ensures Filter(SortByNewest(s), CreatedAt(t)) == Filter(s, CreatedAt(t))
  {
    if s != [] {
      SortByNewestStable(s[1..], t);
      InsertStable(s[0], SortByNewest(s[1..]), t);
    }
  }

  /** In a list sorted newest first, nothing after position `n` is newer
      than anything before it. */
  lemma SplitNewest(sorted: seq<Product>, n: nat)
    requires NewestFirst(sorted) && n <= |sorted|
    ensures forall x, y | x in sorted[..n] && y in sorted[n..] :: x.createdAt >= y.createdAt
  {
    forall x, y | x in sorted[..n] && y in sorted[n..]
      ensures x.createdAt >= y.createdAt
    {
      var i :| 0 <= i < n && sorted[..n][i] == x;
      var j :| 0 <= j < |sorted| - n && sorted[n..][j] == y;
      assert sorted[i] == x && sorted[n + j] == y;
    }
  }

  /** What `Take` leaves out of a list sorted newest first is no newer than
      anything it keeps. */
  lemma TakeKeepsNewest(sorted: seq<Product>, count: int)
    requires NewestFirst(sorted)
    ensures var r := Take(sorted, count);
      forall x, y | x in r && y in multiset(sorted) - multiset(r) :: x.createdAt >= y.createdAt
  {
    var r := Take(sorted, count);
    var n := |r|;
    assert sorted == r + sorted[n..];
    assert multiset(sorted) - multiset(r) == multiset(sorted[n..]);
    SplitNewest(sorted, n);
  }

  /** A prefix draws on the elements of the whole list. */
  lemma PrefixSubMultiset(s: seq<Product>, n: nat)
    requires n <= |s|
    ensures multiset(s[..n]) <= multiset(s)
  {
    assert s == s[..n] + s[n..];
  }

  /** The most recent products: newest first, drawn from the catalogue,
      `min(max(count, 0), n)` of them, and no product left out is newer than
      one returned. */
  lemma RecentProducts(all: seq<Product>, count: int)
    ensures var r := Recent(all, count);
      && NewestFirst(r)
      && multiset(r) <= multiset(all)
      && |r| == (if count <= 0 then 0 else if count < |all| then count else |all|)
      && forall x, y | x in r && y in multiset(all) - multiset(r) :: x.createdAt >= y.createdAt
  {
    var sorted := SortByNewest(all);
    SortByNewestSorts(all);
    TakeKeepsNewest(sorted, count);
    PrefixSubMultiset(sorted, |Take(sorted, count)|);
  }

  // ---------------------------------------------------------------------
  // Statistics

  function PriceSum(s: seq<Product>): int
  {
    if s == [] then 0 else s[0].prix + PriceSum(s[1..])
  }

  /** LINQ `Min(p => p.Prix)` on a non-empty list. */
  function MinPrice(s: seq<Product>): (m: Cents)
    requires s != []
    ensures forall p :: p in s ==> m <= p.prix
    ensures exists p :: p in s && p.prix == m
  {
    if |s| == 1 then s[0].prix
    else
      var m := MinPrice(s[1..]);
      assert forall p :: p in s ==> p == s[0] || p in s[1..];
      if s[0].prix <= m then s[0].prix else m
  }

  /** LINQ `Max(p => p.Prix)` on a non-empty list. */
  function MaxPrice(s: seq<Product>): (m: Cents)
    requires s != []
    ensures forall p :: p in s ==> p.prix <= m
    ensures exists p :: p in s && p.prix == m
  {
    if |s| == 1 then s[0].prix
    else
      var m := MaxPrice(s[1..]);
      assert forall p :: p in s ==> p == s[0] || p in s[1..];
      if s[0].prix >= m then s[0].prix else m
  }

  predicate Published(p: Product)
  {
    p.isPublished
  }

  predicate Draft(p: Product)
  {
    !p.isPublished
  }

  /** Prices between `lo` and `hi` sum to between `n * lo` and `n * hi`. */
  lemma {:induction false} PriceSumBounds(s: seq<Product>, lo: int, hi: int)
    requires forall k | 0 <= k < |s| :: lo <= s[k].prix <= hi
    ensures |s| * lo <= PriceSum(s) <= |s| * hi
  {
    if s != [] {
      var rest := s[1..];
      assert forall k | 0 <= k < |rest| :: rest[k] == s[k + 1];
      PriceSumBounds(rest, lo, hi);
      var n := |rest|;
      assert (n + 1) * lo == n * lo + lo;
      assert (n + 1) * hi == n * hi + hi;
    }
  }

  /** `GetProductStatisticsAsync`; the average is the exact mean of the
      prices, in cents. */
  function Statistics(all: seq<Product>): ProductStatistics
  {
    ProductStatistics(
      |all|,
      CountWhere(all, Published),
      CountWhere(all, Draft),
      if all != [] then PriceSum(all) as real / |all| as real else 0.0,
      if all != [] then MinPrice(all) else 0,
      if all != [] then MaxPrice(all) else 0)
  }

  /** The statistics count every product once as published or draft. */
  lemma StatisticsCounts(all: seq<Product>)
    ensures var st := Statistics(all);
      && st.totalProducts == |all|
      && st.publishedProducts + st.draftProducts == st.totalProducts
      && st.publishedProducts == |ByStatus(all, true)|
      && st.draftProducts == |ByStatus(all, false)|
  {
    FilterPartition(all, Published, Draft);
    FilterExtensional(all, Published, HasStatus(true));
    FilterExtensional(all, Draft, HasStatus(false));
  }

  /** The mean of prices between `lo` and `hi` lies between them. */
  lemma MeanBounds(sum: int, n: nat, lo: int, hi: int)
    requires n > 0 && n * lo <= sum <= n * hi
    ensures lo as real <= sum as real / n as real <= hi as real
  {
    var nr := n as real;
    assert nr * lo as real <= sum as real <= nr * hi as real;
    assert (nr * lo as real) / nr == lo as real;
    assert (nr * hi as real) / nr == hi as real;
  }

  /** An empty catalogue has zero prices; otherwise the minimum and the
      maximum are prices of products and bound every price and the average. */
  lemma StatisticsPrices(all: seq<Product>)
    ensures var st := Statistics(all);
      && (all == [] ==> st.minPrice == 0 && st.maxPrice == 0 && st.averagePrice == 0.0)
      && (all != [] ==>
            && (forall p :: p in all ==> st.minPrice <= p.prix <= st.maxPrice)
            && (exists p :: p in all && p.prix == st.minPrice)
            && (exists p :: p in all && p.prix == st.maxPrice)
            && st.minPrice as real <= st.averagePrice <= st.maxPrice as real)
  {
    if all != [] {
      var lo, hi := MinPrice(all), MaxPrice(all);
      PriceSumBounds(all, lo, hi);
      MeanBounds(PriceSum(all), |all|, lo, hi);
    }
  }

  // ---------------------------------------------------------------------
  // Creation and update

  /** The product that `CreateProductAsync` posts: the form's ten fields as
      they are, the workspace, and every other field at its default. */
  function ProductFromDto(dto: ProductCreateDto, workspaceId: int): (r: Product)
    ensures r.EditableFields() == dto
    ensures r.workspaceId == workspaceId && r.id == 0 && r.createdAt == 0
    ensures r.HasNoNavigation()
  {
    DefaultProduct.WithEditableFields(dto).(workspaceId := workspaceId)
  }

  /** `CreateProductAsync`: builds the product object field by field and
      returns what the gateway's POST gives back (nothing on failure). */
  method CreateProduct(dto: ProductCreateDto, currentWorkspace: int, post: Product -> Option<Product>)
    returns (created: Option<Product>, sent: Product)
    ensures sent == ProductFromDto(dto, Gateway.WorkspaceId(currentWorkspace))
    ensures sent.workspaceId >= 1 && sent.EditableFields() == dto
    ensures created == post(sent)
  {
    var workspaceId := Gateway.WorkspaceId(currentWorkspace);
    var product := new ProductEntity();
    product.CopyEditableFields(dto);
    product.workspaceId := workspaceId;
    sent := product.Value();
    created := post(sent);
  }

  /** The product that `UpdateProductAsync` puts: the fetched product with
      the form's ten fields copied over and its navigation objects cleared. */
  function PreparedForUpdate(existing: Product, dto: ProductCreateDto): (r: Product)
    ensures r.EditableFields() == dto
    ensures r.HasNoNavigation()
    ensures r.id == existing.id && r.workspaceId == existing.workspaceId && r.createdAt == existing.createdAt
  {
    existing.WithEditableFields(dto).WithoutNavigation()
  }

  /** `UpdateProductAsync`: fetches the product; when there is none, returns
      false without a PUT; otherwise overwrites the fetched object's fields,
      clears its navigation objects and returns the PUT's success. */
  method UpdateProduct(id: Int32, dto: ProductCreateDto, fetch: Int32 -> Option<Product>,
                       put: (Int32, Product) -> bool)
    returns (ok: bool, sent: Option<Product>)
    ensures fetch(id).None? ==> !ok && sent.None?
    ensures fetch(id).Some? ==> sent == Some(PreparedForUpdate(fetch(id).value, dto)) && ok == put(id, sent.value)
  {
    var fetched := fetch(id);
    if fetched.None? {
      return false, None;
    }
    var existing := new ProductEntity.Deserialized(fetched.value);
    existing.CopyEditableFields(dto);
    existing.ClearNavigation();
    sent := Some(existing.Value());
    ok := put(id, existing.Value());
  }
}
