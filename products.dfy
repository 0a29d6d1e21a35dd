/** What a product listing means, independently of how the query text is
    put together: the rows matching the optional category and search
    filters, newest first, cut into pages. */
module Products {
  import opened Http
  import opened Text

  /** A row of the products table. Prices are in cents. Creation order is
      the order of ids: the store hands out increasing ids and appends. */
  datatype Product = Product(
    id: nat,
    name: string,
    priceCents: int,
    category: string,
    description: string,
    ownerId: int)

  /** The `category` and `search` query parameters of GET /products. */
  datatype Filter = Filter(category: Option<string>, search: Option<string>)

  const DefaultPage := 1
  const DefaultLimit := 20

  /** A row matches when its category equals the category filter (if one is
      given) and the search term occurs, ignoring ASCII case, in its name or
      in its description (if one is given). */
  predicate Matches(p: Product, f: Filter) {
    && (Truthy(f.category) ==> p.category == f.category.value)
    && (Truthy(f.search) ==>
          ContainsIgnoringCase(p.name, f.search.value) || ContainsIgnoringCase(p.description, f.search.value))
  }

  /** The rows that match, in their original order. */
  function Filtered(rows: seq<Product>, f: Filter): (r: seq<Product>)
    ensures |r| <= |rows|
    ensures forall p :: p in r <==> p in rows && Matches(p, f)
  {
    if rows == [] then []
    else (if Matches(rows[0], f) then [rows[0]] else []) + Filtered(rows[1..], f)
  }

  /** Rows in creation order: strictly increasing ids. */
  ghost predicate OldestFirst(rows: seq<Product>) {
    forall i, j | 0 <= i < j < |rows| :: rows[i].id < rows[j].id
  }

  /** Rows newest first: strictly decreasing ids. */
  ghost predicate NewestFirstOrder(rows: seq<Product>) {
    forall i, j | 0 <= i < j < |rows| :: rows[i].id > rows[j].id
  }

  function Reverse(rows: seq<Product>): (r: seq<Product>)
    ensures |r| == |rows|
    ensures forall i | 0 <= i < |rows| :: r[i] == rows[|rows| - 1 - i]
  {
    if rows == [] then [] else Reverse(rows[1..]) + [rows[0]]
  }

  /** `ORDER BY created_at DESC` over rows kept in creation order. */
  function NewestFirst(rows: seq<Product>): seq<Product> {
    Reverse(rows)
  }

  function Min(a: int, b: int): int { if a <= b then a else b }

  /** `OFFSET offset LIMIT limit`: at most `limit` rows, starting at
      position `offset`. */
  function Window(rows: seq<Product>, offset: nat, limit: nat): (r: seq<Product>)
    ensures |r| == if offset >= |rows| then 0 else Min(limit, |rows| - offset)
    ensures forall i | 0 <= i < |r| :: r[i] == rows[offset + i]
  {
    if offset >= |rows| then [] else rows[offset..offset + Min(limit, |rows| - offset)]
  }

  /** `Math.ceil(total / limit)` as it reaches the JSON reply: the least
      number of pages of `limit` rows that hold `total` rows; a zero limit
      gives a non-finite quotient, which JSON renders as null (None). */
  function TotalPages(total: nat, limit: nat): (pages: Option<nat>)
    ensures pages.None? <==> limit == 0
    ensures pages.Some? ==> total <= pages.value * limit
    ensures pages.Some? && pages.value > 0 ==> (pages.value - 1) * limit < total
  {
    if limit == 0 then None
    else
      var q := (total + limit - 1) / limit;
      assert q * limit <= total + limit - 1 < (q + 1) * limit;
      Some(q)
  }

  // ---------------------------------------------------------------- lemmas

  /** Filtering keeps creation order. */
  lemma {:induction false} FilteredKeepsOrder(rows: seq<Product>, f: Filter)
    requires OldestFirst(rows)
    ensures OldestFirst(Filtered(rows, f))
  {
    if rows != [] {
      FilteredKeepsOrder(rows[1..], f);
      var rest := Filtered(rows[1..], f);
      assert forall p | p in rest :: p in rows[1..];
      assert forall p | p in rest :: rows[0].id < p.id;
    }
  }

  /** Reversing rows in creation order puts them newest first. */
  lemma NewestFirstIsNewestFirst(rows: seq<Product>)
    requires OldestFirst(rows)
    ensures NewestFirstOrder(NewestFirst(rows))
  {
  }

  /** A window of rows that are newest first is newest first too. */
  lemma WindowKeepsOrder(rows: seq<Product>, offset: nat, limit: nat)
    requires NewestFirstOrder(rows)
    ensures NewestFirstOrder(Window(rows, offset, limit))
  {
  }

  /** Pages 1 to n, one after the other. */
  function Pages(rows: seq<Product>, limit: nat, n: nat): seq<Product> {
    if n == 0 then [] else Pages(rows, limit, n - 1) + Window(rows, (n - 1) * limit, limit)
  }

  /** The first n pages are exactly the first n * limit rows. */
  lemma {:induction false} PagesArePrefix(rows: seq<Product>, limit: nat, n: nat)
    ensures Pages(rows, limit, n) == rows[..Min(n * limit, |rows|)]
  {
    if n > 0 {
      PagesArePrefix(rows, limit, n - 1);
      var start := (n - 1) * limit;
      assert n * limit == start + limit;
      var w := Window(rows, start, limit);
      if start >= |rows| {
        assert Min(n * limit, |rows|) == |rows| == Min(start, |rows|);
      } else {
        assert w == rows[start..Min(n * limit, |rows|)];
      }
    }
  }

  /** Pages 1 to totalPages hold every row once and in order: pagination
      loses nothing and repeats nothing. */
  lemma PagesCoverAll(rows: seq<Product>, limit: nat)
    requires limit > 0
    ensures Pages(rows, limit, TotalPages(|rows|, limit).value) == rows
  {
    var n := TotalPages(|rows|, limit).value;
    PagesArePrefix(rows, limit, n);
  }

  /** Page `page` (from 1) is full before the last page, holds the rest on
      the last page, and is empty after it. */
  lemma {:induction false} PageLength(rows: seq<Product>, limit: nat, page: nat)
    requires limit > 0 && page >= 1
    ensures var n := TotalPages(|rows|, limit).value;
            var w := Window(rows, (page - 1) * limit, limit);
            && (page < n ==> |w| == limit)
            && (page == n ==> |w| == |rows| - (n - 1) * limit)
            && (page > n ==> |w| == 0)
  {
    var n := TotalPages(|rows|, limit).value;
    var start := (page - 1) * limit;
    assert page * limit == start + limit;
    assert n > 0 ==> n * limit == (n - 1) * limit + limit;
    if page < n {
      MultiplyAtLeast(n - 1, page, limit);
    } else if page > n {
      MultiplyAtLeast(page - 1, n, limit);
    }
  }

  lemma MultiplyAtLeast(a: int, b: int, c: nat)
    requires a >= b
    ensures a * c >= b * c
  {
    assert a * c - b * c == (a - b) * c;
  }

  /** With 25 matching rows and the default limit of 20 there are 2 pages:
      the newest 20 rows, then the oldest 5. */
  lemma TwentyFiveRowsTwoPages(rows: seq<Product>)
    requires |rows| == 25
    ensures TotalPages(|rows|, DefaultLimit) == Some(2)
    ensures Window(NewestFirst(rows), 0, DefaultLimit) == NewestFirst(rows)[..20]
    ensures Window(NewestFirst(rows), 20, DefaultLimit) == NewestFirst(rows)[20..]
    ensures |NewestFirst(rows)[20..]| == 5
  {
  }
}
