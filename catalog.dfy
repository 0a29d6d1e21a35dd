/** The product handlers of the API over an in-memory products table: the
    listing (GET /products) and the owner-guarded mutations (POST, PUT and
    DELETE /products). Each mutation's reply and new table are given by a
    specification function over table values; the class's methods do the
    read-check-write steps and are proved to agree with it. */
module Catalog {
  import opened Http
  import opened Validation
  import opened Auth
  import opened Products
  import opened ProductQuery

  const ProductCreated := "Product created successfully"
  const ProductUpdated := "Product updated successfully"
  const ProductDeleted := "Product deleted successfully"
  const ProductNotFound := "Product not found"
  const NotOwnerOfUpdate := "Not authorized to update this product"
  const NotOwnerOfDelete := "Not authorized to delete this product"
  const FetchFailed := "Server error fetching products"

  /** The products table: its rows in creation order and the id the next
      insert receives (the SERIAL sequence, which starts at 1). */
  datatype Table = Table(rows: seq<Product>, nextId: nat)

  /** Ids increase with creation order and all lie below the next id, so
      every id is unique and a new row's id is fresh. */
  ghost predicate Consistent(t: Table) {
    && OldestFirst(t.rows)
    && forall i | 0 <= i < |t.rows| :: t.rows[i].id < t.nextId
  }

  /** A handler's reply together with the table it leaves behind. */
  datatype Effect<+T> = Effect(reply: Outcome<T>, after: Table)

  /** The payload of a create or update reply. */
  datatype Saved = Saved(message: string, product: Product)

  /** The payload of a listing reply. */
  datatype Listing = Listing(products: seq<Product>, page: nat, limit: nat, total: nat, totalPages: Option<nat>)

  /** The position of the row with this id, if any. */
  function IndexOfId(rows: seq<Product>, id: int): (k: Option<nat>)
    ensures k.Some? ==> k.value < |rows| && rows[k.value].id == id
    ensures k.None? <==> forall i | 0 <= i < |rows| :: rows[i].id != id
  {
    if rows == [] then None
    else if rows[0].id == id then Some(0)
    else match IndexOfId(rows[1..], id)
      case None => None
      case Some(k) => Some(k + 1)
  }

  function PageOf(page: Option<nat>): nat { if page.Some? then page.value else DefaultPage }
  function LimitOf(limit: Option<nat>): nat { if limit.Some? then limit.value else DefaultLimit }

  /** `(page - 1) * limit`; negative for page 0. */
  function OffsetOf(page: Option<nat>, limit: Option<nat>): int {
    (PageOf(page) - 1) * LimitOf(limit)
  }

  // ----------------------------------------------------- the specification

  /** The GET /products reply: one window of the matching rows, newest
      first, with the pagination block; a negative offset is refused by the
      database and answers 500. */
  function ListingFor(rows: seq<Product>, f: Filter, page: Option<nat>, limit: Option<nat>): (r: Outcome<Listing>)
    requires OldestFirst(rows)
    ensures r.Error? <==> OffsetOf(page, limit) < 0
    ensures r.Error? ==> r == Error(500, FetchFailed)
    ensures r.Ok? ==> r.status == 200
    ensures r.Ok? ==> r.value.page == PageOf(page) && r.value.limit == LimitOf(limit)
    ensures r.Ok? ==> r.value.total == |Filtered(rows, f)| && r.value.totalPages == TotalPages(r.value.total, r.value.limit)
    ensures r.Ok? ==> |r.value.products| <= r.value.total && |r.value.products| <= r.value.limit
    ensures r.Ok? ==>
              && OffsetOf(page, limit) >= 0
              && r.value.products == Window(NewestFirst(Filtered(rows, f)), OffsetOf(page, limit) as nat, LimitOf(limit))
    ensures r.Ok? ==> NewestFirstOrder(r.value.products)
    ensures r.Ok? ==> forall p | p in r.value.products :: p in rows && Matches(p, f)
  {
    var offset := OffsetOf(page, limit);
    if offset < 0 then Error(500, FetchFailed)
    else
      var matching := Filtered(rows, f);
      var window := Window(NewestFirst(matching), offset, LimitOf(limit));
      FilteredKeepsOrder(rows, f);
      NewestFirstIsNewestFirst(matching);
      WindowKeepsOrder(NewestFirst(matching), offset, LimitOf(limit));
      assert forall p | p in window :: p in NewestFirst(matching);
      Ok(200, Listing(window, PageOf(page), LimitOf(limit), |matching|, TotalPages(|matching|, LimitOf(limit))))
  }

  /** With 25 products, no filter and the default limit, the listing has 2
      pages: page 1 (also the default page) holds the newest 20 products and
      page 2 the remaining oldest 5. */
  lemma TwentyFiveProductsTwoPages(rows: seq<Product>)
    requires OldestFirst(rows) && |rows| == 25
    ensures ListingFor(rows, Filter(None, None), None, None)
         == ListingFor(rows, Filter(None, None), Some(1), None)
         == Ok(200, Listing(NewestFirst(rows)[..20], 1, DefaultLimit, 25, Some(2)))
    ensures ListingFor(rows, Filter(None, None), Some(2), None)
         == Ok(200, Listing(NewestFirst(rows)[20..], 2, DefaultLimit, 25, Some(2)))
    ensures |NewestFirst(rows)[20..]| == 5
  {
    FilteredNothing(rows, Filter(None, None));
    TwentyFiveRowsTwoPages(rows);
  }

  /** POST /products after the gate: a body the validator rejects answers
      400 and changes nothing; otherwise one row is appended with the next
      id, the submitted fields as given and the caller as owner. */
  function CreateEffect(t: Table, caller: Claims, body: ProductBody): (e: Effect<Saved>)
    ensures ValidateProduct(body).Reject? ==> e == Effect(Error(400, ValidateProduct(body).message), t)
    ensures ValidateProduct(body).Next? ==>
              && e.reply.Ok? && e.reply.status == 201 && e.reply.value.message == ProductCreated
              && e.reply.value.product ==
                   Product(t.nextId, body.name.value, body.price.cents, body.category.value, body.description.value, caller.id)
              && e.after == Table(t.rows + [e.reply.value.product], t.nextId + 1)
  {
    var v := ValidateProduct(body);
    if v.Reject? then Effect(Error(v.status, v.message), t)
    else
      var p := Product(t.nextId, body.name.value, body.price.cents, body.category.value, body.description.value, caller.id);
      Effect(Ok(201, Saved(ProductCreated, p)), Table(t.rows + [p], t.nextId + 1))
  }

  /** PUT /products/:id after the gate: validation first (400), then a
      missing id answers 404 whoever asks, then a caller who is not the
      owner answers 403; all three leave the table unchanged. The owner's
      update replaces exactly name, price, category and description of
      that one row and keeps its id and owner. */
  function UpdateEffect(t: Table, caller: Claims, id: int, body: ProductBody): (e: Effect<Saved>)
    ensures ValidateProduct(body).Reject? ==> e == Effect(Error(400, ValidateProduct(body).message), t)
    ensures ValidateProduct(body).Next? && IndexOfId(t.rows, id).None? ==> e == Effect(Error(404, ProductNotFound), t)
    ensures (ValidateProduct(body).Next? && IndexOfId(t.rows, id).Some? &&
             t.rows[IndexOfId(t.rows, id).value].ownerId != caller.id) ==> e == Effect(Error(403, NotOwnerOfUpdate), t)
    ensures (ValidateProduct(body).Next? && IndexOfId(t.rows, id).Some? &&
             t.rows[IndexOfId(t.rows, id).value].ownerId == caller.id) ==> e.reply.Ok?
    ensures e.reply.Ok? ==>
              var k := IndexOfId(t.rows, id).value;
              var before := t.rows[k];
              && ValidateProduct(body).Next? && before.ownerId == caller.id
              && e.reply == Ok(200, Saved(ProductUpdated, e.reply.value.product))
              && e.reply.value.product ==
                   Product(before.id, body.name.value, body.price.cents, body.category.value, body.description.value, before.ownerId)
              && e.after == Table(t.rows[k := e.reply.value.product], t.nextId)
    ensures e.reply.Error? ==> e.after == t
  {
    var v := ValidateProduct(body);
    if v.Reject? then Effect(Error(v.status, v.message), t)
    else match IndexOfId(t.rows, id)
      case None => Effect(Error(404, ProductNotFound), t)
      case Some(k) =>
        var before := t.rows[k];
        if before.ownerId != caller.id then Effect(Error(403, NotOwnerOfUpdate), t)
        else
          var updated := before.(name := body.name.value, priceCents := body.price.cents,
                              category := body.category.value, description := body.description.value);
          Effect(Ok(200, Saved(ProductUpdated, updated)), Table(t.rows[k := updated], t.nextId))
  }

  /** DELETE /products/:id after the gate: a missing id answers 404 whoever
      asks, then a caller who is not the owner answers 403; both leave the
      table unchanged. The owner's delete removes exactly that one row. */
  function DeleteEffect(t: Table, caller: Claims, id: int): (e: Effect<string>)
    ensures IndexOfId(t.rows, id).None? ==> e == Effect(Error(404, ProductNotFound), t)
    ensures IndexOfId(t.rows, id).Some? && t.rows[IndexOfId(t.rows, id).value].ownerId != caller.id ==>
              e == Effect(Error(403, NotOwnerOfDelete), t)
    ensures IndexOfId(t.rows, id).Some? && t.rows[IndexOfId(t.rows, id).value].ownerId == caller.id ==> e.reply.Ok?
    ensures e.reply.Ok? ==>
              var k := IndexOfId(t.rows, id).value;
              && t.rows[k].ownerId == caller.id
              && e.reply == Ok(200, ProductDeleted)
              && e.after == Table(t.rows[..k] + t.rows[k + 1..], t.nextId)
    ensures e.reply.Error? ==> e.after == t
    ensures Consistent(t) && e.reply.Ok? ==>
              |e.after.rows| == |t.rows| - 1 && forall p :: p in e.after.rows <==> p in t.rows && p.id != id
  {
    match IndexOfId(t.rows, id)
    case None => Effect(Error(404, ProductNotFound), t)
    case Some(k) =>
      if t.rows[k].ownerId != caller.id then Effect(Error(403, NotOwnerOfDelete), t)
      else
        RemoveKeepsConsistent(t, k);
        Effect(Ok(200, ProductDeleted), Table(t.rows[..k] + t.rows[k + 1..], t.nextId))
  }

  /** Appending a row with the next id keeps the table consistent. */
  lemma AppendKeepsConsistent(t: Table, p: Product)
    requires p.id == t.nextId
    ensures Consistent(t) ==> Consistent(Table(t.rows + [p], t.nextId + 1))
  {
  }

  /** Overwriting a row by one with the same id keeps the table consistent. */
  lemma ReplaceKeepsConsistent(t: Table, k: nat, p: Product)
    requires k < |t.rows| && p.id == t.rows[k].id
    ensures Consistent(t) ==> Consistent(Table(t.rows[k := p], t.nextId))
  {
  }

  /** Removing the row at position k keeps the table consistent, and since
      ids are unique it removes exactly the rows with that id. */
  lemma RemoveKeepsConsistent(t: Table, k: nat)
    requires k < |t.rows|
    ensures var rest := t.rows[..k] + t.rows[k + 1..];
            && |rest| == |t.rows| - 1
            && (Consistent(t) ==> Consistent(Table(rest, t.nextId)))
            && (Consistent(t) ==> forall p :: p in rest <==> p in t.rows && p.id != t.rows[k].id)
  {
    var rest := t.rows[..k] + t.rows[k + 1..];
    assert forall i | 0 <= i < |rest| :: rest[i] == t.rows[if i < k then i else i + 1];
    if Consistent(t) {
      forall p ensures p in rest <==> p in t.rows && p.id != t.rows[k].id {
        if p in t.rows && p.id != t.rows[k].id {
          var j :| 0 <= j < |t.rows| && t.rows[j] == p;
          assert j != k;
          assert rest[if j < k then j else j - 1] == p;
        }
      }
    }
  }

  /** Creating a product keeps the table consistent: ids stay unique, in
      creation order, and below the next id. */
  lemma CreateKeepsConsistent(t: Table, caller: Claims, body: ProductBody)
    requires Consistent(t)
    ensures Consistent(CreateEffect(t, caller, body).after)
  {
    var c := CreateEffect(t, caller, body);
    if c.reply.Ok? {
      AppendKeepsConsistent(t, c.reply.value.product);
    }
  }

  /** Updating a product keeps the table consistent. */
  lemma UpdateKeepsConsistent(t: Table, caller: Claims, id: int, body: ProductBody)
    requires Consistent(t)
    ensures Consistent(UpdateEffect(t, caller, id, body).after)
  {
    var u := UpdateEffect(t, caller, id, body);
    if u.reply.Ok? {
      ReplaceKeepsConsistent(t, IndexOfId(t.rows, id).value, u.reply.value.product);
    }
  }

  /** Deleting a product keeps the table consistent. */
  lemma DeleteKeepsConsistent(t: Table, caller: Claims, id: int)
    requires Consistent(t)
    ensures Consistent(DeleteEffect(t, caller, id).after)
  {
    var d := DeleteEffect(t, caller, id);
    if d.reply.Ok? {
      RemoveKeepsConsistent(t, IndexOfId(t.rows, id).value);
    }
  }

  // ---------------------------------------------------------- the handlers

  class ProductTable {
    var rows: seq<Product>
    var nextId: nat

    function State(): Table
      reads this
    {
      Table(rows, nextId)
    }

    ghost predicate Valid()
      reads this
    {
      Consistent(State())
    }

    constructor ()
      ensures Valid() && rows == [] && nextId == 1
    {
      rows := [];
      nextId := 1;
    }

    /** GET /products: builds the list query and the count query, runs both
        against the table, and assembles the reply; it changes nothing. */
    method List(f: Filter, page: Option<nat>, limit: Option<nat>) returns (r: Outcome<Listing>)
      requires Valid()
      ensures r == ListingFor(rows, f, page, limit)
    {
      var pg := if page.Some? then page.value else DefaultPage;
      var lim := if limit.Some? then limit.value else DefaultLimit;
      var offset := (pg - 1) * lim;

      var clauses, params := BuildListQuery(f, lim, offset);
      var result := Eval(clauses, params, rows);
      if result.None? {
        return Error(500, FetchFailed);
      }

      var countClauses, countParams := BuildCountQuery(f);
      var total := EvalCount(countClauses, countParams, rows).value;

      r := Ok(200, Listing(result.value, pg, lim, total, TotalPages(total, lim)));
    }

    /** POST /products after the gate. */
    method Create(caller: Claims, body: ProductBody) returns (r: Outcome<Saved>)
      requires Valid()
      modifies this
      ensures Valid()
      ensures Effect(r, State()) == CreateEffect(old(State()), caller, body)
    {
      ghost var before := State();
      var verdict := ValidateProduct(body);
      if verdict.Reject? {
        r := Error(verdict.status, verdict.message);
      } else {
        var product := Product(nextId, body.name.value, body.price.cents, body.category.value, body.description.value, caller.id);
        AppendKeepsConsistent(before, product);
        rows := rows + [product];
        nextId := nextId + 1;
        r := Ok(201, Saved(ProductCreated, product));
        assert State() == Table(before.rows + [product], before.nextId + 1);
        assert Valid();
      }
    }

    /** PUT /products/:id after the gate. */
    method Update(caller: Claims, id: int, body: ProductBody) returns (r: Outcome<Saved>)
      requires Valid()
      modifies this
      ensures Valid()
      ensures Effect(r, State()) == UpdateEffect(old(State()), caller, id, body)
    {
      var verdict := ValidateProduct(body);
      if verdict.Reject? {
        return Error(verdict.status, verdict.message);
      }
      var found := IndexOfId(rows, id);
      if found.None? {
        return Error(404, ProductNotFound);
      }
      var k := found.value;
      if rows[k].ownerId != caller.id {
        return Error(403, NotOwnerOfUpdate);
      }
      var updated := rows[k].(name := body.name.value, priceCents := body.price.cents,
                              category := body.category.value, description := body.description.value);
      ReplaceKeepsConsistent(State(), k, updated);
      rows := rows[k := updated];
      r := Ok(200, Saved(ProductUpdated, updated));
    }

    /** DELETE /products/:id after the gate. */
    method Delete(caller: Claims, id: int) returns (r: Outcome<string>)
      requires Valid()
      modifies this
      ensures Valid()
      ensures Effect(r, State()) == DeleteEffect(old(State()), caller, id)
    {
      var found := IndexOfId(rows, id);
      if found.None? {
        return Error(404, ProductNotFound);
      }
      var k := found.value;
      if rows[k].ownerId != caller.id {
        return Error(403, NotOwnerOfDelete);
      }
      RemoveKeepsConsistent(State(), k);
      rows := rows[..k] + rows[k + 1..];
      r := Ok(200, ProductDeleted);
    }
  }
}
