/** The four product routes as the server mounts them: the token gate runs
    before anything else, then (for POST and PUT) the product validator,
    then the handler. A request the gate turns away is answered with the
    gate's status and message and leaves the table untouched. */
module Routes {
  import opened Http
  import opened Validation
  import opened Auth
  import opened Products
  import opened Catalog

  /** What a gated route does: the gate's refusal, or the handler's effect
      for the admitted caller. */
  function Gated<T>(t: Table, g: Gate, handler: Claims -> Effect<T>): (e: Effect<T>)
    ensures g.Denied? ==> e == Effect(Error(g.status, g.message), t)
    ensures g.Admitted? ==> e == handler(g.caller)
  {
    match g
    case Denied(status, message) => Effect(Error(status, message), t)
    case Admitted(caller) => handler(caller)
  }

  // ------------------------------------------------------- specification

  /** GET /products behind the gate. */
  function GetRoute(t: Table, header: Option<string>, verify: string -> Option<Claims>,
                    f: Filter, page: Option<nat>, limit: Option<nat>): (r: Outcome<Listing>)
    requires Consistent(t)
    ensures Authenticate(header, verify).Denied? ==>
              r == Error(Authenticate(header, verify).status, Authenticate(header, verify).message)
    ensures Authenticate(header, verify).Admitted? ==> r == ListingFor(t.rows, f, page, limit)
    ensures r.Ok? ==> |r.value.products| <= r.value.total && forall p | p in r.value.products :: p in t.rows && Matches(p, f)
  {
    match Authenticate(header, verify)
    case Denied(status, message) => Error(status, message)
    case Admitted(_) => ListingFor(t.rows, f, page, limit)
  }

  /** POST /products: gate, validator, insert. */
  function PostRoute(t: Table, header: Option<string>, verify: string -> Option<Claims>, body: ProductBody): Effect<Saved> {
    Gated(t, Authenticate(header, verify), caller => CreateEffect(t, caller, body))
  }

  /** PUT /products/:id: gate, validator, lookup, owner check, update. */
  function PutRoute(t: Table, header: Option<string>, verify: string -> Option<Claims>, id: int, body: ProductBody): Effect<Saved> {
    Gated(t, Authenticate(header, verify), caller => UpdateEffect(t, caller, id, body))
  }

  /** DELETE /products/:id: gate, lookup, owner check, delete. */
  function DeleteRoute(t: Table, header: Option<string>, verify: string -> Option<Claims>, id: int): Effect<string> {
    Gated(t, Authenticate(header, verify), caller => DeleteEffect(t, caller, id))
  }

  // --------------------------------------------------------------- lemmas

  /** The order in which PUT /products/:id refuses a request: no token
      (401), then a token that does not verify (403), then an invalid body
      (400), then an unknown id (404), then a caller who is not the owner
      (403); each refusal leaves the table as it was. */
  lemma PutPrecedence(t: Table, header: Option<string>, verify: string -> Option<Claims>, id: int, body: ProductBody)
    ensures var e := PutRoute(t, header, verify, id, body);
            && (e.reply.Error? ==> e.after == t)
            && (BearerToken(header).None? ==> e.reply == Error(401, TokenRequired))
            && (BearerToken(header).Some? && verify(BearerToken(header).value).None? ==> e.reply == Error(403, TokenInvalid))
            && (Authenticate(header, verify).Admitted? && ValidateProduct(body).Reject? ==>
                  e.reply == Error(400, ValidateProduct(body).message))
            && (Authenticate(header, verify).Admitted? && ValidateProduct(body).Next? && IndexOfId(t.rows, id).None? ==>
                  e.reply == Error(404, ProductNotFound))
            && (Authenticate(header, verify).Admitted? && ValidateProduct(body).Next? && IndexOfId(t.rows, id).Some?
                && t.rows[IndexOfId(t.rows, id).value].ownerId != Authenticate(header, verify).caller.id ==>
                  e.reply == Error(403, NotOwnerOfUpdate))
            && (Authenticate(header, verify).Admitted? && ValidateProduct(body).Next? && IndexOfId(t.rows, id).Some?
                && t.rows[IndexOfId(t.rows, id).value].ownerId == Authenticate(header, verify).caller.id ==>
                  e.reply.Ok? && e.reply.status == 200)
  {
  }

  /** The order in which POST /products refuses a request: no token (401),
      then a token that does not verify (403), then an invalid body (400);
      each refusal leaves the table as it was, and an admitted caller with
      a valid body gets 201 and one new row that the caller owns. */
  lemma PostPrecedence(t: Table, header: Option<string>, verify: string -> Option<Claims>, body: ProductBody)
    ensures var e := PostRoute(t, header, verify, body);
            && (e.reply.Error? ==> e.after == t)
            && (BearerToken(header).None? ==> e.reply == Error(401, TokenRequired))
            && (BearerToken(header).Some? && verify(BearerToken(header).value).None? ==> e.reply == Error(403, TokenInvalid))
            && (Authenticate(header, verify).Admitted? && ValidateProduct(body).Reject? ==>
                  e.reply == Error(400, ValidateProduct(body).message))
            && (Authenticate(header, verify).Admitted? && ValidateProduct(body).Next? ==>
                  && e.reply.Ok? && e.reply.status == 201
                  && e.reply.value.product.ownerId == Authenticate(header, verify).caller.id
                  && e.after.rows == t.rows + [e.reply.value.product])
  {
  }

  /** A request the gate admits to DELETE /products/:id with an unknown id
      gets 404 whoever sent it, and a known id owned by someone else gets
      403; only the owner removes the row. */
  lemma DeleteOnlyByOwner(t: Table, header: Option<string>, verify: string -> Option<Claims>, id: int)
    requires Consistent(t)
    ensures var e := DeleteRoute(t, header, verify, id);
            && (e.reply.Error? ==> e.after == t)
            && (e.reply.Ok? <==>
                  && Authenticate(header, verify).Admitted?
                  && exists p | p in t.rows :: p.id == id && p.ownerId == Authenticate(header, verify).caller.id)
  {
    var e := DeleteRoute(t, header, verify, id);
    var g := Authenticate(header, verify);
    if g.Admitted? && exists p | p in t.rows :: p.id == id && p.ownerId == g.caller.id {
      var p :| p in t.rows && p.id == id && p.ownerId == g.caller.id;
      var k :| 0 <= k < |t.rows| && t.rows[k] == p;
      IdsAreUnique(t, k, IndexOfId(t.rows, id).value);
    }
  }

  /** Two rows of a consistent table with the same id are the same row. */
  lemma IdsAreUnique(t: Table, i: nat, j: nat)
    requires Consistent(t)
    requires i < |t.rows| && j < |t.rows| && t.rows[i].id == t.rows[j].id
    ensures i == j
  {
  }

  // ------------------------------------------------------------ the routes

  method GetProducts(store: ProductTable, header: Option<string>, verify: string -> Option<Claims>,
                     f: Filter, page: Option<nat>, limit: Option<nat>) returns (r: Outcome<Listing>)
    requires store.Valid()
    ensures r == GetRoute(store.State(), header, verify, f, page, limit)
  {
    var gate := Authenticate(header, verify);
    if gate.Denied? {
      return Error(gate.status, gate.message);
    }
    r := store.List(f, page, limit);
  }

  method PostProduct(store: ProductTable, header: Option<string>, verify: string -> Option<Claims>,
                     body: ProductBody) returns (r: Outcome<Saved>)
    requires store.Valid()
    modifies store
    ensures store.Valid()
    ensures Effect(r, store.State()) == PostRoute(old(store.State()), header, verify, body)
  {
    var gate := Authenticate(header, verify);
    if gate.Denied? {
      return Error(gate.status, gate.message);
    }
    r := store.Create(gate.caller, body);
  }

  method PutProduct(store: ProductTable, header: Option<string>, verify: string -> Option<Claims>,
                    id: int, body: ProductBody) returns (r: Outcome<Saved>)
    requires store.Valid()
    modifies store
    ensures store.Valid()
    ensures Effect(r, store.State()) == PutRoute(old(store.State()), header, verify, id, body)
  {
    var gate := Authenticate(header, verify);
    if gate.Denied? {
      return Error(gate.status, gate.message);
    }
    r := store.Update(gate.caller, id, body);
  }

  method DeleteProduct(store: ProductTable, header: Option<string>, verify: string -> Option<Claims>,
                       id: int) returns (r: Outcome<string>)
    requires store.Valid()
    modifies store
    ensures store.Valid()
    ensures Effect(r, store.State()) == DeleteRoute(old(store.State()), header, verify, id)
  {
    var gate := Authenticate(header, verify);
    if gate.Denied? {
      return Error(gate.status, gate.message);
    }
    r := store.Delete(gate.caller, id);
  }
}
