/** The SQL that GET /products sends to the database, kept as structure:
    the clauses appended to `SELECT ... FROM products WHERE 1=1` with their
    `$n` placeholders, and the parameter list bound to them. `Eval` and
    `EvalCount` give such a query its meaning over a table of rows, so that
    the builders can be proved to ask for exactly the listing that
    `Products` specifies. */
module ProductQuery {
  import opened Http
  import opened Text
  import opened Products

  /** One appended clause; every number is the n of a `$n` placeholder. */
  datatype Clause =
    | CategoryEquals(param: nat)                                     // AND category = $n
    | NameOrDescriptionILike(nameParam: nat, descriptionParam: nat)  // AND (name ILIKE $n OR description ILIKE $m)
    | OrderByCreatedAtDesc                                           // ORDER BY created_at DESC
    | Limit(param: nat)                                              // LIMIT $n
    | Offset(param: nat)                                             // OFFSET $n

  /** A value of the parameter list. */
  datatype Param = Str(text: string) | Num(number: int)

  // ------------------------------------------------------------ evaluation

  /** The value `$n` stands for: the n-th parameter, counting from 1. */
  function Bind(params: seq<Param>, n: nat): Option<Param> {
    if 1 <= n <= |params| then Some(params[n - 1]) else None
  }

  /** ILIKE for the patterns the handler builds: `%term%` matches a text
      that contains the term, ignoring ASCII case; any other pattern must
      equal the text, ignoring ASCII case. */
  predicate ILike(text: string, pattern: string) {
    if |pattern| >= 2 && pattern[0] == '%' && pattern[|pattern| - 1] == '%'
    then ContainsIgnoringCase(text, pattern[1..|pattern| - 1])
    else Lower(text) == Lower(pattern)
  }

  /** The parameter the search filter binds: `%term%`. */
  function Pattern(term: string): string {
    "%" + term + "%"
  }

  function KeepCategory(rows: seq<Product>, category: string): seq<Product> {
    if rows == [] then []
    else (if rows[0].category == category then [rows[0]] else []) + KeepCategory(rows[1..], category)
  }

  function KeepLike(rows: seq<Product>, namePattern: string, descriptionPattern: string): seq<Product> {
    if rows == [] then []
    else (if ILike(rows[0].name, namePattern) || ILike(rows[0].description, descriptionPattern) then [rows[0]] else [])
         + KeepLike(rows[1..], namePattern, descriptionPattern)
  }

  /** What the clauses read so far ask for: the rows passing the WHERE
      conditions, whether to order them newest first, and the LIMIT and
      OFFSET values. */
  datatype Plan = Plan(rows: seq<Product>, newestFirst: bool, limit: Option<int>, offset: Option<int>)

  /** Reads one clause; None is a database error (a placeholder with no
      parameter, or a parameter of the wrong type). */
  function Step(plan: Plan, c: Clause, params: seq<Param>): Option<Plan> {
    match c
    case CategoryEquals(n) =>
      (match Bind(params, n)
       case Some(Str(v)) => Some(plan.(rows := KeepCategory(plan.rows, v)))
       case _ => None)
    case NameOrDescriptionILike(n, m) =>
      (match (Bind(params, n), Bind(params, m))
       case (Some(Str(p)), Some(Str(q))) => Some(plan.(rows := KeepLike(plan.rows, p, q)))
       case _ => None)
    case OrderByCreatedAtDesc => Some(plan.(newestFirst := true))
    case Limit(n) =>
      (match Bind(params, n)
       case Some(Num(k)) => Some(plan.(limit := Some(k)))
       case _ => None)
    case Offset(n) =>
      (match Bind(params, n)
       case Some(Num(k)) => Some(plan.(offset := Some(k)))
       case _ => None)
  }

  function Run(clauses: seq<Clause>, params: seq<Param>, plan: Plan): Option<Plan>
    decreases |clauses|
  {
    if clauses == [] then Some(plan)
    else
      match Step(plan, clauses[0], params)
      case None => None
      case Some(next) => Run(clauses[1..], params, next)
  }

  function Start(table: seq<Product>): Plan {
    Plan(table, false, None, None)
  }

  /** The rows a `SELECT *` query returns: the WHERE conditions, then the
      ordering, then OFFSET, then LIMIT, whatever order the clauses were
      written in. None is a database error, including a negative LIMIT or
      OFFSET, which the database refuses. Rows are kept in creation order,
      so ordering by creation time descending reverses them. */
  function Eval(clauses: seq<Clause>, params: seq<Param>, table: seq<Product>): Option<seq<Product>> {
    match Run(clauses, params, Start(table))
    case None => None
    case Some(plan) => Finish(plan)
  }

  /** Ordering, then OFFSET, then LIMIT. */
  function Finish(plan: Plan): Option<seq<Product>> {
    var ordered := if plan.newestFirst then Reverse(plan.rows) else plan.rows;
    var offset := if plan.offset.Some? then plan.offset.value else 0;
    if offset < 0 || (plan.limit.Some? && plan.limit.value < 0) then None
    else
      var skipped := if offset >= |ordered| then [] else ordered[offset..];
      Some(if plan.limit.None? || plan.limit.value >= |skipped| then skipped else skipped[..plan.limit.value])
  }

  /** The number a `SELECT COUNT(*)` query returns: how many rows pass its
      WHERE conditions. */
  function EvalCount(clauses: seq<Clause>, params: seq<Param>, table: seq<Product>): Option<nat> {
    match Run(clauses, params, Start(table))
    case None => None
    case Some(plan) => Some(|plan.rows|)
  }

  // ------------------------------------------------------- shape of a query

  /** The placeholder a clause's parameter position holds, if it has one
      (for the search clause, the one its name test uses). */
  function Slot(c: Clause): seq<nat> {
    match c
    case CategoryEquals(n) => [n]
    case NameOrDescriptionILike(n, _) => [n]
    case OrderByCreatedAtDesc => []
    case Limit(n) => [n]
    case Offset(n) => [n]
  }

  /** Every placeholder a clause mentions. */
  function Placeholders(c: Clause): set<nat> {
    match c
    case NameOrDescriptionILike(n, m) => {n, m}
    case _ => set n | n in Slot(c)
  }

  /** The placeholders of the clauses in the order they were appended. */
  function Slots(clauses: seq<Clause>): seq<nat> {
    if clauses == [] then [] else Slots(clauses[..|clauses| - 1]) + Slot(clauses[|clauses| - 1])
  }

  lemma SlotsAppend(clauses: seq<Clause>, c: Clause)
    ensures Slots(clauses + [c]) == Slots(clauses) + Slot(c)
  {
    assert (clauses + [c])[..|clauses|] == clauses;
  }

  /** Placeholders are numbered $1, $2, ... in the order the clauses appear,
      the search clause uses one placeholder for both of its tests, and
      there is exactly one parameter per placeholder number. */
  ghost predicate NumberedFromOne(clauses: seq<Clause>, params: seq<Param>) {
    && |Slots(clauses)| == |params|
    && (forall k | 0 <= k < |params| :: Slots(clauses)[k] == k + 1)
    && (forall i | 0 <= i < |clauses| && clauses[i].NameOrDescriptionILike? ::
          clauses[i].nameParam == clauses[i].descriptionParam)
  }

  /** A category clause is never appended after a search clause. */
  ghost predicate CategoryBeforeSearch(clauses: seq<Clause>) {
    forall i, j | 0 <= i < |clauses| && 0 <= j < |clauses| ::
      clauses[i].CategoryEquals? && clauses[j].NameOrDescriptionILike? ==> i < j
  }

  /** How many of the two filters are given (truthy). */
  function ActiveFilters(f: Filter): nat {
    (if Truthy(f.category) then 1 else 0) + (if Truthy(f.search) then 1 else 0)
  }

  /** The filter part of a query for `f`: a category clause, bound to the
      category, first when that filter is given; a search clause, bound to
      `%term%`, last when that filter is given; nothing else. */
  ghost predicate FilterQuery(f: Filter, clauses: seq<Clause>, params: seq<Param>) {
    && |clauses| == |params| == ActiveFilters(f)
    && (Truthy(f.category) ==> clauses[0] == CategoryEquals(1) && params[0] == Str(f.category.value))
    && (Truthy(f.search) ==>
          && clauses[|clauses| - 1] == NameOrDescriptionILike(|clauses|, |clauses|)
          && params[|clauses| - 1] == Str(Pattern(f.search.value)))
  }

  // -------------------------------------------------------------- builders

  /** The list query of GET /products: the optional category clause, the
      optional search clause, the ordering, then LIMIT and OFFSET on the two
      last placeholders. It asks for exactly the window of matching rows,
      newest first, that starts at `offset` and holds at most `limit` rows,
      and fails in the database when `offset` is negative. */
  method BuildListQuery(f: Filter, limit: nat, offset: int) returns (clauses: seq<Clause>, params: seq<Param>)
    ensures NumberedFromOne(clauses, params)
    ensures CategoryBeforeSearch(clauses)
    ensures |clauses| >= 3 && |params| >= 2
    ensures clauses[|clauses| - 3..] == [OrderByCreatedAtDesc, Limit(|params| - 1), Offset(|params|)]
    ensures params[|params| - 2..] == [Num(limit), Num(offset)]
    ensures FilterQuery(f, clauses[..|clauses| - 3], params[..|params| - 2])
    ensures forall table :: Eval(clauses, params, table) ==
              if offset < 0 then None else Some(Window(NewestFirst(Filtered(table, f)), offset, limit))
  {
    clauses := [];
    params := [];
    var paramCount := 0;

    if Truthy(f.category) {
      paramCount := paramCount + 1;
      clauses := clauses + [CategoryEquals(paramCount)];
      params := params + [Str(f.category.value)];
    }

    if Truthy(f.search) {
      paramCount := paramCount + 1;
      clauses := clauses + [NameOrDescriptionILike(paramCount, paramCount)];
      params := params + [Str(Pattern(f.search.value))];
    }
    assert FilterQuery(f, clauses, params) && paramCount == |params|;
    ghost var filterClauses, filterParams := clauses, params;

    clauses := clauses + [OrderByCreatedAtDesc];

    paramCount := paramCount + 1;
    clauses := clauses + [Limit(paramCount)];
    params := params + [Num(limit)];

    paramCount := paramCount + 1;
    clauses := clauses + [Offset(paramCount)];
    params := params + [Num(offset)];

    assert clauses == filterClauses + [OrderByCreatedAtDesc, Limit(|filterParams| + 1), Offset(|filterParams| + 2)];
    assert params == filterParams + [Num(limit), Num(offset)];
    assert clauses[..|clauses| - 3] == filterClauses;
    assert params[..|params| - 2] == filterParams;
    FilterQueryNumbered(f, filterClauses, filterParams);
    ListTailNumbered(filterClauses, filterParams, limit, offset);
    forall table
      ensures Eval(clauses, params, table) ==
                if offset < 0 then None else Some(Window(NewestFirst(Filtered(table, f)), offset, limit))
    {
      ListQueryMeaning(f, filterClauses, filterParams, limit, offset, table);
    }
  }

  /** The count query of GET /products: the same filter clauses with the
      same parameters as the list query, and no ordering or pagination; it
      counts exactly the matching rows. */
  method BuildCountQuery(f: Filter) returns (clauses: seq<Clause>, params: seq<Param>)
    ensures NumberedFromOne(clauses, params)
    ensures CategoryBeforeSearch(clauses)
    ensures FilterQuery(f, clauses, params)
    ensures forall table :: EvalCount(clauses, params, table) == Some(|Filtered(table, f)|)
  {
    clauses := [];
    params := [];
    var countParamCount := 0;

    if Truthy(f.category) {
      countParamCount := countParamCount + 1;
      clauses := clauses + [CategoryEquals(countParamCount)];
      params := params + [Str(f.category.value)];
    }

    if Truthy(f.search) {
      countParamCount := countParamCount + 1;
      clauses := clauses + [NameOrDescriptionILike(countParamCount, countParamCount)];
      params := params + [Str(Pattern(f.search.value))];
    }

    assert FilterQuery(f, clauses, params);
    FilterQueryNumbered(f, clauses, params);
    forall table ensures EvalCount(clauses, params, table) == Some(|Filtered(table, f)|) {
      assert params[..|clauses|] == params;
      FilterPartMeaning(f, clauses, params, table);
    }
  }

  // ---------------------------------------------------------------- lemmas

  /** The filter part of a query is determined by the filter: the count
      query's clauses and parameters are the list query's without its last
      three clauses and last two parameters. */
  lemma FilterQueryUnique(f: Filter, c1: seq<Clause>, p1: seq<Param>, c2: seq<Clause>, p2: seq<Param>)
    requires FilterQuery(f, c1, p1) && FilterQuery(f, c2, p2)
    ensures c1 == c2 && p1 == p2
  {
    if Truthy(f.category) && Truthy(f.search) {
      assert c1 == [c1[0], c1[1]] && c2 == [c2[0], c2[1]];
      assert p1 == [p1[0], p1[1]] && p2 == [p2[0], p2[1]];
    }
  }

  /** The filter part alone is numbered from $1, category first. */
  lemma FilterQueryNumbered(f: Filter, clauses: seq<Clause>, params: seq<Param>)
    requires FilterQuery(f, clauses, params)
    ensures NumberedFromOne(clauses, params) && CategoryBeforeSearch(clauses)
  {
    if |clauses| == 1 {
      SlotsAppend([], clauses[0]);
      assert [] + [clauses[0]] == clauses;
    } else if |clauses| == 2 {
      SlotsAppend([], clauses[0]);
      SlotsAppend([clauses[0]], clauses[1]);
      assert [] + [clauses[0]] == [clauses[0]];
      assert [clauses[0]] + [clauses[1]] == clauses;
    }
  }

  /** The ordering, LIMIT and OFFSET clauses continue the numbering: LIMIT
      and OFFSET take the two numbers after the filter part's. */
  lemma ListTailNumbered(clauses: seq<Clause>, params: seq<Param>, limit: nat, offset: int)
    requires NumberedFromOne(clauses, params) && CategoryBeforeSearch(clauses)
    ensures var n := |params|;
            && NumberedFromOne(clauses + [OrderByCreatedAtDesc, Limit(n + 1), Offset(n + 2)], params + [Num(limit), Num(offset)])
            && CategoryBeforeSearch(clauses + [OrderByCreatedAtDesc, Limit(n + 1), Offset(n + 2)])
  {
    var n := |params|;
    var c1 := clauses + [OrderByCreatedAtDesc];
    var c2 := c1 + [Limit(n + 1)];
    var c3 := c2 + [Offset(n + 2)];
    assert c3 == clauses + [OrderByCreatedAtDesc, Limit(n + 1), Offset(n + 2)];
    SlotsAppend(clauses, OrderByCreatedAtDesc);
    SlotsAppend(c1, Limit(n + 1));
    SlotsAppend(c2, Offset(n + 2));
    assert Slots(c3) == Slots(clauses) + [n + 1, n + 2];
  }

  /** Every placeholder a clause mentions has its parameter: none is above
      the number of parameters, the highest placeholder number. */
  lemma {:induction false} EveryPlaceholderBound(clauses: seq<Clause>, params: seq<Param>)
    requires NumberedFromOne(clauses, params)
    ensures forall i, n | 0 <= i < |clauses| && n in Placeholders(clauses[i]) :: 1 <= n <= |params|
  {
    if clauses != [] {
      var front := clauses[..|clauses| - 1];
      var last := clauses[|clauses| - 1];
      assert Slots(clauses) == Slots(front) + Slot(last);
      var m := |Slots(front)|;
      assert forall k | 0 <= k < m :: Slots(front)[k] == Slots(clauses)[k];
      assert forall i | 0 <= i < |front| :: front[i] == clauses[i];
      EveryPlaceholderBound(front, params[..m]);
      assert last.NameOrDescriptionILike? ==> last.nameParam == last.descriptionParam;
      assert Slot(last) != [] ==> Slot(last)[0] == Slots(clauses)[m];
    }
  }

  /** A `%term%` pattern is the case-insensitive substring test. */
  lemma ILikeWrapped(text: string, term: string)
    ensures ILike(text, Pattern(term)) == ContainsIgnoringCase(text, term)
  {
    var pattern := Pattern(term);
    assert pattern[1..|pattern| - 1] == term;
  }

  /** Given no filter, every row is kept. */
  lemma {:induction false} FilteredNothing(rows: seq<Product>, f: Filter)
    requires !Truthy(f.category) && !Truthy(f.search)
    ensures Filtered(rows, f) == rows
  {
    if rows != [] {
      FilteredNothing(rows[1..], f);
      assert [rows[0]] + rows[1..] == rows;
    }
  }

  /** The category clause's effect, when that filter is given. */
  function ByCategory(rows: seq<Product>, f: Filter): seq<Product> {
    if Truthy(f.category) then KeepCategory(rows, f.category.value) else rows
  }

  /** The search clause's effect, when that filter is given. */
  function BySearch(rows: seq<Product>, f: Filter): seq<Product> {
    if Truthy(f.search) then KeepLike(rows, Pattern(f.search.value), Pattern(f.search.value)) else rows
  }

  /** Keeping the category rows and then the search rows keeps exactly the
      rows that match both filters. */
  lemma {:induction false} CategoryThenSearch(rows: seq<Product>, f: Filter)
    ensures Filtered(rows, f) == BySearch(ByCategory(rows, f), f)
  {
    if rows == [] {
    } else if !Truthy(f.category) && !Truthy(f.search) {
      FilteredNothing(rows, f);
    } else {
      var x := rows[0];
      CategoryThenSearch(rows[1..], f);
      if Truthy(f.search) {
        ILikeWrapped(x.name, f.search.value);
        ILikeWrapped(x.description, f.search.value);
      }
      if Truthy(f.category) && Truthy(f.search) {
        var c := KeepCategory(rows, f.category.value);
        if x.category == f.category.value {
          assert c == [x] + KeepCategory(rows[1..], f.category.value);
          assert c[0] == x && c[1..] == KeepCategory(rows[1..], f.category.value);
        } else {
          assert c == KeepCategory(rows[1..], f.category.value);
        }
      }
    }
  }

  /** Running the clauses of two pieces of a query one after the other. */
  lemma {:induction false} RunAppend(a: seq<Clause>, b: seq<Clause>, params: seq<Param>, plan: Plan)
    ensures Run(a + b, params, plan) ==
              match Run(a, params, plan) case None => None case Some(p) => Run(b, params, p)
    decreases |a|
  {
    if a == [] {
      assert a + b == b;
    } else {
      assert (a + b)[0] == a[0] && (a + b)[1..] == a[1..] + b;
      match Step(plan, a[0], params)
      case None =>
        assert Run(a + b, params, plan) == None;
      case Some(next) =>
        RunAppend(a[1..], b, params, next);
        assert Run(a + b, params, plan) == Run(a[1..] + b, params, next);
    }
  }

  /** One clause alone. */
  lemma RunOne(c: Clause, params: seq<Param>, plan: Plan)
    ensures Run([c], params, plan) == Step(plan, c, params)
  {
    assert [c][1..] == [];
  }

  /** The filter part of a query keeps exactly the matching rows and asks
      for no ordering and no pagination. */
  lemma FilterPartMeaning(f: Filter, clauses: seq<Clause>, params: seq<Param>, table: seq<Product>)
    requires |clauses| <= |params| && FilterQuery(f, clauses, params[..|clauses|])
    ensures Run(clauses, params, Start(table)) == Some(Start(Filtered(table, f)))
  {
    CategoryThenSearch(table, f);
    var byCategory := ByCategory(table, f);
    if Truthy(f.category) && Truthy(f.search) {
      assert clauses == [clauses[0]] + [clauses[1]];
      RunAppend([clauses[0]], [clauses[1]], params, Start(table));
      RunOne(clauses[0], params, Start(table));
      RunOne(clauses[1], params, Start(byCategory));
    } else if Truthy(f.category) {
      assert clauses == [clauses[0]];
      RunOne(clauses[0], params, Start(table));
    } else if Truthy(f.search) {
      assert clauses == [clauses[0]];
      RunOne(clauses[0], params, Start(table));
    } else {
      assert clauses == [];
    }
  }

  /** The ordering and pagination clauses on top of the filtered rows. */
  lemma TailMeaning(rows: seq<Product>, params: seq<Param>, limit: nat, offset: int)
    requires |params| >= 2 && params[|params| - 2..] == [Num(limit), Num(offset)]
    ensures var n := |params| - 2;
            Run([OrderByCreatedAtDesc, Limit(n + 1), Offset(n + 2)], params, Start(rows)) ==
              Some(Plan(rows, true, Some(limit), Some(offset)))
  {
    var n := |params| - 2;
    assert params[n] == Num(limit) && params[n + 1] == Num(offset);
    var tail := [OrderByCreatedAtDesc, Limit(n + 1), Offset(n + 2)];
    assert tail == [OrderByCreatedAtDesc] + ([Limit(n + 1)] + [Offset(n + 2)]);
    var p1 := Plan(rows, true, None, None);
    var p2 := Plan(rows, true, Some(limit), None);
    RunAppend([OrderByCreatedAtDesc], [Limit(n + 1)] + [Offset(n + 2)], params, Start(rows));
    RunOne(OrderByCreatedAtDesc, params, Start(rows));
    RunAppend([Limit(n + 1)], [Offset(n + 2)], params, p1);
    RunOne(Limit(n + 1), params, p1);
    RunOne(Offset(n + 2), params, p2);
  }

  /** OFFSET then LIMIT on rows ordered newest first is the window. */
  lemma PaginationMeaning(rows: seq<Product>, limit: nat, offset: int)
    ensures Finish(Plan(rows, true, Some(limit), Some(offset))) ==
              if offset < 0 then None else Some(Window(NewestFirst(rows), offset, limit))
  {
    if offset >= 0 {
      var ordered := Reverse(rows);
      var skipped := if offset >= |ordered| then [] else ordered[offset..];
      var taken := if limit >= |skipped| then skipped else skipped[..limit];
      var w := Window(NewestFirst(rows), offset, limit);
      assert |taken| == |w|;
      assert forall i | 0 <= i < |w| :: taken[i] == w[i];
      assert taken == w;
    }
  }

  /** The whole list query asks for the window of matching rows, newest
      first, or fails in the database when the offset is negative. */
  lemma ListQueryMeaning(f: Filter, filterClauses: seq<Clause>, filterParams: seq<Param>,
                         limit: nat, offset: int, table: seq<Product>)
    requires FilterQuery(f, filterClauses, filterParams)
    ensures var n := |filterParams|;
            var clauses := filterClauses + [OrderByCreatedAtDesc, Limit(n + 1), Offset(n + 2)];
            var params := filterParams + [Num(limit), Num(offset)];
            Eval(clauses, params, table) ==
              if offset < 0 then None else Some(Window(NewestFirst(Filtered(table, f)), offset, limit))
  {
    var n := |filterParams|;
    var tail := [OrderByCreatedAtDesc, Limit(n + 1), Offset(n + 2)];
    var params := filterParams + [Num(limit), Num(offset)];
    assert params[..|filterClauses|] == filterParams;
    assert params[|params| - 2..] == [Num(limit), Num(offset)];
    var rows := Filtered(table, f);
    var plan := Plan(rows, true, Some(limit), Some(offset));
    FilterPartMeaning(f, filterClauses, params, table);
    RunAppend(filterClauses, tail, params, Start(table));
    TailMeaning(rows, params, limit, offset);
    assert Run(filterClauses + tail, params, Start(table)) == Some(plan);
    PaginationMeaning(rows, limit, offset);
  }
}
