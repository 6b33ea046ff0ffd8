/** The list endpoint, GET /todos: validating the query parameters, building
    the CQL statement and its positional parameters, collecting the rows the
    driver yields, and deriving the page tokens of the response. */
module Listing {
  import opened Wrappers
  import opened UuidText
  import opened Decimal
  import opened Records

  /** The query parameters of the request; an absent parameter reads as "". */
  datatype ListRequest = ListRequest(
    userId: string,
    status: string,
    pageSize: string,
    pageToken: string,
    prevPageToken: string)

  /** Which side of a cursor row the page lies on, in the store's token order. */
  datatype Paging = FromStart | After(cursor: Uuid) | Before(cursor: Uuid)

  /** What an accepted request asks the store for. */
  datatype ListPlan = ListPlan(userId: string, status: string, paging: Paging, pageSize: int)

  /** A positional parameter: a text, an identifier or an integer. */
  datatype Param = Text(text: string) | Id(id: Uuid) | Int(n: int)

  datatype Statement = Statement(query: string, params: seq<Param>)

  /** A built statement together with the page size it was built for. */
  datatype Prepared = Prepared(statement: Statement, pageSize: int)

  /** The page written back as JSON. */
  datatype Page = Page(todos: seq<Todo>, nextPageToken: string, prevPageToken: string, currentPageSize: nat)

  /** What the driver's iterator yields for a statement: the rows it scans, in
      order, and whether closing the iterator reports an error. */
  datatype Answer = Answer(rows: seq<Todo>, failed: bool)

  const DefaultPageSize: int := 10

  const SelectByUser := "SELECT id, user_id, title, description, status, created, updated FROM todos WHERE user_id = ?"
  const StatusFilter := " AND status = ?"
  const AfterFilter := " AND token(id) > token(?)"
  const BeforeFilter := " AND token(id) < token(?)"
  const LimitClause := " LIMIT ?ALLOW FILTERING"

  const UserIdRequired := "User ID is required"
  const InvalidPageSize := "Invalid page size"
  const InvalidPageToken := "Invalid page token"
  const InvalidPrevPageToken := "Invalid prev page token"

  // ---------------------------------------------------------------------------
  // Validation

  /** The page size: 10 when absent, otherwise whatever `Atoi` reads. */
  function PageSize(text: string): Option<int>
  {
    if text == "" then Some(DefaultPageSize) else Atoi(text)
  }

  /** The cursor: a present forward token is used, and then the backward token
      is not looked at; the backward token is used only when no forward token
      is present. A token that is not an identifier is a client error. */
  function Cursor(pageToken: string, prevPageToken: string): Outcome<Paging>
  {
    if pageToken != "" then
      match Parse(pageToken)
      case Some(u) => Ok(After(u))
      case None => Err(BadRequest(InvalidPageToken))
    else if prevPageToken != "" then
      match Parse(prevPageToken)
      case Some(u) => Ok(Before(u))
      case None => Err(BadRequest(InvalidPrevPageToken))
    else Ok(FromStart)
  }

  /** The checks of the list handler, in the order it makes them. */
  function PlanList(req: ListRequest): (r: Outcome<ListPlan>)
    ensures req.userId == "" ==> r == Err(BadRequest(UserIdRequired))
    ensures r.Err? ==> r.error.BadRequest?
    ensures r.Ok? ==> r.value.userId == req.userId && r.value.status == req.status
    ensures r.Ok? && r.value.paging.After? ==>
      req.pageToken != "" && Parse(req.pageToken) == Some(r.value.paging.cursor)
    ensures r.Ok? && r.value.paging.Before? ==>
      req.pageToken == "" && req.prevPageToken != "" && Parse(req.prevPageToken) == Some(r.value.paging.cursor)
    ensures r.Ok? && r.value.paging.FromStart? ==> req.pageToken == "" && req.prevPageToken == ""
  {
    if req.userId == "" then Err(BadRequest(UserIdRequired))
    else
      match PageSize(req.pageSize)
      case None => Err(BadRequest(InvalidPageSize))
      case Some(size) =>
        match Cursor(req.pageToken, req.prevPageToken)
        case Err(e) => Err(e)
        case Ok(paging) => Ok(ListPlan(req.userId, req.status, paging, size))
  }

  // ---------------------------------------------------------------------------
  // The statement

  function StatusClause(status: string): string
  {
    if status != "" then StatusFilter else ""
  }

  function StatusParams(status: string): seq<Param>
  {
    if status != "" then [Text(status)] else []
  }

  function PagingClause(paging: Paging): string
  {
    match paging
    case FromStart => ""
    case After(_) => AfterFilter
    case Before(_) => BeforeFilter
  }

  function PagingParams(paging: Paging): seq<Param>
  {
    match paging
    case FromStart => []
    case After(u) => [Id(u)]
    case Before(u) => [Id(u)]
  }

  /** Where each of four concatenated fragments sits in the text. */
  lemma Pieces(a: string, b: string, c: string, d: string)
    ensures var q := a + b + (c + d);
      && |q| == |a| + |b| + |c| + |d|
      && q[..|a|] == a
      && q[|a|..|a| + |b|] == b
      && q[|q| - |d| - |c|..|q| - |d|] == c
      && q[|q| - |d|..] == d
      && (b == [] && c == [] ==> q == a + d)
  {
  }

  /** The ends of a list with one entry in front and one behind. */
  lemma Ends<T>(x: T, a: seq<T>, b: seq<T>, y: T)
    ensures var ps := [x] + a + b + [y];
      && |ps| == 2 + |a| + |b|
      && ps[0] == x && ps[|ps| - 1] == y
      && (a != [] ==> ps[1] == a[0])
      && (b != [] ==> ps[|ps| - 2] == b[|b| - 1])
  {
  }

  /** The query text: the owner filter, the status filter when a status is
      given, at most one token bound, then the row limit. */
  function QueryText(status: string, paging: Paging): (q: string)
    ensures |q| == |SelectByUser| + |StatusClause(status)| + |PagingClause(paging)| + |LimitClause|
    ensures q[..|SelectByUser|] == SelectByUser
    ensures q[|q| - |LimitClause|..] == LimitClause
  {
    Pieces(SelectByUser, StatusClause(status), PagingClause(paging), LimitClause);
    SelectByUser + StatusClause(status) + (PagingClause(paging) + LimitClause)
  }

  /** The status filter follows the owner filter exactly when a status is
      given. */
  lemma QueryTextStatus(status: string, paging: Paging)
    requires status != ""
    ensures QueryText(status, paging)[|SelectByUser|..|SelectByUser| + |StatusFilter|] == StatusFilter
  {
    var b := StatusClause(status);
    assert b == StatusFilter;
    Pieces(SelectByUser, b, PagingClause(paging), LimitClause);
  }

  /** A forward bound renders `>` and a backward bound `<`, right before the
      row limit. */
  lemma QueryTextBound(status: string, paging: Paging)
    requires !paging.FromStart?
    ensures var q := QueryText(status, paging);
      var bound := if paging.After? then AfterFilter else BeforeFilter;
      q[|q| - |LimitClause| - |bound|..|q| - |LimitClause|] == bound
  {
    var c := PagingClause(paging);
    assert c == if paging.After? then AfterFilter else BeforeFilter;
    Pieces(SelectByUser, StatusClause(status), c, LimitClause);
  }

  /** Without status and bound, the text is the owner filter and the limit. */
  lemma QueryTextPlain()
    ensures QueryText("", FromStart) == SelectByUser + LimitClause
  {
    Pieces(SelectByUser, "", "", LimitClause);
  }

  /** The statement for a plan: its query text, and the parameters of the
      fragments that carry them, in the same order: the owner, the status
      when given, the cursor when bounded, and the page size. */
  function Render(p: ListPlan): (st: Statement)
    ensures st.query == QueryText(p.status, p.paging)
    ensures |st.params| == 2 + |StatusParams(p.status)| + |PagingParams(p.paging)|
    ensures st.params[0] == Text(p.userId)
    ensures st.params[|st.params| - 1] == Int(p.pageSize)
    ensures p.status != "" ==> st.params[1] == Text(p.status)
    ensures !p.paging.FromStart? ==> st.params[|st.params| - 2] == Id(p.paging.cursor)
  {
    Ends(Text(p.userId), StatusParams(p.status), PagingParams(p.paging), Int(p.pageSize));
    Statement(
      QueryText(p.status, p.paging),
      [Text(p.userId)] + StatusParams(p.status) + PagingParams(p.paging) + [Int(p.pageSize)])
  }

  /** The list handler's validation and statement building, step by step:
      rejects exactly what `PlanList` rejects, and otherwise builds exactly
      `Render` of the plan. */
  method BuildListQuery(req: ListRequest) returns (r: Outcome<Prepared>)
    ensures PlanList(req).Err? ==> r == Err(PlanList(req).error)
    ensures PlanList(req).Ok? ==>
      r == Ok(Prepared(Render(PlanList(req).value), PlanList(req).value.pageSize))
  {
    if req.userId == "" {
      return Err(BadRequest(UserIdRequired));
    }

    var pageSize := DefaultPageSize;
    if req.pageSize != "" {
      var parsed := Atoi(req.pageSize);
      if parsed.None? {
        return Err(BadRequest(InvalidPageSize));
      }
      pageSize := parsed.value;
    }

    assert PageSize(req.pageSize) == Some(pageSize);
    var query := SelectByUser;
    var params := [Text(req.userId)];

    if req.status != "" {
      query := query + StatusFilter;
      params := params + [Text(req.status)];
    }

    var pagingQuery := "";
    if req.pageToken != "" {
      var token := Parse(req.pageToken);
      if token.None? {
        return Err(BadRequest(InvalidPageToken));
      }
      pagingQuery := AfterFilter;
      params := params + [Id(token.value)];
    } else if req.prevPageToken != "" {
      var token := Parse(req.prevPageToken);
      if token.None? {
        return Err(BadRequest(InvalidPrevPageToken));
      }
      pagingQuery := BeforeFilter;
      params := params + [Id(token.value)];
    }

    ghost var plan := PlanList(req).value;
    assert query == SelectByUser + StatusClause(req.status);
    assert params == [Text(req.userId)] + StatusParams(req.status) + PagingParams(plan.paging);
    assert pagingQuery == PagingClause(plan.paging);
    query := query + (pagingQuery + LimitClause);
    params := params + [Int(pageSize)];
    r := Ok(Prepared(Statement(query, params), pageSize));
  }

  // ---------------------------------------------------------------------------
  // The response

  /** Appends each scanned row to the result, in the order the iterator
      yields them; rows are values, so a later scan cannot alter an earlier
      entry. */
  method CollectRows(scanned: seq<Todo>) returns (todos: seq<Todo>)
    ensures todos == scanned
  {
    todos := [];
    var i := 0;
    while i < |scanned|
      invariant 0 <= i <= |scanned|
      invariant todos == scanned[..i]
    {
      todos := todos + [scanned[i]];
      i := i + 1;
    }
  }

  /** The response page for the collected rows: the next-page token names
      the last row, the previous-page token names the first row but only when
      the page is exactly full, and the reported size is the row count. */
  function PageOf(todos: seq<Todo>, pageSize: int): (pg: Page)
    ensures pg.todos == todos && pg.currentPageSize == |todos|
    ensures todos == [] ==> pg.nextPageToken == "" && pg.prevPageToken == ""
    ensures todos != [] ==> pg.nextPageToken == Format(todos[|todos| - 1].id)
    ensures todos != [] ==> Parse(pg.nextPageToken) == Some(todos[|todos| - 1].id)
    ensures pg.prevPageToken != "" <==> todos != [] && |todos| == pageSize
    ensures pg.prevPageToken != "" ==>
      pg.prevPageToken == Format(todos[0].id) && Parse(pg.prevPageToken) == Some(todos[0].id)
  {
    if todos == [] then Page(todos, "", "", 0)
    else
      var first, last := todos[0].id, todos[|todos| - 1].id;
      ParseFormat(first);
      ParseFormat(last);
      Page(todos, Format(last), if |todos| == pageSize then Format(first) else "", |todos|)
  }

  /** GET /todos. `run` stands for the driver executing a statement. A
      rejected request issues no statement; otherwise exactly the rendered
      statement is issued, a driver failure is an internal error, and the
      page is built from the rows in the order the driver yields them. */
  method GetTodos(req: ListRequest, run: Statement -> Answer)
    returns (issued: Option<Statement>, r: Outcome<Page>)
    ensures PlanList(req).Err? ==> issued == None && r == Err(PlanList(req).error)
    ensures PlanList(req).Ok? ==>
      var plan := PlanList(req).value;
      var answer := run(Render(plan));
      && issued == Some(Render(plan))
      && r == if answer.failed then Err(InternalError) else Ok(PageOf(answer.rows, plan.pageSize))
  {
    var prepared := BuildListQuery(req);
    if prepared.Err? {
      return None, Err(prepared.error);
    }
    var statement := prepared.value.statement;
    issued := Some(statement);
    var answer := run(statement);
    var todos := CollectRows(answer.rows);
    if answer.failed {
      return issued, Err(InternalError);
    }
    r := Ok(PageOf(todos, prepared.value.pageSize));
  }
}
