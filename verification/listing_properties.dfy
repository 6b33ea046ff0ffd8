/** Properties of the list endpoint that relate its validation to its inputs
    and one page to the next. */
module ListingProperties {
  import opened Wrappers
  import opened UuidText
  import opened Decimal
  import opened Records
  import opened Listing

  // ---------------------------------------------------------------------------
  // Validation

  /** Which requests are refused, and with which message: the owner check
      comes first, then the page size, then the one token that is used. */
  lemma Rejections(req: ListRequest)
    ensures req.userId != "" && req.pageSize != "" && Atoi(req.pageSize).None? ==>
      PlanList(req) == Err(BadRequest(InvalidPageSize))
    ensures req.userId != "" && PageSize(req.pageSize).Some? &&
            req.pageToken != "" && Parse(req.pageToken).None? ==>
      PlanList(req) == Err(BadRequest(InvalidPageToken))
    ensures req.userId != "" && PageSize(req.pageSize).Some? && req.pageToken == "" &&
            req.prevPageToken != "" && Parse(req.prevPageToken).None? ==>
      PlanList(req) == Err(BadRequest(InvalidPrevPageToken))
    ensures PlanList(req).Ok? <==>
      && req.userId != ""
      && PageSize(req.pageSize).Some?
      && (req.pageToken != "" ==> Parse(req.pageToken).Some?)
      && (req.pageToken == "" && req.prevPageToken != "" ==> Parse(req.prevPageToken).Some?)
  {
  }

  /** An absent page size is 10; any 64-bit integer written in decimal,
      zero and negative values included, is taken unchanged. */
  lemma PageSizeTaken(req: ListRequest, n: int)
    requires PlanList(req).Ok?
    requires MinInt <= n <= MaxInt
    ensures req.pageSize == "" ==> PlanList(req).value.pageSize == DefaultPageSize
    ensures PlanList(req.(pageSize := Itoa(n))) == Ok(PlanList(req).value.(pageSize := n))
  {
    AtoiItoa(n);
    assert Itoa(n) != "";
  }

  /** A present forward token makes the backward token irrelevant, even a
      malformed one. */
  lemma ForwardTokenWins(req: ListRequest, other: string)
    requires req.pageToken != ""
    ensures PlanList(req.(prevPageToken := other)) == PlanList(req)
    ensures PlanList(req).Ok? ==> PlanList(req).value.paging.After?
  {
  }

  // ---------------------------------------------------------------------------
  // What a statement selects

  /** The rows the rendered statement selects, read as the store reads its
      WHERE clause: the owner, the status when one is given, and the bound on
      the partitioner token `tokenOf` of the row identifier. */
  ghost predicate Selects(p: ListPlan, tokenOf: Uuid -> int, t: Todo)
  {
    && t.userId == p.userId
    && (p.status != "" ==> t.status == p.status)
    && match p.paging
       case FromStart => true
       case After(u) => tokenOf(t.id) > tokenOf(u)
       case Before(u) => tokenOf(t.id) < tokenOf(u)
  }

  /** The order in which the store yields rows: by partitioner token. */
  ghost predicate InTokenOrder(rows: seq<Todo>, tokenOf: Uuid -> int)
  {
    forall i, j :: 0 <= i < j < |rows| ==> tokenOf(rows[i].id) <= tokenOf(rows[j].id)
  }

  /** Following `next_page_token`: the same request with the returned token as
      `page_token` is accepted, asks for the rows after the last row of the
      page, and none of the rows it can select is on the page already. */
  lemma NextPageDisjoint(req: ListRequest, tokenOf: Uuid -> int, rows: seq<Todo>)
    requires PlanList(req).Ok?
    requires rows != [] && InTokenOrder(rows, tokenOf)
    ensures PlanList(req.(pageToken := PageOf(rows, PlanList(req).value.pageSize).nextPageToken))
         == Ok(PlanList(req).value.(paging := After(rows[|rows| - 1].id)))
    ensures forall t: Todo, i ::
      0 <= i < |rows| && Selects(PlanList(req).value.(paging := After(rows[|rows| - 1].id)), tokenOf, t) ==>
      t.id != rows[i].id
  {
  }

  /** Following `prev_page_token` of a full page (with no forward token): the
      request is accepted, asks for the rows before the first row of the page,
      and none of the rows it can select is on the page already. */
  lemma PrevPageDisjoint(req: ListRequest, tokenOf: Uuid -> int, rows: seq<Todo>)
    requires PlanList(req).Ok?
    requires |rows| == PlanList(req).value.pageSize && rows != [] && InTokenOrder(rows, tokenOf)
    ensures PlanList(req.(pageToken := "", prevPageToken := PageOf(rows, PlanList(req).value.pageSize).prevPageToken))
         == Ok(PlanList(req).value.(paging := Before(rows[0].id)))
    ensures forall t: Todo, i ::
      0 <= i < |rows| && Selects(PlanList(req).value.(paging := Before(rows[0].id)), tokenOf, t) ==>
      t.id != rows[i].id
  {
  }

  /** The statement sent to the store determines the plan it was built from:
      no two accepted requests that ask for different pages send the same
      statement. */
  lemma RenderInjective(p: ListPlan, q: ListPlan)
    requires Render(p) == Render(q)
    ensures p == q
  {
    if p.paging.After? != q.paging.After? || p.paging.Before? != q.paging.Before? {
      BoundsDiffer(SelectByUser + StatusClause(p.status));
      assert false;
    }
  }

  /** A forward and a backward bound never render to the same text. */
  lemma BoundsDiffer(head: string)
    ensures head + (AfterFilter + LimitClause) != head + (BeforeFilter + LimitClause)
  {
    assert (head + (AfterFilter + LimitClause))[|head| + 15] == '>';
    assert (head + (BeforeFilter + LimitClause))[|head| + 15] == '<';
  }
}
