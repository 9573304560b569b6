/**
 * The `/api/history` route: a bearer-token gate, organization lookup, and a GET that
 * reads the caller's organization's rows within UTC+09:00 day bounds newest first, and a
 * POST that appends one row whose organization and user are taken from the server side.
 */
module HistoryRoute {
  import opened Wrappers
  import opened Text
  import opened CivilTime
  import opened Sorting
  import opened LedgerStore

  const BearerPrefix: string := "Bearer "

  /**
   * `getBearerToken`: the `Authorization` header (a missing one reads as "") must match
   * `^Bearer (.+)$`, so it is the prefix followed by at least one character and no line terminator.
   */
  function BearerToken(authorization: Option<string>): (t: Option<string>)
    ensures t.Some? ==> authorization == Some(BearerPrefix + t.value) && t.value != "" && NoLineTerminator(t.value)
  {
    var auth := authorization.GetOr("");
    if |auth| > |BearerPrefix| && auth[..|BearerPrefix|] == BearerPrefix
       && NoLineTerminator(auth[|BearerPrefix|..])
    then
      assert auth == auth[..|BearerPrefix|] + auth[|BearerPrefix|..];
      Some(auth[|BearerPrefix|..])
    else None
  }

  /** Exactly the header `"Bearer " + t`, with `t` non-empty and free of line terminators, yields `t`. */
  lemma BearerTokenExactly(authorization: Option<string>, t: string)
    ensures BearerToken(authorization) == Some(t)
            <==> authorization == Some(BearerPrefix + t) && t != "" && NoLineTerminator(t)
  {
    if authorization == Some(BearerPrefix + t) {
      assert (BearerPrefix + t)[..|BearerPrefix|] == BearerPrefix;
      assert (BearerPrefix + t)[|BearerPrefix|..] == t;
    }
    if BearerToken(authorization) == Some(t) {
      var auth := authorization.value;
      assert auth == auth[..|BearerPrefix|] + auth[|BearerPrefix|..];
    }
  }

  /** A missing or empty header, the bare prefix, and any other scheme carry no token. */
  lemma NoTokenCases(scheme: string, rest: string)
    requires scheme != "Bearer"
    requires |scheme| < 7
    ensures BearerToken(None) == None
    ensures BearerToken(Some("")) == None
    ensures BearerToken(Some(BearerPrefix)) == None
    ensures BearerToken(Some(scheme + " " + rest)) == None
  {
    var h := scheme + " " + rest;
    assert h[|scheme|] == ' ';
    if |h| > 7 {
      if |scheme| == 6 {
        assert h[..7][..6] == scheme;
        assert BearerPrefix[..6] == "Bearer";
      } else {
        assert h[..7][|scheme|] == ' ';
      }
    }
  }

  /** The services the route calls: token verification, membership lookup and the engine's date parser. */
  datatype Services = Services(
    verify: string -> Option<UserId>,
    membership: UserId -> Option<OrgId>,
    parse: string -> Option<int>)

  /** The verified caller and the organization the membership table gives them. */
  datatype Member = Member(userId: UserId, orgId: OrgId)

  datatype Response =
    | Unauthorized
    | NoOrg
    | InvalidStart(start: string)
    | InvalidEnd(end: string)
    | StoreError
    | ServerException
    | History(data: seq<Row>)
    | Saved
  {
    function Status(): int {
      match this
      case Unauthorized => 401
      case NoOrg => 403
      case InvalidStart(_) => 400
      case InvalidEnd(_) => 400
      case StoreError => 500
      case ServerException => 500
      case History(_) => 200
      case Saved => 200
    }
  }

  /** The token gate shared by GET and POST: a token, then a user for it. */
  function Authenticate(authorization: Option<string>, svc: Services): Option<UserId> {
    match BearerToken(authorization)
    case None => None
    case Some(t) => svc.verify(t)
  }

  // ---------------------------------------------------------------------------
  // GET
  // ---------------------------------------------------------------------------

  /** What GET reads from the request: the header and the `start` and `end` search parameters. */
  datatype GetRequest = GetRequest(authorization: Option<string>, start: Option<string>, end: Option<string>)

  /** A search parameter counts only when it is present and non-empty (`if (start)`). */
  predicate Present(param: Option<string>) {
    param.Some? && param.value != ""
  }

  /** One side of the day range: none when absent, otherwise the parsed instant of `date + suffix`. */
  function DayBound(param: Option<string>, suffix: string, parse: string -> Option<int>): (r: Result<Option<int>, string>)
    ensures r == Ok(None) <==> !Present(param)
    ensures r.Err? <==> Present(param) && parse(param.value + suffix).None?
    ensures r.Err? ==> r.error == param.value
    ensures r.Ok? && r.value.Some? ==> parse(param.value + suffix) == r.value
  {
    if !Present(param) then Ok(None)
    else
      match parse(param.value + suffix)
      case None => Err(param.value)
      case Some(t) => Ok(Some(t))
  }

  /** The query GET issues, or the response it gives instead of issuing one. */
  function PlanGet(req: GetRequest, svc: Services): Result<Query, Response> {
    match Authenticate(req.authorization, svc)
    case None => Err(Unauthorized)
    case Some(user) =>
      match svc.membership(user)
      case None => Err(NoOrg)
      case Some(org) =>
        match DayBound(req.start, StartOfDaySuffix, svc.parse)
        case Err(s) => Err(InvalidStart(s))
        case Ok(lower) =>
          match DayBound(req.end, EndOfDaySuffix, svc.parse)
          case Err(e) => Err(InvalidEnd(e))
          case Ok(upper) => Ok(Query(org, lower, upper))
  }

  /** GET's response over table contents `rows`; `queryFails` is the store reporting an error. */
  function GetResponse(rows: seq<Row>, req: GetRequest, svc: Services, queryFails: bool): Response {
    match PlanGet(req, svc)
    case Err(r) => r
    case Ok(q) => if queryFails then StoreError else History(Run(rows, q))
  }

  /**
   * The handler as written: early returns, and a query builder `q` refined step by step.
   * `issued` is the select sent to `nft_history`, if any.
   */
  method Get(table: HistoryTable, req: GetRequest, svc: Services, queryFails: bool)
    returns (resp: Response, issued: Option<Query>)
    ensures resp == GetResponse(table.rows, req, svc, queryFails)
    ensures issued == (match PlanGet(req, svc) case Ok(q) => Some(q) case Err(_) => None)
  {
    var token := BearerToken(req.authorization);
    if token.None? {
      return Unauthorized, None;
    }
    var user := svc.verify(token.value);
    if user.None? {
      return Unauthorized, None;
    }
    var member := svc.membership(user.value);
    if member.None? {
      return NoOrg, None;
    }
    var q := Query(member.value, None, None);
    if Present(req.start) {
      var startUtc := svc.parse(req.start.value + StartOfDaySuffix);
      if startUtc.None? {
        return InvalidStart(req.start.value), None;
      }
      q := q.(from := Some(startUtc.value));
    }
    if Present(req.end) {
      var endUtc := svc.parse(req.end.value + EndOfDaySuffix);
      if endUtc.None? {
        return InvalidEnd(req.end.value), None;
      }
      q := q.(to := Some(endUtc.value));
    }
    issued := Some(q);
    if queryFails {
      resp := StoreError;
    } else {
      resp := History(Run(table.rows, q));
    }
  }

  /**
   * The gate comes first: without a token or a verified user the answer is 401, without a
   * membership 403, and a rejected request never reaches the store.
   */
  lemma GetGate(rows: seq<Row>, rows': seq<Row>, req: GetRequest, svc: Services, fails: bool, fails': bool)
    ensures Authenticate(req.authorization, svc).None? ==> GetResponse(rows, req, svc, fails) == Unauthorized
    ensures Authenticate(req.authorization, svc).Some?
            && svc.membership(Authenticate(req.authorization, svc).value).None?
            ==> GetResponse(rows, req, svc, fails) == NoOrg
    ensures PlanGet(req, svc).Err? ==> GetResponse(rows, req, svc, fails) == GetResponse(rows', req, svc, fails')
  {
  }

  /** The organization filter is the verified member's organization, whatever the search parameters say. */
  lemma OrgFilterFromMembership(req: GetRequest, svc: Services)
    requires PlanGet(req, svc).Ok?
    ensures Authenticate(req.authorization, svc).Some?
    ensures PlanGet(req, svc).value.org == svc.membership(Authenticate(req.authorization, svc).value).value
  {
  }

  /** Tenant isolation: every row a successful GET returns belongs to the caller's organization. */
  lemma GetIsTenantScoped(rows: seq<Row>, req: GetRequest, svc: Services)
    requires GetResponse(rows, req, svc, false).History?
    ensures forall x :: x in GetResponse(rows, req, svc, false).data
              ==> x in rows && x.data.orgId == svc.membership(Authenticate(req.authorization, svc).value).value
  {
    RunIsOrderedSelection(rows, PlanGet(req, svc).value);
  }

  /** A successful GET is newest first and a permutation of the filtered rows; a store error is 500. */
  lemma GetIsOrderedPermutation(rows: seq<Row>, req: GetRequest, svc: Services)
    requires PlanGet(req, svc).Ok?
    ensures GetResponse(rows, req, svc, true) == StoreError
    ensures NewestFirst(GetResponse(rows, req, svc, false).data)
    ensures multiset(GetResponse(rows, req, svc, false).data) == multiset(Selected(rows, PlanGet(req, svc).value))
  {
    RunIsOrderedSelection(rows, PlanGet(req, svc).value);
  }

  /**
   * Malformed dates: an unparseable `start` is 400 before `end` is looked at; an unparseable
   * `end` is 400; either way no query is issued. An absent or empty parameter leaves its side open.
   */
  lemma GetDateErrors(req: GetRequest, svc: Services)
    requires Authenticate(req.authorization, svc).Some?
    requires svc.membership(Authenticate(req.authorization, svc).value).Some?
    ensures Present(req.start) && svc.parse(req.start.value + StartOfDaySuffix).None?
            ==> PlanGet(req, svc) == Err(InvalidStart(req.start.value))
    ensures DayBound(req.start, StartOfDaySuffix, svc.parse).Ok?
            && Present(req.end) && svc.parse(req.end.value + EndOfDaySuffix).None?
            ==> PlanGet(req, svc) == Err(InvalidEnd(req.end.value))
    ensures PlanGet(req, svc).Ok? && !Present(req.start) ==> PlanGet(req, svc).value.from == None
    ensures PlanGet(req, svc).Ok? && !Present(req.end) ==> PlanGet(req, svc).value.to == None
  {
  }

  /**
   * With a conforming date parser, `start=S&end=E` for calendar dates S and E selects exactly the
   * caller's rows from the first millisecond of S to the last millisecond of E in UTC+09:00.
   */
  lemma GetDayRange(rows: seq<Row>, req: GetRequest, svc: Services, x: Row)
    requires ConformingParser(svc.parse)
    requires Authenticate(req.authorization, svc).Some?
    requires svc.membership(Authenticate(req.authorization, svc).value).Some?
    requires req.start.Some? && ParseCalendarDate(req.start.value).Some?
    requires req.end.Some? && ParseCalendarDate(req.end.value).Some?
    ensures PlanGet(req, svc).Ok?
    ensures PlanGet(req, svc).value.from == Some(DayStartJst(ParseCalendarDate(req.start.value).value))
    ensures PlanGet(req, svc).value.to == Some(DayEndJst(ParseCalendarDate(req.end.value).value))
    ensures x in GetResponse(rows, req, svc, false).data
            <==> x in rows
                 && x.data.orgId == svc.membership(Authenticate(req.authorization, svc).value).value
                 && DayStartJst(ParseCalendarDate(req.start.value).value) <= x.createdAt
                 && x.createdAt <= DayEndJst(ParseCalendarDate(req.end.value).value)
  {
    DayRangePlan(req, svc);
    var q := PlanGet(req, svc).value;
    assert GetResponse(rows, req, svc, false) == History(Run(rows, q));
    RunIsOrderedSelection(rows, q);
  }

  /** The query planned for two calendar dates spans their UTC+09:00 days. */
  lemma DayRangePlan(req: GetRequest, svc: Services)
    requires ConformingParser(svc.parse)
    requires Authenticate(req.authorization, svc).Some?
    requires svc.membership(Authenticate(req.authorization, svc).value).Some?
    requires req.start.Some? && ParseCalendarDate(req.start.value).Some?
    requires req.end.Some? && ParseCalendarDate(req.end.value).Some?
    ensures PlanGet(req, svc).Ok?
    ensures PlanGet(req, svc).value.org == svc.membership(Authenticate(req.authorization, svc).value).value
    ensures PlanGet(req, svc).value.from == Some(DayStartJst(ParseCalendarDate(req.start.value).value))
    ensures PlanGet(req, svc).value.to == Some(DayEndJst(ParseCalendarDate(req.end.value).value))
  {
    StartOfDayString(req.start.value);
    EndOfDayString(req.end.value);
    assert ParseDateTime(req.start.value + StartOfDaySuffix).Some?;
    assert ParseDateTime(req.end.value + EndOfDaySuffix).Some?;
  }

  // ---------------------------------------------------------------------------
  // POST
  // ---------------------------------------------------------------------------

  /** The parsed JSON body of a POST, property by property (`org_id` and `user_id` may be forged). */
  datatype Body = Body(
    kind: Field<string>,
    name: Field<string>,
    idNo: Field<string>,
    email: Field<string>,
    recipientAddress: Field<string>,
    amount: Field<int>,
    tokenIds: Field<string>,
    txHash: Field<string>,
    orgId: Field<string>,
    userId: Field<string>)

  /**
   * What `req.json()` gives: a rejection when the body is not JSON, the JSON `null` (reading a
   * property of it throws), or any other value, read property by property (a non-object JSON
   * value reads as every property absent).
   */
  datatype PostBody = BodyNotJson | BodyNull | BodyValue(fields: Body)

  datatype PostRequest = PostRequest(authorization: Option<string>, body: PostBody)

  /** The row POST writes: scope from the server, four optional columns defaulted to null, the rest copied. */
  function BuildPayload(m: Member, b: Body): Payload {
    Payload(
      orgId := m.orgId,
      userId := m.userId,
      kind := b.kind,
      name := b.name.OrNull(),
      idNo := b.idNo.OrNull(),
      email := b.email.OrNull(),
      recipientAddress := b.recipientAddress.OrNull(),
      amount := b.amount,
      tokenIds := b.tokenIds,
      txHash := b.txHash)
  }

  /**
   * The client cannot choose the scope: bodies that differ only in `org_id`/`user_id` give the
   * same row, whose scope is the member's. The four optional columns are never left out, and
   * `type`, `amount`, `token_ids` and `tx_hash` are stored exactly as sent.
   */
  lemma PayloadScopeIsServerSide(m: Member, b: Body, forgedOrg: Field<string>, forgedUser: Field<string>)
    ensures BuildPayload(m, b.(orgId := forgedOrg, userId := forgedUser)) == BuildPayload(m, b)
    ensures BuildPayload(m, b).orgId == m.orgId && BuildPayload(m, b).userId == m.userId
    ensures var p := BuildPayload(m, b);
      && !p.name.Missing? && !p.idNo.Missing? && !p.email.Missing? && !p.recipientAddress.Missing?
      && (b.name.IsNullish() <==> p.name == Null) && (b.idNo.IsNullish() <==> p.idNo == Null)
      && (b.email.IsNullish() <==> p.email == Null)
      && (b.recipientAddress.IsNullish() <==> p.recipientAddress == Null)
      && (b.name.Val? ==> p.name == b.name) && (b.idNo.Val? ==> p.idNo == b.idNo)
      && (b.email.Val? ==> p.email == b.email) && (b.recipientAddress.Val? ==> p.recipientAddress == b.recipientAddress)
      && p.kind == b.kind && p.amount == b.amount && p.tokenIds == b.tokenIds && p.txHash == b.txHash
  {
  }

  /**
   * The POST handler. `now` is the store's clock and `accepted` the store's verdict on the insert.
   * A body that is not JSON, or a JSON `null` once the membership is found, is an uncaught
   * exception, answered 500 by the framework.
   */
  method Post(table: HistoryTable, req: PostRequest, svc: Services, now: int, accepted: bool)
    returns (resp: Response)
    requires table.Valid()
    modifies table
    ensures table.Valid()
    ensures Authenticate(req.authorization, svc).None?
            ==> resp == Unauthorized && table.rows == old(table.rows)
    ensures Authenticate(req.authorization, svc).Some? && req.body.BodyNotJson?
            ==> resp == ServerException && table.rows == old(table.rows)
    ensures Authenticate(req.authorization, svc).Some? && !req.body.BodyNotJson?
            && svc.membership(Authenticate(req.authorization, svc).value).None?
            ==> resp == NoOrg && table.rows == old(table.rows)
    ensures Authenticate(req.authorization, svc).Some? && req.body.BodyNull?
            && svc.membership(Authenticate(req.authorization, svc).value).Some?
            ==> resp == ServerException && table.rows == old(table.rows)
    ensures Authenticate(req.authorization, svc).Some? && req.body.BodyValue?
            && svc.membership(Authenticate(req.authorization, svc).value).Some?
            ==> var m := Member(Authenticate(req.authorization, svc).value,
                                svc.membership(Authenticate(req.authorization, svc).value).value);
                && resp == (if accepted then Saved else StoreError)
                && table.rows == old(table.rows)
                                 + (if accepted then [Row(old(table.nextId), now, BuildPayload(m, req.body.fields))] else [])
    ensures resp == Saved <==> table.rows != old(table.rows)
    ensures forall i :: 0 <= i < |old(table.rows)| ==> old(table.rows)[i].id != old(table.nextId)
  {
    var token := BearerToken(req.authorization);
    if token.None? {
      return Unauthorized;
    }
    var user := svc.verify(token.value);
    if user.None? {
      return Unauthorized;
    }
    if req.body.BodyNotJson? {
      return ServerException;
    }
    var member := svc.membership(user.value);
    if member.None? {
      return NoOrg;
    }
    if req.body.BodyNull? {
      return ServerException;
    }
    var payload := BuildPayload(Member(user.value, member.value), req.body.fields);
    var id := table.Insert(payload, now, accepted);
    if id.None? {
      return StoreError;
    }
    resp := Saved;
  }

  /**
   * Read after write: once a row is appended under a key no other row has, an unbounded GET by
   * a member of the row's organization returns that row exactly once and no other row with its key.
   */
  lemma ReadAfterWrite(rows: seq<Row>, row: Row, req: GetRequest, svc: Services)
    requires forall i :: 0 <= i < |rows| ==> rows[i].id != row.id
    requires PlanGet(req, svc) == Ok(Query(row.data.orgId, None, None))
    ensures GetResponse(rows + [row], req, svc, false).History?
    ensures multiset(GetResponse(rows + [row], req, svc, false).data)[row] == 1
    ensures forall x :: x in GetResponse(rows + [row], req, svc, false).data && x.id == row.id ==> x == row
  {
    var q := Query(row.data.orgId, None, None);
    assert GetResponse(rows + [row], req, svc, false) == History(Run(rows + [row], q));
    RunFindsFreshRowOnce(rows, row, q);
  }
}
