/**
 * The dashboard page's client logic: authenticated calls to the history API, the history
 * buffer and its reload, the claim flow, and the send panel (approval flag, send flow and the
 * notification mail). React state cells are the fields of `Dashboard` and `SenderSection`;
 * chain commits, chain reads, the session and HTTP replies arrive as parameters.
 */
module Page {
  import opened Wrappers
  import opened Text
  import opened LedgerStore
  import opened HistoryRoute
  import opened HistoryView
  import opened Selection

  // ---------------------------------------------------------------------------
  // apiFetch
  // ---------------------------------------------------------------------------

  const AuthorizationHeader: string := "Authorization"
  const JsonContentType: map<string, string> := map["Content-Type" := "application/json"]

  /** The session has an access token (`session?.access_token` is truthy). */
  predicate HasToken(accessToken: Option<string>) {
    accessToken.Some? && accessToken.value != ""
  }

  /** The headers `apiFetch` sends: the caller's, with `Authorization: Bearer <token>` put last; none when it throws. */
  function ApiFetchHeaders(accessToken: Option<string>, headers: map<string, string>): (r: Option<map<string, string>>)
    ensures r.Some? <==> HasToken(accessToken)
  {
    if HasToken(accessToken) then Some(headers[AuthorizationHeader := BearerPrefix + accessToken.value]) else None
  }

  /**
   * The header `apiFetch` adds is one the history route accepts, giving back the same token
   * exactly when the token has no line terminator; the caller's other headers pass through.
   */
  lemma ApiFetchAuthorizes(accessToken: Option<string>, headers: map<string, string>)
    requires HasToken(accessToken)
    ensures var h := ApiFetchHeaders(accessToken, headers).value;
      && h.Keys == headers.Keys + {AuthorizationHeader}
      && (forall k :: k in headers && k != AuthorizationHeader ==> h[k] == headers[k])
      && (BearerToken(Some(h[AuthorizationHeader])) == Some(accessToken.value)
          <==> NoLineTerminator(accessToken.value))
  {
    var h := ApiFetchHeaders(accessToken, headers).value;
    BearerTokenExactly(Some(h[AuthorizationHeader]), accessToken.value);
  }

  // ---------------------------------------------------------------------------
  // Calls leaving the page, and the replies they get
  // ---------------------------------------------------------------------------

  /** The calls the page's contracts can be asked to make. */
  datatype ChainCall =
    | ClaimTo(to: string, quantity: int)
    | SetApprovalForAll(operator: string, approved: bool)
    | BulkSend(tokenAddress: string, to: string, tokenIds: seq<Option<nat>>)

  /** The body `saveHistoryToDB` posts (`null` is `None`). */
  datatype SavePayload = SavePayload(
    kind: string,
    name: Option<string>,
    idNo: Option<string>,
    email: Option<string>,
    recipientAddress: Option<string>,
    amount: int,
    tokenIds: string,
    txHash: string)

  /** Everything the page sends out, in the order it sends it. */
  datatype ExternalCall =
    | RefetchHoldings
    | Submit(call: ChainCall)
    | PostHistory(headers: map<string, string>, payload: SavePayload)
    | GetHistory(headers: map<string, string>, start: Option<string>, end: Option<string>)

  /**
   * A reply body: not JSON (`res.json()` throws), the JSON `null` (reading its `data` throws), or
   * another JSON value whose `data` may be absent.
   */
  datatype JsonBody = NotJson | JsonNull | Json(data: Option<seq<Row>>)

  /** What `fetch` gives: a rejected promise, or a response with its status, text and JSON. */
  datatype Reply = NetworkError | Answered(status: int, text: string, json: JsonBody) {
    predicate IsOk() {
      Answered? && 200 <= status <= 299
    }
  }

  /** A search parameter is set only for a non-empty date. */
  function SearchParam(date: string): (r: Option<string>)
    ensures r.None? <==> date == ""
    ensures r.Some? ==> r.value == date
  {
    if date == "" then None else Some(date)
  }

  /** What the history route reads from the page's reload request. */
  function RouteRequest(headers: map<string, string>, start: Option<string>, end: Option<string>): GetRequest {
    GetRequest(if AuthorizationHeader in headers then Some(headers[AuthorizationHeader]) else None, start, end)
  }

  /**
   * A reload with the page's session token reaches the route as that token, so the route
   * authenticates it as the token's user, and with the page's date filter as `start` and `end`.
   */
  lemma ReloadRequestAuthenticates(accessToken: Option<string>, startDate: string, endDate: string, svc: Services)
    requires HasToken(accessToken) && NoLineTerminator(accessToken.value)
    ensures var req := RouteRequest(ApiFetchHeaders(accessToken, map[]).value, SearchParam(startDate), SearchParam(endDate));
      && Authenticate(req.authorization, svc) == svc.verify(accessToken.value)
      && (Present(req.start) <==> startDate != "") && (Present(req.end) <==> endDate != "")
  {
    ApiFetchAuthorizes(accessToken, map[]);
  }

  /** What the history route's `req.json()` makes of a posted payload (the client sends no org or user). */
  function BodyOf(p: SavePayload): (b: Body)
    ensures b.orgId.Missing? && b.userId.Missing?
    ensures b.kind == Val(p.kind) && b.amount == Val(p.amount) && b.tokenIds == Val(p.tokenIds) && b.txHash == Val(p.txHash)
    ensures !b.name.Missing? && (b.name.Val? <==> p.name.Some?) && (b.name.Val? ==> b.name.value == p.name.value)
    ensures !b.idNo.Missing? && (b.idNo.Val? <==> p.idNo.Some?) && (b.idNo.Val? ==> b.idNo.value == p.idNo.value)
    ensures !b.email.Missing? && (b.email.Val? <==> p.email.Some?) && (b.email.Val? ==> b.email.value == p.email.value)
    ensures !b.recipientAddress.Missing? && (b.recipientAddress.Val? <==> p.recipientAddress.Some?)
      && (b.recipientAddress.Val? ==> b.recipientAddress.value == p.recipientAddress.value)
  {
    Body(
      kind := Val(p.kind),
      name := FieldOf(p.name),
      idNo := FieldOf(p.idNo),
      email := FieldOf(p.email),
      recipientAddress := FieldOf(p.recipientAddress),
      amount := Val(p.amount),
      tokenIds := Val(p.tokenIds),
      txHash := Val(p.txHash),
      orgId := Missing,
      userId := Missing)
  }

  const LoginRequiredForSave: string := "ログインが必要です（履歴保存）"
  const SaveFailedPrefix: string := "履歴保存に失敗しました: "

  /** The message shown for a non-2xx save: the prefix, the status in decimal, a space, the reply text. */
  function SaveFailedMessage(status: int, text: string): (m: string)
    ensures |m| > |SaveFailedPrefix| + |text|
    ensures m[..|SaveFailedPrefix|] == SaveFailedPrefix
    ensures m[|m| - |text|..] == text && m[|m| - |text| - 1] == ' '
    ensures m[|SaveFailedPrefix|..|m| - |text| - 1] == IntToDecimal(status)
  {
    var d := IntToDecimal(status);
    assert (SaveFailedPrefix + d + " " + text)[|SaveFailedPrefix|..|SaveFailedPrefix| + |d|] == d;
    SaveFailedPrefix + d + " " + text
  }

  // ---------------------------------------------------------------------------
  // The page's state and the effect of each step on it
  // ---------------------------------------------------------------------------

  /** A snapshot of the dashboard's state cells and of what it has sent so far. */
  datatype PageState = PageState(
    isLoggedIn: bool,
    history: seq<HistoryLog>,
    historyError: Option<string>,
    hasLoadedHistory: bool,
    startDate: string,
    endDate: string,
    calls: seq<ExternalCall>)

  /** `addHistory`. */
  function WithLog(s: PageState, log: HistoryLog): PageState {
    s.(history := [log] + s.history)
  }

  /** The refetch of the owned tokens that both confirmation handlers start with. */
  function Refetched(s: PageState): (r: PageState)
    ensures r.(calls := s.calls) == s
    ensures |r.calls| == |s.calls| + 1 && r.calls[..|s.calls|] == s.calls && r.calls[|s.calls|] == RefetchHoldings
  {
    s.(calls := s.calls + [RefetchHoldings])
  }

  /** `saveHistoryToDB`: the new state, and whether its promise rejects. */
  function AfterSave(s: PageState, p: SavePayload, accessToken: Option<string>, reply: Reply): (PageState, bool) {
    if !s.isLoggedIn then (s.(historyError := Some(LoginRequiredForSave)), false)
    else
      match ApiFetchHeaders(accessToken, JsonContentType)
      case None => (s, true)
      case Some(headers) =>
        var sent := s.(calls := s.calls + [PostHistory(headers, p)]);
        match reply
        case NetworkError => (sent, true)
        case Answered(status, text, _) =>
          if reply.IsOk() then (sent, false)
          else (sent.(historyError := Some(SaveFailedMessage(status, text))), false)
  }

  /** `loadHistoryFromDB`: a failure of any kind leaves the buffer as it was. */
  function AfterLoad(s: PageState, accessToken: Option<string>, reply: Reply, format: int -> string): PageState {
    if !s.isLoggedIn then s
    else
      match ApiFetchHeaders(accessToken, map[])
      case None => s
      case Some(headers) =>
        var sent := s.(calls := s.calls + [GetHistory(headers, SearchParam(s.startDate), SearchParam(s.endDate))]);
        if reply.IsOk() && reply.json.Json? then
          sent.(history := MapRows(reply.json.data.GetOr([]), format), hasLoadedHistory := true)
        else sent
  }

  /**
   * The common tail of the claim and send confirmation handlers: refetch, prepend the log,
   * save once, and reload once unless the save rejected. The second component says whether
   * the handler ran to its end.
   */
  function AfterConfirmed(s: PageState, log: HistoryLog, p: SavePayload, accessToken: Option<string>,
                     saveReply: Reply, loadReply: Reply, format: int -> string): (PageState, bool)
  {
    var (saved, threw) := AfterSave(WithLog(Refetched(s), log), p, accessToken, saveReply);
    if threw then (saved, false) else (AfterLoad(saved, accessToken, loadReply, format), true)
  }

  /** `addHistory` puts exactly one entry in front and keeps the rest as it was. */
  lemma AddPrepends(s: PageState, log: HistoryLog)
    ensures |WithLog(s, log).history| == |s.history| + 1
    ensures WithLog(s, log).history[0] == log && WithLog(s, log).history[1..] == s.history
    ensures WithLog(s, log).(history := s.history) == s
  {
  }

  /**
   * A reload issues one GET carrying the date filter when logged in with a session token; only
   * an OK reply with a JSON body replaces the buffer (with the rows mapped in server order) and
   * marks the history loaded. Nothing else changes.
   */
  lemma LoadOutcomes(s: PageState, accessToken: Option<string>, reply: Reply, format: int -> string)
    ensures var t := AfterLoad(s, accessToken, reply, format);
      && t.(history := s.history, hasLoadedHistory := s.hasLoadedHistory, calls := s.calls) == s
      && (t.calls == s.calls
          || (s.isLoggedIn && HasToken(accessToken)
              && t.calls == s.calls + [GetHistory(ApiFetchHeaders(accessToken, map[]).value,
                                                  SearchParam(s.startDate), SearchParam(s.endDate))]))
      && (s.isLoggedIn && HasToken(accessToken) ==> |t.calls| == |s.calls| + 1)
      && (if s.isLoggedIn && HasToken(accessToken) && reply.IsOk() && reply.json.Json?
          then t.history == MapRows(reply.json.data.GetOr([]), format) && t.hasLoadedHistory
          else t.history == s.history && t.hasLoadedHistory == s.hasLoadedHistory)
  {
  }

  /**
   * A save never touches the buffer. Logged out, it only records the login message. Without a
   * token it rejects before sending. Otherwise it posts once; a rejected fetch rejects, and a
   * non-OK answer only records the failure message.
   */
  lemma SaveOutcomes(s: PageState, p: SavePayload, accessToken: Option<string>, reply: Reply)
    ensures var (t, threw) := AfterSave(s, p, accessToken, reply);
      && t.(historyError := s.historyError, calls := s.calls) == s
      && (threw <==> s.isLoggedIn && (!HasToken(accessToken) || reply.NetworkError?))
      && (!s.isLoggedIn ==> t.historyError == Some(LoginRequiredForSave) && t.calls == s.calls)
      && (s.isLoggedIn && HasToken(accessToken)
          ==> t.calls == s.calls + [PostHistory(ApiFetchHeaders(accessToken, JsonContentType).value, p)])
      && (s.isLoggedIn && !HasToken(accessToken) ==> t == s)
      && (s.isLoggedIn && HasToken(accessToken) && reply.Answered? && !reply.IsOk()
          ==> t.historyError == Some(SaveFailedMessage(reply.status, reply.text)))
      && (s.isLoggedIn && (reply.IsOk() || reply.NetworkError?) ==> t.historyError == s.historyError)
  {
  }

  /**
   * The confirmation sequence: one refetch, then at most one save and at most one reload, and
   * never another chain submission. A save that is answered, even with an error status, is
   * followed by the reload; the prepended log stays in the buffer unless the reload replaces it.
   */
  lemma {:induction false} ConfirmedSequence(s: PageState, log: HistoryLog, p: SavePayload, accessToken: Option<string>,
                                             saveReply: Reply, loadReply: Reply, format: int -> string)
    ensures var (t, finished) := AfterConfirmed(s, log, p, accessToken, saveReply, loadReply, format);
      var sends := s.isLoggedIn && HasToken(accessToken);
      && t.isLoggedIn == s.isLoggedIn && t.startDate == s.startDate && t.endDate == s.endDate
      && t.calls == s.calls + [RefetchHoldings]
                    + (if sends then [PostHistory(ApiFetchHeaders(accessToken, JsonContentType).value, p)] else [])
                    + (if sends && saveReply.Answered?
                       then [GetHistory(ApiFetchHeaders(accessToken, map[]).value,
                                        SearchParam(s.startDate), SearchParam(s.endDate))]
                       else [])
      && (forall i :: |s.calls| <= i < |t.calls| ==> !t.calls[i].Submit?)
      && (finished <==> !s.isLoggedIn || (HasToken(accessToken) && saveReply.Answered?))
      && (if sends && saveReply.Answered? && loadReply.IsOk() && loadReply.json.Json?
          then t.history == MapRows(loadReply.json.data.GetOr([]), format) && t.hasLoadedHistory
          else t.history == [log] + s.history && t.hasLoadedHistory == s.hasLoadedHistory)
      && (sends && saveReply.Answered? && !saveReply.IsOk()
          ==> t.historyError == Some(SaveFailedMessage(saveReply.status, saveReply.text)))
  {
    var s1 := WithLog(Refetched(s), log);
    var (saved, threw) := AfterSave(s1, p, accessToken, saveReply);
    SaveOutcomes(s1, p, accessToken, saveReply);
    if !threw {
      LoadOutcomes(saved, accessToken, loadReply, format);
    }
  }

  // ---------------------------------------------------------------------------
  // The dashboard
  // ---------------------------------------------------------------------------

  class Dashboard {
    var isLoggedIn: bool
    var history: seq<HistoryLog>
    var historyError: Option<string>
    var hasLoadedHistory: bool
    var startDate: string
    var endDate: string
    var calls: seq<ExternalCall>

    function State(): PageState
      reads this
    {
      PageState(isLoggedIn, history, historyError, hasLoadedHistory, startDate, endDate, calls)
    }

    /** The page as first rendered: logged out, an empty unloaded buffer, no filter. */
    constructor ()
      ensures State() == PageState(false, [], None, false, "", "", [])
    {
      isLoggedIn := false;
      history := [];
      historyError := None;
      hasLoadedHistory := false;
      startDate := "";
      endDate := "";
      calls := [];
    }

    /** The auth listener: the login flag follows whether the session has a user. */
    method OnAuthStateChange(signedIn: bool)
      modifies this`isLoggedIn
      ensures State() == old(State()).(isLoggedIn := signedIn)
    {
      isLoggedIn := signedIn;
    }

    /** The two date inputs of the history filter; they are disabled while logged out. */
    method SetDateFilter(start: string, end: string)
      modifies this`startDate, this`endDate
      ensures old(isLoggedIn) ==> State() == old(State()).(startDate := start, endDate := end)
      ensures !old(isLoggedIn) ==> State() == old(State())
    {
      if !isLoggedIn {
        return;
      }
      startDate := start;
      endDate := end;
    }

    method AddHistory(log: HistoryLog)
      modifies this`history
      ensures State() == WithLog(old(State()), log)
    {
      history := [log] + history;
    }

    method RefetchHoldings()
      modifies this`calls
      ensures State() == Refetched(old(State()))
    {
      calls := calls + [ExternalCall.RefetchHoldings];
    }

    /** `loadHistoryFromDB`, with the session token and the reply as inputs and `format` for `toLocaleString`. */
    method LoadHistoryFromDb(accessToken: Option<string>, reply: Reply, format: int -> string)
      modifies this`history, this`hasLoadedHistory, this`calls
      ensures State() == AfterLoad(old(State()), accessToken, reply, format)
    {
      if !isLoggedIn {
        return;
      }
      var headers := ApiFetchHeaders(accessToken, map[]);
      if headers.None? {
        return;
      }
      calls := calls + [GetHistory(headers.value, SearchParam(startDate), SearchParam(endDate))];
      if !reply.IsOk() {
        return;
      }
      if !reply.json.Json? {
        return;
      }
      var mapped := MapRows(reply.json.data.GetOr([]), format);
      history := mapped;
      hasLoadedHistory := true;
    }

    /** `saveHistoryToDB`; `threw` is true when its promise rejects. */
    method SaveHistoryToDb(p: SavePayload, accessToken: Option<string>, reply: Reply) returns (threw: bool)
      modifies this`historyError, this`calls
      ensures (State(), threw) == AfterSave(old(State()), p, accessToken, reply)
    {
      if !isLoggedIn {
        historyError := Some(LoginRequiredForSave);
        return false;
      }
      var headers := ApiFetchHeaders(accessToken, JsonContentType);
      if headers.None? {
        return true;
      }
      calls := calls + [PostHistory(headers.value, p)];
      if reply.NetworkError? {
        return true;
      }
      if !reply.IsOk() {
        historyError := Some(SaveFailedMessage(reply.status, reply.text));
      }
      threw := false;
    }

    /** The shared tail of both confirmation handlers; `finished` is false when the save rejected. */
    method RecordConfirmed(log: HistoryLog, p: SavePayload, accessToken: Option<string>,
                           saveReply: Reply, loadReply: Reply, format: int -> string)
      returns (finished: bool)
      modifies this`history, this`historyError, this`hasLoadedHistory, this`calls
      ensures (State(), finished) == AfterConfirmed(old(State()), log, p, accessToken, saveReply, loadReply, format)
    {
      RefetchHoldings();
      AddHistory(log);
      var threw := SaveHistoryToDb(p, accessToken, saveReply);
      if threw {
        return false;
      }
      LoadHistoryFromDb(accessToken, loadReply, format);
      finished := true;
    }

    /** The export button: disabled while logged out, otherwise the export of the buffer under the filter dates. */
    function DownloadCsv(parse: string -> Option<int>, offsetMs: int): (r: Option<Export>)
      reads this
      ensures r.Some? <==> isLoggedIn
      ensures r.Some? ==> r.value == ExportCsv(history, startDate, endDate, parse, offsetMs)
    {
      if isLoggedIn then Some(ExportCsv(history, startDate, endDate, parse, offsetMs)) else None
    }
  }

  // ---------------------------------------------------------------------------
  // Claim
  // ---------------------------------------------------------------------------

  const NotLoggedInError: string := "ログインが必要です"
  const NoWalletError: string := "ウォレット未接続"
  const SelfName: string := "自分 (Self)"
  const AutoAssigned: string := "(Auto Assigned)"

  /** The claim button's `transaction`: refused without a login or a wallet, else mint `fixedAmount` to the wallet. */
  function ClaimTransaction(isLoggedIn: bool, account: Option<string>, fixedAmount: int): Result<ChainCall, string> {
    if !isLoggedIn then Err(NotLoggedInError)
    else if account.None? then Err(NoWalletError)
    else Ok(ClaimTo(account.value, fixedAmount))
  }

  lemma ClaimNeedsLoginAndWallet(isLoggedIn: bool, account: Option<string>, fixedAmount: int)
    ensures ClaimTransaction(isLoggedIn, account, fixedAmount).Ok? <==> isLoggedIn && account.Some?
    ensures !isLoggedIn ==> ClaimTransaction(isLoggedIn, account, fixedAmount) == Err(NotLoggedInError)
    ensures ClaimTransaction(isLoggedIn, account, fixedAmount).Ok?
            ==> ClaimTransaction(isLoggedIn, account, fixedAmount).value.to == account.value
                && ClaimTransaction(isLoggedIn, account, fixedAmount).value.quantity == fixedAmount
  {
  }

  function ClaimLog(account: string, fixedAmount: int, txHash: string, now: int, stamp: string): HistoryLog {
    HistoryLog(stamp, now, Val("CLAIM"), SelfName, "-", "-", account, fixedAmount, AutoAssigned, txHash)
  }

  function ClaimPayload(account: string, fixedAmount: int, txHash: string): SavePayload {
    SavePayload("CLAIM", Some(SelfName), None, None, Some(account), fixedAmount, AutoAssigned, txHash)
  }

  /** Pressing the claim button submits the mint when the transaction is not refused. */
  method PressClaim(page: Dashboard, account: Option<string>, fixedAmount: int) returns (r: Result<ChainCall, string>)
    modifies page`calls
    ensures r == ClaimTransaction(page.isLoggedIn, account, fixedAmount)
    ensures page.calls == old(page.calls) + (if r.Ok? then [Submit(r.value)] else [])
  {
    r := ClaimTransaction(page.isLoggedIn, account, fixedAmount);
    if r.Ok? {
      page.calls := page.calls + [Submit(r.value)];
    }
  }

  /** The claim's `onTransactionConfirmed`, given the confirmed hash, the clock and the page's inputs. */
  method OnClaimConfirmed(page: Dashboard, txHash: string, account: string, fixedAmount: int,
                          now: int, stamp: string, accessToken: Option<string>,
                          saveReply: Reply, loadReply: Reply, format: int -> string)
    returns (finished: bool)
    modifies page`history, page`historyError, page`hasLoadedHistory, page`calls
    ensures (page.State(), finished)
            == AfterConfirmed(old(page.State()), ClaimLog(account, fixedAmount, txHash, now, stamp),
                         ClaimPayload(account, fixedAmount, txHash), accessToken, saveReply, loadReply, format)
  {
    var log := ClaimLog(account, fixedAmount, txHash, now, stamp);
    finished := page.RecordConfirmed(log, ClaimPayload(account, fixedAmount, txHash), accessToken, saveReply, loadReply, format);
  }

  /**
   * The stored claim, read back through the reload mapping, is the buffered claim log apart
   * from the time, which the store stamps.
   */
  lemma ClaimLogSurvivesReload(m: Member, id: nat, createdAt: int, format: int -> string,
                               account: string, fixedAmount: int, txHash: string, now: int, stamp: string)
    ensures MapRow(Row(id, createdAt, BuildPayload(m, BodyOf(ClaimPayload(account, fixedAmount, txHash)))), format)
            == ClaimLog(account, fixedAmount, txHash, now, stamp).(timestamp := format(createdAt), rawDate := createdAt)
  {
  }

  // ---------------------------------------------------------------------------
  // Send
  // ---------------------------------------------------------------------------

  const AirdropAddress: string := "0x09326509e1d76df069eaeceb6310f716e1d53d6c"
  const UnnamedRecipient: string := "名称未設定"
  const DefaultSalutation: string := "お客様"
  const TokenIdSeparator: string := " | "

  /** `s || fallback` for a string. */
  function OrElse(s: string, fallback: string): string {
    if s == "" then fallback else s
  }

  /** `s || null` for a string. */
  function OrNone(s: string): (r: Option<string>)
    ensures r.None? <==> s == ""
    ensures r.Some? ==> r.value == s
  {
    if s == "" then None else Some(s)
  }

  predicate AllIdsPresent(selection: seq<Nft>) {
    forall i :: 0 <= i < |selection| ==> selection[i].id.Some?
  }

  /** `sendingNFTs.map(n => n.id.toString()).join(" | ")`. */
  function IdsText(selection: seq<Nft>): string
    requires AllIdsPresent(selection)
  {
    Join(seq(|selection|, i requires 0 <= i < |selection| => NatToDecimal(selection[i].id.value)), TokenIdSeparator)
  }

  /** The ids handed to `bulkSend`. */
  function SendIds(selection: seq<Nft>): (ids: seq<Option<nat>>)
    ensures |ids| == |selection| && forall i :: 0 <= i < |selection| ==> ids[i] == selection[i].id
  {
    seq(|selection|, i requires 0 <= i < |selection| => selection[i].id)
  }

  /** What the mail after a send is built from. */
  datatype SuccessData = SuccessData(name: string, email: string, txHash: string, tokenIds: string)

  function SendLog(name: string, idNo: string, email: string, address: string, selection: seq<Nft>,
                   txHash: string, now: int, stamp: string): HistoryLog
    requires AllIdsPresent(selection)
  {
    HistoryLog(stamp, now, Val("SEND"), OrElse(name, UnnamedRecipient), OrElse(idNo, "-"), OrElse(email, "-"),
               address, |selection|, IdsText(selection), txHash)
  }

  function SendPayload(name: string, idNo: string, email: string, address: string, selection: seq<Nft>,
                       txHash: string): SavePayload
    requires AllIdsPresent(selection)
  {
    SavePayload("SEND", OrNone(name), OrNone(idNo), OrNone(email), Some(address), |selection|, IdsText(selection), txHash)
  }

  /**
   * The stored send, read back through the reload mapping, is the buffered send log apart from
   * the time exactly when a recipient name was entered: an empty name is buffered as
   * "名称未設定" but stored as null and read back as "-".
   */
  lemma SendLogSurvivesReloadIffNamed(m: Member, id: nat, createdAt: int, format: int -> string,
                                      name: string, idNo: string, email: string, address: string,
                                      selection: seq<Nft>, txHash: string, now: int, stamp: string)
    requires AllIdsPresent(selection)
    ensures MapRow(Row(id, createdAt, BuildPayload(m, BodyOf(SendPayload(name, idNo, email, address, selection, txHash)))), format)
            == SendLog(name, idNo, email, address, selection, txHash, now, stamp).(timestamp := format(createdAt), rawDate := createdAt)
            <==> name != ""
  {
    if name == "" {
      assert UnnamedRecipient != "-";
    }
  }

  /** The send panel: its form, the approval flag and the data of the last successful send. */
  class SenderSection {
    const page: Dashboard
    var recipientName: string
    var recipientIdNo: string
    var recipientEmail: string
    var recipientAddress: string
    var isApproved: bool
    var lastSuccess: Option<SuccessData>

    /** Mounted with an empty form, the approval flag false and no successful send. */
    constructor (page: Dashboard)
      ensures this.page == page
      ensures recipientName == "" && recipientIdNo == "" && recipientEmail == "" && recipientAddress == ""
      ensures !isApproved && lastSuccess == None
    {
      this.page := page;
      recipientName := "";
      recipientIdNo := "";
      recipientEmail := "";
      recipientAddress := "";
      isApproved := false;
      lastSuccess := None;
    }

    /** The four inputs, which are disabled while logged out. */
    method EditRecipient(name: string, idNo: string, email: string, address: string)
      modifies this`recipientName, this`recipientIdNo, this`recipientEmail, this`recipientAddress
      ensures old(page.isLoggedIn) ==> recipientName == name && recipientIdNo == idNo
                                       && recipientEmail == email && recipientAddress == address
      ensures !old(page.isLoggedIn) ==> recipientName == old(recipientName) && recipientIdNo == old(recipientIdNo)
                                        && recipientEmail == old(recipientEmail) && recipientAddress == old(recipientAddress)
    {
      if page.isLoggedIn {
        recipientName, recipientIdNo, recipientEmail, recipientAddress := name, idNo, email, address;
      }
    }

    /** The approval read: with a wallet, a value read from the chain replaces the flag; a failed read (`None`) keeps it. */
    method CheckApproval(account: Option<string>, read: Option<bool>)
      modifies this`isApproved
      ensures isApproved == if account.Some? && read.Some? then read.value else old(isApproved)
    {
      if account.None? {
        return;
      }
      if read.Some? {
        isApproved := read.value;
      }
    }

    /** The one approval button on show: approve when the flag is false, revoke when it is true. */
    function ApprovalAction(): (c: ChainCall)
      reads this
      ensures c.SetApprovalForAll? && c.operator == AirdropAddress && c.approved == !isApproved
    {
      SetApprovalForAll(AirdropAddress, !isApproved)
    }

    /** Pressing the approval button submits its call; it is disabled while logged out. */
    method PressApproval() returns (submitted: Option<ChainCall>)
      modifies page`calls
      ensures submitted == if old(page.isLoggedIn) then Some(ApprovalAction()) else None
      ensures page.calls == old(page.calls) + (if submitted.Some? then [Submit(submitted.value)] else [])
    {
      if !page.isLoggedIn {
        return None;
      }
      submitted := Some(ApprovalAction());
      page.calls := page.calls + [Submit(submitted.value)];
    }

    /** A confirmed approve or revoke call sets the flag to the approval it set on chain. */
    method OnApprovalConfirmed(c: ChainCall)
      requires c.SetApprovalForAll?
      modifies this`isApproved
      ensures isApproved == c.approved
    {
      isApproved := c.approved;
    }

    predicate CanSendNow(owned: Option<seq<Nft>>, fixedAmount: int)
      reads this, page
    {
      CanSend(page.isLoggedIn, isApproved, SendingNfts(owned, fixedAmount), recipientAddress, recipientEmail)
    }

    /** Pressing send: disabled unless `canSend`; then `bulkSend` of the selected ids to the recipient. */
    method PressSend(owned: Option<seq<Nft>>, fixedAmount: int, collectionAddress: string)
      returns (submitted: Option<ChainCall>)
      modifies page`calls
      ensures submitted == if old(CanSendNow(owned, fixedAmount))
                           then Some(BulkSend(collectionAddress, recipientAddress, SendIds(SendingNfts(owned, fixedAmount))))
                           else None
      ensures page.calls == old(page.calls) + (if submitted.Some? then [Submit(submitted.value)] else [])
    {
      if !CanSendNow(owned, fixedAmount) {
        return None;
      }
      var call := BulkSend(collectionAddress, recipientAddress, SendIds(SendingNfts(owned, fixedAmount)));
      submitted := Some(call);
      page.calls := page.calls + [Submit(call)];
    }

    /**
     * The send's `onTransactionConfirmed`. A selected token without an id makes it throw before
     * its first step. Otherwise it runs the confirmation sequence with the send's log and payload,
     * remembers the mail data, and clears the form once the reload is done.
     */
    method OnSendConfirmed(txHash: string, owned: Option<seq<Nft>>, fixedAmount: int, now: int, stamp: string,
                           accessToken: Option<string>, saveReply: Reply, loadReply: Reply, format: int -> string)
      returns (finished: bool)
      modifies this`recipientName, this`recipientIdNo, this`recipientEmail, this`recipientAddress, this`lastSuccess
      modifies page`history, page`historyError, page`hasLoadedHistory, page`calls
      ensures var sel := SendingNfts(owned, fixedAmount);
        if !AllIdsPresent(sel) then
          !finished && page.State() == old(page.State()) && lastSuccess == old(lastSuccess)
          && recipientName == old(recipientName) && recipientIdNo == old(recipientIdNo)
          && recipientEmail == old(recipientEmail) && recipientAddress == old(recipientAddress)
        else
          && (page.State(), finished)
             == AfterConfirmed(old(page.State()),
                          SendLog(old(recipientName), old(recipientIdNo), old(recipientEmail), old(recipientAddress), sel, txHash, now, stamp),
                          SendPayload(old(recipientName), old(recipientIdNo), old(recipientEmail), old(recipientAddress), sel, txHash),
                          accessToken, saveReply, loadReply, format)
          && lastSuccess == Some(SuccessData(OrElse(old(recipientName), DefaultSalutation), old(recipientEmail), txHash, IdsText(sel)))
          && (if finished
              then recipientName == "" && recipientIdNo == "" && recipientEmail == "" && recipientAddress == ""
              else recipientName == old(recipientName) && recipientIdNo == old(recipientIdNo)
                   && recipientEmail == old(recipientEmail) && recipientAddress == old(recipientAddress))
    {
      var sel := SendingNfts(owned, fixedAmount);
      if !AllIdsPresent(sel) {
        return false;
      }
      var log := SendLog(recipientName, recipientIdNo, recipientEmail, recipientAddress, sel, txHash, now, stamp);
      var payload := SendPayload(recipientName, recipientIdNo, recipientEmail, recipientAddress, sel, txHash);
      lastSuccess := Some(SuccessData(OrElse(recipientName, DefaultSalutation), recipientEmail, txHash, IdsText(sel)));
      finished := page.RecordConfirmed(log, payload, accessToken, saveReply, loadReply, format);
      if finished {
        recipientName, recipientIdNo, recipientEmail, recipientAddress := "", "", "", "";
      }
    }

    /** `createMailContent`: a mail to the recipient of the last successful send, if there was one. */
    function CreateMailContent(): (m: Option<Mail>)
      reads this
      ensures m.Some? <==> lastSuccess.Some?
      ensures m.Some? ==> m.value.to == lastSuccess.value.email && m.value.body == MailBody(lastSuccess.value)
    {
      MailContent(lastSuccess)
    }
  }

  /** The selection's log records as many tokens as were selected, with their ids in order. */
  lemma SendLogCountsSelection(name: string, idNo: string, email: string, address: string,
                               selection: seq<Nft>, txHash: string, now: int, stamp: string)
    requires AllIdsPresent(selection)
    requires forall i :: 0 <= i < |selection| ==> selection[i].id.value < 10
    ensures var log := SendLog(name, idNo, email, address, selection, txHash, now, stamp);
      && log.amount == |selection|
      && (|selection| > 0 ==> |log.tokenIds| == 4 * |selection| - 3)
      && forall i :: 0 <= i < |selection| ==> log.tokenIds[4 * i] == DigitChar(selection[i].id.value)
  {
    var parts := seq(|selection|, i requires 0 <= i < |selection| => NatToDecimal(selection[i].id.value));
    SingleDigitJoin(parts);
  }

  /** Joining one-character pieces with `" | "` puts piece `i` at position `4 * i`. */
  lemma {:induction false} SingleDigitJoin(parts: seq<string>)
    requires forall i :: 0 <= i < |parts| ==> |parts[i]| == 1
    ensures |parts| > 0 ==> |Join(parts, TokenIdSeparator)| == 4 * |parts| - 3
    ensures forall i :: 0 <= i < |parts| ==> Join(parts, TokenIdSeparator)[4 * i] == parts[i][0]
    decreases |parts|
  {
    if |parts| > 1 {
      SingleDigitJoin(parts[1..]);
      var rest := Join(parts[1..], TokenIdSeparator);
      assert Join(parts, TokenIdSeparator) == parts[0] + TokenIdSeparator + rest;
      forall i | 0 < i < |parts| ensures Join(parts, TokenIdSeparator)[4 * i] == parts[i][0] {
        assert parts[1..][i - 1] == parts[i];
        assert Join(parts, TokenIdSeparator)[4 * i] == rest[4 * (i - 1)];
      }
    }
  }

  // ---------------------------------------------------------------------------
  // The notification mail
  // ---------------------------------------------------------------------------

  datatype Mail = Mail(to: string, subject: string, body: string)

  const MailSubject: string := "【NFT受領のお知らせ】送信手続きが完了しました"
  const MailIntro: string := " 様\n\nこの度はご購入いただき誠にありがとうございます。\n株式会社STです。\n\n以下の通り、NFTの送信手続きが完了いたしました。\n内容をご確認くださいますようお願い申し上げます。\n\n━━━━━━━━━━━━━━━━━━━━━━━━━━\n■ 送信内容\n━━━━━━━━━━━━━━━━━━━━━━━━━━\n[トークンID]:\n"
  const MailTxHeading: string := "\n\n■ トランザクション詳細 (証明書)\n"
  const EtherscanTxUrl: string := "https://sepolia.etherscan.io/tx/"
  const MailClosing: string := "\n\n━━━━━━━━━━━━━━━━━━━━━━━━━━\n\nご不明な点がございましたら、お気軽にお問い合わせください。\n今後ともよろしくお願いいたします。\n\n--------------------------------------------------\n株式会社ST\n--------------------------------------------------\n"

  function MailBody(d: SuccessData): string {
    d.name + MailIntro + d.tokenIds + MailTxHeading + EtherscanTxUrl + d.txHash + MailClosing
  }

  /** `createMailContent`: nothing before a successful send; afterwards a mail to the entered address. */
  function MailContent(last: Option<SuccessData>): (m: Option<Mail>)
    ensures m.Some? <==> last.Some?
    ensures m.Some? ==> m.value.to == last.value.email && m.value.subject == MailSubject
  {
    match last
    case None => None
    case Some(d) => Some(Mail(d.email, MailSubject, MailBody(d)))
  }

  /**
   * Where each of seven concatenated pieces sits in the whole. Stated over arbitrary strings so
   * that the solver never unfolds the mail's literal constants.
   */
  lemma SevenParts(n: string, i: string, t: string, h: string, u: string, x: string, c: string)
    ensures var b := n + i + t + h + u + x + c;
      && |b| == |n| + |i| + |t| + |h| + |u| + |x| + |c|
      && b[..|n|] == n
      && b[|n|..][..|i|] == i
      && b[|n| + |i|..][..|t|] == t
      && b[..|b| - |c|][|b| - |c| - |x| - |u|..] == u + x
  {
    var b := n + i + t + h + u + x + c;
    assert b[..|n|] == n;
    assert b[|n|..] == i + t + h + u + x + c;
    assert b[|n| + |i|..] == t + h + u + x + c;
    assert b[..|b| - |c|] == n + i + t + h + u + x;
  }

  /**
   * The mail opens with the salutation name, carries the token ids right after the fixed
   * introduction, and ends with the transaction's explorer link and the fixed closing.
   */
  lemma MailLayout(d: SuccessData)
    ensures var b := MailBody(d);
      && |b| == |d.name| + |MailIntro| + |d.tokenIds| + |MailTxHeading| + |EtherscanTxUrl| + |d.txHash| + |MailClosing|
      && b[..|d.name|] == d.name
      && b[|d.name|..][..|MailIntro|] == MailIntro
      && b[|d.name| + |MailIntro|..][..|d.tokenIds|] == d.tokenIds
      && b[..|b| - |MailClosing|][|b| - |MailClosing| - |d.txHash| - |EtherscanTxUrl|..] == EtherscanTxUrl + d.txHash
  {
    SevenParts(d.name, MailIntro, d.tokenIds, MailTxHeading, EtherscanTxUrl, d.txHash, MailClosing);
  }

  /**
   * After a send, the mail goes to the entered address, greets the entered name (or "お客様"),
   * and carries the same token-id text as the saved history row.
   */
  lemma MailMatchesSavedSend(name: string, idNo: string, email: string, address: string,
                             selection: seq<Nft>, txHash: string)
    requires AllIdsPresent(selection)
    ensures var p := SendPayload(name, idNo, email, address, selection, txHash);
      var d := SuccessData(OrElse(name, DefaultSalutation), email, txHash, IdsText(selection));
      var b := MailContent(Some(d)).value.body;
      var n := |d.name| + |MailIntro|;
      && MailContent(Some(d)).value.to == email
      && (p.email.Some? ==> p.email.value == email)
      && b[..|d.name|] == (if name == "" then DefaultSalutation else name)
      && b[n..][..|p.tokenIds|] == p.tokenIds
  {
    MailLayout(SuccessData(OrElse(name, DefaultSalutation), email, txHash, IdsText(selection)));
  }
}
