/** The report routes: their access policies and status codes, and one
    request served end to end: the access decision first, then validation
    of the body, then the handler, which passes the caller's own account to
    the store, then the response shape. */
module ReportsController {
  import opened Common
  import JsParse
  import opened AccountStore
  import opened JwtStrategy
  import opened Access
  import ReportStore
  import opened ReportDtos

  datatype Route = GetEstimate | ListReports | CreateReport | ApproveReport

  /** The policy each route declares. */
  function PolicyOf(route: Route): (p: Policy)
    ensures p.Public? <==> route == GetEstimate
    ensures p == RequiresRole({Admin}) <==> route == ApproveReport
    ensures p == RequiresRole({Admin, User}) <==> route == ListReports || route == CreateReport
  {
    match route
    case GetEstimate => Public
    case ListReports => RequiresRole({Admin, User})
    case CreateReport => RequiresRole({Admin, User})
    case ApproveReport => RequiresRole({Admin})
  }

  /** The status code each route answers with on success. */
  function SuccessStatus(route: Route): int {
    match route
    case GetEstimate => 200
    case ListReports => 200
    case CreateReport => 201
    case ApproveReport => 200
  }

  /** One request to a report route; the approval body is a plain flag. */
  datatype Request =
    | EstimateRequest(body: JsonObject)
    | ListRequest
    | CreateRequest(body: JsonObject)
    | ApproveRequest(id: string, approved: bool)

  function RouteOf(req: Request): Route {
    match req
    case EstimateRequest(_) => GetEstimate
    case ListRequest => ListReports
    case CreateRequest(_) => CreateReport
    case ApproveRequest(_, _) => ApproveReport
  }

  datatype Body =
    | NoBody
    | PriceBody(estimate: ReportStore.Estimate)
    | ReportsBody(reports: seq<ReportView>)
    | ReportBody(report: ReportView)
    | RowBody(row: ReportRow)

  datatype Response = Response(status: int, body: Body)

  function ErrorResponse(e: Error): Response {
    Response(StatusCode(e), NoBody)
  }

  /** The serialized list, one view per report, in order. */
  function Views(rs: seq<ReportStore.Report>): (vs: seq<ReportView>)
    ensures |vs| == |rs| && forall i :: 0 <= i < |rs| ==> vs[i] == ToReportView(rs[i])
  {
    seq(|rs|, i requires 0 <= i < |rs| => ToReportView(rs[i]))
  }

  /** Serves one request. A denied request changes nothing; the estimate
      answers over the current table; a listing holds only the caller's
      reports; a created report belongs to the caller and is unapproved. */
  method Serve(reports: ReportStore.ReportsService, accounts: AccountService, credential: Credential, req: Request)
    returns (resp: Response)
    requires reports.Valid()
    modifies reports
    ensures reports.Valid()
    ensures Decide(PolicyOf(RouteOf(req)), credential, accounts).Deny? ==>
      && resp == ErrorResponse(Decide(PolicyOf(RouteOf(req)), credential, accounts).error)
      && reports.rows == old(reports.rows)
    ensures 200 <= resp.status < 300 ==> resp.status == SuccessStatus(RouteOf(req))
    ensures req.EstimateRequest? || req.ListRequest? ==> reports.rows == old(reports.rows)
    ensures req.EstimateRequest? ==>
      resp == match ValidateEstimate(req.body)
              case Failure(e) => ErrorResponse(e)
              case Success(q) => Response(200, PriceBody(ReportStore.EstimateOf(reports.rows, q)))
    ensures req.ListRequest? && resp.status == 200 ==>
      && resp.body.ReportsBody?
      && forall v :: v in resp.body.reports ==>
           v.ownerId == Decide(PolicyOf(ListReports), credential, accounts).caller.value.id
    ensures req.CreateRequest? && resp.status == 201 ==>
      var caller := Decide(PolicyOf(CreateReport), credential, accounts).caller.value;
      && |reports.rows| == |old(reports.rows)| + 1
      && reports.rows[..|old(reports.rows)|] == old(reports.rows)
      && reports.rows[|old(reports.rows)|].owner == caller
      && !reports.rows[|old(reports.rows)|].approved
      && resp.body == ReportBody(ToReportView(reports.rows[|old(reports.rows)|]))
      && resp.body.report.ownerId == caller.id
    ensures req.ListRequest? && Decide(PolicyOf(ListReports), credential, accounts).Allow? ==>
      resp == Response(200, ReportsBody(Views(ReportStore.OwnedBy(old(reports.rows),
                Decide(PolicyOf(ListReports), credential, accounts).caller.value.id))))
    ensures req.CreateRequest? && Decide(PolicyOf(CreateReport), credential, accounts).Allow? ==>
      match ValidateCreateReport(req.body)
      case Failure(e) => resp == ErrorResponse(e) && reports.rows == old(reports.rows)
      case Success(d) =>
        var r := ReportStore.Report(old(reports.nextId), false, d.price, d.make, d.model, d.year,
                                    d.lng, d.lat, d.mileage,
                                    Decide(PolicyOf(CreateReport), credential, accounts).caller.value);
        reports.rows == old(reports.rows) + [r] && resp == Response(201, ReportBody(ToReportView(r)))
    ensures req.ApproveRequest? && Decide(PolicyOf(ApproveReport), credential, accounts).Allow? ==>
      match ReportStore.IndexOfId(old(reports.rows), JsParse.ParseInt(req.id))
      case None =>
        resp == ErrorResponse(NotFound(ReportNotFound)) && reports.rows == old(reports.rows)
      case Some(i) =>
        var r := old(reports.rows)[i].(approved := req.approved);
        reports.rows == old(reports.rows)[i := r] && resp == Response(200, RowBody(Columns(r)))
  {
    var decision := Decide(PolicyOf(RouteOf(req)), credential, accounts);
    if decision.Deny? {
      return ErrorResponse(decision.error);
    }
    match req {
      case EstimateRequest(body) =>
        match ValidateEstimate(body) {
          case Failure(e) => resp := ErrorResponse(e);
          case Success(q) => resp := Response(200, PriceBody(reports.CreateEstimate(q)));
        }
      case ListRequest =>
        var owned := reports.List(decision.caller.value);
        var views := Views(owned);
        forall v | v in views ensures v.ownerId == decision.caller.value.id {
          var i :| 0 <= i < |views| && views[i] == v;
          assert owned[i] in owned;
        }
        resp := Response(200, ReportsBody(views));
      case CreateRequest(body) =>
        match ValidateCreateReport(body) {
          case Failure(e) => resp := ErrorResponse(e);
          case Success(d) =>
            var r := reports.Create(d, decision.caller.value);
            resp := Response(201, ReportBody(ToReportView(r)));
        }
      case ApproveRequest(id, approved) =>
        var r := reports.UpdateApproval(id, approved);
        resp := if r.Success? then Response(200, RowBody(Columns(r.value))) else ErrorResponse(r.error);
    }
  }

  /** The estimate is answered whatever credential comes with it. */
  lemma EstimateIgnoresToken(accounts: AccountService, credential: Credential)
    ensures Decide(PolicyOf(GetEstimate), credential, accounts) == Allow(None)
  {
  }

  /** A caller whose stored role is `user` cannot approve a report: 403. */
  lemma UserCannotApprove(accounts: AccountService, payload: Payload)
    requires Validate(accounts, payload).Success? && Validate(accounts, payload).value.role == User
    ensures Decide(PolicyOf(ApproveReport), Verified(payload), accounts) == Deny(Forbidden)
  {
  }

  /** Listing and creating without a good token is refused with 401. */
  lemma NoTokenNoReports(accounts: AccountService, credential: Credential, route: Route)
    requires route == ListReports || route == CreateReport
    requires !credential.Verified?
    ensures Decide(PolicyOf(route), credential, accounts) == Deny(Unauthorized)
  {
  }
}
