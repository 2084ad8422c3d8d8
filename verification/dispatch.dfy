/**
 `ReportHandler.get`: look the report type up, construct the report from
 the request parameters, and build it only for a superuser or a user the
 report's own check admits.
 */
module Dispatch {
  import opened Wrappers
  import opened ReportParams
  import ProjectAccess

  datatype ReportKind = SiteKind | ProjectKind | AccessLogKind | UsageKind

  /** The key each report type is registered under in `ReportTypes`. */
  function TokenOf(k: ReportKind): string {
    match k
    case SiteKind => "site"
    case ProjectKind => "project"
    case AccessLogKind => "accesslog"
    case UsageKind => "usage"
  }

  /** The `ReportTypes` table: a key selects the report type registered under it. */
  function KindOf(token: string): (k: Option<ReportKind>)
    ensures k.Some? <==> token in {"site", "project", "accesslog", "usage"}
    ensures k.Some? ==> TokenOf(k.value) == token
  {
    if token == "site" then Some(SiteKind)
    else if token == "project" then Some(ProjectKind)
    else if token == "accesslog" then Some(AccessLogKind)
    else if token == "usage" then Some(UsageKind)
    else None
  }

  /** Every report type is found under its own key. */
  lemma KindOfTokenOf(k: ReportKind)
    ensures KindOf(TokenOf(k)) == Some(k)
  {
  }

  /** A constructed report object: the site report takes no parameters. */
  datatype Report =
    | SiteReport
    | ProjectReport(project: ProjectParams)
    | AccessLogReport(accessLog: AccessLogParams)
    | UsageReport(usage: UsageParams)

  function Construct(kind: ReportKind, params: RequestParams, parsers: Parsers): (r: Result<Report, Rejection>)
    ensures kind == SiteKind ==> r == Success(SiteReport)
    ensures r.Success? ==> match kind
      case SiteKind => r.value.SiteReport?
      case ProjectKind => r.value.ProjectReport? && NewProjectReport(params, parsers) == Success(r.value.project)
      case AccessLogKind => r.value.AccessLogReport? && NewAccessLogReport(params, parsers) == Success(r.value.accessLog)
      case UsageKind => r.value.UsageReport? && NewUsageReport(params, parsers) == Success(r.value.usage)
    ensures kind == ProjectKind ==> (r.Failure? <==> NewProjectReport(params, parsers).Failure?)
    ensures kind == AccessLogKind ==> (r.Failure? <==> NewAccessLogReport(params, parsers).Failure?)
    ensures kind == UsageKind ==> (r.Failure? <==> NewUsageReport(params, parsers).Failure?)
    ensures r.Failure? ==> match kind
      case SiteKind => false
      case ProjectKind => r.error == NewProjectReport(params, parsers).error
      case AccessLogKind => r.error == NewAccessLogReport(params, parsers).error
      case UsageKind => r.error == NewUsageReport(params, parsers).error
  {
    match kind
    case SiteKind => Success(SiteReport)
    case ProjectKind => var p :- NewProjectReport(params, parsers); Success(ProjectReport(p))
    case AccessLogKind => var p :- NewAccessLogReport(params, parsers); Success(AccessLogReport(p))
    case UsageKind => var p :- NewUsageReport(params, parsers); Success(UsageReport(p))
  }

  /**
   What the checks consult: the parsers, whether a user is root
   (`users.count({'_id': uid, 'root': True}) > 0`) and the projects collection.
   */
  datatype Env = Env(parsers: Parsers, isRoot: string -> bool, projects: ProjectAccess.ProjectStore)

  /** `report.user_can_generate(uid)`, with the project report's check as the code writes it. */
  predicate UserCanGenerate(report: Report, uid: string, env: Env) {
    match report
    case ProjectReport(p) => ProjectAccess.UserCanGenerateAsWritten(env.projects, p.projects, uid)
    case _ => env.isRoot(uid)
  }

  /** What the handler does with a request. */
  datatype Outcome =
    | NotSupported(token: string)       // NotImplementedError
    | BadRequest(error: ParamError)     // abort(400, ...)
    | Failed(rejection: Rejection)      // an exception the handler does not catch
    | Forbidden(uid: string)            // abort(403, ...)
    | Build(report: Report)             // report.build() is called

  function HandleGet(token: string, params: RequestParams, superuser: bool, uid: string, env: Env): (o: Outcome)
    ensures o.NotSupported? <==> KindOf(token).None?
    ensures o.BadRequest? <==>
      && KindOf(token).Some?
      && Construct(KindOf(token).value, params, env.parsers).Failure?
      && Construct(KindOf(token).value, params, env.parsers).error.ParamsRejected?
    ensures o.BadRequest? ==> Construct(KindOf(token).value, params, env.parsers) == Failure(ParamsRejected(o.error))
    ensures o.Build? <==>
      && KindOf(token).Some?
      && Construct(KindOf(token).value, params, env.parsers).Success?
      && (superuser || UserCanGenerate(Construct(KindOf(token).value, params, env.parsers).value, uid, env))
    ensures o.Build? ==> superuser || UserCanGenerate(o.report, uid, env)
    ensures o.Failed? ==>
      && KindOf(token).Some?
      && Construct(KindOf(token).value, params, env.parsers) == Failure(o.rejection)
      && !o.rejection.ParamsRejected?
    ensures o.Build? ==> KindOf(token).Some? && Construct(KindOf(token).value, params, env.parsers) == Success(o.report)
    ensures o.Forbidden? <==>
      && KindOf(token).Some?
      && Construct(KindOf(token).value, params, env.parsers).Success?
      && !superuser
      && !UserCanGenerate(Construct(KindOf(token).value, params, env.parsers).value, uid, env)
  {
    match KindOf(token)
    case None => NotSupported(token)
    case Some(kind) =>
      match Construct(kind, params, env.parsers)
      case Failure(ParamsRejected(e)) => BadRequest(e)
      case Failure(other) => Failed(other)
      case Success(report) =>
        if superuser || UserCanGenerate(report, uid, env) then Build(report) else Forbidden(uid)
  }

  /** A non-superuser who is not root never gets a site, access log or usage report built. */
  lemma RootOnlyReports(token: string, params: RequestParams, uid: string, env: Env)
    requires token in {"site", "accesslog", "usage"}
    requires !env.isRoot(uid)
    ensures !HandleGet(token, params, false, uid, env).Build?
  {
  }

  /** Naming a project twice denies a non-superuser, whoever they are. */
  lemma RepeatedProjectDenied(params: RequestParams, uid: string, env: Env)
    requires NewProjectReport(params, env.parsers).Success?
    requires !ProjectAccess.Distinct(NewProjectReport(params, env.parsers).value.projects)
    ensures HandleGet("project", params, false, uid, env) == Forbidden(uid)
  {
    ProjectAccess.UserCanGenerateAsWrittenIff(env.projects, NewProjectReport(params, env.parsers).value.projects, uid);
  }

  /**
   A non-superuser gets a project report built when every named project is
   distinct and lists the user and some admin, whether or not the user is
   that admin.
   */
  lemma ListedUserGetsProjectReport(params: RequestParams, uid: string, env: Env)
    requires NewProjectReport(params, env.parsers).Success?
    requires var ids := NewProjectReport(params, env.parsers).value.projects;
      && ProjectAccess.Distinct(ids)
      && forall i :: 0 <= i < |ids| ==> ids[i] in env.projects && ProjectAccess.MatchesAsWritten(env.projects[ids[i]], uid)
    ensures HandleGet("project", params, false, uid, env) == Build(ProjectReport(NewProjectReport(params, env.parsers).value))
  {
    ProjectAccess.UserCanGenerateAsWrittenIff(env.projects, NewProjectReport(params, env.parsers).value.projects, uid);
  }
}
