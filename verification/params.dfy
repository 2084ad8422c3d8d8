/**
 Construction of the report objects from request parameters: the
 `__init__` validation of `ProjectReport`, `AccessLogReport` and
 `UsageReport`. A rejected parameter is an `APIReportParamsException`
 (answered 400 by the handler); a date `dateutil` cannot read and a project
 id `bson` cannot read raise other exceptions that the handler does not
 catch.
 */
module ReportParams {
  import opened Wrappers
  import opened Dates
  import Decimal

  /** The query parameters of a request, in order; a key may repeat. */
  type RequestParams = seq<(string, string)>

  /**
   `params.getall(key)`: every value of `key`, in request order. Each value
   appears as often as the request repeats it under `key`.
   */
  function GetAll(params: RequestParams, key: string): (vs: seq<string>)
    ensures |vs| <= |params|
    ensures forall v :: v in vs <==> (key, v) in params
    ensures forall v :: multiset(vs)[v] == multiset(params)[(key, v)]
  {
    if |params| == 0 then []
    else
      var init := params[..|params| - 1];
      var rest := GetAll(init, key);
      var last := params[|params| - 1];
      assert params == init + [last];
      assert multiset(params) == multiset(init) + multiset{last};
      if last.0 == key then rest + [last.1] else rest
  }

  /** The order of `getall`: a pair appended to the request appends its value exactly when its key is asked for. */
  lemma GetAllAppend(params: RequestParams, k: string, v: string, key: string)
    ensures GetAll(params + [(k, v)], key) == GetAll(params, key) + (if k == key then [v] else [])
  {
    assert (params + [(k, v)])[..|params|] == params;
  }

  /**
   `params.get(key)`: the value of the last pair with `key`, or None when
   no pair has it.
   */
  function Get(params: RequestParams, key: string): (r: Option<string>)
    ensures r.None? <==> forall v :: (key, v) !in params
    ensures r.Some? ==> exists i :: 0 <= i < |params| && params[i] == (key, r.value) && forall j :: i < j < |params| ==> params[j].0 != key
  {
    if |params| == 0 then None
    else
      var init := params[..|params| - 1];
      var last := params[|params| - 1];
      assert params == init + [last];
      if last.0 == key then Some(last.1) else Get(init, key)
  }

  /** `get` is the last of `getall`: no value when there is none, otherwise the one requested last. */
  lemma {:induction false} GetIsLastOfGetAll(params: RequestParams, key: string)
    ensures var vs := GetAll(params, key);
      Get(params, key) == if |vs| == 0 then None else Some(vs[|vs| - 1])
  {
    if |params| > 0 {
      var init := params[..|params| - 1];
      var last := params[|params| - 1];
      assert params == init + [last];
      GetIsLastOfGetAll(init, key);
      GetAllAppend(init, last.0, last.1, key);
    }
  }

  /** A project id as `bson.ObjectId` reads it (equal ids compare equal whatever their spelling). */
  datatype ObjectId = ObjectId(bytes: seq<int>)

  /** The parsers the constructors call: `dateutil.parser.parse`, `bson.ObjectId`, `util.is_user_id`. */
  datatype Parsers = Parsers(
    parseDate: string -> Option<Date>,
    toObjectId: string -> Option<ObjectId>,
    isUserId: string -> bool)

  /**
   A date parameter after `if d: d = parse(d)`: absent (None), the empty
   string (falsy, so kept as "" and never parsed), or a parsed timestamp.
   */
  datatype DateArg = Absent | Blank | At(date: Date)

  datatype ParamError =
    | NoProjects
    | EndBeforeStart(end: Date, start: Date)
    | InvalidUser
    | BadLimit
    | BadUsageType

  /** Why construction stopped: a parameter exception, or an exception nothing catches. */
  datatype Rejection =
    | ParamsRejected(error: ParamError)
    | UnparsableDate(text: string)
    | InvalidObjectId(text: string)

  datatype ProjectParams = ProjectParams(projects: seq<ObjectId>, start: DateArg, end: DateArg)

  datatype AccessLogParams = AccessLogParams(start: DateArg, end: DateArg, user: Option<string>, limit: int)

  datatype UsageMode = MonthMode | ProjectMode

  /** `first_month` / `last_month` seed the month walk and are widened while merging. */
  datatype UsageParams = UsageParams(
    start: DateArg, end: DateArg, mode: UsageMode,
    firstMonth: Option<Date>, lastMonth: Option<Date>)

  /** The pair of dates does not have the end strictly before the start. */
  predicate InOrder(start: DateArg, end: DateArg) {
    !(start.At? && end.At? && Before(end.date, start.date))
  }

  function ReadDate(text: Option<string>, parsers: Parsers): (r: Result<DateArg, Rejection>)
    ensures text.None? ==> r == Success(Absent)
    ensures text == Some("") ==> r == Success(Blank)
    ensures text.Some? && text.value != "" ==>
      (r.Success? <==> parsers.parseDate(text.value).Some?)
    ensures r.Success? && r.value.At? ==> text.Some? && parsers.parseDate(text.value) == Some(r.value.date)
    ensures r.Failure? ==> r.error.UnparsableDate?
  {
    match text
    case None => Success(Absent)
    case Some(s) =>
      if s == "" then Success(Blank)
      else match parsers.parseDate(s)
        case Some(d) => Success(At(d))
        case None => Failure(UnparsableDate(s))
  }

  /** Start and end parsed in that order, then the end-before-start check. */
  function ReadDateRange(params: RequestParams, parsers: Parsers): (r: Result<(DateArg, DateArg), Rejection>)
    ensures r.Success? <==>
      && ReadDate(Get(params, "start_date"), parsers).Success?
      && ReadDate(Get(params, "end_date"), parsers).Success?
      && InOrder(ReadDate(Get(params, "start_date"), parsers).value, ReadDate(Get(params, "end_date"), parsers).value)
    ensures r.Success? ==> InOrder(r.value.0, r.value.1)
    ensures r.Success? ==> ReadDate(Get(params, "start_date"), parsers) == Success(r.value.0)
    ensures r.Success? ==> ReadDate(Get(params, "end_date"), parsers) == Success(r.value.1)
  {
    var start :- ReadDate(Get(params, "start_date"), parsers);
    var end :- ReadDate(Get(params, "end_date"), parsers);
    if start.At? && end.At? && Before(end.date, start.date) then
      Failure(ParamsRejected(EndBeforeStart(end.date, start.date)))
    else Success((start, end))
  }

  function ReadObjectIds(texts: seq<string>, parsers: Parsers): (r: Result<seq<ObjectId>, Rejection>)
    ensures r.Success? <==> forall i :: 0 <= i < |texts| ==> parsers.toObjectId(texts[i]).Some?
    ensures r.Success? ==> |r.value| == |texts|
    ensures r.Success? ==> forall i :: 0 <= i < |texts| ==> parsers.toObjectId(texts[i]) == Some(r.value[i])
  {
    if |texts| == 0 then Success([])
    else
      var ids :- ReadObjectIds(texts[..|texts| - 1], parsers);
      match parsers.toObjectId(texts[|texts| - 1])
      case Some(id) => Success(ids + [id])
      case None => Failure(InvalidObjectId(texts[|texts| - 1]))
  }

  /** `ProjectReport.__init__`. */
  function NewProjectReport(params: RequestParams, parsers: Parsers): (r: Result<ProjectParams, Rejection>)
    ensures GetAll(params, "projects") == [] ==> r == Failure(ParamsRejected(NoProjects))
    ensures r.Success? <==>
      && |GetAll(params, "projects")| >= 1
      && ReadDateRange(params, parsers).Success?
      && ReadObjectIds(GetAll(params, "projects"), parsers).Success?
    ensures r.Success? ==> |r.value.projects| == |GetAll(params, "projects")| >= 1
    ensures r.Success? ==> forall i :: 0 <= i < |r.value.projects| ==>
      parsers.toObjectId(GetAll(params, "projects")[i]) == Some(r.value.projects[i])
    ensures r.Success? ==> ReadDateRange(params, parsers) == Success((r.value.start, r.value.end))
  {
    var projectList := GetAll(params, "projects");
    if |projectList| < 1 then Failure(ParamsRejected(NoProjects))
    else
      var (start, end) :- ReadDateRange(params, parsers);
      var projects :- ReadObjectIds(projectList, parsers);
      Success(ProjectParams(projects, start, end))
  }

  /** The access log `limit`: 100 when absent, else `int(limit)` when that is at least 1. */
  function ReadLimit(text: Option<string>): (r: Result<int, Rejection>)
    ensures text.None? ==> r == Success(100)
    ensures r.Success? ==> r.value >= 1
    ensures text.Some? ==>
      (r.Success? <==> Decimal.ParseInt(text.value).Some? && Decimal.ParseInt(text.value).value >= 1)
    ensures text.Some? && r.Success? ==> Decimal.ParseInt(text.value) == Some(r.value)
    ensures r.Failure? ==> r.error == ParamsRejected(BadLimit)
  {
    match text
    case None => Success(100)
    case Some(s) =>
      match Decimal.ParseInt(s)
      case None => Failure(ParamsRejected(BadLimit))
      case Some(n) => if n < 1 then Failure(ParamsRejected(BadLimit)) else Success(n)
  }

  /** `AccessLogReport.__init__`. */
  function NewAccessLogReport(params: RequestParams, parsers: Parsers): (r: Result<AccessLogParams, Rejection>)
    ensures r.Success? ==> ReadDateRange(params, parsers) == Success((r.value.start, r.value.end))
    ensures r.Success? <==>
      && ReadDateRange(params, parsers).Success?
      && (Get(params, "user").None? || Get(params, "user") == Some("") || parsers.isUserId(Get(params, "user").value))
      && ReadLimit(Get(params, "limit")).Success?
    ensures r.Success? ==> r.value.user == Get(params, "user")
    ensures r.Success? && r.value.user.Some? && r.value.user.value != "" ==> parsers.isUserId(r.value.user.value)
    ensures r.Success? ==> ReadLimit(Get(params, "limit")) == Success(r.value.limit)
    ensures ReadDateRange(params, parsers).Success? && ReadLimit(Get(params, "limit")).Failure?
            && (Get(params, "user").None? || Get(params, "user") == Some("") || parsers.isUserId(Get(params, "user").value))
            ==> r == Failure(ParamsRejected(BadLimit))
  {
    var (start, end) :- ReadDateRange(params, parsers);
    var user := Get(params, "user");
    if user.Some? && user.value != "" && !parsers.isUserId(user.value) then
      Failure(ParamsRejected(InvalidUser))
    else
      var limit :- ReadLimit(Get(params, "limit"));
      Success(AccessLogParams(start, end, user, limit))
  }

  /** `UsageReport.__init__`: the mode is checked before the dates are read. */
  function NewUsageReport(params: RequestParams, parsers: Parsers): (r: Result<UsageParams, Rejection>)
    ensures Get(params, "type") != Some("month") && Get(params, "type") != Some("project") ==>
      r == Failure(ParamsRejected(BadUsageType))
    ensures r.Success? <==>
      (Get(params, "type") == Some("month") || Get(params, "type") == Some("project")) && ReadDateRange(params, parsers).Success?
    ensures r.Success? ==> (r.value.mode == MonthMode <==> Get(params, "type") == Some("month"))
    ensures r.Success? ==> ReadDateRange(params, parsers) == Success((r.value.start, r.value.end))
    ensures r.Success? ==> (r.value.firstMonth.Some? <==> r.value.start.At?)
    ensures r.Success? ==> (r.value.lastMonth.Some? <==> r.value.end.At?)
    ensures r.Success? && r.value.start.At? ==> r.value.firstMonth == Some(r.value.start.date)
    ensures r.Success? && r.value.end.At? ==> r.value.lastMonth == Some(r.value.end.date)
  {
    var reportType := Get(params, "type");
    if reportType != Some("month") && reportType != Some("project") then
      Failure(ParamsRejected(BadUsageType))
    else
      var (start, end) :- ReadDateRange(params, parsers);
      var mode := if reportType == Some("month") then MonthMode else ProjectMode;
      var first := if start.At? then Some(start.date) else None;
      var last := if end.At? then Some(end.date) else None;
      Success(UsageParams(start, end, mode, first, last))
  }

  /** Both dates present, readable, and in the wrong order: the date check rejects. */
  lemma {:induction false} EndBeforeStartRejected(params: RequestParams, parsers: Parsers, start: Date, end: Date)
    requires Get(params, "start_date").Some? && Get(params, "start_date").value != ""
    requires Get(params, "end_date").Some? && Get(params, "end_date").value != ""
    requires parsers.parseDate(Get(params, "start_date").value) == Some(start)
    requires parsers.parseDate(Get(params, "end_date").value) == Some(end)
    requires Before(end, start)
    ensures ReadDateRange(params, parsers) == Failure(ParamsRejected(EndBeforeStart(end, start)))
    ensures GetAll(params, "projects") != [] ==>
      NewProjectReport(params, parsers) == Failure(ParamsRejected(EndBeforeStart(end, start)))
    ensures NewAccessLogReport(params, parsers) == Failure(ParamsRejected(EndBeforeStart(end, start)))
    ensures Get(params, "type") in {Some("month"), Some("project")} ==>
      NewUsageReport(params, parsers) == Failure(ParamsRejected(EndBeforeStart(end, start)))
  {
    assert ReadDate(Get(params, "start_date"), parsers) == Success(At(start));
    assert ReadDate(Get(params, "end_date"), parsers) == Success(At(end));
  }

  /**
   A single readable date, with the other one absent, always passes the date
   check, so each report accepts it once its own other parameters pass.
   */
  lemma SingleDateAccepted(params: RequestParams, parsers: Parsers, d: Date)
    requires Get(params, "start_date").None? || Get(params, "end_date").None?
    requires forall key :: key in {"start_date", "end_date"} && Get(params, key).Some? ==>
      Get(params, key).value != "" && parsers.parseDate(Get(params, key).value) == Some(d)
    ensures ReadDateRange(params, parsers).Success?
    ensures |GetAll(params, "projects")| >= 1 && ReadObjectIds(GetAll(params, "projects"), parsers).Success? ==>
      NewProjectReport(params, parsers).Success?
    ensures
      && (Get(params, "user").None? || Get(params, "user") == Some("") || parsers.isUserId(Get(params, "user").value))
      && ReadLimit(Get(params, "limit")).Success?
      ==> NewAccessLogReport(params, parsers).Success?
    ensures Get(params, "type") in {Some("month"), Some("project")} ==> NewUsageReport(params, parsers).Success?
  {
  }

  /** A limit written as a positive decimal is stored unchanged. */
  lemma PositiveLimitKept(n: nat)
    requires n >= 1
    ensures ReadLimit(Some(Decimal.DecimalString(n))) == Success(n)
  {
    Decimal.ParseIntOfDecimalString(n);
  }

  /** `limit=0` is rejected with the "greater than 0" error. */
  lemma ZeroLimitRejected()
    ensures ReadLimit(Some("0")) == Failure(ParamsRejected(BadLimit))
  {
    Decimal.ParseIntOfDecimalString(0);
    assert Decimal.DecimalString(0) == "0";
  }
}
