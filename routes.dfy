/**
 * The two routers and how the application dispatches a request to them.
 * `/api/users` and `/api/vehicles` are mounted routers; a route is a verb,
 * a path pattern, the middleware run before its handler, and the handler.
 * Express matches paths case-insensitively, a `:name` segment matches one
 * non-empty segment, and the first route whose verb and pattern match
 * handles the request. The vehicle router runs authentication and the
 * role check for every request that reaches it, before looking at routes.
 */
module Routes {
  import opened Common
  import opened Users
  import opened Http
  import opened Validation
  import ErrorHandling
  import Auth
  import UserController

  /* ---------- Route tables ---------- */

  /** A middleware a route runs before its handler. */
  datatype Stage =
    | Validating(schema: SchemaName)  // validate(schema)
    | Authenticating                  // authenticateToken
    | Authorizing(roles: seq<Role>)   // authorizeRole(roles)

  datatype Segment = Lit(text: string) | Param

  datatype UserAction = Register | LogIn | Refresh | ListUsers | ShowUser | EditUser | RemoveUser

  /** The vehicle controller's handlers; the controller itself is not part of this model. */
  datatype VehicleAction =
    | ListVehicles | FindByRegistration | FindByPriceRange | ShowVehicle | AddVehicle | EditVehicle | RemoveVehicle

  datatype Target = UserTarget(user: UserAction) | VehicleTarget(vehicle: VehicleAction)

  datatype Route = Route(verb: Verb, pattern: seq<Segment>, stages: seq<Stage>, target: Target)

  const UsersMount: seq<string> := ["api", "users"]
  const VehiclesMount: seq<string> := ["api", "vehicles"]

  /** The user router, in registration order. */
  const UserRoutes: seq<Route> := [
    Route(Post, [Lit("register")], [Validating(CreateUserBody)], UserTarget(Register)),
    Route(Post, [Lit("login")], [Validating(LoginBody)], UserTarget(LogIn)),
    Route(Post, [Lit("refresh-token")], [Validating(RefreshTokenBody)], UserTarget(Refresh)),
    Route(Get, [], [Authenticating, Authorizing(Auth.AdminOnly)], UserTarget(ListUsers)),
    Route(Get, [Param], [Authenticating, Authorizing(Auth.AnyRole)], UserTarget(ShowUser)),
    Route(Put, [Param], [Authenticating, Authorizing(Auth.AnyRole), Validating(UpdateUserBody)], UserTarget(EditUser)),
    Route(Delete, [Param], [Authenticating, Authorizing(Auth.AdminOnly)], UserTarget(RemoveUser))
  ]

  /** The vehicle router's `router.use` middleware. */
  const VehiclePrefix: seq<Stage> := [Authenticating, Authorizing(Auth.AnyRole)]

  /** The vehicle router's routes, in registration order. */
  const VehicleRoutes: seq<Route> := [
    Route(Get, [], [], VehicleTarget(ListVehicles)),
    Route(Get, [Lit("registration"), Param], [], VehicleTarget(FindByRegistration)),
    Route(Get, [Lit("price"), Lit("range")], [], VehicleTarget(FindByPriceRange)),
    Route(Get, [Param], [], VehicleTarget(ShowVehicle)),
    Route(Post, [], [Validating(VehicleBody)], VehicleTarget(AddVehicle)),
    Route(Put, [Param], [Validating(VehicleBody)], VehicleTarget(EditVehicle)),
    Route(Delete, [Param], [], VehicleTarget(RemoveVehicle))
  ]

  /* ---------- Path matching ---------- */

  function Lower(c: char): char {
    if 'A' <= c <= 'Z' then (c as int + 32) as char else c
  }

  /** A path segment equals a literal up to ASCII case. */
  predicate SameText(literal: string, segment: string) {
    |segment| == |literal| && forall i :: 0 <= i < |segment| ==> Lower(segment[i]) == Lower(literal[i])
  }

  function ParamCount(pattern: seq<Segment>): nat {
    if pattern == [] then 0 else (if pattern[0].Param? then 1 else 0) + ParamCount(pattern[1..])
  }

  /** The values of the pattern's parameters, in order, when `path` matches `pattern`. */
  function MatchParams(pattern: seq<Segment>, path: seq<string>): (params: Option<seq<string>>)
    ensures params.Some? ==> |path| == |pattern| && |params.value| == ParamCount(pattern)
    ensures params.Some? ==> forall i :: 0 <= i < |params.value| ==> params.value[i] != ""
    decreases |pattern|
  {
    if |pattern| != |path| then None
    else if pattern == [] then Some([])
    else
      match pattern[0]
      case Lit(text) =>
        if SameText(text, path[0]) then MatchParams(pattern[1..], path[1..]) else None
      case Param =>
        if path[0] == "" then None
        else
          match MatchParams(pattern[1..], path[1..])
          case Some(rest) => Some([path[0]] + rest)
          case None => None
  }

  predicate Matches(route: Route, verb: Verb, path: seq<string>) {
    route.verb == verb && MatchParams(route.pattern, path).Some?
  }

  /** The first route of the table that matches, with its parameter values. */
  function FindRoute(routes: seq<Route>, verb: Verb, path: seq<string>): (found: Option<(Route, seq<string>)>)
    ensures found.Some? ==> found.value.0 in routes && found.value.0.verb == verb
                            && MatchParams(found.value.0.pattern, path) == Some(found.value.1)
    ensures found.None? <==> forall r :: r in routes ==> !Matches(r, verb, path)
    decreases |routes|
  {
    if routes == [] then None
    else if Matches(routes[0], verb, path) then Some((routes[0], MatchParams(routes[0].pattern, path).value))
    else
      var found := FindRoute(routes[1..], verb, path);
      assert forall r :: r in routes ==> r == routes[0] || r in routes[1..];
      found
  }

  /** The rest of the path when it starts with the mount path's segments. */
  function Mounted(mount: seq<string>, path: seq<string>): (rest: Option<seq<string>>)
    ensures rest.Some? ==> |path| >= |mount| && rest.value == path[|mount|..]
  {
    if |path| >= |mount| && forall i :: 0 <= i < |mount| ==> SameText(mount[i], path[i])
    then Some(path[|mount|..])
    else None
  }

  /** Where the application sends a request, as far as matching alone decides. */
  datatype Resolution =
    | Outside                                                   // neither mount
    | Unrouted(before: seq<Stage>)                              // a mount, no route: 404 after `before`
    | Routed(stages: seq<Stage>, target: Target, params: seq<string>)

  /** A router's matching: its first matching route, behind the router's own `router.use` middleware. */
  function RouteWithin(prefix: seq<Stage>, routes: seq<Route>, verb: Verb, rest: seq<string>): (res: Resolution)
    ensures !res.Outside?
    ensures res.Routed? ==> forall i :: 0 <= i < |res.params| ==> res.params[i] != ""
  {
    match FindRoute(routes, verb, rest)
    case None => Unrouted(prefix)
    case Some((route, params)) => Routed(prefix + route.stages, route.target, params)
  }

  function Resolve(verb: Verb, path: seq<string>): (res: Resolution)
    ensures res.Routed? ==> forall i :: 0 <= i < |res.params| ==> res.params[i] != ""
  {
    match Mounted(UsersMount, path)
    case Some(rest) => RouteWithin([], UserRoutes, verb, rest)
    case None =>
      match Mounted(VehiclesMount, path)
      case None => Outside
      case Some(rest) => RouteWithin(VehiclePrefix, VehicleRoutes, verb, rest)
  }

  /* ---------- Running middleware ---------- */

  /** What the middleware reads besides `req.user`. */
  datatype Context = Context(header: Option<string>, body: Body, env: Env, rows: map<int, Row>, outage: Option<Fault>)

  /** One middleware: its step, and `req.user` after it. */
  function StageStep(stage: Stage, user: Option<Profile>, ctx: Context): (Step, Option<Profile>) {
    match stage
    case Validating(name) => (Validate(SchemaOf(name, ctx.env.startYear), ctx.body, ctx.env.isEmail), user)
    case Authenticating =>
      (match Auth.Authenticate(ctx.header, ctx.env, ctx.rows, ctx.outage)
       case Authenticated(u) => (Continue, Some(u))
       case Rejected(response) => (Respond(response), user))
    case Authorizing(roles) => (Auth.AuthorizeRole(roles, user), user)
  }

  /** The middleware that stopped the request, if one did, and `req.user` at that point. */
  datatype Verdict = Verdict(stop: Option<Step>, user: Option<Profile>)

  /** Express calling each middleware in turn while each calls `next()`. */
  function RunStages(stages: seq<Stage>, user: Option<Profile>, ctx: Context): (v: Verdict)
    ensures v.stop.Some? ==> v.stop.value.Respond?
    decreases |stages|
  {
    if stages == [] then Verdict(None, user)
    else
      var (step, after) := StageStep(stages[0], user, ctx);
      if step.Continue? then RunStages(stages[1..], after, ctx) else Verdict(Some(step), after)
  }

  /** Running two lists of middleware one after the other is running their concatenation. */
  lemma {:induction false} RunStagesAppend(a: seq<Stage>, b: seq<Stage>, user: Option<Profile>, ctx: Context)
    ensures RunStages(a + b, user, ctx) ==
      var first := RunStages(a, user, ctx);
      if first.stop.Some? then first else RunStages(b, first.user, ctx)
    decreases |a|
  {
    if a == [] {
      assert a + b == b;
    } else {
      assert (a + b)[0] == a[0] && (a + b)[1..] == a[1..] + b;
      RunStagesAppend(a[1..], b, StageStep(a[0], user, ctx).1, ctx);
    }
  }

  /** When every middleware called `next()`, each validation among them passed. */
  lemma {:induction false} PassedStagesValidated(stages: seq<Stage>, user: Option<Profile>, ctx: Context, i: nat)
    requires RunStages(stages, user, ctx).stop.None?
    requires i < |stages| && stages[i].Validating?
    ensures Check(SchemaOf(stages[i].schema, ctx.env.startYear), ctx.body, ctx.env.isEmail).None?
    decreases i
  {
    if i > 0 {
      PassedStagesValidated(stages[1..], StageStep(stages[0], user, ctx).1, ctx, i - 1);
    }
  }

  /** The `next()` chain of one route, run on the request. */
  method RunPipeline(stages: seq<Stage>, req: Request, table: UserTable, env: Env) returns (stop: Option<Step>)
    modifies req
    ensures RunStages(stages, old(req.user), Context(req.authorization, req.body, env, table.rows, table.outage))
            == Verdict(stop, req.user)
  {
    ghost var ctx := Context(req.authorization, req.body, env, table.rows, table.outage);
    var i := 0;
    stop := None;
    while i < |stages| && stop.None?
      invariant 0 <= i <= |stages|
      invariant RunStages(stages, old(req.user), ctx) ==
        if stop.None? then RunStages(stages[i..], req.user, ctx) else Verdict(stop, req.user)
      decreases |stages| - i
    {
      assert stages[i..][0] == stages[i] && stages[i..][1..] == stages[i + 1..];
      var step;
      match stages[i] {
        case Validating(name) =>
          step := Validate(SchemaOf(name, env.startYear), req.body, env.isEmail);
        case Authenticating =>
          step := Auth.AuthenticateToken(req, table, env);
        case Authorizing(roles) =>
          step := Auth.AuthorizeRole(roles, req.user);
      }
      if !step.Continue? {
        stop := Some(step);
      }
      i := i + 1;
    }
  }

  /* ---------- Serving a request ---------- */

  /** A route parameter as the store reads it: the value of its leading decimal digits, 0 when there are none. */
  function DigitPrefix(s: string): (p: string)
    ensures |p| <= |s| && p == s[..|p|]
    ensures forall i :: 0 <= i < |p| ==> IsDigit(p[i])
    ensures |p| < |s| ==> !IsDigit(s[|p|])
  {
    if s == [] || !IsDigit(s[0]) then [] else [s[0]] + DigitPrefix(s[1..])
  }

  function DecimalValue(digits: string): nat
    requires forall i :: 0 <= i < |digits| ==> IsDigit(digits[i])
  {
    if digits == [] then 0 else DecimalValue(digits[..|digits| - 1]) * 10 + DigitValue(digits[|digits| - 1])
  }

  function ParseId(segment: string): int {
    DecimalValue(DigitPrefix(segment))
  }

  /** The decimal numeral of `n`, as an id appears in a URL. */
  function Decimal(n: nat): (s: string)
    ensures |s| >= 1 && forall i :: 0 <= i < |s| ==> IsDigit(s[i])
  {
    if n < 10 then [DigitChar(n)] else Decimal(n / 10) + [DigitChar(n % 10)]
  }

  lemma {:induction false} DecimalValueOfDecimal(n: nat)
    ensures DecimalValue(Decimal(n)) == n
  {
    if n >= 10 {
      var s := Decimal(n);
      assert s[..|s| - 1] == Decimal(n / 10);
      DecimalValueOfDecimal(n / 10);
    }
  }

  lemma {:induction false} DigitPrefixOf(digits: string, tail: string)
    requires forall i :: 0 <= i < |digits| ==> IsDigit(digits[i])
    requires tail == [] || !IsDigit(tail[0])
    ensures DigitPrefix(digits + tail) == digits
  {
    if digits != [] {
      assert (digits + tail)[1..] == digits[1..] + tail;
      DigitPrefixOf(digits[1..], tail);
    }
  }

  /** The id written in decimal, followed by anything that does not start with a digit, reads back as the id. */
  lemma ParseIdOfDecimal(n: nat, tail: string)
    requires tail == [] || !IsDigit(tail[0])
    ensures ParseId(Decimal(n) + tail) == n
  {
    DigitPrefixOf(Decimal(n), tail);
    DecimalValueOfDecimal(n);
  }

  /** How a request ends: a response, a hand-over to the vehicle controller, or another part of the application. */
  datatype Outcome = Sent(response: Response) | Delegated(action: VehicleAction, params: seq<string>) | OutsideApi

  /** The response for a step that ended the request: its own, or the error handler's for `next(error)`. */
  function Answer(s: Step): (r: Response)
    requires !s.Continue?
    ensures s.Respond? ==> r == s.response
    ensures s.Raise? ==> r == ErrorHandling.ErrorHandler(s.fault)
  {
    match s
    case Respond(response) => response
    case Raise(fault) => ErrorHandling.ErrorHandler(fault)
  }

  /** The user handler a route names, with the body read as its destructuring reads it. */
  method HandleUser(action: UserAction, params: seq<string>, req: Request, table: UserTable, env: Env) returns (s: Step)
    requires table.Valid()
    requires action == Register ==> Check(CreateUserSchema, req.body, env.isEmail).None?
    requires action == LogIn ==> Check(LoginSchema, req.body, env.isEmail).None?
    requires action == EditUser ==> UserController.ChangesOf(req.body).email != Some("")
    requires action == ShowUser || action == EditUser || action == RemoveUser ==> |params| == 1
    modifies table
    ensures table.Valid() && table.outage == old(table.outage)
    ensures !s.Continue?
    ensures s.Raise? || s.response.status >= 400 ==> table.rows == old(table.rows)
    ensures EmailsUnique(old(table.rows)) ==> EmailsUnique(table.rows)
  {
    match action {
      case Register =>
        UserController.NewUserRead(req.body, env.isEmail);
        s := UserController.CreateUser(table, UserController.NewUserOf(req.body).value, env);
      case LogIn =>
        UserController.CredentialsRead(req.body, env.isEmail);
        s := UserController.Login(table, UserController.CredentialsOf(req.body).value, env);
      case Refresh =>
        s := UserController.RefreshToken(table, UserController.RefreshTokenOf(req.body), env);
      case ListUsers =>
        s := UserController.GetAllUsers(table);
      case ShowUser =>
        s := UserController.GetUserById(table, ParseId(params[0]));
      case EditUser =>
        s := UserController.UpdateUserKeepingAbsent(table, ParseId(params[0]), UserController.ChangesOf(req.body), env);
      case RemoveUser =>
        s := UserController.DeleteUser(table, ParseId(params[0]));
    }
  }

  /** What a user route that let the request through guarantees its handler. */
  lemma UserRoutePassed(route: Route, rest: seq<string>, params: seq<string>, user: Option<Profile>, ctx: Context)
    requires route in UserRoutes && MatchParams(route.pattern, rest) == Some(params)
    requires RunStages(route.stages, user, ctx).stop.None?
    ensures route.target.UserTarget?
    ensures route.target.user == Register ==> Check(CreateUserSchema, ctx.body, ctx.env.isEmail).None?
    ensures route.target.user == LogIn ==> Check(LoginSchema, ctx.body, ctx.env.isEmail).None?
    ensures route.target.user == EditUser ==> UserController.ChangesOf(ctx.body).email != Some("")
    ensures route.target.user in {ShowUser, EditUser, RemoveUser} ==> |params| == 1
  {
    var k :| 0 <= k < |UserRoutes| && UserRoutes[k] == route;
    if k == 0 || k == 1 {
      PassedStagesValidated(route.stages, user, ctx, 0);
    } else if k == 5 {
      PassedStagesValidated(route.stages, user, ctx, 2);
      UserController.ChangesRead(ctx.body, ctx.env.isEmail);
    } else if k == 4 || k == 6 {
      MatchedSegments(route.pattern, rest);
    }
  }

  /** How a router ends: a middleware stopped the request, no route matched, or a route's middleware all passed. */
  datatype Dispatch = Stopped(step: Step) | NoRoute | Matched(route: Route, params: seq<string>)

  /**
   * An Express router: its `router.use` middleware for every request that
   * reaches it, then the first matching route's own middleware.
   */
  function RouterSpec(prefix: seq<Stage>, routes: seq<Route>, verb: Verb, rest: seq<string>,
                      user: Option<Profile>, ctx: Context): (d: Dispatch)
    ensures d.Matched? ==> d.route in routes && MatchParams(d.route.pattern, rest) == Some(d.params)
    ensures d.Matched? ==> RunStages(d.route.stages, RunStages(prefix, user, ctx).user, ctx).stop.None?
  {
    var v := RunStages(prefix, user, ctx);
    var found := FindRoute(routes, verb, rest);
    if v.stop.Some? then Stopped(v.stop.value)
    else if found.None? then NoRoute
    else
      var w := RunStages(found.value.0.stages, v.user, ctx);
      if w.stop.Some? then Stopped(w.stop.value) else Matched(found.value.0, found.value.1)
  }

  /** The router reaches the route that matching picks, after the middleware matching puts in front of it. */
  lemma RouterSpecResolves(prefix: seq<Stage>, routes: seq<Route>, verb: Verb, rest: seq<string>,
                           user: Option<Profile>, ctx: Context)
    ensures var res := RouteWithin(prefix, routes, verb, rest);
      var d := RouterSpec(prefix, routes, verb, rest, user, ctx);
      res.Unrouted? ==>
        var v := RunStages(res.before, user, ctx);
        d == if v.stop.Some? then Stopped(v.stop.value) else NoRoute
    ensures var res := RouteWithin(prefix, routes, verb, rest);
      var d := RouterSpec(prefix, routes, verb, rest, user, ctx);
      res.Routed? ==>
        var v := RunStages(res.stages, user, ctx);
        if v.stop.Some? then d == Stopped(v.stop.value)
        else d.Matched? && d.route.target == res.target && d.params == res.params
  {
    var found := FindRoute(routes, verb, rest);
    if found.Some? {
      RunStagesAppend(prefix, found.value.0.stages, user, ctx);
    }
  }

  /** What the application does with a request that matching sends to `res`. */
  ghost predicate Answers(outcome: Outcome, res: Resolution, user: Option<Profile>, ctx: Context) {
    match res
    case Outside => outcome == OutsideApi
    case Unrouted(before) =>
      var v := RunStages(before, user, ctx);
      outcome == Sent(if v.stop.Some? then Answer(v.stop.value) else Response(404, CannotRoute))
    case Routed(stages, target, params) =>
      var v := RunStages(stages, user, ctx);
      if v.stop.Some? then outcome == Sent(Answer(v.stop.value))
      else if target.VehicleTarget? then outcome == Delegated(target.vehicle, params)
      else outcome.Sent?
  }

  method RunRouter(prefix: seq<Stage>, routes: seq<Route>, req: Request, table: UserTable, env: Env, rest: seq<string>)
    returns (d: Dispatch)
    modifies req
    ensures d == RouterSpec(prefix, routes, req.verb, rest, old(req.user),
                            Context(req.authorization, req.body, env, table.rows, table.outage))
  {
    var stop := RunPipeline(prefix, req, table, env);
    if stop.Some? {
      return Stopped(stop.value);
    }
    var found := FindRoute(routes, req.verb, rest);
    if found.None? {
      return NoRoute;
    }
    var stop' := RunPipeline(found.value.0.stages, req, table, env);
    if stop'.Some? {
      return Stopped(stop'.value);
    }
    return Matched(found.value.0, found.value.1);
  }

  /** The users router under `/api/users`: a passed route runs its controller. */
  method ServeUsers(table: UserTable, req: Request, env: Env, rest: seq<string>) returns (outcome: Outcome)
    requires table.Valid()
    modifies req, table
    ensures table.Valid() && table.outage == old(table.outage)
    ensures EmailsUnique(old(table.rows)) ==> EmailsUnique(table.rows)
    ensures !outcome.Sent? || outcome.response.status >= 400 ==> table.rows == old(table.rows)
    ensures Answers(outcome, RouteWithin([], UserRoutes, req.verb, rest), old(req.user),
                    Context(req.authorization, req.body, env, old(table.rows), old(table.outage)))
  {
    ghost var ctx := Context(req.authorization, req.body, env, table.rows, table.outage);
    ghost var user0 := req.user;
    RouterSpecResolves([], UserRoutes, req.verb, rest, user0, ctx);
    var d := RunRouter([], UserRoutes, req, table, env, rest);
    match d {
      case Stopped(step) =>
        outcome := Sent(Answer(step));
      case NoRoute =>
        outcome := Sent(Response(404, CannotRoute));
      case Matched(route, params) =>
        UserRoutePassed(route, rest, params, user0, ctx);
        var s := HandleUser(route.target.user, params, req, table, env);
        outcome := Sent(Answer(s));
    }
  }

  /** Every vehicle route ends in the vehicle controller. */
  lemma VehicleRoutesDelegate(route: Route)
    requires route in VehicleRoutes
    ensures route.target.VehicleTarget?
  {
  }

  /** The vehicles router under `/api/vehicles`: a passed route is handed to the vehicle controller. */
  method ServeVehicles(table: UserTable, req: Request, env: Env, rest: seq<string>) returns (outcome: Outcome)
    modifies req
    ensures Answers(outcome, RouteWithin(VehiclePrefix, VehicleRoutes, req.verb, rest), old(req.user),
                    Context(req.authorization, req.body, env, table.rows, table.outage))
  {
    RouterSpecResolves(VehiclePrefix, VehicleRoutes, req.verb, rest, req.user,
                       Context(req.authorization, req.body, env, table.rows, table.outage));
    var d := RunRouter(VehiclePrefix, VehicleRoutes, req, table, env, rest);
    match d {
      case Stopped(step) =>
        outcome := Sent(Answer(step));
      case NoRoute =>
        outcome := Sent(Response(404, CannotRoute));
      case Matched(route, params) =>
        VehicleRoutesDelegate(route);
        outcome := Delegated(route.target.vehicle, params);
    }
  }

  /**
   * The application handling one request: the router mounted at its path,
   * `next(error)` ending in the error handler, and Express's 404 for a path
   * a router does not know. A request that is refused or fails leaves the
   * users table as it was.
   */
  method Serve(table: UserTable, req: Request, env: Env) returns (outcome: Outcome)
    requires table.Valid()
    modifies req, table
    ensures table.Valid() && table.outage == old(table.outage)
    ensures EmailsUnique(old(table.rows)) ==> EmailsUnique(table.rows)
    ensures !outcome.Sent? || outcome.response.status >= 400 ==> table.rows == old(table.rows)
    ensures Answers(outcome, Resolve(req.verb, req.path), old(req.user),
                    Context(req.authorization, req.body, env, old(table.rows), old(table.outage)))
  {
    var users := Mounted(UsersMount, req.path);
    if users.Some? {
      outcome := ServeUsers(table, req, env, users.value);
      return;
    }
    var vehicles := Mounted(VehiclesMount, req.path);
    if vehicles.None? {
      outcome := OutsideApi;
      return;
    }
    outcome := ServeVehicles(table, req, env, vehicles.value);
  }

  /* ---------- What the routing promises ---------- */

  /** A matched path has one segment per pattern segment, and each literal matches its segment. */
  lemma {:induction false} MatchedSegments(pattern: seq<Segment>, path: seq<string>)
    requires MatchParams(pattern, path).Some?
    ensures |path| == |pattern|
    ensures forall k :: 0 <= k < |pattern| && pattern[k].Lit? ==> SameText(pattern[k].text, path[k])
    decreases |pattern|
  {
    if pattern != [] {
      MatchedSegments(pattern[1..], path[1..]);
    }
  }

  /**
   * No request matches two routes of the same router, so the order the
   * routes are registered in never decides which handler runs.
   */
  lemma RoutesDisjoint()
    ensures forall i, j, verb, path :: 0 <= i < j < |UserRoutes| && Matches(UserRoutes[i], verb, path) ==>
      !Matches(UserRoutes[j], verb, path)
    ensures forall i, j, verb, path :: 0 <= i < j < |VehicleRoutes| && Matches(VehicleRoutes[i], verb, path) ==>
      !Matches(VehicleRoutes[j], verb, path)
  {
    forall i, j, verb, path | 0 <= i < j < |UserRoutes| && Matches(UserRoutes[i], verb, path)
      ensures !Matches(UserRoutes[j], verb, path)
    {
      MatchedSegments(UserRoutes[i].pattern, path);
      if Matches(UserRoutes[j], verb, path) {
        MatchedSegments(UserRoutes[j].pattern, path);
      }
    }
    forall i, j, verb, path | 0 <= i < j < |VehicleRoutes| && Matches(VehicleRoutes[i], verb, path)
      ensures !Matches(VehicleRoutes[j], verb, path)
    {
      MatchedSegments(VehicleRoutes[i].pattern, path);
      if Matches(VehicleRoutes[j], verb, path) {
        MatchedSegments(VehicleRoutes[j].pattern, path);
      }
    }
  }

  lemma MountedUnder(mount: seq<string>, rest: seq<string>)
    ensures Mounted(mount, mount + rest) == Some(rest)
  {
    assert (mount + rest)[|mount|..] == rest;
    forall i | 0 <= i < |mount| ensures SameText(mount[i], (mount + rest)[i]) {
    }
  }

  lemma NotMountedUnderUsers(rest: seq<string>)
    ensures Mounted(UsersMount, VehiclesMount + rest) == None
  {
    assert !SameText(UsersMount[1], (VehiclesMount + rest)[1]);
  }

  /**
   * Without a token, every request under `/api/vehicles`, routed or not,
   * is answered 401 by the router-level authentication.
   */
  lemma VehicleRouterNeedsToken(verb: Verb, rest: seq<string>, user: Option<Profile>, ctx: Context)
    requires Auth.BearerToken(ctx.header).None?
    ensures var res := Resolve(verb, VehiclesMount + rest);
      && !res.Outside?
      && RunStages(if res.Unrouted? then res.before else res.stages, user, ctx).stop
         == Some(Respond(Response(401, Message(Auth.TokenRequired))))
  {
    ResolveVehicles(verb, rest);
    match FindRoute(VehicleRoutes, verb, rest) {
      case None =>
        NoTokenStops(VehiclePrefix, user, ctx);
      case Some((route, _)) =>
        NoTokenStops(VehiclePrefix + route.stages, user, ctx);
    }
  }

  /** Middleware that starts with authentication stops a request without a token with 401. */
  lemma NoTokenStops(stages: seq<Stage>, user: Option<Profile>, ctx: Context)
    requires |stages| >= 1 && stages[0] == Authenticating && Auth.BearerToken(ctx.header).None?
    ensures RunStages(stages, user, ctx).stop == Some(Respond(Response(401, Message(Auth.TokenRequired))))
  {
  }

  lemma SingleParam(segment: string)
    requires segment != ""
    ensures MatchParams([Param], [segment]) == Some([segment])
  {
    assert [Param][1..] == [] && [segment][1..] == [];
    assert MatchParams([], []) == Some([]);
    assert [segment] + [] == [segment];
  }

  /** In a router whose routes are disjoint, a route that matches is the one found. */
  lemma FindsTheMatch(routes: seq<Route>, verb: Verb, path: seq<string>, k: nat)
    requires k < |routes| && Matches(routes[k], verb, path)
    requires forall i, j :: 0 <= i < j < |routes| && Matches(routes[i], verb, path) ==> !Matches(routes[j], verb, path)
    ensures FindRoute(routes, verb, path) == Some((routes[k], MatchParams(routes[k].pattern, path).value))
  {
    var found := FindRoute(routes, verb, path);
    var i :| 0 <= i < |routes| && routes[i] == found.value.0;
    assert Matches(routes[i], verb, path);
  }

  /** Under `/api/vehicles`, resolution is the vehicle router's. */
  lemma ResolveVehicles(verb: Verb, rest: seq<string>)
    ensures Resolve(verb, VehiclesMount + rest) ==
      match FindRoute(VehicleRoutes, verb, rest)
      case None => Unrouted(VehiclePrefix)
      case Some((route, params)) => Routed(VehiclePrefix + route.stages, route.target, params)
  {
    NotMountedUnderUsers(rest);
    MountedUnder(VehiclesMount, rest);
  }

  /** Under `/api/users`, resolution is the user router's. */
  lemma ResolveUsers(verb: Verb, rest: seq<string>)
    ensures Resolve(verb, UsersMount + rest) ==
      match FindRoute(UserRoutes, verb, rest)
      case None => Unrouted([])
      case Some((route, params)) => Routed(route.stages, route.target, params)
  {
    MountedUnder(UsersMount, rest);
    var found := FindRoute(UserRoutes, verb, rest);
    if found.Some? {
      assert [] + found.value.0.stages == found.value.0.stages;
    }
  }

  /**
   * `GET /api/vehicles/<segment>` is a lookup by id for every single
   * segment, `registration` and `price` included: the search routes need
   * two segments.
   */
  lemma SingleSegmentIsAnId(segment: string)
    requires segment != ""
    ensures Resolve(Get, VehiclesMount + [segment]) == Routed(VehiclePrefix, VehicleTarget(ShowVehicle), [segment])
  {
    ShowVehicleFound(segment);
    ResolveVehicles(Get, [segment]);
    assert VehiclePrefix + [] == VehiclePrefix;
  }

  lemma ShowVehicleFound(segment: string)
    requires segment != ""
    ensures FindRoute(VehicleRoutes, Get, [segment]) == Some((VehicleRoutes[3], [segment]))
  {
    SingleParam(segment);
    assert Matches(VehicleRoutes[3], Get, [segment]);
    RoutesDisjoint();
    FindsTheMatch(VehicleRoutes, Get, [segment], 3);
  }

  /** `PUT /api/users/:id` resolves to the update route, whose middleware is fixed. */
  lemma EditRoute(id: string)
    requires id != ""
    ensures Resolve(Put, UsersMount + [id]) == Routed(UserRoutes[5].stages, UserTarget(EditUser), [id])
  {
    EditRouteFound(id);
    ResolveUsers(Put, [id]);
  }

  lemma EditRouteFound(id: string)
    requires id != ""
    ensures FindRoute(UserRoutes, Put, [id]) == Some((UserRoutes[5], [id]))
  {
    SingleParam(id);
    assert Matches(UserRoutes[5], Put, [id]);
    RoutesDisjoint();
    FindsTheMatch(UserRoutes, Put, [id], 5);
  }

  /** A route's authentication followed by its role check, for a caller the token authenticates. */
  lemma AuthenticatedThenAuthorized(roles: seq<Role>, rest: seq<Stage>, caller: Profile, user: Option<Profile>, ctx: Context)
    requires Auth.Authenticate(ctx.header, ctx.env, ctx.rows, ctx.outage) == Auth.Authenticated(caller)
    ensures RunStages([Authenticating, Authorizing(roles)] + rest, user, ctx) ==
      if caller.role in roles then RunStages(rest, Some(caller), ctx)
      else Verdict(Some(Respond(Response(403, Message(Auth.AccessDenied)))), Some(caller))
  {
    var stages := [Authenticating, Authorizing(roles)] + rest;
    assert stages[0] == Authenticating && stages[1..] == [Authorizing(roles)] + rest;
    assert ([Authorizing(roles)] + rest)[0] == Authorizing(roles) && ([Authorizing(roles)] + rest)[1..] == rest;
  }

  /**
   * An update without a token is refused with 401 whatever its body: the
   * body is validated only after authentication and the role check.
   */
  lemma UnauthenticatedEditIs401(id: string, user: Option<Profile>, ctx: Context)
    requires id != "" && Auth.BearerToken(ctx.header).None?
    ensures Resolve(Put, UsersMount + [id]).Routed?
    ensures RunStages(Resolve(Put, UsersMount + [id]).stages, user, ctx).stop
            == Some(Respond(Response(401, Message(Auth.TokenRequired))))
  {
    EditRoute(id);
  }

  /**
   * Any authenticated user, whatever the role, with a valid body passes every
   * middleware of the update route for any id, their own or not: nothing
   * compares the id in the path with the caller.
   */
  lemma EditNeedsNoOwnership(id: string, caller: Profile, user: Option<Profile>, ctx: Context)
    requires id != ""
    requires Auth.Authenticate(ctx.header, ctx.env, ctx.rows, ctx.outage) == Auth.Authenticated(caller)
    requires Check(UpdateUserSchema, ctx.body, ctx.env.isEmail).None?
    ensures Resolve(Put, UsersMount + [id]).Routed?
    ensures RunStages(Resolve(Put, UsersMount + [id]).stages, user, ctx).stop.None?
  {
    EditRoute(id);
    ValidBodyPasses(UpdateUserBody, Some(caller), ctx);
    assert caller.role == Auth.AnyRole[0] || caller.role == Auth.AnyRole[1];
    AuthenticatedThenAuthorized(Auth.AnyRole, [Validating(UpdateUserBody)], caller, user, ctx);
    assert UserRoutes[5].stages == [Authenticating, Authorizing(Auth.AnyRole)] + [Validating(UpdateUserBody)];
  }

  lemma ValidBodyPasses(name: SchemaName, user: Option<Profile>, ctx: Context)
    requires Check(SchemaOf(name, ctx.env.startYear), ctx.body, ctx.env.isEmail).None?
    ensures RunStages([Validating(name)], user, ctx) == Verdict(None, user)
  {
    assert [Validating(name)][1..] == [];
  }

  /** Listing and deleting users pass their middleware exactly for an authenticated admin; anyone else authenticated gets 403. */
  lemma AdminRoutes(caller: Profile, user: Option<Profile>, ctx: Context)
    requires Auth.Authenticate(ctx.header, ctx.env, ctx.rows, ctx.outage) == Auth.Authenticated(caller)
    ensures UserRoutes[3].target == UserTarget(ListUsers) && UserRoutes[6].target == UserTarget(RemoveUser)
    ensures RunStages(UserRoutes[3].stages, user, ctx).stop ==
      (if caller.role == Admin then None else Some(Respond(Response(403, Message(Auth.AccessDenied)))))
    ensures RunStages(UserRoutes[6].stages, user, ctx).stop ==
      (if caller.role == Admin then None else Some(Respond(Response(403, Message(Auth.AccessDenied)))))
  {
    assert UserRoutes[3].stages == [Authenticating, Authorizing(Auth.AdminOnly)] + [];
    assert UserRoutes[6].stages == [Authenticating, Authorizing(Auth.AdminOnly)] + [];
    AuthenticatedThenAuthorized(Auth.AdminOnly, [], caller, user, ctx);
    assert caller.role in Auth.AdminOnly <==> caller.role == Admin;
  }

  /** The mount paths are matched without regard to case. */
  lemma MountIgnoresCase(verb: Verb, rest: seq<string>)
    ensures Resolve(verb, ["API", "Users"] + rest) == Resolve(verb, UsersMount + rest)
  {
    MountedUnder(UsersMount, rest);
    assert (["API", "Users"] + rest)[2..] == rest;
    assert SameText(UsersMount[0], "API") && SameText(UsersMount[1], "Users");
  }

  /** Registration, login and token refresh run their validation and nothing else. */
  lemma PublicRoutes()
    ensures forall i :: 0 <= i < 3 ==> |UserRoutes[i].stages| == 1 && UserRoutes[i].stages[0].Validating?
    ensures forall i :: 3 <= i < |UserRoutes| ==>
      |UserRoutes[i].stages| >= 2 && UserRoutes[i].stages[0] == Authenticating && UserRoutes[i].stages[1].Authorizing?
  {
  }

  /** Of the vehicle routes, exactly those for POST and PUT validate a body, and only after the router's middleware. */
  lemma VehicleValidation()
    ensures forall r :: r in VehicleRoutes ==>
      ((exists k :: 0 <= k < |r.stages| && r.stages[k].Validating?) <==> r.verb == Post || r.verb == Put)
    ensures forall r :: r in VehicleRoutes ==> forall k :: 0 <= k < |VehiclePrefix| ==> !VehiclePrefix[k].Validating?
  {
    forall r | r in VehicleRoutes && (r.verb == Post || r.verb == Put)
      ensures exists k :: 0 <= k < |r.stages| && r.stages[k].Validating?
    {
      assert r.stages[0].Validating?;
    }
  }

  /**
   * `DELETE /api/vehicles/:id` passes its middleware for an authenticated
   * user of either role: no admin check.
   */
  lemma VehicleDeleteAnyRole(id: string, caller: Profile, user: Option<Profile>, ctx: Context)
    requires id != ""
    requires Auth.Authenticate(ctx.header, ctx.env, ctx.rows, ctx.outage) == Auth.Authenticated(caller)
    ensures Resolve(Delete, VehiclesMount + [id]) == Routed(VehiclePrefix, VehicleTarget(RemoveVehicle), [id])
    ensures RunStages(VehiclePrefix, user, ctx).stop.None?
  {
    VehicleDeleteResolves(id);
    VehiclePrefixPasses(caller, user, ctx);
  }

  /** `DELETE /api/vehicles/<id>` resolves to the delete route behind the router's middleware. */
  lemma VehicleDeleteResolves(id: string)
    requires id != ""
    ensures Resolve(Delete, VehiclesMount + [id]) == Routed(VehiclePrefix, VehicleTarget(RemoveVehicle), [id])
  {
    VehicleDeleteFound(id);
    ResolveVehicles(Delete, [id]);
    assert VehiclePrefix + [] == VehiclePrefix;
  }

  /** The vehicle router's own middleware lets every authenticated user through. */
  lemma VehiclePrefixPasses(caller: Profile, user: Option<Profile>, ctx: Context)
    requires Auth.Authenticate(ctx.header, ctx.env, ctx.rows, ctx.outage) == Auth.Authenticated(caller)
    ensures RunStages(VehiclePrefix, user, ctx).stop.None?
  {
    assert caller.role == Auth.AnyRole[0] || caller.role == Auth.AnyRole[1];
    AuthenticatedThenAuthorized(Auth.AnyRole, [], caller, user, ctx);
    assert VehiclePrefix == [Authenticating, Authorizing(Auth.AnyRole)] + [];
  }

  lemma VehicleDeleteFound(id: string)
    requires id != ""
    ensures FindRoute(VehicleRoutes, Delete, [id]) == Some((VehicleRoutes[6], [id]))
  {
    SingleParam(id);
    assert Matches(VehicleRoutes[6], Delete, [id]);
    RoutesDisjoint();
    FindsTheMatch(VehicleRoutes, Delete, [id], 6);
  }

  /** `GET /api/vehicles/registration/<number>` reaches the search by registration number, with the number as parameter. */
  lemma RegistrationSearch(number: string)
    requires number != ""
    ensures Resolve(Get, VehiclesMount + ["registration", number])
            == Routed(VehiclePrefix, VehicleTarget(FindByRegistration), [number])
  {
    RegistrationSearchFound(number);
    ResolveVehicles(Get, ["registration", number]);
    assert VehiclePrefix + [] == VehiclePrefix;
  }

  lemma RegistrationSearchFound(number: string)
    requires number != ""
    ensures FindRoute(VehicleRoutes, Get, ["registration", number]) == Some((VehicleRoutes[1], [number]))
  {
    var path := ["registration", number];
    assert SameText("registration", path[0]);
    assert path[1..] == [number];
    SingleParam(number);
    assert MatchParams(VehicleRoutes[1].pattern, path) == Some([number]);
    RoutesDisjoint();
    FindsTheMatch(VehicleRoutes, Get, path, 1);
  }
}
