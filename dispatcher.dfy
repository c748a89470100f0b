/**
 * The Lumen-era request dispatcher (src/Core/Http/Dispatcher.php).
 *
 * A request verb and the request's path segments are mapped onto a controller
 * class (probing class names built from the first one to three segments, then
 * the home controller) and onto one of the routes that controller declares
 * (the index route, a positional route, or a root route named after a verb).
 * The outcome is FOUND, with the handler, its arguments and the middleware to
 * attach, or NOT_FOUND.
 *
 * As written, a positional match makes getRoute return `false`, which dispatch
 * destructures into nulls: only index routes and root routes are ever found.
 */
module Dispatcher {
  import opened Wrappers
  import opened Text
  import opened Routing

  /** Core\Http\Route, as far as the dispatcher reads it. */
  datatype Route = Route(
    name: string,
    namePosition: int,
    parameters: seq<string>,
    middleware: seq<string>,
    rights: seq<string>)

  /** What the dispatcher asks of the host application. */
  datatype Host = Host(
    classes: set<string>,                      // class_exists
    declaredRoutes: map<string, seq<Route>>,   // controllers that override getRoutes()
    loginRequired: set<string>,                // is_subclass_of(c, LoginRequiredController)
    preg: Preg)

  /** app.routing.namespace, app.routing.defaultcontroller, app.routing.homecontroller. */
  datatype Config = Config(namespace: string, defaultController: string, homeController: string)

  /** The method and the segments of the Request singleton. */
  datatype Request = Request(httpMethod: string, segments: seq<string>)

  datatype Constants = Constants(
    namespace: string,
    defaultName: string,
    homeName: string,
    verb: string,
    segments: seq<string>)

  /** getAllConstants */
  function GetAllConstants(config: Config, request: Request): Constants {
    var namespace := TrimBackslashes(config.namespace);
    Constants(
      namespace,
      namespace + "\\" + config.defaultController,
      namespace + "\\" + config.homeController,
      NormalizeVerb(request.httpMethod),
      request.segments)
  }

  /**
   * The routing constants: the namespace trimmed of backslashes at both ends,
   * the default and home controllers qualified by it, and the normalised verb.
   */
  lemma ConstantsShape(config: Config, request: Request)
    ensures var k := GetAllConstants(config, request);
      && (k.namespace == [] || (k.namespace[0] != '\\' && k.namespace[|k.namespace| - 1] != '\\'))
      && ('\\' !in config.namespace ==> k.namespace == config.namespace)
      && (k.defaultName == k.namespace + "\\" + config.defaultController)
      && (k.homeName == k.namespace + "\\" + config.homeController)
      && (Lower(request.httpMethod) == "patch" ==> k.verb == "put")
      && (Lower(request.httpMethod) != "patch" ==> k.verb == Lower(request.httpMethod))
      && (k.segments == request.segments)
  {
  }

  /** getRoutes() of a controller; BaseController's default declares no routes. */
  function RoutesOf(host: Host, controller: string): (routes: seq<Route>)
    ensures controller !in host.declaredRoutes ==> routes == []
    ensures controller in host.declaredRoutes ==> routes == host.declaredRoutes[controller]
  {
    if controller in host.declaredRoutes then host.declaredRoutes[controller] else []
  }

  // ---------------------------------------------------------------------------
  // Controller probing (getController)
  // ---------------------------------------------------------------------------

  /** `'\\' . ucfirst(strtolower($segment))` */
  function SegmentClassPart(segment: string): string {
    "\\" + Ucfirst(Lower(segment))
  }

  /** The class-name path built from the given segments, in order. */
  function ClassPath(segments: seq<string>): string
    decreases |segments|
  {
    if segments == [] then ""
    else ClassPath(segments[..|segments| - 1]) + SegmentClassPart(segments[|segments| - 1])
  }

  /** min(3, count($segments)) */
  function ProbeCount(segments: seq<string>): nat {
    if |segments| < 3 then |segments| else 3
  }

  /** The class name probed at depth i < ProbeCount. */
  function Candidate(k: Constants, i: nat): string
    requires i < |k.segments|
  {
    k.namespace + ClassPath(k.segments[..i + 1]) + "Controller"
  }

  /** The class names getController probes before the home controller, by depth. */
  function Candidates(k: Constants): (names: seq<string>)
    ensures |names| == ProbeCount(k.segments)
    ensures forall i :: 0 <= i < |names| ==> names[i] == Candidate(k, i)
  {
    seq(ProbeCount(k.segments), i requires 0 <= i < ProbeCount(k.segments) => Candidate(k, i))
  }

  predicate Reserved(k: Constants, name: string) {
    name == k.homeName || name == k.defaultName
  }

  /** The probe of names[i] neither stops the search nor finds a controller. */
  predicate PassedOver(k: Constants, names: seq<string>, classes: set<string>, i: nat)
    requires i < |names|
  {
    !Reserved(k, names[i]) && !IsValidClass(names[i], classes)
  }

  /**
   * The probe sequence from depth i on, over the candidate names (the
   * properties below hold for any list, the dispatcher probes Candidates(k)):
   * candidates in ascending depth, a reserved candidate ends the search with
   * nothing, the home controller comes last and keeps every segment.
   */
  function Probe(k: Constants, names: seq<string>, classes: set<string>, i: nat): Option<(string, seq<string>)>
    requires |names| == ProbeCount(k.segments) && i <= |names|
    decreases |names| - i
  {
    if i == |names| then
      if IsValidClass(k.homeName, classes) then Some((k.homeName, k.segments)) else None
    else if Reserved(k, names[i]) then None
    else if IsValidClass(names[i], classes) then Some((names[i], k.segments[i + 1..]))
    else Probe(k, names, classes, i + 1)
  }

  /** Depths that are passed over do not change the outcome. */
  lemma {:induction false} ProbeSkips(k: Constants, names: seq<string>, classes: set<string>, i: nat, j: nat)
    requires |names| == ProbeCount(k.segments) && i <= j <= |names|
    requires forall m :: i <= m < j ==> PassedOver(k, names, classes, m)
    ensures Probe(k, names, classes, i) == Probe(k, names, classes, j)
    decreases j - i
  {
    if i < j {
      assert PassedOver(k, names, classes, i);
      ProbeSkips(k, names, classes, i + 1, j);
    }
  }

  /** The first registered, non-reserved candidate wins and keeps the segments after it. */
  lemma FirstRegisteredCandidateWins(k: Constants, names: seq<string>, classes: set<string>, i: nat)
    requires |names| == ProbeCount(k.segments) && i < |names|
    requires forall m :: 0 <= m < i ==> PassedOver(k, names, classes, m)
    requires !Reserved(k, names[i]) && IsValidClass(names[i], classes)
    ensures Probe(k, names, classes, 0) == Some((names[i], k.segments[i + 1..]))
  {
    ProbeSkips(k, names, classes, 0, i);
  }

  /** A candidate equal to the home or default controller ends probing: nothing is found, home included. */
  lemma ReservedCandidateStopsProbing(k: Constants, names: seq<string>, classes: set<string>, i: nat)
    requires |names| == ProbeCount(k.segments) && i < |names|
    requires forall m :: 0 <= m < i ==> PassedOver(k, names, classes, m)
    requires Reserved(k, names[i])
    ensures Probe(k, names, classes, 0) == None
  {
    ProbeSkips(k, names, classes, 0, i);
  }

  /** When every candidate is passed over, the home controller is tried with all segments. */
  lemma HomeControllerTakesAllSegments(k: Constants, names: seq<string>, classes: set<string>)
    requires |names| == ProbeCount(k.segments)
    requires forall m :: 0 <= m < |names| ==> PassedOver(k, names, classes, m)
    ensures Probe(k, names, classes, 0)
         == if IsValidClass(k.homeName, classes) then Some((k.homeName, k.segments)) else None
  {
    ProbeSkips(k, names, classes, 0, |names|);
  }

  /**
   * Conversely, whatever probing returns is one of the two cases above: the
   * depth d it stops at passes over every depth before it, and is either a
   * non-reserved registered candidate (d below the probe count) or the home
   * controller.
   */
  lemma {:induction false} ProbeOutcome(k: Constants, names: seq<string>, classes: set<string>, i: nat) returns (d: nat)
    requires |names| == ProbeCount(k.segments) && i <= |names|
    requires Probe(k, names, classes, i).Some?
    ensures i <= d <= |names|
    ensures forall m :: i <= m < d ==> PassedOver(k, names, classes, m)
    ensures d < |names| ==> && !Reserved(k, names[d]) && IsValidClass(names[d], classes)
                            && Probe(k, names, classes, i).value == (names[d], k.segments[d + 1..])
    ensures d == |names| ==> Probe(k, names, classes, i).value == (k.homeName, k.segments)
    decreases |names| - i
  {
    if i == |names| || IsValidClass(names[i], classes) {
      d := i;
    } else {
      assert PassedOver(k, names, classes, i);
      d := ProbeOutcome(k, names, classes, i + 1);
    }
  }

  /** The inner loop of getController: `'\\' . ucfirst(strtolower($segments[$j]))` for j = 0..i. */
  method BuildClassPath(segments: seq<string>, i: nat) returns (className: string)
    requires i < |segments|
    ensures className == ClassPath(segments[..i + 1])
  {
    className := "";
    var j := 0;
    while j <= i
      invariant 0 <= j <= i + 1
      invariant className == ClassPath(segments[..j])
    {
      assert segments[..j + 1][..j] == segments[..j];
      className := className + SegmentClassPart(segments[j]);
      j := j + 1;
    }
  }

  /** getController: probes depth 0..min(3, |segments|) and returns the first registered class. */
  method GetController(k: Constants, classes: set<string>) returns (r: Option<(string, seq<string>)>)
    ensures r == Probe(k, Candidates(k), classes, 0)
  {
    ghost var names := Candidates(k);
    var controllerLoopCount := ProbeCount(k.segments);
    var i := 0;
    while i <= controllerLoopCount
      invariant 0 <= i <= controllerLoopCount + 1
      invariant i <= controllerLoopCount ==> Probe(k, names, classes, 0) == Probe(k, names, classes, i)
      invariant i == controllerLoopCount + 1 ==> Probe(k, names, classes, 0) == None
    {
      var className;
      if i == controllerLoopCount {
        className := k.homeName;
      } else {
        className := BuildClassPath(k.segments, i);
        className := k.namespace + className + "Controller";
        assert className == names[i];
        if className == k.homeName || className == k.defaultName {
          break;
        }
      }
      if IsValidClass(className, classes) {
        var rest := if i == controllerLoopCount then k.segments else k.segments[i + 1..];
        return Some((className, rest));
      }
      i := i + 1;
    }
    return None;
  }

  // ---------------------------------------------------------------------------
  // Route selection (getRoute)
  // ---------------------------------------------------------------------------

  /** The names of root routes, in the order getRoute removes them. */
  const RootNames: seq<string> := ["get", "post", "put", "delete"]

  /** getRoute's three returns: array($route, $segments), array(null, null), false. */
  datatype Lookup = Resolved(route: Route, parameters: seq<string>) | Unresolved | ReturnedFalse

  /** The routes whose name is not in `drop`, in their original order. */
  function Keep(routes: seq<Route>, drop: set<string>): seq<Route>
    decreases |routes|
  {
    if routes == [] then []
    else
      var last := routes[|routes| - 1];
      Keep(routes[..|routes| - 1], drop) + (if last.name in drop then [] else [last])
  }

  /** The first route with the given name. */
  function FirstNamed(routes: seq<Route>, name: string): (r: Option<Route>)
    ensures r.Some? <==> exists k :: 0 <= k < |routes| && routes[k].name == name
    ensures r.Some? ==> r.value in routes && r.value.name == name
    decreases |routes|
  {
    if routes == [] then None
    else if routes[0].name == name then Some(routes[0])
    else FirstNamed(routes[1..], name)
  }

  /** The last route with the given name. */
  function LastNamed(routes: seq<Route>, name: string): (r: Option<Route>)
    ensures r.Some? ==> r.value in routes && r.value.name == name
    ensures r.None? ==> forall k :: 0 <= k < |routes| ==> routes[k].name != name
    decreases |routes|
  {
    if routes == [] then None
    else if routes[|routes| - 1].name == name then Some(routes[|routes| - 1])
    else LastNamed(routes[..|routes| - 1], name)
  }

  /** The root fallback: the last route named after the verb, for the four root verbs only. */
  function RootRoute(routes: seq<Route>, verb: string): Option<Route> {
    if verb in RootNames then LastNamed(routes, verb) else None
  }

  /** A route that takes part in positional matching (index and root routes are removed first). */
  predicate PositionalCandidate(route: Route) {
    route.name != "getIndex" && route.name !in RootNames
  }

  /** strtolower($route->name) == strtolower($verb . $segments[$p]) at the route's own position p. */
  predicate NamesSegment(route: Route, verb: string, remaining: seq<string>, p: int) {
    0 <= p < |remaining| && route.namePosition == p && Lower(route.name) == Lower(verb + remaining[p])
  }

  predicate HasPositionalMatch(routes: seq<Route>, verb: string, remaining: seq<string>) {
    exists p, route :: 0 <= p < |remaining| && route in routes && PositionalCandidate(route)
      && NamesSegment(route, verb, remaining, p)
  }

  /**
   * What getRoute returns, stated over the controller's declared routes:
   * the first `getIndex` route for a GET of the empty path; `false` on any
   * positional match; otherwise the root route, if its parameter count fits.
   */
  function SelectRoute(routes: seq<Route>, verb: string, remaining: seq<string>): Lookup {
    if remaining == [] then
      var index := FirstNamed(routes, "getIndex");
      if verb == "get" && index.Some? then Resolved(index.value, []) else Unresolved
    else if HasPositionalMatch(routes, verb, remaining) then ReturnedFalse
    else
      match RootRoute(routes, verb)
      case None => Unresolved
      case Some(root) =>
        if |root.parameters| == |remaining| then Resolved(root, remaining) else Unresolved
  }

  lemma {:induction false} InKeep(routes: seq<Route>, drop: set<string>, route: Route)
    ensures route in Keep(routes, drop) <==> route in routes && route.name !in drop
    decreases |routes|
  {
    if routes != [] {
      var init := routes[..|routes| - 1];
      InKeep(init, drop, route);
      assert routes == init + [routes[|routes| - 1]];
    }
  }

  lemma {:induction false} KeepTwice(routes: seq<Route>, a: set<string>, b: set<string>)
    ensures Keep(Keep(routes, a), b) == Keep(routes, a + b)
    decreases |routes|
  {
    if routes != [] {
      var init := routes[..|routes| - 1];
      var last := routes[|routes| - 1];
      KeepTwice(init, a, b);
      var tail := if last.name in a then [] else [last];
      KeepAppend(Keep(init, a), tail, b);
    }
  }

  lemma {:induction false} KeepAppend(xs: seq<Route>, ys: seq<Route>, drop: set<string>)
    requires |ys| <= 1
    ensures Keep(xs + ys, drop) == Keep(xs, drop) + Keep(ys, drop)
  {
    if ys == [] {
      assert xs + ys == xs;
    } else {
      assert (xs + ys)[..|xs + ys| - 1] == xs;
      assert ys[..0] == [];
    }
  }

  lemma {:induction false} LastNamedKeep(routes: seq<Route>, drop: set<string>, name: string)
    requires name !in drop
    ensures LastNamed(Keep(routes, drop), name) == LastNamed(routes, name)
    decreases |routes|
  {
    if routes != [] {
      var init := routes[..|routes| - 1];
      var last := routes[|routes| - 1];
      LastNamedKeep(init, drop, name);
      assert routes[..|routes| - 1] == init;
      if last.name !in drop {
        var kept := Keep(init, drop) + [last];
        assert Keep(routes, drop) == kept;
        assert kept[..|kept| - 1] == Keep(init, drop);
      } else {
        assert Keep(routes, drop) == Keep(init, drop) + [];
        assert Keep(init, drop) + [] == Keep(init, drop);
      }
    }
  }

  /** The root names among the first n. */
  function RootsBefore(n: nat): set<string>
    requires n <= |RootNames|
  {
    if n == 0 then {} else RootsBefore(n - 1) + {RootNames[n - 1]}
  }

  lemma RootsBeforeAll()
    ensures RootsBefore(|RootNames|) == {"get", "post", "put", "delete"}
    ensures forall n :: 0 <= n < |RootNames| ==> RootNames[n] !in RootsBefore(n)
  {
    assert RootsBefore(1) == {"get"};
    assert RootsBefore(2) == {"get", "post"};
    assert RootsBefore(3) == {"get", "post", "put"};
  }

  /** `$routes->where('name', 'getIndex')->first()` */
  method FindIndexRoute(routes: seq<Route>) returns (index: Option<Route>)
    ensures index == FirstNamed(routes, "getIndex")
  {
    var k := 0;
    while k < |routes| && routes[k].name != "getIndex"
      invariant 0 <= k <= |routes|
      invariant FirstNamed(routes, "getIndex") == FirstNamed(routes[k..], "getIndex")
    {
      assert routes[k..][1..] == routes[k + 1..];
      k := k + 1;
    }
    if k < |routes| {
      return Some(routes[k]);
    }
    return None;
  }

  /** One pass of the root-name loop: forget the routes with that name, remembering the last when it is the verb. */
  method ForgetRoot(routes: seq<Route>, name: string, verb: string, rootBefore: Option<Route>)
    returns (kept: seq<Route>, rootRoute: Option<Route>)
    ensures kept == Keep(routes, {name})
    ensures rootRoute == if verb == name && LastNamed(routes, name).Some? then LastNamed(routes, name) else rootBefore
  {
    kept := [];
    rootRoute := rootBefore;
    var k := 0;
    while k < |routes|
      invariant 0 <= k <= |routes|
      invariant kept == Keep(routes[..k], {name})
      invariant rootRoute
             == if verb == name && LastNamed(routes[..k], name).Some? then LastNamed(routes[..k], name) else rootBefore
    {
      assert routes[..k + 1][..k] == routes[..k];
      if routes[k].name == name {
        if verb == name {
          rootRoute := Some(routes[k]);
        }
      } else {
        kept := kept + [routes[k]];
      }
      k := k + 1;
    }
    assert routes[..k] == routes;
  }

  /** The loop over 'get', 'post', 'put', 'delete': root routes leave the table, the verb's last one is kept aside. */
  method TakeRootRoutes(routes: seq<Route>, verb: string) returns (kept: seq<Route>, rootRoute: Option<Route>)
    ensures kept == Keep(routes, {"get", "post", "put", "delete"})
    ensures rootRoute == RootRoute(routes, verb)
  {
    RootsBeforeAll();
    kept := routes;
    rootRoute := None;
    var n := 0;
    assert Keep(routes, {}) == routes by { KeepNothing(routes); }
    while n < |RootNames|
      invariant 0 <= n <= |RootNames|
      invariant kept == Keep(routes, RootsBefore(n))
      invariant rootRoute == if verb in RootNames[..n] then LastNamed(routes, verb) else None
    {
      var name := RootNames[n];
      ghost var dropped := RootsBefore(n);
      ghost var current := kept;
      kept, rootRoute := ForgetRoot(kept, name, verb, rootRoute);
      KeepTwice(routes, dropped, {name});
      if verb == name {
        LastNamedKeep(routes, dropped, name);
        assert verb !in RootNames[..n];
      }
      assert RootNames[..n + 1] == RootNames[..n] + [name];
      n := n + 1;
    }
    assert RootNames[..n] == RootNames;
  }

  lemma {:induction false} KeepNothing(routes: seq<Route>)
    ensures Keep(routes, {}) == routes
    decreases |routes|
  {
    if routes != [] {
      KeepNothing(routes[..|routes| - 1]);
      assert routes[..|routes| - 1] + [routes[|routes| - 1]] == routes;
    }
  }

  /** The positional double loop: is there a route named after the verb and the segment at its own position? */
  method FindPositional(routes: seq<Route>, verb: string, remaining: seq<string>) returns (found: bool)
    ensures found <==> exists p, route :: 0 <= p < |remaining| && route in routes && NamesSegment(route, verb, remaining, p)
  {
    var namePosition := 0;
    while namePosition < |remaining|
      invariant 0 <= namePosition <= |remaining|
      invariant forall p, route :: 0 <= p < namePosition && route in routes ==> !NamesSegment(route, verb, remaining, p)
    {
      var k := 0;
      while k < |routes|
        invariant 0 <= k <= |routes|
        invariant forall j :: 0 <= j < k ==> !NamesSegment(routes[j], verb, remaining, namePosition)
      {
        var route := routes[k];
        if route.namePosition == namePosition && Lower(route.name) == Lower(verb + remaining[namePosition]) {
          assert NamesSegment(route, verb, remaining, namePosition);
          return true;
        }
        k := k + 1;
      }
      namePosition := namePosition + 1;
    }
    return false;
  }

  /** After the index and root routes are removed, a positional match is one among the declared routes. */
  lemma RemovalKeepsPositional(declared: seq<Route>, verb: string, remaining: seq<string>)
    ensures (exists p, route :: 0 <= p < |remaining| && route in Keep(declared, {"getIndex"} + {"get", "post", "put", "delete"})
                                && NamesSegment(route, verb, remaining, p))
            <==> HasPositionalMatch(declared, verb, remaining)
  {
    var drop := {"getIndex"} + {"get", "post", "put", "delete"};
    if exists p, route :: 0 <= p < |remaining| && route in Keep(declared, drop) && NamesSegment(route, verb, remaining, p) {
      var p, route :| 0 <= p < |remaining| && route in Keep(declared, drop) && NamesSegment(route, verb, remaining, p);
      InKeep(declared, drop, route);
      assert PositionalCandidate(route);
    }
    if HasPositionalMatch(declared, verb, remaining) {
      var p, route :| 0 <= p < |remaining| && route in declared && PositionalCandidate(route) && NamesSegment(route, verb, remaining, p);
      InKeep(declared, drop, route);
    }
  }

  /** Forgetting the getIndex routes leaves the root route in place. */
  lemma RemovalKeepsRoot(declared: seq<Route>, verb: string)
    ensures RootRoute(Keep(declared, {"getIndex"}), verb) == RootRoute(declared, verb)
  {
    if verb in RootNames {
      LastNamedKeep(declared, {"getIndex"}, verb);
    }
  }

  /** getRoute: the imperative removal and search, proved to compute SelectRoute. */
  method GetRoute(declared: seq<Route>, verb: string, remaining: seq<string>) returns (r: Lookup)
    ensures r == SelectRoute(declared, verb, remaining)
  {
    // The index page; otherwise every getIndex route is forgotten.
    if |remaining| == 0 {
      if verb == "get" {
        var index := FindIndexRoute(declared);
        if index.Some? {
          return Resolved(index.value, remaining);
        }
      }
      return Unresolved;
    }
    var routes := ForgetNamed(declared, "getIndex");

    // Root routes are taken out; the last one named after the verb is remembered.
    var rootRoute;
    routes, rootRoute := TakeRootRoutes(routes, verb);
    RemovalKeepsRoot(declared, verb);

    // Positional routes: a name match at its own position makes the source `return false`.
    KeepTwice(declared, {"getIndex"}, {"get", "post", "put", "delete"});
    RemovalKeepsPositional(declared, verb, remaining);
    var positional := FindPositional(routes, verb, remaining);
    if positional {
      return ReturnedFalse;
    }

    // The root route, if its parameter count fits.
    if rootRoute.None? {
      return Unresolved;
    }
    var currentRoute := rootRoute.value;
    if |currentRoute.parameters| != |remaining| {
      return Unresolved;
    }
    return Resolved(currentRoute, remaining);
  }

  /** `foreach ($routes->where('name', $name) ...) $routes->forget($key)` */
  method ForgetNamed(routes: seq<Route>, name: string) returns (kept: seq<Route>)
    ensures kept == Keep(routes, {name})
  {
    kept := [];
    var k := 0;
    while k < |routes|
      invariant 0 <= k <= |routes|
      invariant kept == Keep(routes[..k], {name})
    {
      assert routes[..k + 1][..k] == routes[..k];
      if routes[k].name != name {
        kept := kept + [routes[k]];
      }
      k := k + 1;
    }
    assert routes[..k] == routes;
  }

  // ---------------------------------------------------------------------------
  // dispatch
  // ---------------------------------------------------------------------------

  /** The middleware attached to a found route: its own, then the auth/rights gate. */
  function AttachedMiddleware(route: Route, loginRequired: bool): (middleware: seq<string>)
    ensures |middleware| >= |route.middleware| && middleware[..|route.middleware|] == route.middleware
    ensures |route.rights| > 0 ==> middleware[|route.middleware|..] == ["core.auth", "core.rights"]
    ensures |route.rights| == 0 && loginRequired ==> middleware[|route.middleware|..] == ["core.auth"]
    ensures |route.rights| == 0 && !loginRequired ==> middleware == route.middleware
  {
    if |route.rights| > 0 then route.middleware + ["core.auth", "core.rights"]
    else if loginRequired then route.middleware + ["core.auth"]
    else route.middleware
  }

  /** The transaction name: the controller path below the namespace, '/'-separated, then '@' and the route. */
  function TransactionName(controller: string, namespace: string, routeName: string): (name: string)
    ensures |name| == (if |namespace| <= |controller| - 10 then |controller| - 10 - |namespace| else 0) + 1 + |routeName|
    ensures name[|name| - |routeName| - 1..] == "@" + routeName
    ensures '\\' !in name[..|name| - |routeName| - 1]
  {
    var start := |namespace|;
    var stop := |controller| - |"Controller"|;
    var path := if start <= stop then controller[start..stop] else "";
    var r := ReplaceChar(path, '\\', '/') + "@" + routeName;
    assert r[..|r| - |routeName| - 1] == ReplaceChar(path, '\\', '/');
    r
  }

  /** Stripping the namespace and the Controller suffix recovers the path between them. */
  lemma TransactionNameOfPath(namespace: string, path: string, routeName: string)
    ensures TransactionName(namespace + path + "Controller", namespace, routeName)
         == ReplaceChar(path, '\\', '/') + "@" + routeName
  {
    var c := namespace + path + "Controller";
    assert c[|namespace|..|c| - |"Controller"|] == path;
  }

  /** A probed controller's transaction name is its class path with '/' separators. */
  lemma TransactionNameOfCandidate(k: Constants, i: nat, routeName: string)
    requires i < |k.segments|
    ensures TransactionName(Candidate(k, i), k.namespace, routeName)
         == ReplaceChar(ClassPath(k.segments[..i + 1]), '\\', '/') + "@" + routeName
  {
    var c := Candidate(k, i);
    var path := ClassPath(k.segments[..i + 1]);
    assert c[|k.namespace|..|c| - |"Controller"|] == path;
  }

  datatype Handler = Handler(uses: string, middleware: Option<seq<string>>)

  /** dispatch's result; a FOUND result also carries what dispatch hands to NewRelic and to Visitor. */
  datatype Dispatched =
    | Found(
        handler: Handler,
        defaultName: string,
        route: Route,
        parameters: seq<string>,
        transactionName: string,
        requiredRights: Option<seq<string>>)
    | NotFound

  /** The controller, route and parameters a request resolves to, if any. */
  function Resolution(host: Host, k: Constants): Option<(string, Route, seq<string>)> {
    ResolveProbed(host, k.verb, Probe(k, Candidates(k), host.classes, 0))
  }

  /** The route lookup and parameter check once the controller probe has answered. */
  function ResolveProbed(host: Host, verb: string, probed: Option<(string, seq<string>)>): Option<(string, Route, seq<string>)> {
    match probed
    case None => None
    case Some((controller, remaining)) =>
      match SelectRoute(RoutesOf(host, controller), verb, remaining)
      case Resolved(route, parameters) =>
        if ParametersValid(route.parameters, parameters, host.preg) then Some((controller, route, parameters))
        else None
      case _ => None
  }

  /** The FOUND result for a resolved controller, route and parameters. */
  function FoundResult(host: Host, k: Constants, controller: string, route: Route, parameters: seq<string>): Dispatched {
    var middleware := AttachedMiddleware(route, controller in host.loginRequired);
    Found(
      Handler("\\" + controller + "@responseFlow", if middleware == [] then None else Some(middleware)),
      k.defaultName, route, parameters,
      TransactionName(controller, k.namespace, route.name),
      if |route.rights| > 0 then Some(route.rights) else None)
  }

  /** What dispatch returns for the request constants k. */
  function DispatchOf(host: Host, k: Constants): Dispatched {
    Shape(host, k, Resolution(host, k))
  }

  /** The FOUND / NOT_FOUND result for a resolution. */
  function Shape(host: Host, k: Constants, resolution: Option<(string, Route, seq<string>)>): Dispatched {
    match resolution
    case None => NotFound
    case Some(resolved) => FoundResult(host, k, resolved.0, resolved.1, resolved.2)
  }

  /** dispatch: resolve the request and shape the FOUND / NOT_FOUND result. */
  method Dispatch(host: Host, config: Config, request: Request) returns (r: Dispatched)
    ensures r == DispatchOf(host, GetAllConstants(config, request))
  {
    var k := GetAllConstants(config, request);
    var probed := GetController(k, host.classes);
    r := DispatchProbed(host, k, probed);
  }

  /** The rest of dispatch once getController has answered. */
  method DispatchProbed(host: Host, k: Constants, probed: Option<(string, seq<string>)>) returns (r: Dispatched)
    ensures r == Shape(host, k, ResolveProbed(host, k.verb, probed))
  {
    if probed.None? {
      return NotFound;
    }
    var controllerName := probed.value.0;
    var remainingSegments := probed.value.1;
    var lookup := GetRoute(RoutesOf(host, controllerName), k.verb, remainingSegments);
    if !lookup.Resolved? {
      return NotFound;
    }
    var valid, _ := AreParametersValid(lookup.route.parameters, lookup.parameters, host.preg);
    if !valid {
      return NotFound;
    }
    assert ResolveProbed(host, k.verb, probed) == Some((controllerName, lookup.route, lookup.parameters));
    var route := lookup.route;
    var transactionName := TransactionName(controllerName, k.namespace, route.name);
    var middleware := route.middleware;
    var requiredRights := None;
    if |route.rights| > 0 {
      requiredRights := Some(route.rights);
      middleware := middleware + ["core.auth"];
      middleware := middleware + ["core.rights"];
    } else if controllerName in host.loginRequired {
      middleware := middleware + ["core.auth"];
    }
    assert middleware == AttachedMiddleware(route, controllerName in host.loginRequired);
    var handler := Handler("\\" + controllerName + "@responseFlow", None);
    if middleware != [] {
      handler := handler.(middleware := Some(middleware));
    }
    return Found(handler, k.defaultName, route, lookup.parameters, transactionName, requiredRights);
  }

  /** FOUND carries the resolved route; a middleware key is present exactly when something gates the route. */
  lemma FoundShape(host: Host, k: Constants)
    ensures DispatchOf(host, k).NotFound? <==> Resolution(host, k).None?
    ensures DispatchOf(host, k).Found? ==>
      var d := DispatchOf(host, k);
      var (controller, route, parameters) := Resolution(host, k).value;
      && d.route == route && d.parameters == parameters && d.defaultName == k.defaultName
      && d.handler.uses == "\\" + controller + "@responseFlow"
      && (d.handler.middleware.None? <==> (route.middleware == [] && route.rights == [] && controller !in host.loginRequired))
      && (d.requiredRights.Some? <==> route.rights != [])
  {
  }

  // ---------------------------------------------------------------------------
  // Properties of the whole dispatch
  // ---------------------------------------------------------------------------

  /** Only the index route (GET of the empty path) and root routes are ever resolved. */
  lemma OnlyIndexAndRootRoutesResolve(host: Host, k: Constants)
    requires Resolution(host, k).Some?
    ensures var (controller, route, parameters) := Resolution(host, k).value;
      || (k.verb == "get" && route.name == "getIndex" && parameters == [])
      || (k.verb in RootNames && route.name == k.verb && parameters != []
          && |route.parameters| == |parameters|
          && ParametersValid(route.parameters, parameters, host.preg))
  {
  }

  /** A positional match, whatever its parameters, ends in NOT_FOUND. */
  lemma PositionalMatchIsNotFound(host: Host, k: Constants, controller: string, remaining: seq<string>)
    requires Probe(k, Candidates(k), host.classes, 0) == Some((controller, remaining))
    requires remaining != []
    requires HasPositionalMatch(RoutesOf(host, controller), k.verb, remaining)
    ensures Resolution(host, k) == None
  {
  }

  /** With rights on the route, the gate is exactly core.auth then core.rights after the route's own. */
  lemma RightsAttachAuthThenRights(route: Route, loginRequired: bool)
    requires |route.rights| > 0
    ensures AttachedMiddleware(route, loginRequired) == route.middleware + ["core.auth", "core.rights"]
  {
  }
}
