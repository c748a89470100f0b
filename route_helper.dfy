/**
 * The Laravel-era router (src/Core/Helpers/RouteHelper.php).
 *
 * The route string is screened, a controller class is probed from the first
 * one to three segments (with an `Ajax` infix for ajax requests), the
 * controller's `routeMethods` table is normalised in place and then consulted
 * (index route, positional method, root method `/`), the parameters are
 * checked, the controller's own authentication check runs, and the method is
 * called between the controller's lifecycle hooks.
 */
module RouteHelper {
  import opened Wrappers
  import opened Text
  import opened Php
  import opened Routing

  // ---------------------------------------------------------------------------
  // The route table of a controller
  // ---------------------------------------------------------------------------

  /** The `m` and `r` entries: absent, a single value, or an array. */
  datatype Field = Unset | One(value: string) | Many(values: seq<string>)

  /** One route of `routeMethods`: allowed verbs `m`, parameter patterns `p`, required roles `r`. */
  datatype RouteSpec = RouteSpec(m: Field, p: Option<seq<string>>, r: Field)

  /** The routes declared for one URI position, by lower-case method name. */
  type Bucket = map<string, RouteSpec>

  /** The numeric keys of `routeMethods`: URI position to bucket. */
  type Table = map<nat, Bucket>

  /** The values an array-valued entry holds. */
  function Listed(f: Field): seq<string> {
    match f
    case Unset => []
    case One(v) => [v]
    case Many(vs) => vs
  }

  function Params(spec: RouteSpec): seq<string> {
    if spec.p.Some? then spec.p.value else []
  }

  /** One route after prepareController: `m`, `p` and `r` are all set and `m`, `r` are arrays. */
  predicate SpecNormalized(spec: RouteSpec) {
    spec.m.Many? && spec.p.Some? && spec.r.Many?
  }

  predicate TableNormalized(table: Table) {
    forall position, name :: position in table && name in table[position] ==> SpecNormalized(table[position][name])
  }

  /** The defaults prepareController gives one route. */
  function NormalizeSpec(spec: RouteSpec): (normalized: RouteSpec)
    ensures SpecNormalized(normalized)
    ensures spec.m.Unset? ==> Listed(normalized.m) == ["get"]
    ensures !spec.m.Unset? ==> Listed(normalized.m) == Listed(spec.m)
    ensures Params(normalized) == Params(spec)
    ensures Listed(normalized.r) == Listed(spec.r)
    ensures SpecNormalized(spec) ==> normalized == spec
  {
    RouteSpec(
      match spec.m
      case Unset => Many(["get"])
      case One(v) => Many([v])
      case Many(vs) => Many(vs),
      if spec.p.None? then Some([]) else spec.p,
      match spec.r
      case Unset => Many([])
      case One(v) => Many([v])
      case Many(vs) => Many(vs))
  }

  function NormalizeBucket(bucket: Bucket): Bucket {
    map name | name in bucket :: NormalizeSpec(bucket[name])
  }

  /** The table prepareController leaves: bucket 0 exists, holds the named routes, and every route is normalised. */
  function Prepared(table: Table, named: Bucket): Table {
    var merged := table[0 := (if 0 in table then table[0] else map[]) + named];
    map position | position in merged :: NormalizeBucket(merged[position])
  }

  // ---------------------------------------------------------------------------
  // getMethodName, stated over the table
  // ---------------------------------------------------------------------------

  /** getMethodName's result: array(null, null, null, null), or the method (possibly null), patterns, parameters and roles. */
  datatype MethodResult =
    | NoMethod
    | Method(name: Option<string>, specs: seq<string>, parameters: seq<string>, roles: seq<string>)

  /** PHP truthiness of an array key or a method name. */
  predicate TruthyName(s: string) {
    Truthy(Str(s))
  }

  /** The table after `index` and `/` are unset from bucket 0. */
  function WithoutIndexAndRoot(table: Table): Table {
    if 0 in table then table[0 := table[0] - {"index", "/"}] else table
  }

  function IndexOptions(table: Table): Option<RouteSpec> {
    if 0 in table && "index" in table[0] then Some(table[0]["index"]) else None
  }

  function RootOptions(table: Table): Option<RouteSpec> {
    if 0 in table && "/" in table[0] then Some(table[0]["/"]) else None
  }

  /** The bucket at position p has a truthy key equal to the lower-cased segment at p. */
  predicate MatchesAt(table: Table, remaining: seq<string>, p: nat) {
    p < |remaining| && p in table && Lower(remaining[p]) in table[p] && TruthyName(Lower(remaining[p]))
  }

  /** The first URI position, from p on, whose segment names a method of its bucket. */
  function FirstPositional(table: Table, remaining: seq<string>, p: nat): (r: Option<nat>)
    requires p <= |remaining|
    ensures r.Some? ==>
              && p <= r.value < |remaining| && MatchesAt(table, remaining, r.value)
              && forall q :: p <= q < r.value ==> !MatchesAt(table, remaining, q)
    ensures r.None? ==> forall q :: p <= q < |remaining| ==> !MatchesAt(table, remaining, q)
    decreases |remaining| - p
  {
    if p == |remaining| then None
    else if MatchesAt(table, remaining, p) then Some(p)
    else FirstPositional(table, remaining, p + 1)
  }

  /** The method chosen for non-empty remaining segments, from the already-pruned table and the root option. */
  function SelectMethod(table: Table, root: Option<RouteSpec>, verb: string, remaining: seq<string>): MethodResult {
    match FirstPositional(table, remaining, 0)
    case Some(p) =>
      var key := Lower(remaining[p]);
      var options := table[p][key];
      var rest := remaining[..p] + remaining[p + 1..];
      if verb !in Listed(options.m) then NoMethod
      else if |Params(options)| != |rest| then NoMethod
      else Method(Some(verb + Ucfirst(key)), Params(options), rest, Listed(options.r))
    case None =>
      match root
      case None => if |remaining| != 0 then NoMethod else Method(None, [], remaining, [])
      case Some(options) =>
        if |Params(options)| != |remaining| then NoMethod
        else Method(if verb in Listed(options.m) then Some(verb) else None, Params(options), remaining, Listed(options.r))
  }

  /** getMethodName: the result and the controller's table afterwards. */
  function ResolveMethod(table: Table, verb: string, remaining: seq<string>): (MethodResult, Table) {
    if remaining == [] then
      var index := IndexOptions(table);
      if index.Some? && verb in Listed(index.value.m) then
        (Method(Some(verb + "Index"), [], [], Listed(index.value.r)), table)
      else (NoMethod, table)
    else
      (SelectMethod(WithoutIndexAndRoot(table), RootOptions(table), verb, remaining), WithoutIndexAndRoot(table))
  }

  /** The controller object whose route table getMethodName and prepareController rewrite. */
  class Controller {
    /** The numeric keys of `$routeMethods`. */
    var routeMethods: Table
    /** The non-numeric keys of `$routeMethods`, before prepareController moves them. */
    var named: Bucket

    constructor (routeMethods: Table, named: Bucket)
      ensures this.routeMethods == routeMethods && this.named == named
    {
      this.routeMethods := routeMethods;
      this.named := named;
    }

    /** prepareController */
    method Prepare()
      modifies this
      ensures named == map[]
      ensures routeMethods == Prepared(old(routeMethods), old(named))
    {
      var table := routeMethods;
      if 0 !in table {
        table := table[0 := map[]];
      }
      var bucket := table[0];
      var todo := named.Keys;
      while todo != {}
        invariant todo <= named.Keys
        invariant bucket == table[0] + map name | name in named.Keys - todo :: named[name]
        decreases todo
      {
        var name :| name in todo;
        bucket := bucket[name := named[name]];
        todo := todo - {name};
      }
      assert bucket == table[0] + named;
      table := table[0 := bucket];

      var done := NormalizeTable(table);
      routeMethods := done;
      named := map[];
    }

    /** getMethodName: consults and prunes the table. */
    method GetMethodName(verb: string, remaining: seq<string>) returns (r: MethodResult)
      requires TableNormalized(routeMethods)
      modifies this
      ensures named == old(named)
      ensures (r, routeMethods) == ResolveMethod(old(routeMethods), verb, remaining)
    {
      if |remaining| == 0 {
        if 0 in routeMethods && "index" in routeMethods[0] {
          var options := routeMethods[0]["index"];
          if verb in Listed(options.m) {
            return Method(Some(verb + "Index"), [], [], Listed(options.r));
          }
        }
        return NoMethod;
      } else if 0 in routeMethods && "index" in routeMethods[0] {
        routeMethods := routeMethods[0 := routeMethods[0] - {"index"}];
      }
      ghost var table := old(routeMethods);

      var rootMethodOptions: Option<RouteSpec> := None;
      if 0 in routeMethods && "/" in routeMethods[0] {
        rootMethodOptions := Some(routeMethods[0]["/"]);
        routeMethods := routeMethods[0 := routeMethods[0] - {"/"}];
      }
      assert 0 in table ==> routeMethods[0] == table[0] - {"index", "/"};
      assert routeMethods == WithoutIndexAndRoot(table);
      assert rootMethodOptions == RootOptions(table);

      var uriPosition := 0;
      while uriPosition < |remaining|
        invariant 0 <= uriPosition <= |remaining|
        invariant FirstPositional(routeMethods, remaining, 0) == FirstPositional(routeMethods, remaining, uriPosition)
      {
        // The bucket's foreach stops at the key equal to the lower-cased segment.
        if uriPosition in routeMethods && Lower(remaining[uriPosition]) in routeMethods[uriPosition] {
          var methodNameRaw := Lower(remaining[uriPosition]);
          if TruthyName(methodNameRaw) {
            var options := routeMethods[uriPosition][methodNameRaw];
            if verb !in Listed(options.m) {
              return NoMethod;
            }
            var segments := remaining[..uriPosition] + remaining[uriPosition + 1..];
            if |Params(options)| != |segments| {
              return NoMethod;
            }
            return Method(Some(verb + Ucfirst(methodNameRaw)), Params(options), segments, Listed(options.r));
          }
        }
        uriPosition := uriPosition + 1;
      }

      if rootMethodOptions.None? {
        // The parameter specs are still array(), and the segments are not empty.
        return NoMethod;
      }
      var options := rootMethodOptions.value;
      var methodName := if verb in Listed(options.m) then Some(verb) else None;
      if |Params(options)| != |remaining| {
        return NoMethod;
      }
      return Method(methodName, Params(options), remaining, Listed(options.r));
    }
  }

  /** The outer loop of prepareController's normalisation, over the URI positions. */
  method NormalizeTable(table: Table) returns (done: Table)
    ensures done == map position | position in table :: NormalizeBucket(table[position])
  {
    done := map[];
    var positions := table.Keys;
    while positions != {}
      invariant positions <= table.Keys
      invariant done == map position | position in table.Keys - positions :: NormalizeBucket(table[position])
      decreases positions
    {
      var at :| at in positions;
      var normalized := NormalizeRoutes(table[at]);
      done := done[at := normalized];
      positions := positions - {at};
    }
  }

  /** The inner loop of prepareController over the routes of one bucket. */
  method NormalizeRoutes(bucket: Bucket) returns (normalized: Bucket)
    ensures normalized == NormalizeBucket(bucket)
  {
    normalized := map[];
    var names := bucket.Keys;
    while names != {}
      invariant names <= bucket.Keys
      invariant normalized == map name | name in bucket.Keys - names :: NormalizeSpec(bucket[name])
      decreases names
    {
      var name :| name in names;
      normalized := normalized[name := NormalizeSpec(bucket[name])];
      names := names - {name};
    }
  }

  // ---------------------------------------------------------------------------
  // Properties of the route table
  // ---------------------------------------------------------------------------

  /** After prepareController: bucket 0 exists, the named routes are in it, every route is normalised. */
  lemma PreparedShape(table: Table, named: Bucket)
    ensures var prepared := Prepared(table, named);
      && prepared.Keys == table.Keys + {0}
      && TableNormalized(prepared)
      && prepared[0].Keys == (if 0 in table then table[0].Keys else {}) + named.Keys
      && (forall name :: name in named ==> prepared[0][name] == NormalizeSpec(named[name]))
      && (forall position, name :: position in table && name in table[position] && (position != 0 || name !in named)
            ==> prepared[position][name] == NormalizeSpec(table[position][name]))
  {
  }

  /** Running prepareController again changes nothing. */
  lemma PrepareIdempotent(table: Table, named: Bucket)
    ensures Prepared(Prepared(table, named), map[]) == Prepared(table, named)
  {
    var once := Prepared(table, named);
    PreparedShape(table, named);
    var twice := Prepared(once, map[]);
    assert once[0] + map[] == once[0];
    forall position | position in once
      ensures twice[position] == once[position]
    {
      assert NormalizeBucket(once[position]) == once[position];
    }
  }

  /** Pruning keeps the table normalised. */
  lemma PruneKeepsNormalized(table: Table)
    requires TableNormalized(table)
    ensures TableNormalized(WithoutIndexAndRoot(table))
  {
  }

  /** Once segments were given, the index and root routes are gone from the controller for good. */
  lemma IndexLostAfterSegments(table: Table, verb: string, remaining: seq<string>, laterVerb: string)
    requires remaining != []
    ensures var (_, pruned) := ResolveMethod(table, verb, remaining);
      && IndexOptions(pruned).None? && RootOptions(pruned).None?
      && ResolveMethod(pruned, laterVerb, []).0 == NoMethod
  {
  }

  /** With empty segments the table is left alone, and a method is found only through the index route. */
  lemma IndexResolution(table: Table, verb: string)
    ensures var (r, after) := ResolveMethod(table, verb, []);
      && after == table
      && (r.Method? <==> IndexOptions(table).Some? && verb in Listed(IndexOptions(table).value.m))
      && (r.Method? ==> r == Method(Some(verb + "Index"), [], [], Listed(IndexOptions(table).value.r)))
  {
  }

  /** A positional match whose verbs exclude the request verb is final: the root route is not consulted. */
  lemma VerbMismatchBlocksRoot(table: Table, verb: string, remaining: seq<string>, p: nat)
    requires remaining != []
    requires FirstPositional(WithoutIndexAndRoot(table), remaining, 0) == Some(p)
    requires verb !in Listed(WithoutIndexAndRoot(table)[p][Lower(remaining[p])].m)
    ensures ResolveMethod(table, verb, remaining).0 == NoMethod
  {
  }

  /**
   * A named method is returned only with as many patterns as parameters, and
   * the parameters are the segments with at most the method-name segment removed.
   */
  lemma MethodShape(table: Table, verb: string, remaining: seq<string>)
    requires ResolveMethod(table, verb, remaining).0.Method?
    ensures var r := ResolveMethod(table, verb, remaining).0;
      && (remaining != [] ==> |r.specs| == |r.parameters|)
      && (|r.parameters| == |remaining| ==> r.parameters == remaining)
      && (|r.parameters| != |remaining| ==>
            exists p :: 0 <= p < |remaining| && r.parameters == remaining[..p] + remaining[p + 1..]
                        && r.name == Some(verb + Ucfirst(Lower(remaining[p]))))
  {
    var r := ResolveMethod(table, verb, remaining).0;
    if remaining != [] {
      var pruned := WithoutIndexAndRoot(table);
      var found := FirstPositional(pruned, remaining, 0);
      if found.Some? {
        var p := found.value;
        assert |r.parameters| != |remaining|;
        assert r.parameters == remaining[..p] + remaining[p + 1..];
      }
    }
  }

  /** The root route answers only for a verb it lists; otherwise getMethodName returns a null method. */
  lemma RootNeedsListedVerb(table: Table, verb: string, remaining: seq<string>)
    requires remaining != []
    requires FirstPositional(WithoutIndexAndRoot(table), remaining, 0).None?
    requires RootOptions(table).Some? && |Params(RootOptions(table).value)| == |remaining|
    ensures ResolveMethod(table, verb, remaining).0.Method?
    ensures ResolveMethod(table, verb, remaining).0.name.Some? <==> verb in Listed(RootOptions(table).value.m)
  {
  }

  // ---------------------------------------------------------------------------
  // Route screening and controller probing
  // ---------------------------------------------------------------------------

  /** A character of /[\w\d\/$\-_\.\+!\*]/. */
  predicate IsRouteChar(c: char) {
    IsWordChar(c) || c in {'/', '$', '-', '_', '.', '+', '!', '*'}
  }

  predicate AllRouteChars(s: string) {
    forall i :: 0 <= i < |s| ==> IsRouteChar(s[i])
  }

  /** isValidRoute; PCRE's `$` also lets one final newline through. */
  predicate IsValidRoute(route: string) {
    AllRouteChars(route) || (|route| >= 1 && route[|route| - 1] == '\n' && AllRouteChars(route[..|route| - 1]))
  }

  /** app.routing.namespace, app.routing.default, app.routing.home. */
  datatype Config = Config(namespace: string, defaultController: string, homeController: string)

  datatype Request = Request(httpMethod: string, ajax: bool, segments: seq<string>)

  datatype Constants = Constants(
    namespace: string,
    defaultName: string,
    homeName: string,
    verb: string,
    ajax: bool,
    segments: seq<string>)

  /** getAllConstants */
  function GetAllConstants(config: Config, request: Request): Constants {
    var namespace := TrimBackslashes(config.namespace);
    Constants(
      namespace,
      namespace + "\\" + config.defaultController,
      namespace + "\\" + config.homeController,
      NormalizeVerb(request.httpMethod),
      request.ajax,
      request.segments)
  }

  /**
   * The routing constants: the namespace trimmed of backslashes at both ends,
   * the default and home controllers qualified by it, and the normalised verb.
   */
  lemma ConstantsShape(config: Config, request: Request)
    ensures var k := GetAllConstants(config, request);
      && (k.namespace == [] || (k.namespace[0] != '\\' && k.namespace[|k.namespace| - 1] != '\\'))
      && ('\\' !in config.namespace ==> k.namespace == config.namespace)
      && (k.defaultName == k.namespace + "\\" + config.defaultController)
      && (k.homeName == k.namespace + "\\" + config.homeController)
      && (Lower(request.httpMethod) == "patch" ==> k.verb == "put")
      && (Lower(request.httpMethod) != "patch" ==> k.verb == Lower(request.httpMethod))
      && (k.ajax == request.ajax && k.segments == request.segments)
  {
  }

  /** The class path of the given segments: `'\\' . ucfirst($segment)` each, without lower-casing. */
  function ClassPath(segments: seq<string>): string
    decreases |segments|
  {
    if segments == [] then ""
    else ClassPath(segments[..|segments| - 1]) + "\\" + Ucfirst(segments[|segments| - 1])
  }

  function ProbeCount(segments: seq<string>): nat {
    if |segments| < 3 then |segments| else 3
  }

  /** The class name probed at depth i, with `Ajax` in front of `Controller` for ajax requests. */
  function Candidate(k: Constants, i: nat): (name: string)
    requires i < |k.segments|
    ensures k.ajax ==> name == k.namespace + ClassPath(k.segments[..i + 1]) + "AjaxController"
    ensures !k.ajax ==> name == k.namespace + ClassPath(k.segments[..i + 1]) + "Controller"
  {
    k.namespace + ClassPath(k.segments[..i + 1]) + (if k.ajax then "Ajax" else "") + "Controller"
  }

  predicate Reserved(k: Constants, name: string) {
    name == k.homeName || name == k.defaultName
  }

  predicate PassedOver(k: Constants, classes: set<string>, i: nat)
    requires i < |k.segments|
  {
    !Reserved(k, Candidate(k, i)) && !IsValidClass(Candidate(k, i), classes)
  }

  /** getController's probe sequence from depth i on. */
  function Probe(k: Constants, classes: set<string>, i: nat): Option<(string, seq<string>)>
    requires i <= ProbeCount(k.segments)
    decreases ProbeCount(k.segments) - i
  {
    if i == ProbeCount(k.segments) then
      if IsValidClass(k.homeName, classes) then Some((k.homeName, k.segments)) else None
    else
      var candidate := Candidate(k, i);
      if Reserved(k, candidate) then None
      else if IsValidClass(candidate, classes) then Some((candidate, k.segments[i + 1..]))
      else Probe(k, classes, i + 1)
  }

  lemma {:induction false} ProbeSkips(k: Constants, classes: set<string>, i: nat, j: nat)
    requires i <= j <= ProbeCount(k.segments)
    requires forall m :: i <= m < j ==> PassedOver(k, classes, m)
    ensures Probe(k, classes, i) == Probe(k, classes, j)
    decreases j - i
  {
    if i < j {
      assert PassedOver(k, classes, i);
      ProbeSkips(k, classes, i + 1, j);
    }
  }

  /** The first registered candidate wins; a reserved one first ends the search with nothing. */
  lemma ProbeFirstWins(k: Constants, classes: set<string>, i: nat)
    requires i < ProbeCount(k.segments)
    requires forall m :: 0 <= m < i ==> PassedOver(k, classes, m)
    ensures Reserved(k, Candidate(k, i)) ==> Probe(k, classes, 0) == None
    ensures !Reserved(k, Candidate(k, i)) && IsValidClass(Candidate(k, i), classes)
        ==> Probe(k, classes, 0) == Some((Candidate(k, i), k.segments[i + 1..]))
  {
    ProbeSkips(k, classes, 0, i);
  }

  /** Only after every candidate is passed over is the home controller tried, with all segments. */
  lemma ProbeFallsBackToHome(k: Constants, classes: set<string>)
    requires forall m :: 0 <= m < ProbeCount(k.segments) ==> PassedOver(k, classes, m)
    ensures Probe(k, classes, 0)
         == if IsValidClass(k.homeName, classes) then Some((k.homeName, k.segments)) else None
  {
    ProbeSkips(k, classes, 0, ProbeCount(k.segments));
  }

  method BuildClassPath(segments: seq<string>, i: nat) returns (className: string)
    requires i < |segments|
    ensures className == ClassPath(segments[..i + 1])
  {
    className := "";
    var j := 0;
    while j <= i
      invariant 0 <= j <= i + 1
      invariant className == ClassPath(segments[..j])
    {
      assert segments[..j + 1][..j] == segments[..j];
      className := className + "\\" + Ucfirst(segments[j]);
      j := j + 1;
    }
  }

  /** getController */
  method GetController(k: Constants, classes: set<string>) returns (r: Option<(string, seq<string>)>)
    ensures r == Probe(k, classes, 0)
  {
    var controllerLoopCount := ProbeCount(k.segments);
    var i := 0;
    while i <= controllerLoopCount
      invariant 0 <= i <= controllerLoopCount + 1
      invariant i <= controllerLoopCount ==> Probe(k, classes, 0) == Probe(k, classes, i)
      invariant i == controllerLoopCount + 1 ==> Probe(k, classes, 0) == None
    {
      var className;
      if i == controllerLoopCount {
        className := k.homeName;
      } else {
        className := BuildClassPath(k.segments, i);
        className := k.namespace + className + (if k.ajax then "Ajax" else "") + "Controller";
        if className == k.homeName || className == k.defaultName {
          break;
        }
      }
      if IsValidClass(className, classes) {
        var rest := if i == controllerLoopCount then k.segments else k.segments[i + 1..];
        return Some((className, rest));
      }
      i := i + 1;
    }
    return None;
  }

  // ---------------------------------------------------------------------------
  // Authentication, the call sequence and the configuration check
  // ---------------------------------------------------------------------------

  /** What the host knows about each controller class. */
  datatype Host = Host(
    classes: set<string>,
    /** The `routeMethods` of a new instance: numeric keys and non-numeric keys. */
    routeTables: map<string, (Table, Bucket)>,
    /** The controllers that have an `authenticationCheck` method, and its answer for the given roles. */
    authenticationCheck: map<string, seq<string> -> bool>,
    preg: Preg)

  function TableOf(host: Host, className: string): (Table, Bucket) {
    if className in host.routeTables then host.routeTables[className] else (map[], map[])
  }

  /** authenticationChecks: whether to go on, and the route stored as the login-intended route when not. */
  method AuthenticationChecks(host: Host, route: string, className: string, requiredRoles: seq<string>)
    returns (pass: bool, intendedRoute: Option<string>)
    ensures pass <==> (className !in host.authenticationCheck || host.authenticationCheck[className](requiredRoles))
    ensures intendedRoute == if pass then None else Some(route)
  {
    if className in host.authenticationCheck {
      if !host.authenticationCheck[className](requiredRoles) {
        return false, Some(route);
      }
    }
    return true, None;
  }

  /** The calls callMethod makes, in order. */
  datatype Call = DefaultInitialize | Initialize | PreRender | Invoke(methodName: string, arguments: seq<string>) | Response404 | PostRender

  /** The most parameters callMethod passes on. */
  const MaxArguments: nat := 10

  /** callMethod */
  method CallMethod(methodName: string, parameters: seq<string>) returns (calls: seq<Call>)
    ensures calls == [DefaultInitialize, Initialize, PreRender,
                      if |parameters| <= MaxArguments then Invoke(methodName, parameters) else Response404,
                      PostRender]
  {
    calls := [DefaultInitialize];
    calls := calls + [Initialize];
    calls := calls + [PreRender];
    if |parameters| <= MaxArguments {
      calls := calls + [Invoke(methodName, parameters)];
    } else {
      calls := calls + [Response404];
    }
    calls := calls + [PostRender];
  }

  /** The configuration keys the router requires to be truthy (src/Core/_config/core.php). */
  const RequiredConfig: seq<string> := [
    "app.routing.namespace",
    "app.routing.default",
    "app.routing.home",
    "app.routing.loginroute",
    "app.routing.redirecthalt"
  ]

  /** Config::get: a missing key reads as null. */
  function Setting(settings: map<string, Value>, key: string): Value {
    if key in settings then settings[key] else Null
  }

  /** The required keys whose value is falsy, in order. */
  function MissingConfig(required: seq<string>, settings: map<string, Value>): (missing: seq<string>)
    ensures |missing| <= |required|
    decreases |required|
  {
    if required == [] then []
    else
      var last := required[|required| - 1];
      MissingConfig(required[..|required| - 1], settings) + (if Truthy(Setting(settings, last)) then [] else [last])
  }

  lemma {:induction false} MissingConfigExactly(required: seq<string>, settings: map<string, Value>, key: string)
    ensures key in MissingConfig(required, settings) <==> key in required && !Truthy(Setting(settings, key))
    decreases |required|
  {
    if required != [] {
      var init := required[..|required| - 1];
      MissingConfigExactly(init, settings, key);
      assert required == init + [required[|required| - 1]];
    }
  }

  /** checkConfig: Err carries the ConfigNotFoundException's list. */
  method CheckConfig(required: seq<string>, settings: map<string, Value>) returns (r: Result<(), seq<string>>)
    ensures r.Ok? <==> forall i :: 0 <= i < |required| ==> Truthy(Setting(settings, required[i]))
    ensures r.Err? ==> r.error == MissingConfig(required, settings) && r.error != []
  {
    var notFound := [];
    var i := 0;
    while i < |required|
      invariant 0 <= i <= |required|
      invariant notFound == MissingConfig(required[..i], settings)
    {
      assert required[..i + 1][..i] == required[..i];
      if !Truthy(Setting(settings, required[i])) {
        notFound := notFound + [required[i]];
      }
      i := i + 1;
    }
    assert required[..i] == required;
    if notFound != [] {
      var key := notFound[0];
      MissingConfigExactly(required, settings, key);
      return Err(notFound);
    }
    forall j | 0 <= j < |required|
      ensures Truthy(Setting(settings, required[j]))
    {
      MissingConfigExactly(required, settings, required[j]);
    }
    return Ok(());
  }

  // ---------------------------------------------------------------------------
  // routeHandler and route
  // ---------------------------------------------------------------------------

  /** What routeHandler hands back. */
  datatype Outcome =
    | Abort404
    /** authenticationChecks failed: the response helper's response, with the route stored as login-intended. */
    | Unauthenticated(intendedRoute: string)
    | Called(calls: seq<Call>)

  /** The method, patterns, parameters and roles of the request, if it reaches authentication. */
  function Resolution(host: Host, k: Constants): Option<(string, MethodResult)> {
    match Probe(k, host.classes, 0)
    case None => None
    case Some(probed) =>
      var tables := TableOf(host, probed.0);
      var r := ResolveMethod(Prepared(tables.0, tables.1), k.verb, probed.1).0;
      if Callable(r, host.preg) then Some((probed.0, r)) else None
  }

  /** routeHandler's test after getMethodName: a truthy method name and valid parameters. */
  predicate Callable(r: MethodResult, preg: Preg) {
    r.Method? && r.name.Some? && TruthyName(r.name.value) && ParametersValid(r.specs, r.parameters, preg)
  }

  /** What happens once a method is resolved: the authentication check, then callMethod. */
  function Respond(host: Host, route: string, className: string, r: MethodResult): Outcome
    requires r.Method? && r.name.Some?
  {
    if className in host.authenticationCheck && !host.authenticationCheck[className](r.roles) then
      Unauthenticated(route)
    else
      Called([DefaultInitialize, Initialize, PreRender,
              if |r.parameters| <= MaxArguments then Invoke(r.name.value, r.parameters) else Response404,
              PostRender])
  }

  /** routeHandler's outcome for a route string and a request. */
  function HandleRoute(host: Host, config: Config, request: Request, route: string): Outcome {
    if !IsValidRoute(route) then Abort404
    else
      var resolved := Resolution(host, GetAllConstants(config, request));
      if resolved.None? then Abort404
      else Respond(host, route, resolved.value.0, resolved.value.1)
  }

  /** routeHandler from the class probe to the parameter check: the controller is made, prepared and consulted. */
  method ResolveRequest(host: Host, k: Constants) returns (resolved: Option<(string, MethodResult)>)
    ensures resolved == Resolution(host, k)
  {
    var probed := GetController(k, host.classes);
    if probed.None? {
      return None;
    }
    var className := probed.value.0;
    var tables := TableOf(host, className);
    var controller := new Controller(tables.0, tables.1);
    controller.Prepare();
    PreparedShape(tables.0, tables.1);
    var lookup := controller.GetMethodName(k.verb, probed.value.1);
    if !lookup.Method? || lookup.name.None? || !TruthyName(lookup.name.value) {
      return None;
    }
    var valid, _ := AreParametersValid(lookup.specs, lookup.parameters, host.preg);
    if !valid {
      return None;
    }
    return Some((className, lookup));
  }

  /** routeHandler */
  method RouteHandler(host: Host, config: Config, request: Request, route: string) returns (outcome: Outcome)
    ensures outcome == HandleRoute(host, config, request, route)
  {
    if !IsValidRoute(route) {
      return Abort404;
    }
    var k := GetAllConstants(config, request);
    var resolved := ResolveRequest(host, k);
    if resolved.None? {
      return Abort404;
    }
    var className := resolved.value.0;
    var lookup := resolved.value.1;
    var pass, _ := AuthenticationChecks(host, route, className, lookup.roles);
    if !pass {
      return Unauthenticated(route);
    }
    var calls := CallMethod(lookup.name.value, lookup.parameters);
    return Called(calls);
  }

  /** route: the configuration check, then routeHandler; Err is the ConfigNotFoundException. */
  method Route(host: Host, settings: map<string, Value>, config: Config, request: Request, route: string)
    returns (r: Result<Outcome, seq<string>>)
    ensures r.Err? <==> MissingConfig(RequiredConfig, settings) != []
    ensures r.Err? ==> r.error == MissingConfig(RequiredConfig, settings)
    ensures r.Ok? ==> r.value == HandleRoute(host, config, request, route)
  {
    var checked := CheckConfig(RequiredConfig, settings);
    if checked.Err? {
      return Err(checked.error);
    }
    if MissingConfig(RequiredConfig, settings) != [] {
      MissingConfigExactly(RequiredConfig, settings, MissingConfig(RequiredConfig, settings)[0]);
    }
    var outcome := RouteHandler(host, config, request, route);
    return Ok(outcome);
  }

  // ---------------------------------------------------------------------------
  // Properties of routeHandler
  // ---------------------------------------------------------------------------

  /**
   * The route strings isValidRoute accepts: every character is in the
   * accepted class, except that the last one may be a newline.
   */
  lemma ValidRouteChars(route: string)
    ensures IsValidRoute(route)
        <==> forall i :: 0 <= i < |route| ==> IsRouteChar(route[i]) || (i == |route| - 1 && route[i] == '\n')
  {
    if forall i :: 0 <= i < |route| ==> IsRouteChar(route[i]) || (i == |route| - 1 && route[i] == '\n') {
      if !AllRouteChars(route) {
        assert |route| >= 1 && route[|route| - 1] == '\n';
        var init := route[..|route| - 1];
        forall i | 0 <= i < |init|
          ensures IsRouteChar(init[i])
        {
          assert init[i] == route[i];
        }
      }
    }
    if IsValidRoute(route) && !AllRouteChars(route) {
      forall i | 0 <= i < |route| - 1
        ensures IsRouteChar(route[i])
      {
        assert route[..|route| - 1][i] == route[i];
      }
    }
  }

  /**
   * A route string with a character outside the accepted class is a 404,
   * whatever else holds, unless that character is a single final newline.
   */
  lemma InvalidRouteIs404(host: Host, config: Config, request: Request, route: string, i: nat)
    requires i < |route| && !IsRouteChar(route[i]) && !(i == |route| - 1 && route[i] == '\n')
    ensures !IsValidRoute(route)
    ensures HandleRoute(host, config, request, route) == Abort404
  {
    ValidRouteChars(route);
  }

  /** A called method runs between the lifecycle hooks, and more than ten parameters turn into a 404 response. */
  lemma CalledShape(host: Host, config: Config, request: Request, route: string)
    requires HandleRoute(host, config, request, route).Called?
    ensures var calls := HandleRoute(host, config, request, route).calls;
      var (className, r) := Resolution(host, GetAllConstants(config, request)).value;
      && IsValidRoute(route)
      && |calls| == 5 && calls[..3] == [DefaultInitialize, Initialize, PreRender] && calls[4] == PostRender
      && (calls[3].Invoke? <==> |r.parameters| <= MaxArguments)
      && ParametersValid(r.specs, r.parameters, host.preg)
      && (className !in host.authenticationCheck || host.authenticationCheck[className](r.roles))
  {
  }

  /** A redirect-halt setting of false fails the configuration check. */
  lemma RedirectHaltMustBeTruthy(settings: map<string, Value>)
    requires Setting(settings, "app.routing.redirecthalt") == Bool(false)
    ensures "app.routing.redirecthalt" in MissingConfig(RequiredConfig, settings)
  {
    MissingConfigExactly(RequiredConfig, settings, "app.routing.redirecthalt");
  }
}
