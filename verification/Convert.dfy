/** Converting HTTPRoutes to the proxy's configuration, and what the conversion preserves. */
module Convert {
  import opened Text
  import opened Words
  import opened Config
  import opened Kube
  import opened Routing
  import opened FirstRule
  import opened Hosts

  /** Reads a timeout such as "10s"; nothing when it does not parse. */
  type DurationParser = string -> Option<real>

  // Matches

  function ConvertPath(path: SourcePath): PathMatch {
    PathMatch(path.matchType.GetOr(PathPrefix), path.value.GetOr("/"))
  }

  function ConvertHeader(h: SourceValueMatch): HeaderMatch {
    HeaderMatch(h.name, h.matchType.GetOr(ExactValue), h.value)
  }

  function ConvertQueryParam(q: SourceValueMatch): QueryParamMatch {
    QueryParamMatch(q.name, q.matchType.GetOr(ExactValue), q.value)
  }

  function MethodName(m: HttpMethod): string {
    match m
    case Get => "GET"
    case Head => "HEAD"
    case Post => "POST"
    case Put => "PUT"
    case Delete => "DELETE"
    case Connect => "CONNECT"
    case Options => "OPTIONS"
    case Trace => "TRACE"
    case Patch => "PATCH"
  }

  function ConvertedMatch(m: SourceMatch): RouteMatch {
    RouteMatch(
      if m.path.Some? then Some(ConvertPath(m.path.value)) else None,
      Mapped(m.headers.GetOr([]), ConvertHeader),
      Mapped(m.queryParams.GetOr([]), ConvertQueryParam),
      if m.httpMethod.Some? then Some(MethodName(m.httpMethod.value)) else None)
  }

  method ConvertMatch(m: SourceMatch) returns (r: RouteMatch)
    ensures r == ConvertedMatch(m)
  {
    r := DEFAULT_MATCH;
    if m.path.Some? {
      r := r.(path := Some(ConvertPath(m.path.value)));
    }
    var headers := m.headers.GetOr([]);
    for i := 0 to |headers|
      invariant r == DEFAULT_MATCH.(path := ConvertedMatch(m).path, headers := r.headers)
      invariant r.headers == Mapped(headers, ConvertHeader)[..i]
    {
      r := r.(headers := r.headers + [ConvertHeader(headers[i])]);
    }
    var params := m.queryParams.GetOr([]);
    for i := 0 to |params|
      invariant r == ConvertedMatch(m).(queryParams := r.queryParams, httpMethod := None)
      invariant r.queryParams == Mapped(params, ConvertQueryParam)[..i]
    {
      r := r.(queryParams := r.queryParams + [ConvertQueryParam(params[i])]);
    }
    if m.httpMethod.Some? {
      r := r.(httpMethod := Some(MethodName(m.httpMethod.value)));
    }
  }

  // Filters and backends

  function ConvertPathModifier(p: SourcePathModifier): PathModifier {
    match p.kind
    case FullPath => ReplaceFullPath(p.replaceFullPath.GetOr(""))
    case PrefixMatch => ReplacePrefixMatch(p.replacePrefixMatch.GetOr(""))
  }

  function ConvertOptionalPath(p: Option<SourcePathModifier>): Option<PathModifier> {
    if p.Some? then Some(ConvertPathModifier(p.value)) else None
  }

  function ConvertFilter(f: SourceFilter): Option<Filter> {
    match f
    case RequestHeaders(modifier) =>
      var m := modifier.GetOr(SourceHeaderModifier(None, None, None));
      Some(RequestHeaderModifier(m.toAdd.GetOr([]), m.toSet.GetOr([]), m.toRemove.GetOr([])))
    case ResponseHeaders(modifier) =>
      var m := modifier.GetOr(SourceHeaderModifier(None, None, None));
      Some(ResponseHeaderModifier(m.toAdd.GetOr([]), m.toSet.GetOr([]), m.toRemove.GetOr([])))
    case Redirecting(Some(r)) =>
      Some(RequestRedirect(
        if r.scheme.None? then None else if r.scheme.value.Http? then Some("http") else Some("https"),
        r.hostname,
        if r.port.Some? then Some(AsU16(r.port.value)) else None,
        ConvertOptionalPath(r.path),
        if r.statusCode.Some? then Some(AsU16(r.statusCode.value)) else None))
    case Rewriting(Some(r)) => Some(URLRewrite(r.hostname, ConvertOptionalPath(r.path)))
    case Mirroring(Some(b)) =>
      Some(RequestMirror(Backend(b.namespace.GetOr(""), b.name, AsU16(b.port.GetOr(80)), 1, Http1), None))
    case _ => None
  }

  function ConvertedFilters(filters: seq<SourceFilter>): seq<Filter> {
    if filters == [] then []
    else
      var before := ConvertedFilters(filters[..|filters| - 1]);
      match ConvertFilter(filters[|filters| - 1])
      case Some(f) => before + [f]
      case None => before
  }

  function ConvertBackend(routeNs: string): BackendRef -> Backend {
    (b: BackendRef) => Backend(b.namespace.GetOr(routeNs), b.name, AsU16(b.port.GetOr(80)), AsU32(b.weight.GetOr(1)), Http1)
  }

  function ConvertTimeouts(t: Option<SourceTimeouts>, parse: DurationParser): Option<TimeoutConfig> {
    if t.None? then None
    else Some(TimeoutConfig(
      if t.value.request.Some? then parse(t.value.request.value) else None,
      if t.value.backendRequest.Some? then parse(t.value.backendRequest.value) else None))
  }

  // Rules and routes

  function ConvertedMatches(rule: SourceRule): seq<RouteMatch> {
    var matches := rule.matches.GetOr([]);
    if matches == [] then [DEFAULT_MATCH] else Mapped(matches, ConvertedMatch)
  }

  function ConvertedRule(routeNs: string, parse: DurationParser): SourceRule -> RouteRule {
    (rule: SourceRule) => RouteRule(
      None,
      ConvertedMatches(rule),
      ConvertedFilters(rule.filters.GetOr([])),
      Mapped(rule.backendRefs.GetOr([]), ConvertBackend(routeNs)),
      ConvertTimeouts(rule.timeouts, parse))
  }

  method ConvertRule(rule: SourceRule, routeNs: string, parse: DurationParser) returns (r: RouteRule)
    ensures r == ConvertedRule(routeNs, parse)(rule)
  {
    var matches: seq<RouteMatch> := [];
    var sources := rule.matches.GetOr([]);
    for i := 0 to |sources|
      invariant matches == Mapped(sources, ConvertedMatch)[..i]
    {
      var m := ConvertMatch(sources[i]);
      matches := matches + [m];
    }
    if matches == [] {
      matches := [DEFAULT_MATCH];
    }
    var filters: seq<Filter> := [];
    var sourceFilters := rule.filters.GetOr([]);
    for i := 0 to |sourceFilters|
      invariant filters == ConvertedFilters(sourceFilters[..i])
    {
      assert sourceFilters[..i + 1][..i] == sourceFilters[..i];
      var f := ConvertFilter(sourceFilters[i]);
      if f.Some? {
        filters := filters + [f.value];
      }
    }
    assert sourceFilters[..|sourceFilters|] == sourceFilters;
    var backends: seq<Backend> := [];
    var refs := rule.backendRefs.GetOr([]);
    for i := 0 to |refs|
      invariant backends == Mapped(refs, ConvertBackend(routeNs))[..i]
    {
      backends := backends + [ConvertBackend(routeNs)(refs[i])];
    }
    r := RouteRule(None, matches, filters, backends, ConvertTimeouts(rule.timeouts, parse));
  }

  function ConvertedRoute(listeners: seq<string>, parse: DurationParser): HTTPRoute -> RouteConfig {
    (route: HTTPRoute) =>
      var ns := route.meta.namespace.GetOr("");
      RouteConfig(route.meta.name, ns, route.hostnames.GetOr([]), listeners, Mapped(route.rules.GetOr([]), ConvertedRule(ns, parse)))
  }

  method ConvertHttpRoute(route: HTTPRoute, listeners: seq<string>, parse: DurationParser) returns (r: RouteConfig)
    ensures r == ConvertedRoute(listeners, parse)(route)
  {
    var ns := route.meta.namespace.GetOr("");
    var sources := route.rules.GetOr([]);
    var rules: seq<RouteRule> := [];
    for i := 0 to |sources|
      invariant rules == Mapped(sources, ConvertedRule(ns, parse))[..i]
    {
      var rule := ConvertRule(sources[i], ns, parse);
      rules := rules + [rule];
    }
    r := RouteConfig(route.meta.name, ns, route.hostnames.GetOr([]), listeners, rules);
  }

  // What a source match means, absent types and values defaulted

  ghost predicate FieldMatches(h: SourceValueMatch, req: RequestMeta, regex: Regex) {
    exists field :: field in req.headers && SameText(field.0, h.name)
                    && (if h.matchType == Some(RegexValue) then regex(h.value, field.1) else field.1 == h.value)
  }

  ghost predicate ParamMatches(q: SourceValueMatch, req: RequestMeta, regex: Regex) {
    exists param :: param in req.queryParams && param.0 == q.name
                    && (if q.matchType == Some(RegexValue) then regex(q.value, param.1) else param.1 == q.value)
  }

  ghost predicate SourcePathHolds(path: SourcePath, req: RequestMeta, regex: Regex) {
    var value := if path.value.Some? then path.value.value else "/";
    if path.matchType == Some(Exact) then req.path == value
    else if path.matchType == Some(RegularExpression) then regex(value, req.path)
    else PrefixPathMatches(value, req.path)
  }

  ghost predicate SourceMatchHolds(m: SourceMatch, req: RequestMeta, regex: Regex) {
    && (m.path.Some? ==> SourcePathHolds(m.path.value, req, regex))
    && (m.headers.Some? ==> forall h :: h in m.headers.value ==> FieldMatches(h, req, regex))
    && (m.queryParams.Some? ==> forall q :: q in m.queryParams.value ==> ParamMatches(q, req, regex))
    && (m.httpMethod.Some? ==> SameText(req.httpMethod, MethodName(m.httpMethod.value)))
  }

  function SourcePrecedence(m: SourceMatch): MatchPrecedence {
    MatchPrecedence(
      if m.path.None? || m.path.value.matchType == Some(RegularExpression) then 0
      else if m.path.value.matchType == Some(Exact) then 2 else 1,
      if m.path.None? then 0 else if m.path.value.value.None? then 1 else |m.path.value.value.value|,
      m.httpMethod.Some?,
      if m.headers.Some? then |m.headers.value| else 0,
      if m.queryParams.Some? then |m.queryParams.value| else 0)
  }

  /** `best` is the highest precedence among the matches that hold; a rule without matches holds
      for every request, with the lowest precedence. */
  ghost predicate IsSourceBest(rule: SourceRule, req: RequestMeta, regex: Regex, best: Option<MatchPrecedence>) {
    var matches := rule.matches.GetOr([]);
    if matches == [] then best == Some(LOWEST_PRECEDENCE)
    else
      && (best.None? ==> forall m :: m in matches ==> !SourceMatchHolds(m, req, regex))
      && (best.Some? ==>
            && (exists m :: m in matches && SourceMatchHolds(m, req, regex) && SourcePrecedence(m) == best.value)
            && (forall m :: m in matches && SourceMatchHolds(m, req, regex) ==> !Beats(SourcePrecedence(m), best.value)))
  }

  lemma ConvertedConditionsMean(m: SourceMatch, req: RequestMeta, regex: Regex)
    ensures (exists h :: h in ConvertedMatch(m).headers && !HeaderMatches(h, req.headers, regex))
            <==> exists h :: h in m.headers.GetOr([]) && !FieldMatches(h, req, regex)
    ensures (exists q :: q in ConvertedMatch(m).queryParams && !QueryParamMatches(q, req.queryParams, regex))
            <==> exists q :: q in m.queryParams.GetOr([]) && !ParamMatches(q, req, regex)
  {
    var c := ConvertedMatch(m);
    forall h | h in m.headers.GetOr([])
      ensures ConvertHeader(h) in c.headers
      ensures HeaderMatches(ConvertHeader(h), req.headers, regex) <==> FieldMatches(h, req, regex)
    {
      MappedContains(m.headers.GetOr([]), ConvertHeader, ConvertHeader(h));
    }
    forall h | h in c.headers
      ensures exists s :: s in m.headers.GetOr([]) && ConvertHeader(s) == h
    {
      MappedContains(m.headers.GetOr([]), ConvertHeader, h);
    }
    forall q | q in m.queryParams.GetOr([])
      ensures ConvertQueryParam(q) in c.queryParams
      ensures QueryParamMatches(ConvertQueryParam(q), req.queryParams, regex) <==> ParamMatches(q, req, regex)
    {
      MappedContains(m.queryParams.GetOr([]), ConvertQueryParam, ConvertQueryParam(q));
    }
    forall q | q in c.queryParams
      ensures exists s :: s in m.queryParams.GetOr([]) && ConvertQueryParam(s) == q
    {
      MappedContains(m.queryParams.GetOr([]), ConvertQueryParam, q);
    }
  }

  /** A converted match applies exactly when the source match holds, with the same precedence. */
  lemma ConvertedMatchMeans(m: SourceMatch, req: RequestMeta, regex: Regex)
    ensures SingleMatchApplies(ConvertedMatch(m), req, regex)
            == if SourceMatchHolds(m, req, regex) then Some(SourcePrecedence(m)) else None
  {
    ConvertedConditionsMean(m, req, regex);
  }

  const METHODS := [
    (Get, "GET"), (Head, "HEAD"), (Post, "POST"), (Put, "PUT"), (Delete, "DELETE"),
    (Connect, "CONNECT"), (Options, "OPTIONS"), (Trace, "TRACE"), (Patch, "PATCH")]

  /** A match on a method alone takes the requests with that method, as section 9 of RFC 9110 and RFC 5789
      name it, in either case of its letters. */
  lemma MethodMatchMeans(i: nat, req: RequestMeta, regex: Regex)
    requires i < |METHODS|
    ensures SingleMatchApplies(ConvertedMatch(SourceMatch(None, None, None, Some(METHODS[i].0))), req, regex).Some?
            <==> SameText(req.httpMethod, METHODS[i].1)
  {
    ConvertedMatchMeans(SourceMatch(None, None, None, Some(METHODS[i].0)), req, regex);
    assert MethodName(METHODS[i].0) == METHODS[i].1;
  }

  lemma ConvertedCandidatesMean(rule: SourceRule, routeNs: string, parse: DurationParser, req: RequestMeta, regex: Regex, p: MatchPrecedence)
    ensures EarnsPrecedence(ConvertedRule(routeNs, parse)(rule), req, regex, p)
            <==> if rule.matches.GetOr([]) == [] then p == LOWEST_PRECEDENCE
                 else exists m :: m in rule.matches.GetOr([]) && SourceMatchHolds(m, req, regex) && SourcePrecedence(m) == p
  {
    var matches := rule.matches.GetOr([]);
    var converted := ConvertedMatches(rule);
    if matches == [] {
      assert SingleMatchApplies(DEFAULT_MATCH, req, regex) == Some(LOWEST_PRECEDENCE);
      assert DEFAULT_MATCH in converted;
    } else {
      forall m | m in matches
        ensures ConvertedMatch(m) in converted
      {
        MappedContains(matches, ConvertedMatch, ConvertedMatch(m));
      }
      forall m | m in matches {
        ConvertedMatchMeans(m, req, regex);
      }
      forall c | c in converted
        ensures exists m :: m in matches && ConvertedMatch(m) == c
      {
        MappedContains(matches, ConvertedMatch, c);
      }
    }
  }

  lemma {:induction false} BestExists(candidates: seq<MatchCandidate>) returns (best: Option<MatchCandidate>)
    ensures IsBestOf(candidates, best)
  {
    if candidates == [] {
      best := None;
    } else {
      var n := |candidates| - 1;
      var before := BestExists(candidates[..n]);
      var last := [candidates[n]];
      assert IsFirstBest(last, 0);
      BestOfConcat(candidates[..n], last, before, Some(candidates[n]));
      best := Better(before, Some(candidates[n]));
      assert candidates == candidates[..n] + last;
    }
  }

  /** The result `RuleMatches` computes for a converted rule is the source rule's best. */
  lemma ConvertedRuleMeans(
    rule: SourceRule, routeNs: string, parse: DurationParser, req: RequestMeta, regex: Regex, best: Option<MatchPrecedence>)
    requires var target := ConvertedRule(routeNs, parse)(rule);
             IsBestOf(RuleCandidates(target, req, regex), if best.Some? then Some(MatchCandidate(target, best.value)) else None)
    ensures IsSourceBest(rule, req, regex, best)
  {
    var target := ConvertedRule(routeNs, parse)(rule);
    var candidates := RuleCandidates(target, req, regex);
    forall p
      ensures MatchCandidate(target, p) in candidates <==> EarnsPrecedence(target, req, regex, p)
    {
      MatchCandidatesAre(target, target.matches, req, regex, MatchCandidate(target, p));
    }
    forall p {:trigger EarnsPrecedence(target, req, regex, p)}
      ensures EarnsPrecedence(target, req, regex, p)
              <==> if rule.matches.GetOr([]) == [] then p == LOWEST_PRECEDENCE
                   else exists m :: m in rule.matches.GetOr([]) && SourceMatchHolds(m, req, regex) && SourcePrecedence(m) == p
    {
      ConvertedCandidatesMean(rule, routeNs, parse, req, regex, p);
    }
    if best.Some? {
      var w :| IsFirstBest(candidates, w) && candidates[w] == MatchCandidate(target, best.value);
      assert candidates[w] in candidates;
      assert EarnsPrecedence(target, req, regex, best.value);
      forall p | EarnsPrecedence(target, req, regex, p)
        ensures !Beats(p, best.value)
      {
        assert MatchCandidate(target, p) in candidates;
      }
    }
    forall m | m in rule.matches.GetOr([]) && SourceMatchHolds(m, req, regex)
      ensures EarnsPrecedence(target, req, regex, SourcePrecedence(m))
    {
    }
  }

  lemma SourceBestIsUnique(rule: SourceRule, req: RequestMeta, regex: Regex, a: Option<MatchPrecedence>, b: Option<MatchPrecedence>)
    requires IsSourceBest(rule, req, regex, a) && IsSourceBest(rule, req, regex, b)
    ensures a == b
  {
    BeatsIsStrictTotalOrder();
  }

  /** An empty match list and the default match that replaces it earn the same, for every request. */
  lemma EmptyMatchesAreTheDefaultMatch(rule: RouteRule, req: RequestMeta, regex: Regex, p: MatchPrecedence)
    ensures EarnsPrecedence(rule.(matches := []), req, regex, p) <==> EarnsPrecedence(rule.(matches := [DEFAULT_MATCH]), req, regex, p)
  {
    assert SingleMatchApplies(DEFAULT_MATCH, req, regex) == Some(LOWEST_PRECEDENCE);
    assert DEFAULT_MATCH in [DEFAULT_MATCH];
  }

  // Routing on a converted configuration

  ghost predicate SourceApplies(routes: seq<HTTPRoute>, route: HTTPRoute, rule: SourceRule, req: RequestMeta) {
    route in routes && rule in route.rules.GetOr([]) && Covers(route.hostnames.GetOr([]), req.host)
  }

  lemma ConvertedRouteApplies(route: HTTPRoute, listeners: seq<string>, parse: DurationParser, listener: string, req: RequestMeta)
    requires listener in listeners
    ensures RouteApplies(ConvertedRoute(listeners, parse)(route), listener, req) <==> Covers(route.hostnames.GetOr([]), req.host)
  {
    HostnameMatchesIff(route.hostnames.GetOr([]), req.host);
  }

  ghost predicate SourceEarns(rule: SourceRule, req: RequestMeta, regex: Regex, p: MatchPrecedence) {
    if rule.matches.GetOr([]) == [] then p == LOWEST_PRECEDENCE
    else exists m :: m in rule.matches.GetOr([]) && SourceMatchHolds(m, req, regex) && SourcePrecedence(m) == p
  }

  function TargetRule(route: HTTPRoute, rule: SourceRule, parse: DurationParser): RouteRule {
    ConvertedRule(route.meta.namespace.GetOr(""), parse)(rule)
  }

  lemma {:induction false} SourceCandidate(
    routes: seq<HTTPRoute>, listeners: seq<string>, parse: DurationParser, listener: string,
    req: RequestMeta, regex: Regex, route: HTTPRoute, rule: SourceRule, p: MatchPrecedence)
    requires listener in listeners
    requires SourceApplies(routes, route, rule, req) && SourceEarns(rule, req, regex, p)
    ensures MatchCandidate(TargetRule(route, rule, parse), p)
            in Candidates(Mapped(routes, ConvertedRoute(listeners, parse)), listener, req, regex)
  {
    var targets := Mapped(routes, ConvertedRoute(listeners, parse));
    var target := ConvertedRoute(listeners, parse)(route);
    var ns := route.meta.namespace.GetOr("");
    ConvertedRouteApplies(route, listeners, parse, listener, req);
    MappedContains(routes, ConvertedRoute(listeners, parse), target);
    MappedContains(route.rules.GetOr([]), ConvertedRule(ns, parse), ConvertedRule(ns, parse)(rule));
    ConvertedCandidatesMean(rule, ns, parse, req, regex, p);
    var c := MatchCandidate(ConvertedRule(ns, parse)(rule), p);
    assert target in targets && RouteApplies(target, listener, req) && c.rule in target.rules;
    CandidatesAre(targets, listener, req, regex, c);
  }

  lemma CandidateSource(
    routes: seq<HTTPRoute>, listeners: seq<string>, parse: DurationParser, listener: string,
    req: RequestMeta, regex: Regex, c: MatchCandidate) returns (route: HTTPRoute, rule: SourceRule)
    requires c in Candidates(Mapped(routes, ConvertedRoute(listeners, parse)), listener, req, regex) && listener in listeners
    ensures SourceApplies(routes, route, rule, req) && SourceEarns(rule, req, regex, c.precedence)
    ensures c.rule == TargetRule(route, rule, parse)
  {
    var targets := Mapped(routes, ConvertedRoute(listeners, parse));
    CandidatesAre(targets, listener, req, regex, c);
    var target :| target in targets && RouteApplies(target, listener, req) && c.rule in target.rules
                  && EarnsPrecedence(c.rule, req, regex, c.precedence);
    MappedContains(routes, ConvertedRoute(listeners, parse), target);
    route :| route in routes && ConvertedRoute(listeners, parse)(route) == target;
    ConvertedRouteApplies(route, listeners, parse, listener, req);
    var ns := route.meta.namespace.GetOr("");
    MappedContains(route.rules.GetOr([]), ConvertedRule(ns, parse), c.rule);
    rule :| rule in route.rules.GetOr([]) && ConvertedRule(ns, parse)(rule) == c.rule;
    ConvertedCandidatesMean(rule, ns, parse, req, regex, c.precedence);
  }

  ghost predicate NoSourceHolds(routes: seq<HTTPRoute>, req: RequestMeta, regex: Regex) {
    forall route, rule, p :: SourceApplies(routes, route, rule, req) ==> !SourceEarns(rule, req, regex, p)
  }

  /** On converted routes a request is not found exactly when no source rule holds for it. */
  lemma NotFoundIffNoSourceHolds(
    config: ProxyConfig, routes: seq<HTTPRoute>, listeners: seq<string>, parse: DurationParser, listener: string,
    req: RequestMeta, regex: Regex, decision: RoutingDecision)
    requires config.routes == Mapped(routes, ConvertedRoute(listeners, parse)) && listener in listeners
    requires IsRouting(config, listener, req, regex, decision)
    ensures decision == NotFound <==> NoSourceHolds(routes, req, regex)
  {
    var candidates := Candidates(config.routes, listener, req, regex);
    if candidates != [] {
      var _, _ := CandidateSource(routes, listeners, parse, listener, req, regex, candidates[0]);
    }
    forall route, rule, p | SourceApplies(routes, route, rule, req) && SourceEarns(rule, req, regex, p)
      ensures candidates != []
    {
      SourceCandidate(routes, listeners, parse, listener, req, regex, route, rule, p);
    }
  }

  /** Rule `j` of HTTPRoute `i` holds for the request with precedence `p`. */
  ghost predicate SourceContends(routes: seq<HTTPRoute>, req: RequestMeta, regex: Regex, i: nat, j: nat, p: MatchPrecedence) {
    && i < |routes| && j < |routes[i].rules.GetOr([])|
    && SourceApplies(routes, routes[i], routes[i].rules.GetOr([])[j], req)
    && SourceEarns(routes[i].rules.GetOr([])[j], req, regex, p)
  }

  /** It is the first, in the order of HTTPRoutes and then of rules, that no other beats. */
  ghost predicate SourceDecides(routes: seq<HTTPRoute>, req: RequestMeta, regex: Regex, i: nat, j: nat, p: MatchPrecedence) {
    && SourceContends(routes, req, regex, i, j, p)
    && forall k, m, q :: SourceContends(routes, req, regex, k, m, q) ==>
         !Beats(q, p) && (IsEarlier(k, m, i, j) ==> Beats(p, q))
  }

  lemma SourceDecidesOnce(
    routes: seq<HTTPRoute>, req: RequestMeta, regex: Regex, i: nat, j: nat, p: MatchPrecedence, k: nat, m: nat, q: MatchPrecedence)
    requires SourceDecides(routes, req, regex, i, j, p) && SourceDecides(routes, req, regex, k, m, q)
    ensures i == k && j == m && p == q
  {
    assert !Beats(q, p) && !Beats(p, q);
    BeatsIsStrictTotalOrder();
  }

  lemma SourceContendsIff(
    targets: seq<RouteConfig>, routes: seq<HTTPRoute>, listeners: seq<string>, parse: DurationParser, listener: string,
    req: RequestMeta, regex: Regex, i: nat, j: nat, p: MatchPrecedence)
    requires targets == Mapped(routes, ConvertedRoute(listeners, parse)) && listener in listeners
    ensures Contends(targets, listener, req, regex, i, j, p) <==> SourceContends(routes, req, regex, i, j, p)
    ensures SourceContends(routes, req, regex, i, j, p) ==>
              targets[i].rules[j] == TargetRule(routes[i], routes[i].rules.GetOr([])[j], parse)
  {
    if i < |routes| && j < |routes[i].rules.GetOr([])| {
      var route, rule := routes[i], routes[i].rules.GetOr([])[j];
      assert targets[i] == ConvertedRoute(listeners, parse)(route);
      assert route in routes && rule in route.rules.GetOr([]);
      ConvertedRouteApplies(route, listeners, parse, listener, req);
      ConvertedCandidatesMean(rule, route.meta.namespace.GetOr(""), parse, req, regex, p);
    }
  }

  /** Otherwise the decision is that of the first source rule that no other beats. */
  lemma RoutingFollowsSourceMeaning(
    config: ProxyConfig, routes: seq<HTTPRoute>, listeners: seq<string>, parse: DurationParser, listener: string,
    req: RequestMeta, regex: Regex, decision: RoutingDecision)
    returns (i: nat, j: nat, p: MatchPrecedence)
    requires config.routes == Mapped(routes, ConvertedRoute(listeners, parse)) && listener in listeners
    requires IsRouting(config, listener, req, regex, decision) && decision != NotFound
    ensures SourceDecides(routes, req, regex, i, j, p)
    ensures decision == BuildDecision(TargetRule(routes[i], routes[i].rules.GetOr([])[j], parse), req)
  {
    i, j, p := RouteFollowsFirstRule(config, listener, req, regex, decision);
    SourceContendsIff(config.routes, routes, listeners, parse, listener, req, regex, i, j, p);
    forall k, m, q | SourceContends(routes, req, regex, k, m, q)
      ensures !Beats(q, p) && (IsEarlier(k, m, i, j) ==> Beats(p, q))
    {
      SourceContendsIff(config.routes, routes, listeners, parse, listener, req, regex, k, m, q);
    }
  }
}
