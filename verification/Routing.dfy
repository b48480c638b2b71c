/** Route matching: which rule of the configuration serves a request. */
module Routing {
  import opened Text
  import opened Config

  /** Regular-expression search: does the text match the pattern?  False for a pattern that
      does not compile. */
  type Regex = (string, string) -> bool

  datatype RequestMeta = RequestMeta(
    host: Option<string>,
    path: string,
    httpMethod: string,
    headers: seq<(string, string)>,
    queryParams: seq<(string, string)>)

  datatype RoutingDecision =
    | Forward(backends: seq<Backend>, filters: seq<Filter>, timeout: Option<TimeoutConfig>)
    | Redirect(statusCode: nat, location: string)
    | NotFound

  datatype MatchPrecedence = MatchPrecedence(
    pathKind: nat,
    pathLength: nat,
    hasMethod: bool,
    headerCount: nat,
    queryParamCount: nat)

  datatype MatchCandidate = MatchCandidate(rule: RouteRule, precedence: MatchPrecedence)

  const LOWEST_PRECEDENCE := MatchPrecedence(0, 0, false, 0, 0)

  /** Lexicographic comparison of the five fields, `true` above `false`. */
  predicate Beats(a: MatchPrecedence, b: MatchPrecedence) {
    if a.pathKind != b.pathKind then a.pathKind > b.pathKind
    else if a.pathLength != b.pathLength then a.pathLength > b.pathLength
    else if a.hasMethod != b.hasMethod then a.hasMethod
    else if a.headerCount != b.headerCount then a.headerCount > b.headerCount
    else a.queryParamCount > b.queryParamCount
  }

  function Fields(p: MatchPrecedence): seq<int> {
    [p.pathKind, p.pathLength, if p.hasMethod then 1 else 0, p.headerCount, p.queryParamCount]
  }

  /** Field `i` is the first in which the two differ, and `a` is higher in it. */
  predicate WinsAt(a: MatchPrecedence, b: MatchPrecedence, i: int) {
    0 <= i < 5 && Fields(a)[i] > Fields(b)[i] && forall j :: 0 <= j < i ==> Fields(a)[j] == Fields(b)[j]
  }

  /** The first field that differs decides: path kind, path length, method, headers, parameters. */
  lemma BeatsIsLexicographic(a: MatchPrecedence, b: MatchPrecedence)
    ensures Beats(a, b) <==> exists i :: WinsAt(a, b, i)
  {
    var x, y := Fields(a), Fields(b);
    var i := if x[0] != y[0] then 0 else if x[1] != y[1] then 1 else if x[2] != y[2] then 2 else if x[3] != y[3] then 3 else 4;
    assert Beats(a, b) ==> WinsAt(a, b, i);
    if j :| WinsAt(a, b, j) {
      assert j == i;
    }
  }

  lemma BeatsIsStrictTotalOrder()
    ensures forall a :: !Beats(a, a)
    ensures forall a, b :: Beats(a, b) ==> !Beats(b, a)
    ensures forall a, b, c :: Beats(a, b) && Beats(b, c) ==> Beats(a, c)
    ensures forall a, b :: a != b ==> Beats(a, b) || Beats(b, a)
  {
  }

  // Hosts

  /** Drops the port, except from a bracketed IPv6 literal. */
  function StripPort(host: string): (r: string)
    ensures (host != [] && host[0] == '[') || ':' !in host ==> r == host
    ensures !(host != [] && host[0] == '[') && ':' in host ==>
              exists port :: host == r + ":" + port && ':' !in port
  {
    if host != [] && host[0] == '[' then host
    else
      var i := LastIndexOf(host, ':');
      assert i < |host| ==> host == host[..i] + ":" + host[i + 1..];
      if i < |host| then host[..i] else host
  }

  /** The last position of `c` in `s`, or `|s|` when it is absent. */
  function LastIndexOf(s: string, c: char): (i: nat)
    ensures i <= |s|
    ensures i < |s| ==> s[i] == c && c !in s[i + 1..]
    ensures i == |s| ==> c !in s
  {
    if s == [] then 0
    else
      var i := LastIndexOf(s[1..], c);
      if i < |s| - 1 then i + 1 else if s[0] == c then 0 else |s|
  }

  const WILDCARD := "*."

  /** Does one host pattern match a host whose port is already gone? */
  predicate HostPatternMatches(pattern: string, host: string) {
    if WILDCARD <= pattern then
      var hostLower := Lower(host);
      var suffix := "." + Lower(pattern[2..]);
      |suffix| <= |hostLower|
      && hostLower[|hostLower| - |suffix|..] == suffix
      && var first := hostLower[..|hostLower| - |suffix|];
         first != [] && '.' !in first
    else
      EqIgnoreCase(host, pattern)
  }

  predicate HostnameMatches(hostnames: seq<string>, host: Option<string>) {
    hostnames == []
    || (host.Some?
        && exists i :: 0 <= i < |hostnames| && HostPatternMatches(hostnames[i], StripPort(host.value)))
  }

  // Paths

  predicate PrefixPathMatches(prefix: string, path: string) {
    prefix == "/"
    || path == prefix
    || (prefix <= path && |prefix| < |path| && path[|prefix|] == '/')
  }

  predicate PathMatches(matchType: PathMatchType, value: string, path: string, regex: Regex) {
    match matchType
    case Exact => path == value
    case PathPrefix => PrefixPathMatches(value, path)
    case RegularExpression => regex(value, path)
  }

  function PathKind(matchType: PathMatchType): nat {
    match matchType
    case Exact => 2
    case PathPrefix => 1
    case RegularExpression => 0
  }

  // Headers, query parameters and whole matches

  predicate ValueMatches(matchType: ValueMatchType, value: string, actual: string, regex: Regex) {
    match matchType
    case ExactValue => actual == value
    case RegexValue => regex(value, actual)
  }

  predicate HeaderMatches(hm: HeaderMatch, headers: seq<(string, string)>, regex: Regex) {
    exists h :: h in headers && EqIgnoreCase(h.0, hm.name) && ValueMatches(hm.matchType, hm.value, h.1, regex)
  }

  predicate QueryParamMatches(qpm: QueryParamMatch, params: seq<(string, string)>, regex: Regex) {
    exists q :: q in params && q.0 == qpm.name && ValueMatches(qpm.matchType, qpm.value, q.1, regex)
  }

  /** All conditions of one match hold: the precedence it earns, or nothing. */
  function SingleMatchApplies(m: RouteMatch, req: RequestMeta, regex: Regex): Option<MatchPrecedence> {
    if m.path.Some? && !PathMatches(m.path.value.matchType, m.path.value.value, req.path, regex) then None
    else if m.httpMethod.Some? && !EqIgnoreCase(req.httpMethod, m.httpMethod.value) then None
    else if exists h :: h in m.headers && !HeaderMatches(h, req.headers, regex) then None
    else if exists q :: q in m.queryParams && !QueryParamMatches(q, req.queryParams, regex) then None
    else
      var (kind, length) := if m.path.Some? then (PathKind(m.path.value.matchType), |m.path.value.value|) else (0, 0);
      Some(MatchPrecedence(kind, length, m.httpMethod.Some?, |m.headers|, |m.queryParams|))
  }

  // The specification: all candidates in configuration order, and the first best of them

  function MatchCandidates(rule: RouteRule, matches: seq<RouteMatch>, req: RequestMeta, regex: Regex): seq<MatchCandidate> {
    if matches == [] then []
    else
      var n := |matches| - 1;
      var before := MatchCandidates(rule, matches[..n], req, regex);
      match SingleMatchApplies(matches[n], req, regex)
      case Some(p) => before + [MatchCandidate(rule, p)]
      case None => before
  }

  function RuleCandidates(rule: RouteRule, req: RequestMeta, regex: Regex): seq<MatchCandidate> {
    if rule.matches == [] then [MatchCandidate(rule, LOWEST_PRECEDENCE)]
    else MatchCandidates(rule, rule.matches, req, regex)
  }

  function RulesCandidates(rules: seq<RouteRule>, req: RequestMeta, regex: Regex): seq<MatchCandidate> {
    if rules == [] then []
    else RulesCandidates(rules[..|rules| - 1], req, regex) + RuleCandidates(rules[|rules| - 1], req, regex)
  }

  predicate RouteApplies(route: RouteConfig, listener: string, req: RequestMeta) {
    listener in route.attachedListeners && HostnameMatches(route.hostnames, req.host)
  }

  /** The candidates of the routes that apply, flattened over routes, rules and matches. */
  function Candidates(routes: seq<RouteConfig>, listener: string, req: RequestMeta, regex: Regex): seq<MatchCandidate> {
    if routes == [] then []
    else
      var n := |routes| - 1;
      Candidates(routes[..n], listener, req, regex)
      + (if RouteApplies(routes[n], listener, req) then RulesCandidates(routes[n].rules, req, regex) else [])
  }

  /** Candidate `w` is maximal, and every earlier one is strictly worse. */
  ghost predicate IsFirstBest(candidates: seq<MatchCandidate>, w: int) {
    && 0 <= w < |candidates|
    && (forall j :: 0 <= j < |candidates| ==> !Beats(candidates[j].precedence, candidates[w].precedence))
    && (forall j :: 0 <= j < w ==> Beats(candidates[w].precedence, candidates[j].precedence))
  }

  ghost predicate IsBestOf(candidates: seq<MatchCandidate>, best: Option<MatchCandidate>) {
    match best
    case None => candidates == []
    case Some(c) => exists w :: IsFirstBest(candidates, w) && candidates[w] == c
  }

  lemma FirstBestIsUnique(candidates: seq<MatchCandidate>, v: int, w: int)
    requires IsFirstBest(candidates, v) && IsFirstBest(candidates, w)
    ensures v == w
  {
    assert !Beats(candidates[v].precedence, candidates[w].precedence);
    assert !Beats(candidates[w].precedence, candidates[v].precedence);
  }

  function Better(first: Option<MatchCandidate>, second: Option<MatchCandidate>): Option<MatchCandidate> {
    if second.None? then first
    else if first.None? || Beats(second.value.precedence, first.value.precedence) then second
    else first
  }

  lemma BestOfConcat(xs: seq<MatchCandidate>, ys: seq<MatchCandidate>, bestX: Option<MatchCandidate>, bestY: Option<MatchCandidate>)
    requires IsBestOf(xs, bestX) && IsBestOf(ys, bestY)
    ensures IsBestOf(xs + ys, Better(bestX, bestY))
  {
    var zs := xs + ys;
    BeatsIsStrictTotalOrder();
    if bestY.None? {
      assert zs == xs;
    } else if bestX.None? {
      assert zs == ys;
    } else {
      var v :| IsFirstBest(xs, v) && xs[v] == bestX.value;
      var w :| IsFirstBest(ys, w) && ys[w] == bestY.value;
      assert zs[v] == xs[v] && zs[|xs| + w] == ys[w];
      assert forall j :: 0 <= j < |zs| ==> zs[j] == if j < |xs| then xs[j] else ys[j - |xs|];
      if Beats(bestY.value.precedence, bestX.value.precedence) {
        assert IsFirstBest(zs, |xs| + w);
      } else {
        assert IsFirstBest(zs, v);
      }
    }
  }

  lemma {:induction false} RulesCandidatesStep(before: seq<MatchCandidate>, rules: seq<RouteRule>, j: nat, req: RequestMeta, regex: Regex)
    requires j < |rules|
    ensures before + RulesCandidates(rules[..j + 1], req, regex)
            == (before + RulesCandidates(rules[..j], req, regex)) + RuleCandidates(rules[j], req, regex)
  {
    assert rules[..j + 1][..j] == rules[..j];
  }

  lemma {:induction false} BestOfNextRule(
    before: seq<MatchCandidate>, rules: seq<RouteRule>, j: nat, req: RequestMeta, regex: Regex,
    best: Option<MatchCandidate>, found: Option<MatchCandidate>)
    requires j < |rules|
    requires IsBestOf(before + RulesCandidates(rules[..j], req, regex), best)
    requires IsBestOf(RuleCandidates(rules[j], req, regex), found)
    ensures IsBestOf(before + RulesCandidates(rules[..j + 1], req, regex), Better(best, found))
  {
    var soFar := before + RulesCandidates(rules[..j], req, regex);
    BestOfConcat(soFar, RuleCandidates(rules[j], req, regex), best, found);
    RulesCandidatesStep(before, rules, j, req, regex);
  }

  // The loops

  /** The best precedence among the rule's matches that pass; a rule without matches matches all. */
  method RuleMatches(rule: RouteRule, req: RequestMeta, regex: Regex) returns (best: Option<MatchPrecedence>)
    ensures IsBestOf(RuleCandidates(rule, req, regex),
                     if best.Some? then Some(MatchCandidate(rule, best.value)) else None)
  {
    if rule.matches == [] {
      assert IsFirstBest([MatchCandidate(rule, LOWEST_PRECEDENCE)], 0);
      return Some(LOWEST_PRECEDENCE);
    }
    best := None;
    for i := 0 to |rule.matches|
      invariant IsBestOf(MatchCandidates(rule, rule.matches[..i], req, regex),
                         if best.Some? then Some(MatchCandidate(rule, best.value)) else None)
    {
      ghost var before := MatchCandidates(rule, rule.matches[..i], req, regex);
      ghost var bestBefore := if best.Some? then Some(MatchCandidate(rule, best.value)) else None;
      assert rule.matches[..i + 1][..i] == rule.matches[..i];
      var applies := SingleMatchApplies(rule.matches[i], req, regex);
      if applies.Some? {
        ghost var c := MatchCandidate(rule, applies.value);
        assert IsFirstBest([c], 0);
        BestOfConcat(before, [c], bestBefore, Some(c));
        if best.None? || Beats(applies.value, best.value) {
          best := applies;
        }
      }
    }
    assert rule.matches[..|rule.matches|] == rule.matches;
  }

  method Route(config: ProxyConfig, listener: string, req: RequestMeta, regex: Regex) returns (decision: RoutingDecision)
    ensures IsRouting(config, listener, req, regex, decision)
  {
    var best: Option<MatchCandidate> := None;
    for i := 0 to |config.routes|
      invariant IsBestOf(Candidates(config.routes[..i], listener, req, regex), best)
    {
      var route := config.routes[i];
      ghost var before := Candidates(config.routes[..i], listener, req, regex);
      assert config.routes[..i + 1][..i] == config.routes[..i];
      if !(listener in route.attachedListeners) {
        assert before + [] == before;
        continue;
      }
      if !HostnameMatches(route.hostnames, req.host) {
        assert before + [] == before;
        continue;
      }
      assert before + RulesCandidates(route.rules[..0], req, regex) == before;
      for j := 0 to |route.rules|
        invariant IsBestOf(before + RulesCandidates(route.rules[..j], req, regex), best)
      {
        var rule := route.rules[j];
        var precedence := RuleMatches(rule, req, regex);
        BestOfNextRule(before, route.rules, j, req, regex, best,
                       if precedence.Some? then Some(MatchCandidate(rule, precedence.value)) else None);
        if precedence.Some? {
          var dominated := best.None? || Beats(precedence.value, best.value.precedence);
          if dominated {
            best := Some(MatchCandidate(rule, precedence.value));
          }
        }
      }
      assert route.rules[..|route.rules|] == route.rules;
    }
    assert config.routes[..|config.routes|] == config.routes;
    match best
    case Some(candidate) =>
      decision := BuildDecision(candidate.rule, req);
    case None =>
      decision := NotFound;
  }

  /** `decision` follows the first best candidate, or is `NotFound` when there is none. */
  ghost predicate IsRouting(config: ProxyConfig, listener: string, req: RequestMeta, regex: Regex, decision: RoutingDecision) {
    var candidates := Candidates(config.routes, listener, req, regex);
    if candidates == [] then decision == NotFound
    else exists w :: IsFirstBest(candidates, w) && decision == BuildDecision(candidates[w].rule, req)
  }

  lemma RoutingIsDeterministic(config: ProxyConfig, listener: string, req: RequestMeta, regex: Regex, d: RoutingDecision, e: RoutingDecision)
    requires IsRouting(config, listener, req, regex, d) && IsRouting(config, listener, req, regex, e)
    ensures d == e
  {
    var candidates := Candidates(config.routes, listener, req, regex);
    if candidates != [] {
      var v :| IsFirstBest(candidates, v) && d == BuildDecision(candidates[v].rule, req);
      var w :| IsFirstBest(candidates, w) && e == BuildDecision(candidates[w].rule, req);
      FirstBestIsUnique(candidates, v, w);
    }
  }

  // What the candidates are

  predicate RuleHasMatch(rule: RouteRule, req: RequestMeta, regex: Regex) {
    rule.matches == [] || exists m :: m in rule.matches && SingleMatchApplies(m, req, regex).Some?
  }

  /** Candidate `c` comes from a match that applies, in a rule of a route that applies. */
  ghost predicate IsCandidate(routes: seq<RouteConfig>, listener: string, req: RequestMeta, regex: Regex, c: MatchCandidate) {
    exists route :: route in routes && RouteApplies(route, listener, req) && c.rule in route.rules
                    && EarnsPrecedence(c.rule, req, regex, c.precedence)
  }

  ghost predicate EarnsPrecedence(rule: RouteRule, req: RequestMeta, regex: Regex, p: MatchPrecedence) {
    if rule.matches == [] then p == LOWEST_PRECEDENCE
    else exists m :: m in rule.matches && SingleMatchApplies(m, req, regex) == Some(p)
  }

  lemma {:induction false} MatchCandidatesAre(rule: RouteRule, matches: seq<RouteMatch>, req: RequestMeta, regex: Regex, c: MatchCandidate)
    ensures c in MatchCandidates(rule, matches, req, regex)
            <==> c.rule == rule && exists m :: m in matches && SingleMatchApplies(m, req, regex) == Some(c.precedence)
  {
    if matches == [] {
    } else {
      var n := |matches| - 1;
      assert matches == matches[..n] + [matches[n]];
      MatchCandidatesAre(rule, matches[..n], req, regex, c);
    }
  }

  lemma {:induction false} RulesCandidatesAre(rules: seq<RouteRule>, req: RequestMeta, regex: Regex, c: MatchCandidate)
    ensures c in RulesCandidates(rules, req, regex) <==> c.rule in rules && EarnsPrecedence(c.rule, req, regex, c.precedence)
  {
    if rules == [] {
    } else {
      var n := |rules| - 1;
      assert rules == rules[..n] + [rules[n]];
      RulesCandidatesAre(rules[..n], req, regex, c);
      MatchCandidatesAre(rules[n], rules[n].matches, req, regex, c);
    }
  }

  lemma {:induction false} CandidatesAre(routes: seq<RouteConfig>, listener: string, req: RequestMeta, regex: Regex, c: MatchCandidate)
    ensures c in Candidates(routes, listener, req, regex) <==> IsCandidate(routes, listener, req, regex, c)
  {
    if routes == [] {
    } else {
      var n := |routes| - 1;
      assert routes == routes[..n] + [routes[n]];
      CandidatesAre(routes[..n], listener, req, regex, c);
      RulesCandidatesAre(routes[n].rules, req, regex, c);
    }
  }

  /** A request is not found exactly when no attached, host-matching route has a matching rule. */
  lemma NotFoundIffNothingMatches(config: ProxyConfig, listener: string, req: RequestMeta, regex: Regex, decision: RoutingDecision)
    requires IsRouting(config, listener, req, regex, decision)
    ensures decision == NotFound
            <==> forall route, rule :: route in config.routes && RouteApplies(route, listener, req) && rule in route.rules
                                       ==> !RuleHasMatch(rule, req, regex)
  {
    var candidates := Candidates(config.routes, listener, req, regex);
    if candidates != [] {
      CandidatesAre(config.routes, listener, req, regex, candidates[0]);
      var c := candidates[0];
      var route :| route in config.routes && RouteApplies(route, listener, req) && c.rule in route.rules
                   && EarnsPrecedence(c.rule, req, regex, c.precedence);
      assert RuleHasMatch(c.rule, req, regex);
    }
    forall route, rule | route in config.routes && RouteApplies(route, listener, req) && rule in route.rules && RuleHasMatch(rule, req, regex)
      ensures candidates != []
    {
      MatchingRuleIsCandidate(config.routes, listener, req, regex, route, rule);
    }
  }

  lemma {:induction false} MatchingRuleIsCandidate(routes: seq<RouteConfig>, listener: string, req: RequestMeta, regex: Regex, route: RouteConfig, rule: RouteRule)
    requires route in routes && RouteApplies(route, listener, req) && rule in route.rules && RuleHasMatch(rule, req, regex)
    ensures exists p :: EarnsPrecedence(rule, req, regex, p) && MatchCandidate(rule, p) in Candidates(routes, listener, req, regex)
  {
    var p := LOWEST_PRECEDENCE;
    if rule.matches != [] {
      var m :| m in rule.matches && SingleMatchApplies(m, req, regex).Some?;
      p := SingleMatchApplies(m, req, regex).value;
    }
    assert EarnsPrecedence(rule, req, regex, p);
    var c := MatchCandidate(rule, p);
    assert IsCandidate(routes, listener, req, regex, c);
    CandidatesAre(routes, listener, req, regex, c);
  }

  // Decisions

  function Digits(n: nat): string {
    if n < 10 then [(48 + n) as char] else Digits(n / 10) + [(48 + n % 10) as char]
  }

  function DecimalValue(s: string): int {
    if s == [] then 0 else DecimalValue(s[..|s| - 1]) * 10 + (s[|s| - 1] as int - 48)
  }

  lemma {:induction false} DigitsRoundTrip(n: nat)
    ensures DecimalValue(Digits(n)) == n
  {
    if n >= 10 {
      DigitsRoundTrip(n / 10);
      assert Digits(n)[..|Digits(n)| - 1] == Digits(n / 10);
    }
  }

  function BuildRedirectLocation(
    scheme: Option<string>, hostname: Option<string>, port: Option<nat>, path: Option<PathModifier>, req: RequestMeta): string
  {
    var host := if hostname.Some? then hostname.value else req.host.GetOr("localhost");
    var target := if path.Some? then path.value.value else req.path;
    scheme.GetOr("http") + "://" + host + (if port.Some? then ":" + Digits(port.value) else "") + target
  }

  /** The first redirect filter decides; without one the request is forwarded. */
  function BuildDecision(rule: RouteRule, req: RequestMeta): (d: RoutingDecision)
    ensures d.Redirect? <==> exists f :: f in rule.filters && f.RequestRedirect?
    ensures d != NotFound
  {
    DecisionFrom(rule, rule.filters, req)
  }

  function DecisionFrom(rule: RouteRule, filters: seq<Filter>, req: RequestMeta): (d: RoutingDecision)
    ensures d.Redirect? <==> exists f :: f in filters && f.RequestRedirect?
    ensures d != NotFound
  {
    if filters == [] then Forward(rule.backends, rule.filters, rule.timeout)
    else if filters[0].RequestRedirect? then
      var f := filters[0];
      Redirect(f.statusCode.GetOr(302), BuildRedirectLocation(f.scheme, f.hostname, f.port, f.path, req))
    else DecisionFrom(rule, filters[1..], req)
  }

  /** Without a redirect filter the rule's backends, filters and timeout are forwarded; otherwise
      the first redirect filter gives the status, 302 by default, and the location. */
  lemma {:induction false} DecisionOfFirstRedirect(rule: RouteRule, filters: seq<Filter>, i: nat, req: RequestMeta)
    requires i <= |filters| && forall j :: 0 <= j < i ==> !filters[j].RequestRedirect?
    requires i < |filters| ==> filters[i].RequestRedirect?
    ensures i == |filters| ==> DecisionFrom(rule, filters, req) == Forward(rule.backends, rule.filters, rule.timeout)
    ensures i < |filters| ==>
              var f := filters[i];
              DecisionFrom(rule, filters, req)
              == Redirect(f.statusCode.GetOr(302), BuildRedirectLocation(f.scheme, f.hostname, f.port, f.path, req))
  {
    if i > 0 {
      DecisionOfFirstRedirect(rule, filters[1..], i - 1, req);
    }
  }
}
