/** Serving the requests of a connection, and what ends a worker: a panic of the rule that decides a
    request. */
module Serving {
  import opened Text
  import opened Config
  import opened Worker
  import Routing
  import Filters
  import HeaderFilters
  import WebSocket
  import Kube
  import Convert
  import Traffic
  import Words

  /** A request that reaches the router; `resolved` when a backend is picked for it and looked up. */
  datatype Asked = Asked(meta: Routing.RequestMeta, resolved: bool)

  /** A connection: the text of its first head, absent when it is not UTF-8, and the requests that its
      codec delivers. */
  datatype Connection = Connection(head: Option<string>, requests: seq<Asked>)

  /** A connection that is tunnelled instead: its filters are not collected, and it is not redirected. */
  ghost predicate IsTunnelled(c: Connection) {
    c.head.Some? && WebSocket.RawVerdict(c.head.value)
  }

  // Serving

  const MAX_SECONDS := 18446744073709551616.0

  /** A positive number of seconds too large for a duration; the source filters out the others. */
  predicate Overflows(seconds: Option<real>) {
    seconds.Some? && seconds.value >= MAX_SECONDS
  }

  /** Carrying out the decision panics: the location is no header value, or the filters cannot be
      collected, or a timeout is no duration. */
  ghost predicate DecisionPanics(d: Routing.RoutingDecision, resolved: bool) {
    match d
    case NotFound => false
    case Redirect(_, location) => !HeaderFilters.ValidValue(location)
    case Forward(_, filters, timeout) =>
      || (exists f :: f in filters && Filters.RewritesPrefix(f))
      || (timeout.Some? && (Overflows(timeout.value.request) || (resolved && Overflows(timeout.value.backendRequest))))
  }

  ghost predicate RequestPanics(pipeline: Pipeline, asked: Asked, regex: Routing.Regex) {
    exists d :: Routing.IsRouting(pipeline.config, pipeline.listenerName, asked.meta, regex, d) && DecisionPanics(d, asked.resolved)
  }

  ghost predicate ConnectionPanics(pipeline: Pipeline, c: Connection, regex: Routing.Regex) {
    !IsTunnelled(c) && exists asked :: asked in c.requests && RequestPanics(pipeline, asked, regex)
  }

  /** The response to a redirect; nothing where building it panics. */
  method RedirectResponse(location: string) returns (response: Option<string>)
    ensures response == if HeaderFilters.ValidValue(location) then Some(location) else None
  {
    if !HeaderFilters.ValidValue(location) {
      return None;
    }
    response := Some(location);
  }

  method CarryOut(decision: Routing.RoutingDecision, resolved: bool) returns (panicked: bool)
    ensures panicked <==> DecisionPanics(decision, resolved)
  {
    match decision
    case NotFound =>
      panicked := false;
    case Redirect(_, location) =>
      var response := RedirectResponse(location);
      panicked := response.None?;
    case Forward(_, filters, timeout) =>
      var applied := Filters.CollectFilters(filters);
      if applied.None? {
        return true;
      }
      var limits := timeout.GetOr(TimeoutConfig(None, None));
      if Overflows(limits.request) {
        return true;
      }
      panicked := resolved && Overflows(limits.backendRequest);
  }

  /** Tunnels a WebSocket; otherwise routes each request and carries the decision out, until that
      panics. */
  method ServeConnection(pipeline: Pipeline, c: Connection, regex: Routing.Regex) returns (panicked: bool)
    ensures panicked <==> ConnectionPanics(pipeline, c, regex)
  {
    var tunnelled := WebSocket.IsRawWebsocketUpgrade(c.head);
    if tunnelled {
      return false;
    }
    for i := 0 to |c.requests|
      invariant forall asked :: asked in c.requests[..i] ==> !RequestPanics(pipeline, asked, regex)
    {
      var asked := c.requests[i];
      assert c.requests[..i + 1] == c.requests[..i] + [asked];
      var decision := Routing.Route(pipeline.config, pipeline.listenerName, asked.meta, regex);
      PanicsIff(pipeline, asked, regex, decision);
      panicked := CarryOut(decision, asked.resolved);
      if panicked {
        return;
      }
    }
    panicked := false;
  }

  lemma PanicsIff(pipeline: Pipeline, asked: Asked, regex: Routing.Regex, decision: Routing.RoutingDecision)
    requires Routing.IsRouting(pipeline.config, pipeline.listenerName, asked.meta, regex, decision)
    ensures RequestPanics(pipeline, asked, regex) <==> DecisionPanics(decision, asked.resolved)
  {
    forall d | Routing.IsRouting(pipeline.config, pipeline.listenerName, asked.meta, regex, d)
      ensures d == decision
    {
      Routing.RoutingIsDeterministic(pipeline.config, pipeline.listenerName, asked.meta, regex, d, decision);
    }
  }

  // Which source rules panic

  predicate IsFirstRedirect(filters: seq<Kube.SourceFilter>, i: int) {
    0 <= i < |filters| && Traffic.Redirects(filters[i]) && forall j :: 0 <= j < i ==> !Traffic.Redirects(filters[j])
  }

  /** The first redirect leads to a host or a path that no header can carry. */
  ghost predicate RedirectPanics(rule: Kube.SourceRule, req: Routing.RequestMeta) {
    var filters := rule.filters.GetOr([]);
    exists i :: IsFirstRedirect(filters, i)
                && (var r := filters[i].redirect.value;
                    !HeaderFilters.ValidValue(Traffic.RedirectHost(r, req))
                    || !HeaderFilters.ValidValue(Traffic.RedirectTarget(r.path, req.path)))
  }

  predicate DurationOverflows(duration: Option<string>, parse: Convert.DurationParser) {
    duration.Some? && parse(duration.value).Some? && parse(duration.value).value >= 18446744073709551616.0
  }

  /** There is no redirect, but a rewrite of the matched prefix, or a timeout that is no duration. */
  ghost predicate ForwardPanics(rule: Kube.SourceRule, parse: Convert.DurationParser, resolved: bool) {
    var filters := rule.filters.GetOr([]);
    && (forall f :: f in filters ==> !Traffic.Redirects(f))
    && (|| (exists f :: f in filters && Traffic.ReplacesPrefix(f))
        || (rule.timeouts.Some?
            && (DurationOverflows(rule.timeouts.value.request, parse)
                || (resolved && DurationOverflows(rule.timeouts.value.backendRequest, parse)))))
  }

  ghost predicate RulePanics(rule: Kube.SourceRule, parse: Convert.DurationParser, asked: Asked) {
    RedirectPanics(rule, asked.meta) || ForwardPanics(rule, parse, asked.resolved)
  }

  lemma ValidConcat(a: string, b: string)
    ensures HeaderFilters.ValidValue(a + b) <==> HeaderFilters.ValidValue(a) && HeaderFilters.ValidValue(b)
  {
    var s := a + b;
    assert forall i :: 0 <= i < |a| ==> s[i] == a[i];
    assert forall i :: 0 <= i < |b| ==> s[|a| + i] == b[i];
  }

  lemma {:induction false} ValidDigits(n: nat)
    ensures HeaderFilters.ValidValue(":" + Routing.Digits(n))
  {
    Filters.DigitsAreDecimal(n);
    forall i | 0 <= i < |Routing.Digits(n)|
      ensures '0' <= Routing.Digits(n)[i] <= '9'
    {
      assert Routing.Digits(n)[i] in Routing.Digits(n);
    }
  }

  lemma LocationIsValidIff(r: Kube.SourceRedirect, req: Routing.RequestMeta)
    ensures HeaderFilters.ValidValue(Traffic.SourceLocation(r, req))
            <==> HeaderFilters.ValidValue(Traffic.RedirectHost(r, req)) && HeaderFilters.ValidValue(Traffic.RedirectTarget(r.path, req.path))
  {
    var scheme := (if r.scheme == Some(Https) then "https" else "http") + "://";
    var port := if r.port.Some? then ":" + Routing.Digits(Words.AsU16(r.port.value)) else "";
    var host, path := Traffic.RedirectHost(r, req), Traffic.RedirectTarget(r.path, req.path);
    if r.port.Some? {
      ValidDigits(Words.AsU16(r.port.value));
    }
    assert HeaderFilters.ValidValue(scheme);
    ValidConcat(scheme, host);
    ValidConcat(scheme + host, port);
    ValidConcat(scheme + host + port, path);
  }

  lemma ForwardsRule(rule: RouteRule, req: Routing.RequestMeta)
    ensures var d := Routing.BuildDecision(rule, req);
            d.Forward? ==> d.filters == rule.filters && d.timeout == rule.timeout
    ensures Routing.BuildDecision(rule, req).Forward? <==> forall f :: f in rule.filters ==> !f.RequestRedirect?
  {
    if forall f :: f in rule.filters ==> !f.RequestRedirect? {
      Routing.DecisionOfFirstRedirect(rule, rule.filters, |rule.filters|, req);
    }
  }

  lemma {:induction false} FirstRedirectExists(filters: seq<Kube.SourceFilter>) returns (i: nat)
    ensures i <= |filters| && forall j :: 0 <= j < i ==> !Traffic.Redirects(filters[j])
    ensures i < |filters| ==> IsFirstRedirect(filters, i)
  {
    if filters == [] {
      i := 0;
    } else {
      var n := |filters| - 1;
      i := FirstRedirectExists(filters[..n]);
      if i == n && !Traffic.Redirects(filters[n]) {
        i := n + 1;
      }
    }
  }

  lemma DecisionPanicsIff(route: Kube.HTTPRoute, rule: Kube.SourceRule, parse: Convert.DurationParser, asked: Asked)
    ensures DecisionPanics(Routing.BuildDecision(Convert.TargetRule(route, rule, parse), asked.meta), asked.resolved)
            <==> RulePanics(rule, parse, asked)
  {
    var filters := rule.filters.GetOr([]);
    var i := FirstRedirectExists(filters);
    if i < |filters| {
      RedirectDecisionPanicsIff(route, rule, parse, asked, i);
    } else {
      ForwardsRule(Convert.TargetRule(route, rule, parse), asked.meta);
      Traffic.ConvertedRedirectIff(filters);
      Traffic.ConvertedRewritePanicsIff(filters);
    }
  }

  lemma RedirectDecisionPanicsIff(route: Kube.HTTPRoute, rule: Kube.SourceRule, parse: Convert.DurationParser, asked: Asked, i: nat)
    requires IsFirstRedirect(rule.filters.GetOr([]), i)
    ensures DecisionPanics(Routing.BuildDecision(Convert.TargetRule(route, rule, parse), asked.meta), asked.resolved)
            <==> RedirectPanics(rule, asked.meta)
    ensures !ForwardPanics(rule, parse, asked.resolved)
  {
    var filters := rule.filters.GetOr([]);
    Traffic.ConvertedRedirectMeans(rule, route.meta.namespace.GetOr(""), parse, i, asked.meta);
    LocationIsValidIff(filters[i].redirect.value, asked.meta);
    assert filters[i] in filters;
    forall k | IsFirstRedirect(filters, k)
      ensures k == i
    {
    }
  }

  lemma RoutingExists(config: ProxyConfig, listener: string, req: Routing.RequestMeta, regex: Routing.Regex)
    returns (decision: Routing.RoutingDecision)
    ensures Routing.IsRouting(config, listener, req, regex, decision)
  {
    var candidates := Routing.Candidates(config.routes, listener, req, regex);
    if candidates == [] {
      decision := Routing.NotFound;
    } else {
      var best := Convert.BestExists(candidates);
      var w :| Routing.IsFirstBest(candidates, w) && candidates[w] == best.value;
      decision := Routing.BuildDecision(candidates[w].rule, req);
    }
  }

  /** The source rule that decides the request panics. */
  ghost predicate DecidesAndPanics(
    routes: seq<Kube.HTTPRoute>, parse: Convert.DurationParser, asked: Asked, regex: Routing.Regex, i: nat, j: nat)
  {
    && (exists p :: Convert.SourceDecides(routes, asked.meta, regex, i, j, p))
    && RulePanics(routes[i].rules.GetOr([])[j], parse, asked)
  }

  /** On converted routes a request panics exactly when the source rule that decides it does. */
  lemma RequestPanicsIff(
    pipeline: Pipeline, routes: seq<Kube.HTTPRoute>, listeners: seq<string>, parse: Convert.DurationParser,
    asked: Asked, regex: Routing.Regex)
    requires pipeline.config.routes == Mapped(routes, Convert.ConvertedRoute(listeners, parse)) && pipeline.listenerName in listeners
    ensures RequestPanics(pipeline, asked, regex) <==> exists i: nat, j: nat :: DecidesAndPanics(routes, parse, asked, regex, i, j)
  {
    var decision := RoutingExists(pipeline.config, pipeline.listenerName, asked.meta, regex);
    PanicsIff(pipeline, asked, regex, decision);
    if decision == Routing.NotFound {
      Convert.NotFoundIffNoSourceHolds(
        pipeline.config, routes, listeners, parse, pipeline.listenerName, asked.meta, regex, decision);
      NothingDecides(routes, parse, asked, regex);
    } else {
      var i, j, p := Convert.RoutingFollowsSourceMeaning(
        pipeline.config, routes, listeners, parse, pipeline.listenerName, asked.meta, regex, decision);
      DecisionPanicsIff(routes[i], routes[i].rules.GetOr([])[j], parse, asked);
      OnlyOneDecides(routes, parse, asked, regex, i, j, p);
    }
  }

  lemma NothingDecides(routes: seq<Kube.HTTPRoute>, parse: Convert.DurationParser, asked: Asked, regex: Routing.Regex)
    requires Convert.NoSourceHolds(routes, asked.meta, regex)
    ensures forall i: nat, j: nat :: !DecidesAndPanics(routes, parse, asked, regex, i, j)
  {
    forall i: nat, j: nat, p
      ensures !Convert.SourceContends(routes, asked.meta, regex, i, j, p)
    {
    }
  }

  lemma OnlyOneDecides(
    routes: seq<Kube.HTTPRoute>, parse: Convert.DurationParser, asked: Asked, regex: Routing.Regex,
    i: nat, j: nat, p: Routing.MatchPrecedence)
    requires Convert.SourceDecides(routes, asked.meta, regex, i, j, p)
    ensures (exists k: nat, m: nat :: DecidesAndPanics(routes, parse, asked, regex, k, m))
            <==> RulePanics(routes[i].rules.GetOr([])[j], parse, asked)
  {
    if RulePanics(routes[i].rules.GetOr([])[j], parse, asked) {
      assert DecidesAndPanics(routes, parse, asked, regex, i, j);
    }
    forall k: nat, m: nat | DecidesAndPanics(routes, parse, asked, regex, k, m)
      ensures k == i && m == j
    {
      var q :| Convert.SourceDecides(routes, asked.meta, regex, k, m, q);
      Convert.SourceDecidesOnce(routes, asked.meta, regex, i, j, p, k, m, q);
    }
  }

  // What ends a worker

  /** The run's panics are those of the connections that come in. */
  ghost predicate IsFaithful(run: Run, came: (nat, nat) -> Connection, regex: Routing.Regex) {
    forall t: nat, i: nat :: t < |run.ticks| && i < |RoundAt(run, t).pipelines| ==>
      (ArrivalAt(run.ticks[t].arrivals, i).panics <==> ConnectionPanics(RoundAt(run, t).pipelines[i], came(t, i), regex))
  }

  /** The connection was passed to a pipeline and was not tunnelled, and a request of it panics there. */
  ghost predicate MeetsPanic(e: Event, c: Connection, asked: Asked, regex: Routing.Regex) {
    && (e.fate.ServedBy? || e.fate.PanickedIn?) && !IsTunnelled(c)
    && asked in c.requests && RequestPanics(e.fate.pipeline, asked, regex)
  }

  /** A worker's thread ends by a panic exactly when some connection it served, no WebSocket, delivered a
      request that panics. */
  lemma PanicEndsWorkerIff(run: Run, last: nat, exit: Exit, came: (nat, nat) -> Connection, regex: Routing.Regex)
    requires Ends(run, last, exit) && IsFaithful(run, came, regex)
    ensures exit == Panicked
            <==> exists e, asked :: e in LogOf(run, last, exit) && MeetsPanic(e, came(e.tick, e.index), asked, regex)
  {
    PanicIsLogged(run, last, exit);
    forall e | e in LogOf(run, last, exit)
      ensures e.fate.PanickedIn? <==> exists asked :: MeetsPanic(e, came(e.tick, e.index), asked, regex)
    {
      LoggedPanicIff(run, if exit == Panicked then last + 1 else last, e, came, regex);
    }
  }

  lemma {:induction false} LoggedPanicIff(run: Run, n: nat, e: Event, came: (nat, nat) -> Connection, regex: Routing.Regex)
    requires n <= |run.ticks| && e in RunEvents(run, n) && IsFaithful(run, came, regex)
    ensures e.fate.PanickedIn? <==> exists asked :: MeetsPanic(e, came(e.tick, e.index), asked, regex)
  {
    var r := EventOfRun(run, n, e);
    ConnectionMeetsPanic(e, came(e.tick, e.index), regex);
    FatePanicsIff(r, e);
  }

  lemma ConnectionMeetsPanic(e: Event, c: Connection, regex: Routing.Regex)
    ensures (exists asked :: MeetsPanic(e, c, asked, regex))
            <==> (e.fate.ServedBy? || e.fate.PanickedIn?) && ConnectionPanics(e.fate.pipeline, c, regex)
  {
    if (e.fate.ServedBy? || e.fate.PanickedIn?) && ConnectionPanics(e.fate.pipeline, c, regex) {
      var asked :| asked in c.requests && RequestPanics(e.fate.pipeline, asked, regex);
      assert MeetsPanic(e, c, asked, regex);
    }
  }

  lemma FatePanicsIff(r: Round, e: Event)
    requires IsEventOf(r, e)
    ensures e.fate.ServedBy? || e.fate.PanickedIn? ==>
              && e.index < |r.pipelines| && e.fate.pipeline == r.pipelines[e.index]
              && (e.fate.PanickedIn? <==> ArrivalAt(r.arrivals, e.index).panics)
  {
  }
}
