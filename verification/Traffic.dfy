/** What a source rule means for traffic once converted: its backends, filters and redirects. */
module Traffic {
  import opened Text
  import opened Config
  import opened Kube
  import opened Validate
  import opened Convert
  import Backends
  import Filters
  import Routing
  import Words

  // From a source rule to the traffic of its backends

  function SourceWeight(refs: seq<BackendRef>): int {
    if refs == [] then 0 else SourceWeight(refs[..|refs| - 1]) + refs[|refs| - 1].weight.GetOr(1)
  }

  lemma {:induction false} ConvertedWeight(refs: seq<BackendRef>, routeNs: string)
    requires forall b :: b in refs ==> 0 <= b.weight.GetOr(1) < Words.U32
    ensures Backends.WeightSum(Mapped(refs, ConvertBackend(routeNs))) == SourceWeight(refs)
  {
    if refs == [] {
    } else {
      var n := |refs| - 1;
      ConvertedWeight(refs[..n], routeNs);
      assert Mapped(refs, ConvertBackend(routeNs))[..n] == Mapped(refs[..n], ConvertBackend(routeNs));
      assert refs[n] in refs;
    }
  }

  /** The backends of a converted rule are drawn exactly in proportion to the weights written in
      the HTTPRoute, 1 where absent, if and only if those sum to less than 2^32. */
  lemma {:induction false} TrafficFollowsSourceWeights(refs: seq<BackendRef>, routeNs: string)
    requires forall b :: b in refs ==> 0 <= b.weight.GetOr(1) < Words.U32
    ensures var backends := Mapped(refs, ConvertBackend(routeNs));
            (forall i :: 0 <= i < |refs| ==> |Backends.Picks(backends, i)| == refs[i].weight.GetOr(1))
            <==> SourceWeight(refs) < 0x1_0000_0000
  {
    ConvertedWeight(refs, routeNs);
    ConvertedWeightsAre(refs, routeNs);
    ProportionalToSource(Mapped(refs, ConvertBackend(routeNs)), refs);
  }

  /** Within the bounds that the HTTPRoute's schema sets, at most 16 backends of weight at most a
      million each, the weights never overflow. */
  lemma ValidatedWeightsFit(refs: seq<BackendRef>, routeNs: string)
    requires |refs| <= 16 && forall b :: b in refs ==> 0 <= b.weight.GetOr(1) <= 1_000_000
    ensures forall i :: 0 <= i < |refs| ==>
              |Backends.Picks(Mapped(refs, ConvertBackend(routeNs)), i)| == refs[i].weight.GetOr(1)
  {
    BoundedWeight(refs, 1_000_000);
    TrafficFollowsSourceWeights(refs, routeNs);
  }

  lemma {:induction false} BoundedWeight(refs: seq<BackendRef>, bound: nat)
    requires forall b :: b in refs ==> b.weight.GetOr(1) <= bound
    ensures SourceWeight(refs) <= |refs| * bound
  {
    if refs == [] {
    } else {
      var n := |refs| - 1;
      BoundedWeight(refs[..n], bound);
      assert refs[n] in refs;
    }
  }

  /** A converted reference to a Service passes validation exactly when the backend it became names an
      existing Service, in the route's namespace or permitted by a grant. */
  lemma ConvertedBackendIsValidIff(s: WorldSnapshot, routeNs: string, ref: BackendRef)
    requires ref.group.GetOr("") == "" && ref.kind.GetOr("Service") == "Service"
    ensures var b := ConvertBackend(routeNs)(ref);
            ValidateBackend(s, routeNs, ref).None?
            <==> (b.namespace, b.name) in s.services && (b.namespace == routeNs || IsServiceReferenceAllowed(s, routeNs, b.namespace))
  {
  }

  lemma AcceptedBackendIsValid(s: WorldSnapshot, route: HTTPRoute, ref: ParentRef, routeNs: string, b: BackendRef)
    requires ParentVerdict(s, route, ref, routeNs).accepted && RouteUsesBackend(route.rules.GetOr([]), b)
    ensures BackendValid(s, routeNs, b)
  {
    AcceptedIff(s, route, ref, routeNs);
  }

  /** For every rule of a route that some parent accepts, the converted rule has one backend for each
      reference: it names an existing Service that the route's namespace may use, on the port of the
      reference, 80 where absent, and is spoken to in HTTP/1.  Which address it is sent to is another matter. */
  lemma AcceptedBackendsExist(
    s: WorldSnapshot, route: HTTPRoute, ref: ParentRef, routeNs: string, rule: SourceRule, parse: DurationParser, i: nat)
    requires ParentVerdict(s, route, ref, routeNs).accepted && rule in route.rules.GetOr([])
    requires i < |rule.backendRefs.GetOr([])|
    ensures var backends := ConvertedRule(routeNs, parse)(rule).backends;
            var port := rule.backendRefs.GetOr([])[i].port;
            && |backends| == |rule.backendRefs.GetOr([])|
            && (backends[i].namespace, backends[i].name) in s.services
            && (backends[i].namespace == routeNs || IsServiceReferenceAllowed(s, routeNs, backends[i].namespace))
            && (0 <= port.GetOr(80) <= 65535 ==> backends[i].port == port.GetOr(80)) && backends[i].protocol == Http1
  {
    AcceptedBackendIsValid(s, route, ref, routeNs, rule.backendRefs.GetOr([])[i]);
    ConvertedBackendIsValidIff(s, routeNs, rule.backendRefs.GetOr([])[i]);
  }

  lemma ConvertedWeightsAre(refs: seq<BackendRef>, routeNs: string)
    requires forall b :: b in refs ==> 0 <= b.weight.GetOr(1) < Words.U32
    ensures forall i :: 0 <= i < |refs| ==> Mapped(refs, ConvertBackend(routeNs))[i].weight == refs[i].weight.GetOr(1)
  {
    forall i | 0 <= i < |refs|
      ensures ConvertBackend(routeNs)(refs[i]).weight == refs[i].weight.GetOr(1)
    {
      assert refs[i] in refs;
    }
  }

  lemma {:induction false} ProportionalToSource(backends: seq<Backend>, refs: seq<BackendRef>)
    requires |backends| == |refs| && forall i :: 0 <= i < |refs| ==> backends[i].weight == refs[i].weight.GetOr(1)
    ensures (forall i :: 0 <= i < |refs| ==> |Backends.Picks(backends, i)| == refs[i].weight.GetOr(1))
            <==> Backends.WeightSum(backends) < Words.U32
  {
    Backends.ProportionalIff(backends);
  }

  // From source filters to the modifications collected for a request

  ghost predicate Carries<T>(f: SourceFilter, g: Filter -> seq<T>, h: SourceFilter -> seq<T>) {
    h(f) == if ConvertFilter(f).Some? then g(ConvertFilter(f).value) else []
  }

  lemma {:induction false} ConvertedFiltersFlatten<T>(filters: seq<SourceFilter>, g: Filter -> seq<T>, h: SourceFilter -> seq<T>)
    requires forall f :: f in filters ==> Carries(f, g, h)
    ensures FlatMap(ConvertedFilters(filters), g) == FlatMap(filters, h)
  {
    if filters == [] {
    } else {
      var n := |filters| - 1;
      ConvertedFiltersFlatten(filters[..n], g, h);
      assert Carries(filters[n], g, h);
      var before, converted := ConvertedFilters(filters[..n]), ConvertFilter(filters[n]);
      if converted.Some? {
        assert (before + [converted.value])[..|before|] == before;
      }
    }
  }

  function Modifier(f: SourceFilter, ofRequest: bool): SourceHeaderModifier {
    if f.RequestHeaders? && ofRequest && f.modifier.Some? then f.modifier.value
    else if f.ResponseHeaders? && !ofRequest && f.modifier.Some? then f.modifier.value
    else SourceHeaderModifier(None, None, None)
  }

  function SourceAdds(ofRequest: bool): SourceFilter -> seq<HeaderValue> {
    (f: SourceFilter) => Modifier(f, ofRequest).toAdd.GetOr([])
  }

  function SourceSets(ofRequest: bool): SourceFilter -> seq<HeaderValue> {
    (f: SourceFilter) => Modifier(f, ofRequest).toSet.GetOr([])
  }

  function SourceRemoves(ofRequest: bool): SourceFilter -> seq<string> {
    (f: SourceFilter) => Modifier(f, ofRequest).toRemove.GetOr([])
  }

  lemma CarriesAdds(f: SourceFilter)
    ensures Carries(f, Filters.RequestAdds, SourceAdds(true)) && Carries(f, Filters.ResponseAdds, SourceAdds(false))
  {
  }

  lemma CarriesSets(f: SourceFilter)
    ensures Carries(f, Filters.RequestSets, SourceSets(true)) && Carries(f, Filters.ResponseSets, SourceSets(false))
  {
  }

  lemma CarriesRemoves(f: SourceFilter)
    ensures Carries(f, Filters.RequestRemoves, SourceRemoves(true)) && Carries(f, Filters.ResponseRemoves, SourceRemoves(false))
  {
  }

  // What is collected from the converted filters is what the HTTPRoute lists, in its order

  /** The headers to add, to the request and to the response. */
  lemma {:induction false} CollectedAddsAreTheSources(filters: seq<SourceFilter>)
    ensures FlatMap(ConvertedFilters(filters), Filters.RequestAdds) == FlatMap(filters, SourceAdds(true))
    ensures FlatMap(ConvertedFilters(filters), Filters.ResponseAdds) == FlatMap(filters, SourceAdds(false))
  {
    forall f { CarriesAdds(f); }
    ConvertedFiltersFlatten(filters, Filters.RequestAdds, SourceAdds(true));
    ConvertedFiltersFlatten(filters, Filters.ResponseAdds, SourceAdds(false));
  }

  /** The headers to set. */
  lemma {:induction false} CollectedSetsAreTheSources(filters: seq<SourceFilter>)
    ensures FlatMap(ConvertedFilters(filters), Filters.RequestSets) == FlatMap(filters, SourceSets(true))
    ensures FlatMap(ConvertedFilters(filters), Filters.ResponseSets) == FlatMap(filters, SourceSets(false))
  {
    forall f { CarriesSets(f); }
    ConvertedFiltersFlatten(filters, Filters.RequestSets, SourceSets(true));
    ConvertedFiltersFlatten(filters, Filters.ResponseSets, SourceSets(false));
  }

  /** The names to remove. */
  lemma {:induction false} CollectedRemovesAreTheSources(filters: seq<SourceFilter>)
    ensures FlatMap(ConvertedFilters(filters), Filters.RequestRemoves) == FlatMap(filters, SourceRemoves(true))
    ensures FlatMap(ConvertedFilters(filters), Filters.ResponseRemoves) == FlatMap(filters, SourceRemoves(false))
  {
    forall f { CarriesRemoves(f); }
    ConvertedFiltersFlatten(filters, Filters.RequestRemoves, SourceRemoves(true));
    ConvertedFiltersFlatten(filters, Filters.ResponseRemoves, SourceRemoves(false));
  }

  /** The mirrors: each to its backend, all of the traffic; a backend without namespace has none, and without
      port is on 80. */
  function SourceMirrors(f: SourceFilter): seq<Filters.MirrorTarget> {
    if f.Mirroring? && f.mirror.Some? then
      var b := f.mirror.value;
      [ Filters.MirrorTarget(
          Backend(if b.namespace.Some? then b.namespace.value else "", b.name,
                  Words.AsU16(if b.port.Some? then b.port.value else 80), 1, Http1),
          100) ]
    else []
  }

  lemma CarriesMirrors(f: SourceFilter)
    ensures Carries(f, Filters.Mirrors, SourceMirrors)
  {
  }

  lemma {:induction false} CollectedMirrorsAreTheSources(filters: seq<SourceFilter>)
    ensures FlatMap(ConvertedFilters(filters), Filters.Mirrors) == FlatMap(filters, SourceMirrors)
  {
    forall f { CarriesMirrors(f); }
    ConvertedFiltersFlatten(filters, Filters.Mirrors, SourceMirrors);
  }

  predicate Rewrites(f: SourceFilter) {
    f.Rewriting? && f.rewrite.Some?
  }

  /** The last rewrite listed is the one collected, with its host name and its path. */
  lemma {:induction false} CollectedRewriteIsTheLast(filters: seq<SourceFilter>, i: nat)
    requires i < |filters| && Rewrites(filters[i]) && forall j :: i < j < |filters| ==> !Rewrites(filters[j])
    ensures var r := filters[i].rewrite.value;
            Filters.LastRewrite(ConvertedFilters(filters))
            == Some(Filters.RewriteResult(r.hostname, if r.path == None then None else Some(RedirectTarget(r.path, ""))))
  {
    var n := |filters| - 1;
    var before, converted := ConvertedFilters(filters[..n]), ConvertFilter(filters[n]);
    assert converted.Some? ==> (before + [converted.value])[..|before|] == before;
    if i < n {
      CollectedRewriteIsTheLast(filters[..n], i);
    }
  }

  /** Without a rewrite none is collected. */
  lemma {:induction false} NoRewriteIsCollected(filters: seq<SourceFilter>)
    requires forall f :: f in filters ==> !Rewrites(f)
    ensures Filters.LastRewrite(ConvertedFilters(filters)) == None
  {
    if filters == [] {
    } else {
      var n := |filters| - 1;
      var before, converted := ConvertedFilters(filters[..n]), ConvertFilter(filters[n]);
      assert converted.Some? ==> (before + [converted.value])[..|before|] == before;
      assert filters[n] in filters;
      NoRewriteIsCollected(filters[..n]);
    }
  }

  // From a source redirect to a location

  predicate Redirects(f: SourceFilter) {
    f.Redirecting? && f.redirect.Some?
  }

  lemma {:induction false} ConvertedFirstRedirect(filters: seq<SourceFilter>, i: nat) returns (k: nat)
    requires i <= |filters| && forall j :: 0 <= j < i ==> !Redirects(filters[j])
    requires i < |filters| ==> Redirects(filters[i])
    ensures var converted := ConvertedFilters(filters);
            && k <= |converted| && (i < |filters| <==> k < |converted|)
            && (forall j :: 0 <= j < k ==> !converted[j].RequestRedirect?)
            && (i < |filters| ==> Some(converted[k]) == ConvertFilter(filters[i]))
  {
    var n := |filters| - 1;
    if filters == [] {
      k := 0;
    } else if i < n {
      k := ConvertedFirstRedirect(filters[..n], i);
    } else if i == n {
      k := ConvertedFirstRedirect(filters[..n], n);
    } else {
      k := ConvertedFirstRedirect(filters[..n], n);
      if ConvertFilter(filters[n]).Some? {
        k := k + 1;
      }
    }
  }

  /** A converted rule redirects exactly when its source lists a redirect. */
  lemma ConvertedRedirectsIff(rule: SourceRule, routeNs: string, parse: DurationParser, req: Routing.RequestMeta)
    ensures Routing.BuildDecision(ConvertedRule(routeNs, parse)(rule), req).Redirect?
            <==> exists f :: f in rule.filters.GetOr([]) && Redirects(f)
  {
    ConvertedRedirectIff(rule.filters.GetOr([]));
  }

  lemma {:induction false} ConvertedRedirectIff(filters: seq<SourceFilter>)
    ensures (exists f :: f in ConvertedFilters(filters) && f.RequestRedirect?) <==> exists f :: f in filters && Redirects(f)
  {
    if filters == [] {
    } else {
      var n := |filters| - 1;
      assert filters == filters[..n] + [filters[n]];
      ConvertedRedirectIff(filters[..n]);
      var converted := ConvertFilter(filters[n]);
      assert converted.Some? && converted.value.RequestRedirect? <==> Redirects(filters[n]);
    }
  }

  function RedirectTarget(path: Option<SourcePathModifier>, requestPath: string): string {
    match path
    case None => requestPath
    case Some(SourcePathModifier(FullPath, full, _)) => full.GetOr("")
    case Some(SourcePathModifier(PrefixMatch, _, prefix)) => prefix.GetOr("")
  }

  /** Where a redirect leads: its own scheme, hostname, port and path, or else "http", the
      request's host, no port and the request's path. */
  function SourceLocation(r: SourceRedirect, req: Routing.RequestMeta): string {
    (if r.scheme == Some(Https) then "https" else "http") + "://" + RedirectHost(r, req)
    + (if r.port.Some? then ":" + Routing.Digits(Words.AsU16(r.port.value)) else "") + RedirectTarget(r.path, req.path)
  }

  function RedirectHost(r: SourceRedirect, req: Routing.RequestMeta): string {
    r.hostname.GetOr(req.host.GetOr("localhost"))
  }

  function RedirectStatus(r: SourceRedirect): nat {
    if r.statusCode.Some? then Words.AsU16(r.statusCode.value) else 302
  }

  lemma ConvertedLocation(r: SourceRedirect, req: Routing.RequestMeta)
    ensures var f := ConvertFilter(Redirecting(Some(r)));
            && f.Some? && f.value.RequestRedirect? && f.value.statusCode.GetOr(302) == RedirectStatus(r)
            && Routing.BuildRedirectLocation(f.value.scheme, f.value.hostname, f.value.port, f.value.path, req) == SourceLocation(r, req)
  {
  }

  /** The first redirect an HTTPRoute rule lists decides the status, 302 where absent, and the
      location; the port and the status are cut to 16 bits. */
  lemma ConvertedRedirectMeans(rule: SourceRule, routeNs: string, parse: DurationParser, i: nat, req: Routing.RequestMeta)
    requires var filters := rule.filters.GetOr([]);
             i < |filters| && Redirects(filters[i]) && forall j :: 0 <= j < i ==> !Redirects(filters[j])
    ensures var r := rule.filters.GetOr([])[i].redirect.value;
            Routing.BuildDecision(ConvertedRule(routeNs, parse)(rule), req)
            == Routing.Redirect(RedirectStatus(r), SourceLocation(r, req))
  {
    var target, filters := ConvertedRule(routeNs, parse)(rule), rule.filters.GetOr([]);
    var k := ConvertedFirstRedirect(filters, i);
    Routing.DecisionOfFirstRedirect(target, target.filters, k, req);
    ConvertedLocation(filters[i].redirect.value, req);
  }

  // From a source filter to a panic

  predicate ReplacesPrefix(f: SourceFilter) {
    f.Rewriting? && f.rewrite.Some? && f.rewrite.value.path.Some? && f.rewrite.value.path.value.kind.PrefixMatch?
  }

  /** Collecting the converted filters panics exactly for the source rules that ask for a rewrite
      of the matched prefix. */
  lemma {:induction false} ConvertedRewritePanicsIff(filters: seq<SourceFilter>)
    ensures (exists f :: f in ConvertedFilters(filters) && Filters.RewritesPrefix(f)) <==> exists f :: f in filters && ReplacesPrefix(f)
  {
    if filters == [] {
    } else {
      var n := |filters| - 1;
      assert filters == filters[..n] + [filters[n]];
      ConvertedRewritePanicsIff(filters[..n]);
      var converted := ConvertFilter(filters[n]);
      assert converted.Some? && Filters.RewritesPrefix(converted.value) <==> ReplacesPrefix(filters[n]);
    }
  }
}
