/** Filters as data: collecting a rule's filters, rewriting paths, building redirects. */
module Filters {
  import opened Text
  import opened Config
  import opened Routing
  import opened Paths

  datatype RewriteResult = RewriteResult(hostname: Option<string>, path: Option<string>)

  datatype MirrorTarget = MirrorTarget(backend: Backend, percent: nat)

  datatype AppliedFilter = AppliedFilter(
    requestAdd: seq<HeaderValue>,
    requestSet: seq<HeaderValue>,
    requestRemove: seq<string>,
    responseAdd: seq<HeaderValue>,
    responseSet: seq<HeaderValue>,
    responseRemove: seq<string>,
    rewrite: Option<RewriteResult>,
    mirrors: seq<MirrorTarget>,
    timeout: Option<TimeoutConfig>)

  const NO_FILTER := AppliedFilter([], [], [], [], [], [], None, [], None)

  /** The rewrite of a `URLRewrite` filter; `None` where slicing the path panics. */
  function ComputeRewrite(filter: Filter, path: string, matchedPrefix: Option<string>): Option<RewriteResult>
    requires filter.URLRewrite?
  {
    match filter.path
    case None => Some(RewriteResult(filter.hostname, None))
    case Some(ReplaceFullPath(value)) => Some(RewriteResult(filter.hostname, Some(value)))
    case Some(ReplacePrefixMatch(value)) =>
      match ReplacePrefix(path, matchedPrefix.GetOr("/"), value)
      case Some(rewritten) => Some(RewriteResult(filter.hostname, Some(rewritten)))
      case None => None
  }

  // Collecting

  function RequestAdds(f: Filter): seq<HeaderValue> { if f.RequestHeaderModifier? then f.toAdd else [] }

  function RequestSets(f: Filter): seq<HeaderValue> { if f.RequestHeaderModifier? then f.toSet else [] }

  function RequestRemoves(f: Filter): seq<string> { if f.RequestHeaderModifier? then f.toRemove else [] }

  function ResponseAdds(f: Filter): seq<HeaderValue> { if f.ResponseHeaderModifier? then f.toAdd else [] }

  function ResponseSets(f: Filter): seq<HeaderValue> { if f.ResponseHeaderModifier? then f.toSet else [] }

  function ResponseRemoves(f: Filter): seq<string> { if f.ResponseHeaderModifier? then f.toRemove else [] }

  function Mirrors(f: Filter): seq<MirrorTarget> {
    if f.RequestMirror? then [MirrorTarget(f.backend, f.percent.GetOr(100))] else []
  }

  predicate RewritesPrefix(f: Filter) {
    f.URLRewrite? && f.path.Some? && f.path.value.ReplacePrefixMatch?
  }

  /** The last `URLRewrite` wins; its path, if any, replaces the whole path. */
  function LastRewrite(filters: seq<Filter>): Option<RewriteResult> {
    if filters == [] then None
    else
      var f := filters[|filters| - 1];
      if f.URLRewrite? then
        Some(RewriteResult(f.hostname, if f.path.Some? then Some(f.path.value.value) else None))
      else LastRewrite(filters[..|filters| - 1])
  }

  ghost predicate IsCollected(a: AppliedFilter, filters: seq<Filter>) {
    && a.requestAdd == FlatMap(filters, RequestAdds)
    && a.requestSet == FlatMap(filters, RequestSets)
    && a.requestRemove == FlatMap(filters, RequestRemoves)
    && a.responseAdd == FlatMap(filters, ResponseAdds)
    && a.responseSet == FlatMap(filters, ResponseSets)
    && a.responseRemove == FlatMap(filters, ResponseRemoves)
    && a.mirrors == FlatMap(filters, Mirrors)
    && a.timeout == None
    && a.rewrite == LastRewrite(filters)
  }

  /** Collects the filters of a rule.  `None` models the panic, which happens exactly when some
      filter rewrites a path prefix: the rewrite is then computed for the empty path. */
  method CollectFilters(filters: seq<Filter>) returns (applied: Option<AppliedFilter>)
    ensures applied.None? <==> exists f :: f in filters && RewritesPrefix(f)
    ensures applied.Some? ==> IsCollected(applied.value, filters)
  {
    var a := NO_FILTER;
    for i := 0 to |filters|
      invariant forall f :: f in filters[..i] ==> !RewritesPrefix(f)
      invariant IsCollected(a, filters[..i])
    {
      var filter := filters[i];
      ghost var before := a;
      match filter {
      case RequestHeaderModifier(toAdd, toSet, toRemove) =>
        a := a.(requestAdd := a.requestAdd + toAdd, requestSet := a.requestSet + toSet, requestRemove := a.requestRemove + toRemove);
      case ResponseHeaderModifier(toAdd, toSet, toRemove) =>
        a := a.(responseAdd := a.responseAdd + toAdd, responseSet := a.responseSet + toSet, responseRemove := a.responseRemove + toRemove);
      case URLRewrite(_, _) =>
        var rewrite := ComputeRewrite(filter, "", None);
        if rewrite.None? {
          assert filter in filters && RewritesPrefix(filter);
          return None;
        }
        a := a.(rewrite := rewrite);
      case RequestMirror(backend, percent) =>
        a := a.(mirrors := a.mirrors + [MirrorTarget(backend, percent.GetOr(100))]);
      case RequestRedirect(_, _, _, _, _) =>
      }
      assert a == Extended(before, filter);
      CollectedExtends(before, filters, i);
      assert filters[..i + 1] == filters[..i] + [filter];
    }
    assert filters[..|filters|] == filters;
    applied := Some(a);
  }

  ghost function Extended(a: AppliedFilter, f: Filter): AppliedFilter {
    AppliedFilter(
      a.requestAdd + RequestAdds(f), a.requestSet + RequestSets(f), a.requestRemove + RequestRemoves(f),
      a.responseAdd + ResponseAdds(f), a.responseSet + ResponseSets(f), a.responseRemove + ResponseRemoves(f),
      if f.URLRewrite? then Some(RewriteResult(f.hostname, if f.path.Some? then Some(f.path.value.value) else None)) else a.rewrite,
      a.mirrors + Mirrors(f), a.timeout)
  }

  lemma CollectedExtends(a: AppliedFilter, filters: seq<Filter>, n: nat)
    requires n < |filters| && IsCollected(a, filters[..n])
    ensures IsCollected(Extended(a, filters[n]), filters[..n + 1])
  {
    assert filters[..n + 1][..n] == filters[..n];
  }

  /** The pipeline's second pass over the filters, with the real request path. */
  method RecomputeRewrite(filters: seq<Filter>, path: string, collected: AppliedFilter) returns (applied: AppliedFilter)
    requires collected.rewrite == LastRewrite(filters)
    requires forall f :: f in filters ==> !RewritesPrefix(f)
    ensures applied == collected
  {
    applied := collected;
    for i := 0 to |filters|
      invariant applied.(rewrite := None) == collected.(rewrite := None)
      invariant applied.rewrite == if LastRewrite(filters[..i]).Some? then LastRewrite(filters[..i]) else collected.rewrite
    {
      assert filters[i] in filters;
      assert filters[..i + 1][..i] == filters[..i];
      if filters[i].URLRewrite? {
        applied := applied.(rewrite := ComputeRewrite(filters[i], path, None));
      }
    }
    assert filters[..|filters|] == filters;
  }

  // Redirects

  function SplitUri(uri: string): (string, string) {
    match SplitOnce(uri, '?')
    case Some(parts) => parts
    case None => (uri, "")
  }

  predicate IsStandardPort(scheme: string, port: nat) {
    (scheme == "http" && port == 80) || (scheme == "https" && port == 443)
  }

  /** The location of a `RequestRedirect` filter; `None` where slicing the path panics. */
  function ComputeRedirect(filter: Filter, uri: string, host: string, matchedPrefix: Option<string>): Option<string>
    requires filter.RequestRedirect?
  {
    var scheme := filter.scheme.GetOr("http");
    var (path, query) := SplitUri(uri);
    var newPath :=
      match filter.path
      case None => Some(path)
      case Some(ReplaceFullPath(value)) => Some(value)
      case Some(ReplacePrefixMatch(value)) => ReplacePrefix(path, matchedPrefix.GetOr("/"), value);
    if newPath.None? then None
    else
      var port := if filter.port.Some? && !IsStandardPort(scheme, filter.port.value) then ":" + Digits(filter.port.value) else "";
      Some(scheme + "://" + filter.hostname.GetOr(host) + port + newPath.value + (if query == "" then "" else "?" + query))
  }

  predicate StartsWithSlash(s: string) {
    s != [] && s[0] == '/'
  }

  predicate RemainderVanishes(matched: string, path: string, value: string) {
    path == matched || (path == matched + "/" && EndsInSlash(value))
  }

  /** The two builders of redirect locations agree exactly when no standard port is spelled out,
      the request has no query, and a prefix replacement has nothing left to keep. */
  lemma RedirectBuildersAgreeIff(filter: Filter, req: RequestMeta, query: string, matched: string)
    requires filter.RequestRedirect?
    requires StartsWithSlash(req.path) && '?' !in req.path && IsText(req.path)
    requires PrefixPathMatches(matched, req.path)
    ensures ComputeRedirect(filter, RequestUri(req.path, query), req.host.GetOr("localhost"), Some(matched))
            == Some(BuildRedirectLocation(filter.scheme, filter.hostname, filter.port, filter.path, req))
            <==> (filter.port == Some(80) ==> filter.scheme != None && filter.scheme != Some("http"))
                 && (filter.port == Some(443) ==> filter.scheme != Some("https"))
                 && query == ""
                 && (filter.path.Some? && filter.path.value.ReplacePrefixMatch?
                     ==> RemainderVanishes(matched, req.path, filter.path.value.value))
  {
    var target := if filter.path.Some? then filter.path.value.value else req.path;
    ReplacePrefixPanicsIff(matched, req.path, target);
    ComputedLocation(filter, req, query, matched);
    WrittenLocation(filter, req);
    var kept := KeptPath(filter, req.path, matched, target);
    SamePrefixCancels(
      LocationStart(filter, req), ShownPort(filter) + ((target + kept) + QuerySuffix(query)), WrittenPort(filter) + target);
    PortsAreText(filter);
    TailsAgreeIff(ShownPort(filter), WrittenPort(filter), kept, QuerySuffix(query), target);
  }

  /** What stands behind the target in the computed path. */
  lemma KeptPath(filter: Filter, path: string, matched: string, target: string) returns (kept: string)
    requires filter.RequestRedirect? && StartsWithSlash(path) && PrefixPathMatches(matched, path) && IsBoundary(path, |matched|)
    requires target == if filter.path.Some? then filter.path.value.value else path
    ensures RedirectPath(filter, path, matched) == target + kept && IsKept(kept, target)
    ensures kept == "" <==> (filter.path.Some? && filter.path.value.ReplacePrefixMatch? ==> RemainderVanishes(matched, path, target))
  {
    ReplacementKeepsValueIff(path, matched, target);
    kept := RedirectPath(filter, path, matched)[|target|..];
  }

  lemma PortsAreText(filter: Filter)
    requires filter.RequestRedirect?
    ensures IsPortText(WrittenPort(filter))
    ensures ShownPort(filter) == (if filter.port.Some? && IsStandardPort(filter.scheme.GetOr("http"), filter.port.value)
                                  then "" else WrittenPort(filter))
    ensures filter.port.Some? ==> WrittenPort(filter) != ""
  {
    if filter.port.Some? {
      DigitsAreDecimal(filter.port.value);
    }
  }

  function LocationStart(filter: Filter, req: RequestMeta): string
    requires filter.RequestRedirect?
  {
    filter.scheme.GetOr("http") + "://" + filter.hostname.GetOr(req.host.GetOr("localhost"))
  }

  function WrittenPort(filter: Filter): string
    requires filter.RequestRedirect?
  {
    if filter.port.Some? then ":" + Digits(filter.port.value) else ""
  }

  function ShownPort(filter: Filter): string
    requires filter.RequestRedirect?
  {
    if filter.port.Some? && IsStandardPort(filter.scheme.GetOr("http"), filter.port.value) then "" else WrittenPort(filter)
  }

  function QuerySuffix(query: string): string {
    if query == "" then "" else "?" + query
  }

  function RedirectPath(filter: Filter, path: string, matched: string): string
    requires filter.RequestRedirect? && IsBoundary(path, |matched|)
  {
    if filter.path.None? then path
    else if filter.path.value.ReplacePrefixMatch? then ReplacePrefix(path, matched, filter.path.value.value).value
    else filter.path.value.value
  }

  lemma ComputedLocation(filter: Filter, req: RequestMeta, query: string, matched: string)
    requires filter.RequestRedirect? && '?' !in req.path && IsBoundary(req.path, |matched|)
    ensures ComputeRedirect(filter, RequestUri(req.path, query), req.host.GetOr("localhost"), Some(matched))
            == Some(LocationStart(filter, req) + (ShownPort(filter) + (RedirectPath(filter, req.path, matched) + QuerySuffix(query))))
  {
    SplitUriOfRequest(req.path, query);
    ConcatAssociates(LocationStart(filter, req), ShownPort(filter), RedirectPath(filter, req.path, matched), QuerySuffix(query));
  }

  lemma WrittenLocation(filter: Filter, req: RequestMeta)
    requires filter.RequestRedirect?
    ensures var target := if filter.path.Some? then filter.path.value.value else req.path;
            BuildRedirectLocation(filter.scheme, filter.hostname, filter.port, filter.path, req)
            == LocationStart(filter, req) + (WrittenPort(filter) + target)
  {
    var target := if filter.path.Some? then filter.path.value.value else req.path;
    assert LocationStart(filter, req) + WrittenPort(filter) + target == LocationStart(filter, req) + (WrittenPort(filter) + target);
  }

  function RequestUri(path: string, query: string): string {
    if query == "" then path else path + "?" + query
  }

  lemma SplitUriOfRequest(path: string, query: string)
    requires '?' !in path
    ensures SplitUri(RequestUri(path, query)) == (path, query)
  {
    if query == "" {
      assert IndexOf(path, '?') == |path|;
    } else {
      SplitOnceAt(path, '?', query);
      assert path + "?" + query == path + ['?'] + query;
    }
  }

  lemma SamePrefixCancels(a: string, b: string, c: string)
    ensures a + b == a + c <==> b == c
  {
    assert (a + b)[|a|..] == b && (a + c)[|a|..] == c;
  }

  /** A port as it is written: nothing, or a colon and decimal digits. */
  predicate IsPortText(s: string) {
    (s != "" ==> s[0] == ':') && forall c :: c in s ==> c == ':' || '0' <= c <= '9'
  }

  lemma {:induction false} DigitsAreDecimal(n: nat)
    ensures forall c :: c in Digits(n) ==> '0' <= c <= '9'
  {
    if n >= 10 {
      DigitsAreDecimal(n / 10);
    }
  }

  /** What is kept behind a replaced prefix begins with a slash, unless the replacement ends in one. */
  predicate IsKept(kept: string, target: string) {
    kept == "" || kept[0] == '/' || EndsInSlash(target)
  }

  lemma TailsAgreeIff(port: string, spelled: string, kept: string, suffix: string, target: string)
    requires IsPortText(spelled) && IsKept(kept, target)
    requires port == spelled || (port == "" && spelled != "")
    requires suffix == "" || suffix[0] == '?'
    ensures port + ((target + kept) + suffix) == spelled + target <==> port == spelled && suffix == "" && kept == ""
  {
    var extra := kept + suffix;
    assert port + ((target + kept) + suffix) == port + (target + extra);
    if port == spelled {
      SamePrefixCancels(port, target + extra, target);
      if target + extra == target {
        assert |target + extra| == |target| + |extra|;
      }
    } else {
      assert port + (target + extra) == target + extra;
      ExtraIsNoPort(spelled, kept, suffix, target);
    }
  }

  /** Text moved from one end of the target to the other keeps its characters ... */
  lemma MovedText(target: string, extra: string, spelled: string)
    requires target + extra == spelled + target
    ensures |extra| == |spelled| && forall c :: c in extra ==> c in spelled
    ensures extra != "" && target != "" ==> extra[|extra| - 1] == target[|target| - 1]
  {
    var whole := target + extra;
    assert |whole| == |target| + |extra| == |spelled| + |target|;
    assert multiset(whole) == multiset(target) + multiset(extra);
    assert multiset(whole) == multiset(spelled) + multiset(target);
    assert multiset(extra) == multiset(whole) - multiset(target) == multiset(spelled);
    forall c | c in extra
      ensures c in spelled
    {
      assert c in multiset(spelled);
    }
    if extra != "" && target != "" {
      assert whole[|whole| - 1] == extra[|extra| - 1];
      assert (spelled + target)[|whole| - 1] == target[|target| - 1];
    }
  }

  /** ... but no port holds the slash or question mark that what follows a target has. */
  lemma ExtraIsNoPort(spelled: string, kept: string, suffix: string, target: string)
    requires IsPortText(spelled) && spelled != "" && IsKept(kept, target)
    requires suffix == "" || suffix[0] == '?'
    ensures target + (kept + suffix) != spelled + target
  {
    var extra := kept + suffix;
    assert extra != "" ==> extra[0] in extra && extra[|extra| - 1] in extra;
    assert extra != "" ==> extra[0] == if kept == "" then suffix[0] else kept[0];
    if target + extra == spelled + target {
      MovedText(target, extra, spelled);
    }
  }

  lemma ConcatAssociates(a: string, b: string, c: string, d: string)
    ensures a + b + c + d == a + (b + (c + d))
  {
  }

  lemma ReplacementKeepsValueIff(path: string, matched: string, value: string)
    requires PrefixPathMatches(matched, path) && StartsWithSlash(path) && IsBoundary(path, |matched|)
    ensures var replaced := ReplacePrefix(path, matched, value).value;
            && value <= replaced && IsKept(replaced[|value|..], value)
            && (replaced == value <==> RemainderVanishes(matched, path, value))
  {
    var remainder := path[|matched|..];
    assert path == matched + remainder;
    if path == matched + "/" {
      assert remainder == "/";
    }
  }
}
