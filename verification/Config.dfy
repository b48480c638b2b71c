/** The proxy's runtime configuration: what the control plane writes and the data plane reads. */
module Config {
  import opened Text

  datatype Protocol = Http | Https

  datatype TlsMode = Terminate | Passthrough

  datatype CertificateRef = CertificateRef(namespace: string, name: string)

  datatype InlineCertificate = InlineCertificate(certPem: string, keyPem: string, hostnames: seq<string>)

  datatype TlsConfig = TlsConfig(
    mode: TlsMode,
    certificates: seq<CertificateRef>,
    inlineCertificates: seq<InlineCertificate>)

  datatype ListenerConfig = ListenerConfig(
    name: string,
    port: nat,
    protocol: Protocol,
    hostname: Option<string>,
    tls: Option<TlsConfig>)

  datatype PathMatchType = Exact | PathPrefix | RegularExpression

  datatype PathMatch = PathMatch(matchType: PathMatchType, value: string)

  // Header and query parameter matches share their two kinds of comparison.
  datatype ValueMatchType = ExactValue | RegexValue

  datatype HeaderMatch = HeaderMatch(name: string, matchType: ValueMatchType, value: string)

  datatype QueryParamMatch = QueryParamMatch(name: string, matchType: ValueMatchType, value: string)

  datatype RouteMatch = RouteMatch(
    path: Option<PathMatch>,
    headers: seq<HeaderMatch>,
    queryParams: seq<QueryParamMatch>,
    httpMethod: Option<string>)

  const DEFAULT_MATCH := RouteMatch(None, [], [], None)

  datatype HeaderValue = HeaderValue(name: string, value: string)

  datatype PathModifier = ReplaceFullPath(value: string) | ReplacePrefixMatch(value: string)

  datatype BackendProtocol = Http1 | H2c

  datatype Backend = Backend(
    namespace: string,
    name: string,
    port: nat,
    weight: nat,
    protocol: BackendProtocol)

  datatype Filter =
    | RequestHeaderModifier(toAdd: seq<HeaderValue>, toSet: seq<HeaderValue>, toRemove: seq<string>)
    | ResponseHeaderModifier(toAdd: seq<HeaderValue>, toSet: seq<HeaderValue>, toRemove: seq<string>)
    | RequestRedirect(
        scheme: Option<string>,
        hostname: Option<string>,
        port: Option<nat>,
        path: Option<PathModifier>,
        statusCode: Option<nat>)
    | URLRewrite(hostname: Option<string>, path: Option<PathModifier>)
    | RequestMirror(backend: Backend, percent: Option<nat>)

  datatype TimeoutConfig = TimeoutConfig(request: Option<real>, backendRequest: Option<real>)

  datatype RouteRule = RouteRule(
    name: Option<string>,
    matches: seq<RouteMatch>,
    filters: seq<Filter>,
    backends: seq<Backend>,
    timeout: Option<TimeoutConfig>)

  datatype RouteConfig = RouteConfig(
    name: string,
    namespace: string,
    hostnames: seq<string>,
    attachedListeners: seq<string>,
    rules: seq<RouteRule>)

  datatype GatewayRef = GatewayRef(namespace: string, name: string)

  datatype ProxyConfig = ProxyConfig(
    version: string,
    gateway: GatewayRef,
    listeners: seq<ListenerConfig>,
    routes: seq<RouteConfig>)
}
