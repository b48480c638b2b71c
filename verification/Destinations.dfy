/** Where traffic is sent.  Validation and grants are about a Service of a namespace; the forwarder, the
    WebSocket tunnel and mirrors ask the name service for the bare name and the port. */
module Destinations {
  import opened Text
  import opened Config
  import opened Kube
  import opened Validate
  import Convert
  import Words

  /** What the proxy asks the name service for. */
  datatype Query = Query(name: string, port: nat)

  function QueryOf(b: Backend): Query {
    Query(b.name, b.port)
  }

  /** Where a backend is meant to be. */
  datatype Place = Place(namespace: string, name: string, port: nat)

  function PlaceOf(b: Backend): Place {
    Place(b.namespace, b.name, b.port)
  }

  // The backends of converted routes

  ghost predicate IsBackend(routes: seq<RouteConfig>, b: Backend) {
    exists route, rule :: route in routes && rule in route.rules && b in rule.backends
  }

  /** Some rule of an HTTPRoute of the namespace refers to the backend. */
  ghost predicate IsReference(routes: seq<HTTPRoute>, ns: string, ref: BackendRef) {
    exists route :: route in routes && route.meta.namespace.GetOr("") == ns && RouteUsesBackend(route.rules.GetOr([]), ref)
  }

  lemma ConvertedReference(
    routes: seq<HTTPRoute>, listeners: seq<string>, parse: Convert.DurationParser, ns: string, ref: BackendRef)
    requires IsReference(routes, ns, ref)
    ensures IsBackend(Mapped(routes, Convert.ConvertedRoute(listeners, parse)), Convert.ConvertBackend(ns)(ref))
  {
    var route :| route in routes && route.meta.namespace.GetOr("") == ns && RouteUsesBackend(route.rules.GetOr([]), ref);
    var rule :| rule in route.rules.GetOr([]) && ref in rule.backendRefs.GetOr([]);
    MappedContains(routes, Convert.ConvertedRoute(listeners, parse), Convert.ConvertedRoute(listeners, parse)(route));
    MappedContains(route.rules.GetOr([]), Convert.ConvertedRule(ns, parse), Convert.ConvertedRule(ns, parse)(rule));
    MappedContains(rule.backendRefs.GetOr([]), Convert.ConvertBackend(ns), Convert.ConvertBackend(ns)(ref));
  }

  lemma BackendReference(routes: seq<HTTPRoute>, listeners: seq<string>, parse: Convert.DurationParser, b: Backend)
    returns (ns: string, ref: BackendRef)
    requires IsBackend(Mapped(routes, Convert.ConvertedRoute(listeners, parse)), b)
    ensures IsReference(routes, ns, ref) && Convert.ConvertBackend(ns)(ref) == b
  {
    var targets := Mapped(routes, Convert.ConvertedRoute(listeners, parse));
    var target, targetRule :| target in targets && targetRule in target.rules && b in targetRule.backends;
    MappedContains(routes, Convert.ConvertedRoute(listeners, parse), target);
    var route :| route in routes && Convert.ConvertedRoute(listeners, parse)(route) == target;
    ns := route.meta.namespace.GetOr("");
    MappedContains(route.rules.GetOr([]), Convert.ConvertedRule(ns, parse), targetRule);
    var rule :| rule in route.rules.GetOr([]) && Convert.ConvertedRule(ns, parse)(rule) == targetRule;
    MappedContains(rule.backendRefs.GetOr([]), Convert.ConvertBackend(ns), b);
    ref :| ref in rule.backendRefs.GetOr([]) && Convert.ConvertBackend(ns)(ref) == b;
  }

  // Can each backend be reached where it is meant to be?

  /** The name service answers every query of the routes with the place of its backend. */
  ghost predicate Sends(resolve: Query -> Place, routes: seq<RouteConfig>) {
    forall b :: IsBackend(routes, b) ==> resolve(QueryOf(b)) == PlaceOf(b)
  }

  /** Some name service does, exactly when no two backends differ by their namespace only. */
  lemma SomeServiceSendsIff(routes: seq<RouteConfig>)
    ensures (exists resolve :: Sends(resolve, routes))
            <==> forall a, b :: IsBackend(routes, a) && IsBackend(routes, b) && a.name == b.name && a.port == b.port
                                ==> a.namespace == b.namespace
  {
    if resolve :| Sends(resolve, routes) {
      forall a, b | IsBackend(routes, a) && IsBackend(routes, b) && a.name == b.name && a.port == b.port
        ensures a.namespace == b.namespace
      {
        assert resolve(QueryOf(a)) == PlaceOf(a) && resolve(QueryOf(b)) == PlaceOf(b);
      }
    }
    if forall a, b :: IsBackend(routes, a) && IsBackend(routes, b) && a.name == b.name && a.port == b.port ==> a.namespace == b.namespace {
      assert Sends((q: Query) => PlaceFor(routes, q), routes);
    }
  }

  ghost function PlaceFor(routes: seq<RouteConfig>, q: Query): Place {
    if exists b :: IsBackend(routes, b) && QueryOf(b) == q then
      var b :| IsBackend(routes, b) && QueryOf(b) == q;
      PlaceOf(b)
    else Place("", "", 0)
  }

  function PortOf(ref: BackendRef): nat {
    Words.AsU16(ref.port.GetOr(80))
  }

  /** Two references ask for the same address though they mean Services of different namespaces. */
  ghost predicate Confused(routes: seq<HTTPRoute>, ns: string, a: BackendRef, other: string, b: BackendRef) {
    && IsReference(routes, ns, a) && IsReference(routes, other, b)
    && a.name == b.name && PortOf(a) == PortOf(b)
    && a.namespace.GetOr(ns) != b.namespace.GetOr(other)
  }

  /** From HTTPRoutes to addresses: whatever the name service is, traffic for every reference can only reach
      the Service it was validated for if no two references have the same name and port in different
      namespaces; and then it can. */
  lemma ReferencesReachableIff(routes: seq<HTTPRoute>, listeners: seq<string>, parse: Convert.DurationParser)
    ensures (exists resolve :: Sends(resolve, Mapped(routes, Convert.ConvertedRoute(listeners, parse))))
            <==> forall ns, a, other, b :: !Confused(routes, ns, a, other, b)
  {
    var targets := Mapped(routes, Convert.ConvertedRoute(listeners, parse));
    SomeServiceSendsIff(targets);
    forall ns, a, other, b | Confused(routes, ns, a, other, b)
      ensures exists x, y :: IsBackend(targets, x) && IsBackend(targets, y) && x.name == y.name && x.port == y.port
                             && x.namespace != y.namespace
    {
      ConvertedReference(routes, listeners, parse, ns, a);
      ConvertedReference(routes, listeners, parse, other, b);
    }
    forall x, y | IsBackend(targets, x) && IsBackend(targets, y) && x.name == y.name && x.port == y.port && x.namespace != y.namespace
      ensures exists ns, a, other, b :: Confused(routes, ns, a, other, b)
    {
      var ns, a := BackendReference(routes, listeners, parse, x);
      var other, b := BackendReference(routes, listeners, parse, y);
      assert Confused(routes, ns, a, other, b);
    }
  }
}
