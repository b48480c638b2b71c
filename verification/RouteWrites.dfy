/** What reconciling a route writes for its parents: each accepting Gateway's ConfigMap, rebuilt
    from a snapshot that holds no other route and no Secrets. */
module RouteWrites {
  import opened Text
  import opened Ordering
  import opened Kube
  import opened Validate
  import opened Convert
  import opened Reconcile
  import opened Fetcher
  import opened Sufficiency

  /** No other route of the cluster names the Gateway. */
  ghost predicate AloneOn(cluster: WorldSnapshot, gateway: Key, key: Key) {
    forall k :: k in cluster.httproutes && ReferencesGateway(cluster.httproutes[k], gateway) ==> k == key
  }

  /** The parent refuses the route; or no other route names it and none of its certificates could
      be used. */
  ghost predicate NothingLost(cluster: WorldSnapshot, key: Key, ref: ParentRef)
    requires key in cluster.httproutes
  {
    var parent := ParentKey(ref, key.0);
    ParentVerdict(cluster, cluster.httproutes[key], ref, key.0).accepted
    ==> AloneOn(cluster, parent, key) && !SomeCertificateUsable(cluster, parent)
  }

  /** For every cluster, the ConfigMaps written from the route's narrow snapshot are those of the
      whole cluster if and only if every parent is one at which nothing can be lost. */
  lemma RouteWritesSameIff(cluster: WorldSnapshot, config: ControllerConfig, key: Key, parse: DurationParser)
    requires WellKeyed(cluster) && key in cluster.httproutes
    ensures HttpRouteResult(HttpRouteProjection(cluster, key), config, key, parse).upserts
            == HttpRouteResult(cluster, config, key, parse).upserts
            <==> forall ref :: ref in cluster.httproutes[key].parentRefs.GetOr([]) ==> NothingLost(cluster, key, ref)
  {
    var narrow, route := HttpRouteProjection(cluster, key), cluster.httproutes[key];
    var refs := route.parentRefs.GetOr([]);
    forall ref | ref in refs
      ensures |UpsertForParent(narrow, route, ref, key.0, parse)| == |UpsertForParent(cluster, route, ref, key.0, parse)|
      ensures UpsertForParent(narrow, route, ref, key.0, parse) == UpsertForParent(cluster, route, ref, key.0, parse)
              <==> NothingLost(cluster, key, ref)
    {
      UpsertSameIff(cluster, key, ref, parse);
    }
    ConfigMapsSameIff(narrow, cluster, route, refs, key.0, parse);
  }

  lemma {:induction false} ConfigMapsSameIff(
    s: WorldSnapshot, t: WorldSnapshot, route: HTTPRoute, refs: seq<ParentRef>, routeNs: string, parse: DurationParser)
    requires forall ref :: ref in refs ==>
               |UpsertForParent(s, route, ref, routeNs, parse)| == |UpsertForParent(t, route, ref, routeNs, parse)|
    ensures |ParentConfigMaps(s, route, refs, routeNs, parse)| == |ParentConfigMaps(t, route, refs, routeNs, parse)|
    ensures ParentConfigMaps(s, route, refs, routeNs, parse) == ParentConfigMaps(t, route, refs, routeNs, parse)
            <==> forall ref :: ref in refs ==>
                   UpsertForParent(s, route, ref, routeNs, parse) == UpsertForParent(t, route, ref, routeNs, parse)
  {
    if refs == [] {
    } else {
      var n := |refs| - 1;
      assert refs == refs[..n] + [refs[n]];
      ConfigMapsSameIff(s, t, route, refs[..n], routeNs, parse);
      ConcatSameIff(
        ParentConfigMaps(s, route, refs[..n], routeNs, parse), UpsertForParent(s, route, refs[n], routeNs, parse),
        ParentConfigMaps(t, route, refs[..n], routeNs, parse), UpsertForParent(t, route, refs[n], routeNs, parse));
    }
  }

  lemma ConcatSameIff<T>(a: seq<T>, b: seq<T>, c: seq<T>, d: seq<T>)
    requires |a| == |c|
    ensures a + b == c + d <==> a == c && b == d
  {
    if a + b == c + d {
      assert a == (a + b)[..|a|] && c == (c + d)[..|a|];
      assert b == (a + b)[|a|..] && d == (c + d)[|a|..];
    }
  }

  lemma UpsertSameIff(cluster: WorldSnapshot, key: Key, ref: ParentRef, parse: DurationParser)
    requires WellKeyed(cluster)
    requires key in cluster.httproutes && ref in cluster.httproutes[key].parentRefs.GetOr([])
    ensures var narrow, route := HttpRouteProjection(cluster, key), cluster.httproutes[key];
            && |UpsertForParent(narrow, route, ref, key.0, parse)| == |UpsertForParent(cluster, route, ref, key.0, parse)|
            && (UpsertForParent(narrow, route, ref, key.0, parse) == UpsertForParent(cluster, route, ref, key.0, parse)
                <==> NothingLost(cluster, key, ref))
  {
    var narrow, route, parent := HttpRouteProjection(cluster, key), cluster.httproutes[key], ParentKey(ref, key.0);
    ParentVerdictSame(cluster, key, ref);
    if ParentVerdict(cluster, route, ref, key.0).accepted {
      AcceptingParent(cluster, key, ref);
      ConfigMapSameIff(cluster, narrow, parent, parse);
      ParentRoutesSameIff(cluster, key, parent);
    }
  }

  /** A parent that accepts is fetched, and the route names it. */
  lemma AcceptingParent(cluster: WorldSnapshot, key: Key, ref: ParentRef)
    requires WellKeyed(cluster)
    requires key in cluster.httproutes && ref in cluster.httproutes[key].parentRefs.GetOr([])
    requires ParentVerdict(cluster, cluster.httproutes[key], ref, key.0).accepted
    ensures var narrow, parent := HttpRouteProjection(cluster, key), ParentKey(ref, key.0);
            && parent in cluster.gateways && parent in narrow.gateways && narrow.gateways[parent] == cluster.gateways[parent]
            && cluster.gateways[parent].meta.name == parent.1
            && ReferencesGateway(cluster.httproutes[key], parent)
  {
    assert ParentIs(ref, cluster.httproutes[key].meta.namespace.GetOr(""), ParentKey(ref, key.0));
  }

  lemma ConfigMapSameIff(s: WorldSnapshot, t: WorldSnapshot, parent: Key, parse: DurationParser)
    requires t.secrets == map[] && parent in s.gateways && s.gateways[parent].meta.name == parent.1
    ensures ConfigMapOf(s.gateways[parent], parent, t, parse) == ConfigMapOf(s.gateways[parent], parent, s, parse)
            <==> && !SomeCertificateUsable(s, parent)
                 && var names := Names(s.gateways[parent].listeners);
                    Mapped(RoutesForGateway(t, parent), ConvertedRoute(names, parse))
                    == Mapped(RoutesForGateway(s, parent), ConvertedRoute(names, parse))
  {
    ListenersSameIff(s, t, parent.0, s.gateways[parent].listeners);
  }

  /** The routes attached in the narrow snapshot are this one alone; they are those of the cluster
      exactly when it is alone there. */
  lemma ParentRoutesSameIff(cluster: WorldSnapshot, key: Key, parent: Key)
    requires WellKeyed(cluster) && key in cluster.httproutes && ReferencesGateway(cluster.httproutes[key], parent)
    ensures var narrow := RoutesForGateway(HttpRouteProjection(cluster, key), parent);
            var wide := RoutesForGateway(cluster, parent);
            (AloneOn(cluster, parent, key) ==> narrow == wide) && (!AloneOn(cluster, parent, key) ==> |narrow| < |wide|)
  {
    var narrow := HttpRouteProjection(cluster, key);
    if AloneOn(cluster, parent, key) {
      assert ReferencingKeys(cluster.httproutes, parent) == {key};
      NarrowingKeepsRoutes(cluster, narrow, parent);
    } else {
      AtMostOneRoute(narrow, parent, key);
      var k :| k in cluster.httproutes && ReferencesGateway(cluster.httproutes[k], parent) && k != key;
      SeveralRoutes(cluster, parent, key, k);
    }
  }

  lemma AtMostOneRoute(s: WorldSnapshot, gateway: Key, key: Key)
    requires forall k :: k in s.httproutes ==> k == key
    ensures |RoutesForGateway(s, gateway)| <= 1
  {
    var selected := SelectedAreSorted(SortedKeys(s.httproutes.Keys), s.httproutes, gateway);
    KeyLessIsStrictTotal();
    if selected != [] {
      assert selected[0] in selected;
      AscendingIsUnique(selected, [key], KeyLess);
    }
  }

  lemma SeveralRoutes(s: WorldSnapshot, gateway: Key, j: Key, k: Key)
    requires j != k && j in s.httproutes && k in s.httproutes
    requires ReferencesGateway(s.httproutes[j], gateway) && ReferencesGateway(s.httproutes[k], gateway)
    ensures |RoutesForGateway(s, gateway)| >= 2
  {
    var selected := SelectedAreSorted(SortedKeys(s.httproutes.Keys), s.httproutes, gateway);
    assert j in selected && k in selected;
  }
}
