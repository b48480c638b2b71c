/** Which rule decides: the first one, in the order of routes and then of rules, that no other beats. */
module FirstRule {
  import opened Text
  import opened Config
  import opened Routing

  /** Rule `j` of route `i` is eligible for the request with precedence `p`. */
  ghost predicate Contends(routes: seq<RouteConfig>, listener: string, req: RequestMeta, regex: Regex, i: nat, j: nat, p: MatchPrecedence) {
    && i < |routes| && j < |routes[i].rules|
    && RouteApplies(routes[i], listener, req) && EarnsPrecedence(routes[i].rules[j], req, regex, p)
  }

  predicate IsEarlier(i: nat, j: nat, k: nat, m: nat) {
    i < k || (i == k && j < m)
  }

  /** It contends with a precedence that no contender beats, and that beats all earlier ones. */
  ghost predicate Decides(routes: seq<RouteConfig>, listener: string, req: RequestMeta, regex: Regex, i: nat, j: nat, p: MatchPrecedence) {
    && Contends(routes, listener, req, regex, i, j, p)
    && forall k, m, q :: Contends(routes, listener, req, regex, k, m, q) ==>
         !Beats(q, p) && (IsEarlier(k, m, i, j) ==> Beats(p, q))
  }

  lemma DecidingRuleIsUnique(
    routes: seq<RouteConfig>, listener: string, req: RequestMeta, regex: Regex,
    i: nat, j: nat, p: MatchPrecedence, k: nat, m: nat, q: MatchPrecedence)
    requires Decides(routes, listener, req, regex, i, j, p) && Decides(routes, listener, req, regex, k, m, q)
    ensures i == k && j == m && p == q
  {
    assert !Beats(q, p) && !Beats(p, q);
    BeatsIsStrictTotalOrder();
  }

  /** The router's decision is that of the deciding rule. */
  lemma RouteFollowsFirstRule(config: ProxyConfig, listener: string, req: RequestMeta, regex: Regex, decision: RoutingDecision)
    returns (i: nat, j: nat, p: MatchPrecedence)
    requires IsRouting(config, listener, req, regex, decision) && decision != NotFound
    ensures Decides(config.routes, listener, req, regex, i, j, p)
    ensures decision == BuildDecision(config.routes[i].rules[j], req)
  {
    var routes := config.routes;
    var candidates := Candidates(routes, listener, req, regex);
    var w :| IsFirstBest(candidates, w) && decision == BuildDecision(candidates[w].rule, req);
    var offset;
    i, j, offset := CandidateAt(routes, listener, req, regex, w);
    p := candidates[w].precedence;
    RuleCandidateIff(routes[i].rules[j], req, regex, candidates[w]);
    forall k, m, q | Contends(routes, listener, req, regex, k, m, q)
      ensures !Beats(q, p) && (IsEarlier(k, m, i, j) ==> Beats(p, q))
    {
      var v := ContenderAt(routes, listener, req, regex, k, m, q);
      if IsEarlier(k, m, i, j) {
        EarlierRulesEnd(routes, listener, req, regex, k, m, i, j);
      }
    }
  }

  // Where the candidates of a rule are

  ghost function Before(routes: seq<RouteConfig>, listener: string, req: RequestMeta, regex: Regex, i: nat, j: nat): seq<MatchCandidate>
    requires i < |routes| && j <= |routes[i].rules|
  {
    Candidates(routes[..i], listener, req, regex) + RulesCandidates(routes[i].rules[..j], req, regex)
  }

  lemma {:induction false} RulesPrefix(rules: seq<RouteRule>, j: nat, req: RequestMeta, regex: Regex)
    requires j <= |rules|
    ensures RulesCandidates(rules[..j], req, regex) <= RulesCandidates(rules, req, regex)
  {
    var n := |rules|;
    if j == n {
      assert rules[..j] == rules;
    } else {
      RulesPrefix(rules[..n - 1], j, req, regex);
      assert rules[..n - 1][..j] == rules[..j];
    }
  }

  lemma {:induction false} RoutesPrefix(routes: seq<RouteConfig>, i: nat, listener: string, req: RequestMeta, regex: Regex)
    requires i <= |routes|
    ensures Candidates(routes[..i], listener, req, regex) <= Candidates(routes, listener, req, regex)
  {
    var n := |routes|;
    if i == n {
      assert routes[..i] == routes;
    } else {
      RoutesPrefix(routes[..n - 1], i, listener, req, regex);
      assert routes[..n - 1][..i] == routes[..i];
    }
  }

  /** The candidates of a rule stand behind those of the earlier rules. */
  lemma {:induction false} RuleIsSlice(routes: seq<RouteConfig>, listener: string, req: RequestMeta, regex: Regex, i: nat, j: nat)
    requires i < |routes| && j < |routes[i].rules| && RouteApplies(routes[i], listener, req)
    ensures Before(routes, listener, req, regex, i, j) + RuleCandidates(routes[i].rules[j], req, regex)
            <= Candidates(routes, listener, req, regex)
  {
    var rules := routes[i].rules;
    assert rules[..j + 1][..j] == rules[..j];
    RulesPrefix(rules, j + 1, req, regex);
    RoutesPrefix(routes, i + 1, listener, req, regex);
    assert routes[..i + 1][..i] == routes[..i];
    PrefixBehind(
      Candidates(routes[..i], listener, req, regex), RulesCandidates(rules[..j], req, regex),
      RuleCandidates(rules[j], req, regex), RulesCandidates(rules, req, regex));
  }

  lemma PrefixBehind<T>(a: seq<T>, b: seq<T>, c: seq<T>, d: seq<T>)
    requires b + c <= d
    ensures a + b + c <= a + d
  {
    assert a + b + c == a + (b + c);
  }

  lemma RuleCandidateIff(rule: RouteRule, req: RequestMeta, regex: Regex, c: MatchCandidate)
    ensures c in RuleCandidates(rule, req, regex) <==> c.rule == rule && EarnsPrecedence(rule, req, regex, c.precedence)
  {
    MatchCandidatesAre(rule, rule.matches, req, regex, c);
  }

  lemma ContenderAt(routes: seq<RouteConfig>, listener: string, req: RequestMeta, regex: Regex, i: nat, j: nat, p: MatchPrecedence)
    returns (v: nat)
    requires Contends(routes, listener, req, regex, i, j, p)
    ensures v < |Candidates(routes, listener, req, regex)|
    ensures Candidates(routes, listener, req, regex)[v] == MatchCandidate(routes[i].rules[j], p)
    ensures v < |Before(routes, listener, req, regex, i, j)| + |RuleCandidates(routes[i].rules[j], req, regex)|
  {
    var rule := routes[i].rules[j];
    RuleCandidateIff(rule, req, regex, MatchCandidate(rule, p));
    var k: nat :| k < |RuleCandidates(rule, req, regex)| && RuleCandidates(rule, req, regex)[k] == MatchCandidate(rule, p);
    RuleIsSlice(routes, listener, req, regex, i, j);
    v := |Before(routes, listener, req, regex, i, j)| + k;
    assert (Before(routes, listener, req, regex, i, j) + RuleCandidates(rule, req, regex))[v] == MatchCandidate(rule, p);
  }

  /** The candidates of an earlier rule end before those of a later one begin. */
  lemma EarlierRulesEnd(routes: seq<RouteConfig>, listener: string, req: RequestMeta, regex: Regex, k: nat, m: nat, i: nat, j: nat)
    requires i < |routes| && j < |routes[i].rules| && k < |routes| && m < |routes[k].rules|
    requires RouteApplies(routes[k], listener, req) && IsEarlier(k, m, i, j)
    ensures |Before(routes, listener, req, regex, k, m)| + |RuleCandidates(routes[k].rules[m], req, regex)|
            <= |Before(routes, listener, req, regex, i, j)|
  {
    if k < i {
      assert routes[..i][..k] == routes[..k];
      RuleIsSlice(routes[..i], listener, req, regex, k, m);
    } else {
      var rules := routes[i].rules;
      assert rules[..m + 1][..m] == rules[..m];
      assert rules[..j][..m + 1] == rules[..m + 1];
      RulesPrefix(rules[..j], m + 1, req, regex);
    }
  }

  lemma SameBefore(routes: seq<RouteConfig>, listener: string, req: RequestMeta, regex: Regex, i: nat, j: nat)
    requires i < |routes| - 1 && j <= |routes[i].rules|
    ensures Before(routes[..|routes| - 1], listener, req, regex, i, j) == Before(routes, listener, req, regex, i, j)
  {
    assert routes[..|routes| - 1][..i] == routes[..i];
  }

  /** Every candidate is one of some rule. */
  lemma {:induction false} CandidateAt(routes: seq<RouteConfig>, listener: string, req: RequestMeta, regex: Regex, w: nat)
    returns (i: nat, j: nat, offset: nat)
    requires w < |Candidates(routes, listener, req, regex)|
    ensures i < |routes| && j < |routes[i].rules| && RouteApplies(routes[i], listener, req)
    ensures w == |Before(routes, listener, req, regex, i, j)| + offset
    ensures offset < |RuleCandidates(routes[i].rules[j], req, regex)|
    ensures Candidates(routes, listener, req, regex)[w] == RuleCandidates(routes[i].rules[j], req, regex)[offset]
  {
    var n := |routes| - 1;
    var earlier := Candidates(routes[..n], listener, req, regex);
    if w < |earlier| {
      i, j, offset := CandidateAt(routes[..n], listener, req, regex, w);
      SameBefore(routes, listener, req, regex, i, j);
    } else {
      i := n;
      j, offset := RuleCandidateAt(routes[n].rules, req, regex, w - |earlier|);
    }
  }

  lemma {:induction false} RuleCandidateAt(rules: seq<RouteRule>, req: RequestMeta, regex: Regex, w: nat)
    returns (j: nat, offset: nat)
    requires w < |RulesCandidates(rules, req, regex)|
    ensures j < |rules| && w == |RulesCandidates(rules[..j], req, regex)| + offset
    ensures offset < |RuleCandidates(rules[j], req, regex)|
    ensures RulesCandidates(rules, req, regex)[w] == RuleCandidates(rules[j], req, regex)[offset]
  {
    var n := |rules| - 1;
    var earlier := RulesCandidates(rules[..n], req, regex);
    if w < |earlier| {
      j, offset := RuleCandidateAt(rules[..n], req, regex, w);
      assert rules[..n][..j] == rules[..j];
    } else {
      j, offset := n, w - |earlier|;
    }
  }
}
