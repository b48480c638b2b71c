/** Host patterns: a wildcard stands for exactly one label, and case never matters. */
module Hosts {
  import opened Text
  import opened Routing

  lemma WildcardIsLabelMatch(suffix: string, host: string)
    ensures HostPatternMatches(WILDCARD + suffix, host)
            <==> exists first :: first != [] && Split(Lower(host), '.') == [first] + Split(Lower(suffix), '.')
  {
    assert (WILDCARD + suffix)[2..] == suffix;
    var hostLower, tail := Lower(host), Lower(suffix);
    if HostPatternMatches(WILDCARD + suffix, host) {
      var first := hostLower[..|hostLower| - |tail| - 1];
      assert hostLower == first + ['.'] + tail by {
        assert hostLower[|first|..] == "." + tail;
      }
      SplitConcat(first, '.', tail);
      SplitOfFree(first, '.');
    }
    if first :| first != [] && Split(hostLower, '.') == [first] + Split(tail, '.') {
      LabelMatchIsWildcard(first, tail, hostLower);
    }
  }

  lemma {:induction false} LabelMatchIsWildcard(first: string, tail: string, hostLower: string)
    requires Split(hostLower, '.') == [first] + Split(tail, '.')
    ensures hostLower == first + "." + tail && '.' !in first
  {
    JoinSplit(hostLower, '.');
    JoinSplit(tail, '.');
    JoinConcat([first], Split(tail, '.'), '.');
    SplitPiecesFree(hostLower, '.');
    assert first == Split(hostLower, '.')[0];
  }

  lemma {:induction false} LastIndexOfIgnoresCase(a: string, b: string, c: char)
    requires Lower(a) == Lower(b)
    requires LowerChar(c) == c && forall x :: LowerChar(x) == c ==> x == c
    ensures LastIndexOf(a, c) == LastIndexOf(b, c)
  {
    assert |a| == |Lower(a)| == |b|;
    assert forall i :: 0 <= i < |a| ==> LowerChar(a[i]) == Lower(a)[i] == LowerChar(b[i]);
    assert forall i :: 0 <= i < |a| ==> (a[i] == c <==> b[i] == c);
  }

  lemma StripPortIgnoresCase(a: string, b: string)
    requires Lower(a) == Lower(b)
    ensures Lower(StripPort(a)) == Lower(StripPort(b))
  {
    assert |a| == |Lower(a)| == |b|;
    assert forall i :: 0 <= i < |a| ==> LowerChar(a[i]) == Lower(a)[i] == LowerChar(b[i]);
    LastIndexOfIgnoresCase(a, b, ':');
  }

  lemma PatternIgnoresCase(p: string, q: string, a: string, b: string)
    requires Lower(p) == Lower(q) && Lower(a) == Lower(b)
    ensures HostPatternMatches(p, a) == HostPatternMatches(q, b)
  {
    assert |p| == |Lower(p)| == |q|;
    assert forall i :: 0 <= i < |p| ==> LowerChar(p[i]) == Lower(p)[i] == LowerChar(q[i]);
    if WILDCARD <= p {
      assert p[0] == '*' && p[1] == '.';
      assert WILDCARD <= q;
      assert Lower(p[2..]) == Lower(q[2..]);
    }
    if WILDCARD <= q {
      assert q[0] == '*' && q[1] == '.';
      assert WILDCARD <= p;
    }
  }

  /** Changing ASCII case in the host or in the patterns never changes the answer. */
  lemma HostnameMatchIgnoresCase(patterns: seq<string>, others: seq<string>, a: string, b: string)
    requires |patterns| == |others| && forall i :: 0 <= i < |patterns| ==> Lower(patterns[i]) == Lower(others[i])
    requires Lower(a) == Lower(b)
    ensures HostnameMatches(patterns, Some(a)) == HostnameMatches(others, Some(b))
  {
    StripPortIgnoresCase(a, b);
    forall i | 0 <= i < |patterns|
      ensures HostPatternMatches(patterns[i], StripPort(a)) == HostPatternMatches(others[i], StripPort(b))
    {
      PatternIgnoresCase(patterns[i], others[i], StripPort(a), StripPort(b));
    }
  }

  // What a list of hostnames covers

  /** One hostname covers a host: a wildcard stands for one label, anything else for itself, in either
      case of its letters. */
  ghost predicate CoversName(pattern: string, host: string) {
    if |pattern| >= 2 && pattern[0] == '*' && pattern[1] == '.'
    then exists first :: first != [] && Split(Lower(host), '.') == [first] + Split(Lower(pattern[2..]), '.')
    else SameText(pattern, host)
  }

  /** The host of a `Host` field: a bracketed address whole, anything else up to its last colon. */
  ghost predicate IsHostOf(name: string, field: string) {
    if (field != [] && field[0] == '[') || ':' !in field then name == field
    else exists port :: ':' !in port && field == name + ":" + port
  }

  /** No hostname covers every request; otherwise the request must have a host, and one hostname must
      cover it. */
  ghost predicate Covers(hostnames: seq<string>, host: Option<string>) {
    hostnames == []
    || (host.Some? && exists name, pattern :: IsHostOf(name, host.value) && pattern in hostnames && CoversName(pattern, name))
  }

  lemma PatternIff(pattern: string, host: string)
    ensures HostPatternMatches(pattern, host) <==> CoversName(pattern, host)
  {
    if WILDCARD <= pattern {
      assert pattern == WILDCARD + pattern[2..];
      WildcardIsLabelMatch(pattern[2..], host);
    } else {
      EqIgnoreCaseIff(host, pattern);
    }
  }

  lemma HostIs(name: string, field: string)
    ensures IsHostOf(name, field) <==> name == StripPort(field)
  {
    if !((field != [] && field[0] == '[') || ':' !in field) {
      var port :| field == StripPort(field) + ":" + port && ':' !in port;
      forall other, last | ':' !in last && field == other + ":" + last
        ensures other == StripPort(field)
      {
        LastColonSplits(other, last, StripPort(field), port);
      }
    }
  }

  lemma LastColonSplits(a: string, x: string, b: string, y: string)
    requires ':' !in x && ':' !in y && a + ":" + x == b + ":" + y
    ensures a == b
  {
    var s := a + ":" + x;
    assert s[|a|] == ':' && s[|b|] == ':';
    assert s[|a| + 1..] == x && s[|b| + 1..] == y;
    assert |a| == |b|;
    assert s[..|a|] == a && s[..|b|] == b;
  }

  /** The router's test of a route's hostnames. */
  lemma HostnameMatchesIff(hostnames: seq<string>, host: Option<string>)
    ensures HostnameMatches(hostnames, host) <==> Covers(hostnames, host)
  {
    if host.Some? {
      HostIs(StripPort(host.value), host.value);
      forall name | IsHostOf(name, host.value)
        ensures name == StripPort(host.value)
      {
        HostIs(name, host.value);
      }
      forall i | 0 <= i < |hostnames|
        ensures HostPatternMatches(hostnames[i], StripPort(host.value)) <==> CoversName(hostnames[i], StripPort(host.value))
      {
        PatternIff(hostnames[i], StripPort(host.value));
      }
      if pattern :| pattern in hostnames && CoversName(pattern, StripPort(host.value)) {
        var i :| 0 <= i < |hostnames| && hostnames[i] == pattern;
      }
    }
  }

  /** For instance: a port changes nothing, and without a host only a route without hostnames is met. */
  lemma PortIsIgnored(hostnames: seq<string>, name: string, port: string)
    requires ':' !in port && ':' !in name && (name != [] ==> name[0] != '[')
    ensures Covers(hostnames, Some(name + ":" + port)) <==> Covers(hostnames, Some(name))
    ensures Covers(hostnames, None) <==> hostnames == []
  {
    var field := name + ":" + port;
    assert field[|name|] == ':';
    assert field[0] == if name == [] then ':' else name[0];
    assert IsHostOf(name, field) && IsHostOf(name, name);
    forall other | IsHostOf(other, field)
      ensures other == name
    {
      var last :| ':' !in last && field == other + ":" + last;
      LastColonSplits(other, last, name, port);
    }
  }
}
