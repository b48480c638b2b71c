/** The two implementations of the Remove -> Set -> Add header modifications: in place on a
    list of fields, and on the multimap that the request pipeline uses. */
module HeaderFilters {
  import opened Text
  import opened Config

  type Header = (string, string)

  // The list form

  function Without(headers: seq<Header>, name: string): seq<Header> {
    if headers == [] then []
    else
      var n := |headers| - 1;
      var kept := Without(headers[..n], name);
      if EqIgnoreCase(headers[n].0, name) then kept else kept + [headers[n]]
  }

  function Overwritten(headers: seq<Header>, hv: HeaderValue): (r: seq<Header>)
    ensures |r| == |headers|
  {
    seq(|headers|, i requires 0 <= i < |headers| =>
      if EqIgnoreCase(headers[i].0, hv.name) then (headers[i].0, hv.value) else headers[i])
  }

  predicate Contains(headers: seq<Header>, name: string) {
    exists h :: h in headers && EqIgnoreCase(h.0, name)
  }

  function SetOne(headers: seq<Header>, hv: HeaderValue): seq<Header> {
    if Contains(headers, hv.name) then Overwritten(headers, hv) else headers + [(hv.name, hv.value)]
  }

  function RemoveAll(headers: seq<Header>, names: seq<string>): seq<Header> {
    if names == [] then headers
    else Without(RemoveAll(headers, names[..|names| - 1]), names[|names| - 1])
  }

  function SetAll(headers: seq<Header>, toSet: seq<HeaderValue>): seq<Header> {
    if toSet == [] then headers
    else SetOne(SetAll(headers, toSet[..|toSet| - 1]), toSet[|toSet| - 1])
  }

  function AddAll(headers: seq<Header>, toAdd: seq<HeaderValue>): seq<Header> {
    if toAdd == [] then headers
    else
      var hv := toAdd[|toAdd| - 1];
      AddAll(headers, toAdd[..|toAdd| - 1]) + [(hv.name, hv.value)]
  }

  function ListModified(headers: seq<Header>, remove: seq<string>, toSet: seq<HeaderValue>, toAdd: seq<HeaderValue>): seq<Header> {
    AddAll(SetAll(RemoveAll(headers, remove), toSet), toAdd)
  }

  class HeaderList {
    var entries: seq<Header>

    constructor (headers: seq<Header>)
      ensures entries == headers
    {
      entries := headers;
    }

    /** Overwrites every field of that name, in place. */
    method OverwriteAll(hv: HeaderValue) returns (found: bool)
      modifies this
      ensures entries == Overwritten(old(entries), hv)
      ensures found == Contains(old(entries), hv.name)
    {
      found := false;
      ghost var was := entries;
      for i := 0 to |entries|
        invariant |entries| == |was|
        invariant entries[..i] == Overwritten(was, hv)[..i]
        invariant entries[i..] == was[i..]
        invariant found == exists j :: 0 <= j < i && EqIgnoreCase(was[j].0, hv.name)
      {
        assert entries[i] == was[i];
        if EqIgnoreCase(entries[i].0, hv.name) {
          entries := entries[i := (entries[i].0, hv.value)];
          found := true;
        }
        assert entries[..i + 1] == entries[..i] + [entries[i]];
        assert entries[i + 1..] == was[i + 1..];
      }
      assert entries[..|entries|] == entries;
      assert Contains(was, hv.name) <==> exists j :: 0 <= j < |was| && EqIgnoreCase(was[j].0, hv.name);
    }

    method ApplyModifications(remove: seq<string>, toSet: seq<HeaderValue>, toAdd: seq<HeaderValue>)
      modifies this
      ensures entries == ListModified(old(entries), remove, toSet, toAdd)
    {
      ghost var was := entries;
      for i := 0 to |remove|
        invariant entries == RemoveAll(was, remove[..i])
      {
        entries := Without(entries, remove[i]);
        assert remove[..i + 1][..i] == remove[..i];
      }
      assert remove[..|remove|] == remove;
      ghost var removed := entries;
      for i := 0 to |toSet|
        invariant entries == SetAll(removed, toSet[..i])
      {
        ghost var before := entries;
        var hv := toSet[i];
        var found := OverwriteAll(hv);
        if !found {
          OverwrittenAbsent(before, hv);
          entries := entries + [(hv.name, hv.value)];
        }
        assert toSet[..i + 1][..i] == toSet[..i];
      }
      assert toSet[..|toSet|] == toSet;
      ghost var afterSet := entries;
      for i := 0 to |toAdd|
        invariant entries == AddAll(afterSet, toAdd[..i])
      {
        entries := entries + [(toAdd[i].name, toAdd[i].value)];
        assert toAdd[..i + 1][..i] == toAdd[..i];
      }
      assert toAdd[..|toAdd|] == toAdd;
    }
  }

  lemma OverwrittenAbsent(headers: seq<Header>, hv: HeaderValue)
    requires !Contains(headers, hv.name)
    ensures Overwritten(headers, hv) == headers
  {
    forall i | 0 <= i < |headers|
      ensures Overwritten(headers, hv)[i] == headers[i]
    {
      assert headers[i] in headers;
    }
  }

  // The multimap form: case-folded names to non-empty lists of values

  type Multimap = map<string, seq<string>>

  predicate IsTokenChar(c: char) {
    'a' <= c <= 'z' || 'A' <= c <= 'Z' || '0' <= c <= '9' || c in "!#$%&'*+-.^_`|~"
  }

  /** The text parses as a header name. */
  predicate ValidName(name: string) {
    name != [] && forall i :: 0 <= i < |name| ==> IsTokenChar(name[i])
  }

  /** The text converts to a header value: visible ASCII, space and tab. */
  predicate ValidValue(value: string) {
    forall i :: 0 <= i < |value| ==> 32 <= value[i] as int < 127 || value[i] == '\t'
  }

  function Get(m: Multimap, name: string): seq<string> {
    if name in m then m[name] else []
  }

  function MapRemoveAll(m: Multimap, names: seq<string>): Multimap {
    if names == [] then m
    else
      var before := MapRemoveAll(m, names[..|names| - 1]);
      var name := names[|names| - 1];
      if ValidName(name) then before - {Lower(name)} else before
  }

  function MapSetAll(m: Multimap, toSet: seq<HeaderValue>): Multimap {
    if toSet == [] then m
    else
      var before := MapSetAll(m, toSet[..|toSet| - 1]);
      var hv := toSet[|toSet| - 1];
      if ValidName(hv.name) && ValidValue(hv.value) then before[Lower(hv.name) := [hv.value]] else before
  }

  function MapAddAll(m: Multimap, toAdd: seq<HeaderValue>): Multimap {
    if toAdd == [] then m
    else
      var before := MapAddAll(m, toAdd[..|toAdd| - 1]);
      var hv := toAdd[|toAdd| - 1];
      var name := Lower(hv.name);
      if ValidName(hv.name) && ValidValue(hv.value) then before[name := Get(before, name) + [hv.value]] else before
  }

  function MapModified(m: Multimap, remove: seq<string>, toSet: seq<HeaderValue>, toAdd: seq<HeaderValue>): Multimap {
    MapAddAll(MapSetAll(MapRemoveAll(m, remove), toSet), toAdd)
  }

  class HeaderMap {
    var fields: Multimap

    constructor (initial: Multimap)
      ensures fields == initial
    {
      fields := initial;
    }

    /** Names and values that do not parse are skipped. */
    method ApplyFilters(remove: seq<string>, toSet: seq<HeaderValue>, toAdd: seq<HeaderValue>)
      modifies this
      ensures fields == MapModified(old(fields), remove, toSet, toAdd)
    {
      ghost var was := fields;
      for i := 0 to |remove|
        invariant fields == MapRemoveAll(was, remove[..i])
      {
        if ValidName(remove[i]) {
          fields := fields - {Lower(remove[i])};
        }
        assert remove[..i + 1][..i] == remove[..i];
      }
      assert remove[..|remove|] == remove;
      ghost var removed := fields;
      for i := 0 to |toSet|
        invariant fields == MapSetAll(removed, toSet[..i])
      {
        var hv := toSet[i];
        if ValidName(hv.name) && ValidValue(hv.value) {
          fields := fields[Lower(hv.name) := [hv.value]];
        }
        assert toSet[..i + 1][..i] == toSet[..i];
      }
      assert toSet[..|toSet|] == toSet;
      ghost var afterSet := fields;
      for i := 0 to |toAdd|
        invariant fields == MapAddAll(afterSet, toAdd[..i])
      {
        var hv := toAdd[i];
        if ValidName(hv.name) && ValidValue(hv.value) {
          var name := Lower(hv.name);
          fields := fields[name := Get(fields, name) + [hv.value]];
        }
        assert toAdd[..i + 1][..i] == toAdd[..i];
      }
      assert toAdd[..|toAdd|] == toAdd;
    }
  }

  // The request sent upstream

  function WithHost(m: Multimap, host: Option<string>): Multimap {
    if host.Some? && ValidValue(host.value) then m["host" := [host.value]] else m
  }

  function UpstreamFields(
    m: Multimap, rewriteHost: Option<string>, host: Option<string>,
    remove: seq<string>, toSet: seq<HeaderValue>, toAdd: seq<HeaderValue>): Multimap
  {
    var modified := MapModified(WithHost(m, rewriteHost), remove, toSet, toAdd);
    if "host" in modified then modified else WithHost(modified, host)
  }

  /** Rewrites the host, applies the modifications, and restores the original host if none is left. */
  method BuildUpstreamFields(
    headers: HeaderMap, rewriteHost: Option<string>, host: Option<string>,
    remove: seq<string>, toSet: seq<HeaderValue>, toAdd: seq<HeaderValue>)
    modifies headers
    ensures headers.fields == UpstreamFields(old(headers.fields), rewriteHost, host, remove, toSet, toAdd)
  {
    if rewriteHost.Some? && ValidValue(rewriteHost.value) {
      headers.fields := headers.fields["host" := [rewriteHost.value]];
    }
    headers.ApplyFilters(remove, toSet, toAdd);
    if "host" !in headers.fields && host.Some? && ValidValue(host.value) {
      headers.fields := headers.fields["host" := [host.value]];
    }
  }

  // What each form does to the values of one case-folded name

  function Values(headers: seq<Header>, name: string): seq<string> {
    if headers == [] then []
    else
      var n := |headers| - 1;
      Values(headers[..n], name) + (if Lower(headers[n].0) == name then [headers[n].1] else [])
  }

  predicate Mentions(names: seq<string>, name: string) {
    exists i :: 0 <= i < |names| && Lower(names[i]) == name
  }

  /** The value of the last entry for `name`. */
  function LastFor(entries: seq<HeaderValue>, name: string): Option<string> {
    if entries == [] then None
    else
      var n := |entries| - 1;
      if Lower(entries[n].name) == name then Some(entries[n].value) else LastFor(entries[..n], name)
  }

  function AllFor(entries: seq<HeaderValue>, name: string): seq<string> {
    if entries == [] then []
    else
      var n := |entries| - 1;
      AllFor(entries[..n], name) + (if Lower(entries[n].name) == name then [entries[n].value] else [])
  }

  function Repeat(value: string, n: nat): seq<string> {
    seq(n, _ => value)
  }

  lemma {:induction false} ValuesWithout(headers: seq<Header>, removed: string, name: string)
    ensures Values(Without(headers, removed), name) == if Lower(removed) == name then [] else Values(headers, name)
  {
    if headers == [] {
    } else {
      var n := |headers| - 1;
      var kept := Without(headers[..n], removed);
      ValuesWithout(headers[..n], removed, name);
      assert (kept + [headers[n]])[..|kept|] == kept;
    }
  }

  lemma MentionsStep(names: seq<string>, name: string)
    requires names != []
    ensures Mentions(names, name) <==> Mentions(names[..|names| - 1], name) || Lower(names[|names| - 1]) == name
  {
    var n := |names| - 1;
    if i :| 0 <= i < n && Lower(names[..n][i]) == name {
      assert Lower(names[i]) == name;
    }
  }

  lemma {:induction false} ValuesRemoved(headers: seq<Header>, names: seq<string>, name: string)
    ensures Values(RemoveAll(headers, names), name) == if Mentions(names, name) then [] else Values(headers, name)
  {
    if names == [] {
    } else {
      var n := |names| - 1;
      ValuesRemoved(headers, names[..n], name);
      ValuesWithout(RemoveAll(headers, names[..n]), names[n], name);
      MentionsStep(names, name);
    }
  }

  lemma {:induction false} ValuesOverwritten(headers: seq<Header>, hv: HeaderValue, name: string)
    ensures Values(Overwritten(headers, hv), name)
            == if Lower(hv.name) == name then Repeat(hv.value, |Values(headers, name)|) else Values(headers, name)
  {
    if headers == [] {
    } else {
      var n := |headers| - 1;
      ValuesOverwritten(headers[..n], hv, name);
      assert Overwritten(headers, hv)[..n] == Overwritten(headers[..n], hv);
    }
  }

  lemma {:induction false} ContainsHasValues(headers: seq<Header>, name: string)
    ensures Contains(headers, name) <==> Values(headers, Lower(name)) != []
  {
    if headers == [] {
    } else {
      var n := |headers| - 1;
      ContainsHasValues(headers[..n], name);
      assert headers == headers[..n] + [headers[n]];
    }
  }

  lemma {:induction false} ValuesSet(headers: seq<Header>, toSet: seq<HeaderValue>, name: string)
    ensures Values(SetAll(headers, toSet), name)
            == match LastFor(toSet, name)
               case None => Values(headers, name)
               case Some(v) => if Values(headers, name) == [] then [v] else Repeat(v, |Values(headers, name)|)
  {
    if toSet == [] {
    } else {
      var n := |toSet| - 1;
      var hv := toSet[n];
      var before := SetAll(headers, toSet[..n]);
      ValuesSet(headers, toSet[..n], name);
      ContainsHasValues(before, hv.name);
      ValuesOverwritten(before, hv, name);
      assert (before + [(hv.name, hv.value)])[..|before|] == before;
    }
  }

  lemma {:induction false} ValuesAdded(headers: seq<Header>, toAdd: seq<HeaderValue>, name: string)
    ensures Values(AddAll(headers, toAdd), name) == Values(headers, name) + AllFor(toAdd, name)
  {
    if toAdd == [] {
    } else {
      var n := |toAdd| - 1;
      var before := AddAll(headers, toAdd[..n]);
      ValuesAdded(headers, toAdd[..n], name);
      assert (before + [(toAdd[n].name, toAdd[n].value)])[..|before|] == before;
    }
  }

  ghost predicate AllValid(entries: seq<HeaderValue>) {
    forall i :: 0 <= i < |entries| ==> ValidName(entries[i].name) && ValidValue(entries[i].value)
  }

  lemma {:induction false} GetRemoved(m: Multimap, names: seq<string>, name: string)
    requires forall i :: 0 <= i < |names| ==> ValidName(names[i])
    ensures Get(MapRemoveAll(m, names), name) == if Mentions(names, name) then [] else Get(m, name)
  {
    if names == [] {
    } else {
      var n := |names| - 1;
      GetRemoved(m, names[..n], name);
      MentionsStep(names, name);
    }
  }

  lemma {:induction false} GetSet(m: Multimap, toSet: seq<HeaderValue>, name: string)
    requires AllValid(toSet)
    ensures Get(MapSetAll(m, toSet), name)
            == match LastFor(toSet, name) case None => Get(m, name) case Some(v) => [v]
  {
    if toSet == [] {
    } else {
      GetSet(m, toSet[..|toSet| - 1], name);
    }
  }

  lemma {:induction false} GetAdded(m: Multimap, toAdd: seq<HeaderValue>, name: string)
    requires AllValid(toAdd)
    ensures Get(MapAddAll(m, toAdd), name) == Get(m, name) + AllFor(toAdd, name)
  {
    if toAdd == [] {
    } else {
      GetAdded(m, toAdd[..|toAdd| - 1], name);
    }
  }

  // The refinement

  ghost predicate Represents(headers: seq<Header>, m: Multimap) {
    forall name :: Values(headers, name) == Get(m, name)
  }

  lemma {:induction false} ModifiedValues(
    headers: seq<Header>, m: Multimap, remove: seq<string>, toSet: seq<HeaderValue>, toAdd: seq<HeaderValue>, name: string)
    requires Values(headers, name) == Get(m, name)
    requires forall i :: 0 <= i < |remove| ==> ValidName(remove[i])
    requires AllValid(toSet) && AllValid(toAdd)
    ensures Values(ListModified(headers, remove, toSet, toAdd), name) == Get(MapModified(m, remove, toSet, toAdd), name)
            <==> (LastFor(toSet, name).Some? ==> |Values(RemoveAll(headers, remove), name)| <= 1)
  {
    var removed, mapRemoved := RemoveAll(headers, remove), MapRemoveAll(m, remove);
    ValuesRemoved(headers, remove, name);
    GetRemoved(m, remove, name);
    SetValues(removed, mapRemoved, toSet, name);
    ValuesAdded(SetAll(removed, toSet), toAdd, name);
    GetAdded(MapSetAll(mapRemoved, toSet), toAdd, name);
    SameSuffixCancels(Values(SetAll(removed, toSet), name), Get(MapSetAll(mapRemoved, toSet), name), AllFor(toAdd, name));
  }

  lemma {:induction false} SetValues(headers: seq<Header>, m: Multimap, toSet: seq<HeaderValue>, name: string)
    requires Values(headers, name) == Get(m, name) && AllValid(toSet)
    ensures Values(SetAll(headers, toSet), name) == Get(MapSetAll(m, toSet), name)
            <==> (LastFor(toSet, name).Some? ==> |Values(headers, name)| <= 1)
  {
    ValuesSet(headers, toSet, name);
    GetSet(m, toSet, name);
  }

  lemma SameSuffixCancels<T>(a: seq<T>, b: seq<T>, c: seq<T>)
    ensures a + c == b + c <==> a == b
  {
    if a + c == b + c {
      assert |a + c| == |a| + |c| && |b + c| == |b| + |c|;
      assert a == (a + c)[..|a|] && b == (b + c)[..|b|];
    }
  }

  lemma {:induction false} LastForSome(toSet: seq<HeaderValue>, name: string)
    ensures LastFor(toSet, name).Some? <==> exists hv :: hv in toSet && Lower(hv.name) == name
  {
    if toSet == [] {
    } else {
      var n := |toSet| - 1;
      LastForSome(toSet[..n], name);
      assert toSet == toSet[..n] + [toSet[n]];
    }
  }

  /** For valid names and values the two forms agree on every name exactly when, after the
      removals, no name that is set still has two or more fields. */
  lemma {:induction false} ListRefinesMapIff(
    headers: seq<Header>, m: Multimap, remove: seq<string>, toSet: seq<HeaderValue>, toAdd: seq<HeaderValue>)
    requires Represents(headers, m)
    requires forall i :: 0 <= i < |remove| ==> ValidName(remove[i])
    requires AllValid(toSet) && AllValid(toAdd)
    ensures Represents(ListModified(headers, remove, toSet, toAdd), MapModified(m, remove, toSet, toAdd))
            <==> forall hv :: hv in toSet ==> |Values(RemoveAll(headers, remove), Lower(hv.name))| <= 1
  {
    var list, multi := ListModified(headers, remove, toSet, toAdd), MapModified(m, remove, toSet, toAdd);
    var removed := RemoveAll(headers, remove);
    forall name
      ensures Values(list, name) == Get(multi, name) <==> (LastFor(toSet, name).Some? ==> |Values(removed, name)| <= 1)
    {
      ModifiedValues(headers, m, remove, toSet, toAdd, name);
    }
    forall hv | hv in toSet
      ensures Values(list, Lower(hv.name)) == Get(multi, Lower(hv.name)) <==> |Values(removed, Lower(hv.name))| <= 1
    {
      LastForSome(toSet, Lower(hv.name));
    }
    forall name | LastFor(toSet, name).Some?
      ensures exists hv :: hv in toSet && Lower(hv.name) == name
    {
      LastForSome(toSet, name);
    }
  }

  /** A valid original host is never lost; and a valid rewritten host is the one sent, with only
      added values after it, unless the modifications remove or set the host. */
  lemma {:induction false} UpstreamHost(
    m: Multimap, rewriteHost: Option<string>, host: Option<string>,
    remove: seq<string>, toSet: seq<HeaderValue>, toAdd: seq<HeaderValue>)
    requires forall i :: 0 <= i < |remove| ==> ValidName(remove[i])
    requires AllValid(toSet) && AllValid(toAdd)
    ensures var fields := UpstreamFields(m, rewriteHost, host, remove, toSet, toAdd);
            && (host.Some? && ValidValue(host.value) ==> "host" in fields)
            && (rewriteHost.Some? && ValidValue(rewriteHost.value) && !Mentions(remove, "host") && LastFor(toSet, "host").None?
                ==> Get(fields, "host") == [rewriteHost.value] + AllFor(toAdd, "host"))
  {
    var start := WithHost(m, rewriteHost);
    var removed := MapRemoveAll(start, remove);
    GetRemoved(start, remove, "host");
    GetSet(removed, toSet, "host");
    GetAdded(MapSetAll(removed, toSet), toAdd, "host");
  }

  // What is sent upstream, name by name

  predicate IsValidEntry(hv: HeaderValue) {
    ValidName(hv.name) && ValidValue(hv.value)
  }

  /** A name that parses is removed. */
  predicate IsRemoved(names: seq<string>, name: string) {
    exists i :: 0 <= i < |names| && ValidName(names[i]) && Lower(names[i]) == name
  }

  /** The last valid value given for the name. */
  function LastValid(entries: seq<HeaderValue>, name: string): Option<string> {
    if entries == [] then None
    else
      var hv := entries[|entries| - 1];
      if IsValidEntry(hv) && Lower(hv.name) == name then Some(hv.value) else LastValid(entries[..|entries| - 1], name)
  }

  /** All valid values given for the name. */
  function AllValidFor(entries: seq<HeaderValue>, name: string): seq<string> {
    if entries == [] then []
    else
      var hv := entries[|entries| - 1];
      AllValidFor(entries[..|entries| - 1], name) + (if IsValidEntry(hv) && Lower(hv.name) == name then [hv.value] else [])
  }

  lemma {:induction false} RemovedValues(m: Multimap, names: seq<string>, name: string)
    ensures Get(MapRemoveAll(m, names), name) == if IsRemoved(names, name) then [] else Get(m, name)
  {
    if names == [] {
    } else {
      var n := |names| - 1;
      RemovedValues(m, names[..n], name);
      assert names == names[..n] + [names[n]];
      assert IsRemoved(names, name) <==> IsRemoved(names[..n], name) || (ValidName(names[n]) && Lower(names[n]) == name) by {
        if i :| 0 <= i < n && ValidName(names[i]) && Lower(names[i]) == name {
          assert names[..n][i] == names[i];
        }
      }
    }
  }

  lemma {:induction false} SetOnes(m: Multimap, toSet: seq<HeaderValue>, name: string)
    ensures Get(MapSetAll(m, toSet), name) == match LastValid(toSet, name) case None => Get(m, name) case Some(v) => [v]
  {
    if toSet == [] {
    } else {
      SetOnes(m, toSet[..|toSet| - 1], name);
    }
  }

  lemma {:induction false} AddedOnes(m: Multimap, toAdd: seq<HeaderValue>, name: string)
    ensures Get(MapAddAll(m, toAdd), name) == Get(m, name) + AllValidFor(toAdd, name)
  {
    if toAdd == [] {
    } else {
      AddedOnes(m, toAdd[..|toAdd| - 1], name);
    }
  }

  /** As in a header map: a name that is there has a value. */
  ghost predicate IsProper(m: Multimap) {
    forall name :: name in m ==> m[name] != []
  }

  lemma {:induction false} RemovalIsProper(m: Multimap, names: seq<string>)
    requires IsProper(m)
    ensures IsProper(MapRemoveAll(m, names))
  {
    if names == [] {
    } else {
      RemovalIsProper(m, names[..|names| - 1]);
    }
  }

  lemma {:induction false} SettingIsProper(m: Multimap, toSet: seq<HeaderValue>)
    requires IsProper(m)
    ensures IsProper(MapSetAll(m, toSet))
  {
    if toSet == [] {
    } else {
      SettingIsProper(m, toSet[..|toSet| - 1]);
    }
  }

  lemma {:induction false} AddingIsProper(m: Multimap, toAdd: seq<HeaderValue>)
    requires IsProper(m)
    ensures IsProper(MapAddAll(m, toAdd))
  {
    if toAdd == [] {
    } else {
      AddingIsProper(m, toAdd[..|toAdd| - 1]);
    }
  }

  /** The values sent for a name: those of the request, or the rewritten host; none if the name is removed; the
      last valid one set; and all valid ones added.  If no host is left, the original one, when valid. */
  function SentValues(
    given: seq<string>, rewritten: Option<string>, original: Option<string>,
    remove: seq<string>, toSet: seq<HeaderValue>, toAdd: seq<HeaderValue>, name: string): seq<string>
  {
    var start := if name == "host" && rewritten.Some? && ValidValue(rewritten.value) then [rewritten.value] else given;
    var kept := if IsRemoved(remove, name) then [] else start;
    var values := (match LastValid(toSet, name) case None => kept case Some(v) => [v]) + AllValidFor(toAdd, name);
    if name == "host" && values == [] && original.Some? && ValidValue(original.value) then [original.value] else values
  }

  lemma UpstreamValues(
    m: Multimap, rewriteHost: Option<string>, host: Option<string>,
    remove: seq<string>, toSet: seq<HeaderValue>, toAdd: seq<HeaderValue>, name: string)
    requires IsProper(m)
    ensures Get(UpstreamFields(m, rewriteHost, host, remove, toSet, toAdd), name)
            == SentValues(Get(m, name), rewriteHost, host, remove, toSet, toAdd, name)
  {
    var start := WithHost(m, rewriteHost);
    var removed := MapRemoveAll(start, remove);
    var whole := MapSetAll(removed, toSet);
    RemovedValues(start, remove, name);
    SetOnes(removed, toSet, name);
    AddedOnes(whole, toAdd, name);
    RemovalIsProper(start, remove);
    SettingIsProper(removed, toSet);
    AddingIsProper(whole, toAdd);
  }

  // Fields that no modification names

  predicate Touched(name: string, remove: seq<string>, entries: seq<HeaderValue>) {
    Mentions(remove, Lower(name)) || exists i :: 0 <= i < |entries| && EqIgnoreCase(entries[i].name, name)
  }

  function Untouched(headers: seq<Header>, remove: seq<string>, entries: seq<HeaderValue>): seq<Header> {
    if headers == [] then []
    else
      var n := |headers| - 1;
      Untouched(headers[..n], remove, entries) + (if Touched(headers[n].0, remove, entries) then [] else [headers[n]])
  }

  lemma {:induction false} UntouchedWithout(headers: seq<Header>, name: string, remove: seq<string>, entries: seq<HeaderValue>)
    requires name in remove
    ensures Untouched(Without(headers, name), remove, entries) == Untouched(headers, remove, entries)
  {
    if headers == [] {
    } else {
      var n := |headers| - 1;
      var kept := Without(headers[..n], name);
      UntouchedWithout(headers[..n], name, remove, entries);
      assert (kept + [headers[n]])[..|kept|] == kept;
    }
  }

  lemma {:induction false} UntouchedOverwritten(headers: seq<Header>, hv: HeaderValue, remove: seq<string>, entries: seq<HeaderValue>)
    requires hv in entries
    ensures Untouched(Overwritten(headers, hv), remove, entries) == Untouched(headers, remove, entries)
  {
    if headers == [] {
    } else {
      var n := |headers| - 1;
      UntouchedOverwritten(headers[..n], hv, remove, entries);
      assert Overwritten(headers, hv)[..n] == Overwritten(headers[..n], hv);
    }
  }

  lemma {:induction false} UntouchedAppended(headers: seq<Header>, hv: HeaderValue, remove: seq<string>, entries: seq<HeaderValue>)
    requires hv in entries
    ensures Untouched(headers + [(hv.name, hv.value)], remove, entries) == Untouched(headers, remove, entries)
  {
    assert (headers + [(hv.name, hv.value)])[..|headers|] == headers;
  }

  lemma {:induction false} UntouchedRemoved(headers: seq<Header>, names: seq<string>, remove: seq<string>, entries: seq<HeaderValue>)
    requires forall name :: name in names ==> name in remove
    ensures Untouched(RemoveAll(headers, names), remove, entries) == Untouched(headers, remove, entries)
  {
    if names == [] {
    } else {
      var n := |names| - 1;
      UntouchedRemoved(headers, names[..n], remove, entries);
      UntouchedWithout(RemoveAll(headers, names[..n]), names[n], remove, entries);
    }
  }

  lemma {:induction false} UntouchedSet(headers: seq<Header>, toSet: seq<HeaderValue>, remove: seq<string>, entries: seq<HeaderValue>)
    requires forall hv :: hv in toSet ==> hv in entries
    ensures Untouched(SetAll(headers, toSet), remove, entries) == Untouched(headers, remove, entries)
  {
    if toSet == [] {
    } else {
      var n := |toSet| - 1;
      var before := SetAll(headers, toSet[..n]);
      UntouchedSet(headers, toSet[..n], remove, entries);
      UntouchedOverwritten(before, toSet[n], remove, entries);
      UntouchedAppended(before, toSet[n], remove, entries);
    }
  }

  lemma {:induction false} UntouchedAdded(headers: seq<Header>, toAdd: seq<HeaderValue>, remove: seq<string>, entries: seq<HeaderValue>)
    requires forall hv :: hv in toAdd ==> hv in entries
    ensures Untouched(AddAll(headers, toAdd), remove, entries) == Untouched(headers, remove, entries)
  {
    if toAdd == [] {
    } else {
      var n := |toAdd| - 1;
      UntouchedAdded(headers, toAdd[..n], remove, entries);
      UntouchedAppended(AddAll(headers, toAdd[..n]), toAdd[n], remove, entries);
    }
  }

  /** Fields whose name no modification mentions keep their order, spelling and values. */
  lemma {:induction false} UntouchedFieldsAreKept(headers: seq<Header>, remove: seq<string>, toSet: seq<HeaderValue>, toAdd: seq<HeaderValue>)
    ensures Untouched(ListModified(headers, remove, toSet, toAdd), remove, toSet + toAdd)
            == Untouched(headers, remove, toSet + toAdd)
  {
    var entries := toSet + toAdd;
    var removed := RemoveAll(headers, remove);
    UntouchedRemoved(headers, remove, remove, entries);
    UntouchedSet(removed, toSet, remove, entries);
    UntouchedAdded(SetAll(removed, toSet), toAdd, remove, entries);
  }
}
