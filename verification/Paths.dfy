/** Path prefixes: matching a prefix is matching '/'-separated segments, and replacing a
    matched prefix can be undone. */
module Paths {
  import opened Text
  import opened Routing

  // Matching

  lemma {:induction false} PrefixMatchIsSegmentMatch(prefix: string, path: string)
    ensures PrefixPathMatches(prefix, path) <==> prefix == "/" || Split(prefix, '/') <= Split(path, '/')
  {
    if prefix != "/" && PrefixPathMatches(prefix, path) && path != prefix {
      var rest := path[|prefix| + 1..];
      assert path == prefix + ['/'] + rest;
      SplitConcat(prefix, '/', rest);
    }
    if Split(prefix, '/') <= Split(path, '/') {
      SegmentMatchIsPrefixMatch(prefix, path);
    }
  }

  lemma {:induction false} SegmentMatchIsPrefixMatch(prefix: string, path: string)
    requires Split(prefix, '/') <= Split(path, '/')
    ensures PrefixPathMatches(prefix, path)
  {
    var a, b := Split(prefix, '/'), Split(path, '/')[|Split(prefix, '/')|..];
    assert Split(path, '/') == a + b;
    JoinSplit(prefix, '/');
    JoinSplit(path, '/');
    if b == [] {
      assert a + b == a;
    } else {
      JoinConcat(a, b, '/');
      assert path == prefix + ['/'] + Join(b, '/');
    }
  }

  /** A tie in path length between two matching prefixes means they are the same prefix. */
  lemma EqualLengthPrefixesAreEqual(p: string, q: string, path: string)
    requires path != [] && path[0] == '/'
    requires PrefixPathMatches(p, path) && PrefixPathMatches(q, path)
    requires |p| == |q|
    ensures p == q
  {
    assert p == path[..|p|];
    assert q == path[..|q|];
  }

  // Replacing

  /** The path with its matched prefix replaced, and no slash doubled or missing where the two
      parts meet.  `None` where the source panics, cutting the path past its end or inside a
      character. */
  function ReplacePrefix(original: string, matched: string, replacement: string): Option<string> {
    if !IsBoundary(original, |matched|) then None
    else
      var remainder := original[|matched|..];
      var trailing := EndsInSlash(replacement);
      var leading := remainder != [] && remainder[0] == '/';
      if trailing && leading then Some(replacement + remainder[1..])
      else if !trailing && !leading && remainder != [] then Some(replacement + "/" + remainder)
      else Some(replacement + remainder)
  }

  predicate EndsInSlash(s: string) {
    s != [] && s[|s| - 1] == '/'
  }

  /** No two neighbouring slashes. */
  predicate NoDoubleSlash(s: string) {
    forall i :: 0 <= i < |s| - 1 ==> !(s[i] == '/' && s[i + 1] == '/')
  }

  lemma ReplacePrefixRoundTrip(p: string, q: string, path: string)
    requires p != "/" && PrefixPathMatches(p, path)
    requires !EndsInSlash(p) && !EndsInSlash(q)
    ensures ReplacePrefix(path, p, q).Some?
    ensures var replaced := ReplacePrefix(path, p, q).value;
            PrefixPathMatches(q, replaced) && ReplacePrefix(replaced, q, p) == Some(path)
  {
    var remainder := path[|p|..];
    assert path == p + remainder;
    var replaced := q + remainder;
    assert ReplacePrefix(path, p, q).value == replaced;
    assert replaced[|q|..] == remainder;
    if remainder == [] {
      assert replaced == q;
    } else {
      assert replaced[|q|] == remainder[0] == '/';
      assert replaced[..|q|] == q;
    }
  }

  lemma ReplacePrefixKeepsSlashesSingle(original: string, matched: string, replacement: string)
    requires |matched| <= |original| && NoDoubleSlash(replacement) && NoDoubleSlash(original[|matched|..])
    ensures var result := ReplacePrefix(original, matched, replacement);
            result.Some? ==> NoDoubleSlash(result.value)
  {
    var remainder := original[|matched|..];
    var result := ReplacePrefix(original, matched, replacement);
    var trailing := EndsInSlash(replacement);
    var tail := if trailing && remainder != [] && remainder[0] == '/' then remainder[1..]
                else if !trailing && remainder != [] && remainder[0] != '/' then "/" + remainder
                else remainder;
    assert result.Some? ==> result.value == replacement + tail;
    assert NoDoubleSlash(tail) by {
      assert forall i :: 0 <= i < |remainder| - 1 ==> !(remainder[i] == '/' && remainder[i + 1] == '/');
    }
    NoDoubleSlashConcat(replacement, tail);
  }

  lemma NoDoubleSlashConcat(a: string, b: string)
    requires NoDoubleSlash(a) && NoDoubleSlash(b)
    requires EndsInSlash(a) && b != [] ==> b[0] != '/'
    ensures NoDoubleSlash(a + b)
  {
    var s := a + b;
    forall i | 0 <= i < |s| - 1
      ensures !(s[i] == '/' && s[i + 1] == '/')
    {
      if i >= |a| {
        assert s[i] == b[i - |a|] && s[i + 1] == b[i - |a| + 1];
      }
    }
  }

  /** For a prefix that matches, replacing it panics exactly when the prefix is "/" and the path is
      empty or begins with a character of several bytes; so never on a path that begins with "/". */
  lemma ReplacePrefixPanicsIff(prefix: string, path: string, replacement: string)
    requires PrefixPathMatches(prefix, path) && IsText(path)
    ensures ReplacePrefix(path, prefix, replacement).None?
            <==> prefix == "/" && (path == "" || (|path| > 1 && !IsLead(path[1])))
    ensures path != "" && path[0] == '/' ==> ReplacePrefix(path, prefix, replacement).Some?
  {
    if prefix == "" && path != "" {
      assert IsLead(path[0]);
    }
  }
}
