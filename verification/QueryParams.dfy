/** The query string: splitting at '&' and the first '='. */
module QueryParams {
  import opened Text

  function ParsePair(pair: string): (string, string) {
    match SplitOnce(pair, '=')
    case Some(parts) => parts
    case None => (pair, "")
  }

  function ParseQuery(query: string): seq<(string, string)> {
    ParsePieces(Split(query, '&'))
  }

  function ParsePieces(pieces: seq<string>): (params: seq<(string, string)>)
    ensures |params| == |pieces|
    ensures forall i :: 0 <= i < |pieces| ==> params[i] == ParsePair(pieces[i])
  {
    seq(|pieces|, i requires 0 <= i < |pieces| => ParsePair(pieces[i]))
  }

  function RenderPair(param: (string, string)): string {
    param.0 + "=" + param.1
  }

  function RenderPairs(params: seq<(string, string)>): (pieces: seq<string>)
    ensures |pieces| == |params|
    ensures forall i :: 0 <= i < |params| ==> pieces[i] == RenderPair(params[i])
  {
    seq(|params|, i requires 0 <= i < |params| => RenderPair(params[i]))
  }

  function RenderQuery(params: seq<(string, string)>): string {
    Join(RenderPairs(params), '&')
  }

  predicate Renderable(param: (string, string)) {
    '&' !in param.0 && '=' !in param.0 && '&' !in param.1
  }

  lemma ParseRendered(param: (string, string))
    requires '=' !in param.0
    ensures ParsePair(RenderPair(param)) == param
  {
    SplitOnceAt(param.0, '=', param.1);
    assert RenderPair(param) == param.0 + ['='] + param.1;
  }

  lemma ParsedNameHasNoEquals(pair: string)
    ensures '=' !in ParsePair(pair).0
  {
  }

  lemma {:induction false} CountConcat(a: string, b: string, c: char)
    ensures Count(a + b, c) == Count(a, c) + Count(b, c)
  {
    if a == [] {
      assert a + b == b;
    } else {
      CountConcat(a[1..], b, c);
      assert (a + b)[1..] == a[1..] + b;
    }
  }

  lemma {:induction false} CountPositive(s: string, c: char)
    ensures Count(s, c) == 0 <==> c !in s
  {
    if s == [] {
    } else {
      CountPositive(s[1..], c);
      assert s == [s[0]] + s[1..];
    }
  }

  /** Each piece brings its own separators, and joining adds one between two pieces. */
  lemma {:induction false} CountJoinAtLeast(parts: seq<string>, sep: char, k: nat)
    requires k < |parts| && sep in parts[k]
    ensures Count(Join(parts, sep), sep) >= |parts|
  {
    CountPositive(parts[0], sep);
    if |parts| == 1 {
    } else {
      CountConcat(parts[0] + [sep], Join(parts[1..], sep), sep);
      CountConcat(parts[0], [sep], sep);
      if k > 0 {
        CountJoinAtLeast(parts[1..], sep, k - 1);
      } else {
        CountJoinSeparators(parts[1..], sep);
      }
    }
  }

  lemma {:induction false} CountJoinSeparators(parts: seq<string>, sep: char)
    requires |parts| >= 1
    ensures Count(Join(parts, sep), sep) >= |parts| - 1
  {
    if |parts| > 1 {
      CountConcat(parts[0] + [sep], Join(parts[1..], sep), sep);
      CountConcat(parts[0], [sep], sep);
      CountJoinSeparators(parts[1..], sep);
    }
  }

  lemma RenderedPairHasAmpersand(param: (string, string))
    ensures '&' in RenderPair(param) <==> '&' in param.0 || '&' in param.1
  {
    var s := RenderPair(param);
    if i :| 0 <= i < |param.0| && param.0[i] == '&' {
      assert s[i] == '&';
    }
    if i :| 0 <= i < |param.1| && param.1[i] == '&' {
      assert s[|param.0| + 1 + i] == '&';
    }
  }

  /** Parsing inverts rendering exactly for the non-empty lists whose names avoid '&' and '='
      and whose values avoid '&'. */
  lemma QueryRoundTripIff(params: seq<(string, string)>)
    ensures ParseQuery(RenderQuery(params)) == params
            <==> params != [] && forall i :: 0 <= i < |params| ==> Renderable(params[i])
  {
    var pieces := RenderPairs(params);
    SplitLength(RenderQuery(params), '&');
    if params == [] {
    } else if k :| 0 <= k < |params| && '&' in pieces[k] {
      CountJoinAtLeast(pieces, '&', k);
      RenderedPairHasAmpersand(params[k]);
    } else {
      SplitJoin(pieces, '&');
      forall i | 0 <= i < |params|
        ensures ParsePair(pieces[i]) == params[i] <==> Renderable(params[i])
      {
        RenderedPairHasAmpersand(params[i]);
        ParsedNameHasNoEquals(pieces[i]);
        if '=' !in params[i].0 {
          ParseRendered(params[i]);
        }
      }
    }
  }

  /** Whatever the query was, rendering what was parsed and parsing again changes nothing. */
  lemma ParsedQueryIsRenderable(query: string)
    ensures ParseQuery(RenderQuery(ParseQuery(query))) == ParseQuery(query)
  {
    SplitPiecesFree(query, '&');
    var pieces := Split(query, '&');
    forall i | 0 <= i < |pieces|
      ensures Renderable(ParsePair(pieces[i]))
    {
      assert pieces[i] in pieces;
      ParsedNameHasNoEquals(pieces[i]);
    }
    QueryRoundTripIff(ParseQuery(query));
  }

  /** A parameter as it stands in a query, with or without a value. */
  datatype Item = Item(name: string, value: Option<string>)

  function ItemTexts(items: seq<Item>): (texts: seq<string>)
    ensures |texts| == |items|
    ensures forall i :: 0 <= i < |items| ==>
              texts[i] == items[i].name + if items[i].value.Some? then "=" + items[i].value.value else ""
  {
    seq(|items|, i requires 0 <= i < |items| => items[i].name + if items[i].value.Some? then "=" + items[i].value.value else "")
  }

  /** A parameter without "=" has the empty value; any other has what follows the first "=". */
  lemma ParsedItemsAre(items: seq<Item>)
    requires items != []
    requires forall i :: 0 <= i < |items| ==>
               '&' !in items[i].name && '=' !in items[i].name && (items[i].value.Some? ==> '&' !in items[i].value.value)
    ensures var params := ParseQuery(Join(ItemTexts(items), '&'));
            |params| == |items|
            && forall i :: 0 <= i < |items| ==>
                 params[i] == (items[i].name, if items[i].value.Some? then items[i].value.value else "")
  {
    var texts := ItemTexts(items);
    forall i | 0 <= i < |items|
      ensures '&' !in texts[i] && ParsePair(texts[i]) == (items[i].name, if items[i].value.Some? then items[i].value.value else "")
    {
      if items[i].value.Some? {
        ParseRendered((items[i].name, items[i].value.value));
        assert texts[i] == RenderPair((items[i].name, items[i].value.value));
      } else {
        assert texts[i] == items[i].name;
      }
    }
    SplitJoin(texts, '&');
  }
}
