/** WebSocket upgrade detection, twice: on the raw text of a request head, and on parsed header
    fields.  Here a `char` is a decoded character of the head. */
module WebSocket {
  import opened Text
  import opened HeaderFilters

  // Text utilities

  /** The characters with the Unicode property White_Space. */
  predicate IsWhitespace(c: char) {
    var n := c as int;
    9 <= n <= 13 || n == 0x20 || n == 0x85 || n == 0xA0 || n == 0x1680 || 0x2000 <= n <= 0x200A
    || n == 0x2028 || n == 0x2029 || n == 0x202F || n == 0x205F || n == 0x3000
  }

  function TrimStart(s: string): string {
    if s != [] && IsWhitespace(s[0]) then TrimStart(s[1..]) else s
  }

  function TrimEnd(s: string): string {
    if s != [] && IsWhitespace(s[|s| - 1]) then TrimEnd(s[..|s| - 1]) else s
  }

  function Trim(s: string): string {
    TrimEnd(TrimStart(s))
  }

  function StripCarriageReturn(line: string): string {
    if line != [] && line[|line| - 1] == '\r' then line[..|line| - 1] else line
  }

  /** The lines of a text, each ended by a line feed or by carriage return and line feed; the
      last one need not be ended. */
  function Lines(s: string): seq<string> {
    if s == [] then []
    else
      var i := IndexOf(s, '\n');
      if i == |s| then [s] else [StripCarriageReturn(s[..i])] + Lines(s[i + 1..])
  }

  predicate HasToken(value: string, token: string) {
    exists part :: part in Split(value, ',') && EqIgnoreCase(Trim(part), token)
  }

  // On parsed fields

  function FirstValue(headers: seq<Header>, name: string): Option<string> {
    if headers == [] then None
    else if Lower(headers[0].0) == name then Some(headers[0].1)
    else FirstValue(headers[1..], name)
  }

  predicate HasField(headers: seq<Header>, name: string) {
    FirstValue(headers, name).Some?
  }

  /** The verdict on one value each of `Connection` and `Upgrade`, and on the presence of the
      two `Sec-WebSocket` fields.  A value counts only if it is visible ASCII. */
  predicate Upgrades(connection: Option<string>, upgrade: Option<string>, version: bool, key: bool) {
    && connection.Some? && ValidValue(connection.value) && HasToken(connection.value, "upgrade")
    && upgrade.Some? && ValidValue(upgrade.value) && EqIgnoreCase(upgrade.value, "websocket")
    && version && key
  }

  predicate IsWebsocketUpgrade(headers: seq<Header>) {
    Upgrades(FirstValue(headers, "connection"), FirstValue(headers, "upgrade"),
             HasField(headers, "sec-websocket-version"), HasField(headers, "sec-websocket-key"))
  }

  // On the raw text

  datatype Flags = Flags(connection: bool, upgrade: bool, version: bool, key: bool)

  function Marked(name: string, value: string, flags: Flags): Flags {
    if EqIgnoreCase(name, "connection") then flags.(connection := HasToken(value, "upgrade"))
    else if EqIgnoreCase(name, "upgrade") then flags.(upgrade := EqIgnoreCase(value, "websocket"))
    else if EqIgnoreCase(name, "sec-websocket-version") then flags.(version := true)
    else if EqIgnoreCase(name, "sec-websocket-key") then flags.(key := true)
    else flags
  }

  function LineMarked(line: string, flags: Flags): Flags {
    match SplitOnce(line, ':')
    case Some(parts) => Marked(Trim(parts.0), Trim(parts.1), flags)
    case None => flags
  }

  predicate IsBlank(line: string) {
    line == "" || line == "\r"
  }

  function FlagsAfter(lines: seq<string>, flags: Flags): Flags {
    if lines == [] || IsBlank(lines[0]) then flags
    else FlagsAfter(lines[1..], LineMarked(lines[0], flags))
  }

  lemma {:induction false} FlagsAfterStep(lines: seq<string>, i: nat, flags: Flags)
    requires i < |lines|
    ensures FlagsAfter(lines[i..], flags)
            == if IsBlank(lines[i]) then flags else FlagsAfter(lines[i + 1..], LineMarked(lines[i], flags))
  {
    assert lines[i..][1..] == lines[i + 1..];
  }

  const NO_FLAGS := Flags(false, false, false, false)

  predicate RawVerdict(text: string) {
    var lines := Lines(text);
    lines != [] && FlagsAfter(lines[1..], NO_FLAGS) == Flags(true, true, true, true)
  }

  /** `text` is absent when the bytes are not valid UTF-8. */
  method IsRawWebsocketUpgrade(text: Option<string>) returns (upgrade: bool)
    ensures upgrade <==> text.Some? && RawVerdict(text.value)
  {
    if text.None? {
      return false;
    }
    var hasConnectionUpgrade, hasUpgradeWebsocket, hasVersion, hasKey := false, false, false, false;
    var lines := Lines(text.value);
    var i := 1;
    while i < |lines|
      invariant 1 <= i
      invariant 0 < |lines| ==> i <= |lines|
      invariant 0 < |lines| ==>
                  FlagsAfter(lines[i..], Flags(hasConnectionUpgrade, hasUpgradeWebsocket, hasVersion, hasKey))
                  == FlagsAfter(lines[1..], NO_FLAGS)
      invariant |lines| == 0 ==> !hasKey
    {
      var line := lines[i];
      FlagsAfterStep(lines, i, Flags(hasConnectionUpgrade, hasUpgradeWebsocket, hasVersion, hasKey));
      if IsBlank(line) {
        break;
      }
      var parts := SplitOnce(line, ':');
      if parts.Some? {
        var name, value := Trim(parts.value.0), Trim(parts.value.1);
        if EqIgnoreCase(name, "connection") {
          hasConnectionUpgrade := HasToken(value, "upgrade");
        } else if EqIgnoreCase(name, "upgrade") {
          hasUpgradeWebsocket := EqIgnoreCase(value, "websocket");
        } else if EqIgnoreCase(name, "sec-websocket-version") {
          hasVersion := true;
        } else if EqIgnoreCase(name, "sec-websocket-key") {
          hasKey := true;
        }
      }
      i := i + 1;
    }
    upgrade := hasConnectionUpgrade && hasUpgradeWebsocket && hasVersion && hasKey;
  }

  // Rendered heads

  /** A header field with the optional whitespace on both sides of its value. */
  datatype Field = Field(name: string, before: string, value: string, after: string)

  predicate IsOptionalWhitespace(s: string) {
    forall i :: 0 <= i < |s| ==> s[i] in " \t"
  }

  predicate IsTrimmed(s: string) {
    s == "" || (!IsWhitespace(s[0]) && !IsWhitespace(s[|s| - 1]))
  }

  predicate WellFormed(f: Field) {
    && ValidName(f.name) && ValidValue(f.value) && IsTrimmed(f.value)
    && IsOptionalWhitespace(f.before) && IsOptionalWhitespace(f.after)
  }

  function RenderField(f: Field): string {
    f.name + ":" + (f.before + f.value + f.after)
  }

  function RenderFields(fields: seq<Field>, rest: string): string {
    if fields == [] then rest else RenderField(fields[0]) + "\r\n" + RenderFields(fields[1..], rest)
  }

  /** Section 2.1 of RFC 9112: request line, field lines (section 5), an empty line; then anything. */
  function RenderRequest(requestLine: string, fields: seq<Field>, body: string): string {
    requestLine + "\r\n" + RenderFields(fields, "\r\n" + body)
  }

  function Headers(fields: seq<Field>): seq<Header> {
    if fields == [] then [] else [(fields[0].name, fields[0].value)] + Headers(fields[1..])
  }

  function LastValue(headers: seq<Header>, name: string): Option<string> {
    if headers == [] then None
    else
      var later := LastValue(headers[1..], name);
      if later.Some? then later
      else if Lower(headers[0].0) == name then Some(headers[0].1) else None
  }

  function MarkAll(headers: seq<Header>, flags: Flags): Flags {
    if headers == [] then flags else MarkAll(headers[1..], Marked(headers[0].0, headers[0].1, flags))
  }

  lemma {:induction false} TrimStartPadded(before: string, s: string)
    requires forall i :: 0 <= i < |before| ==> IsWhitespace(before[i])
    ensures TrimStart(before + s) == TrimStart(s)
  {
    if before == [] {
      assert before + s == s;
    } else {
      assert (before + s)[1..] == before[1..] + s;
      TrimStartPadded(before[1..], s);
    }
  }

  lemma {:induction false} TrimEndPadded(s: string, after: string)
    requires forall i :: 0 <= i < |after| ==> IsWhitespace(after[i])
    ensures TrimEnd(s + after) == TrimEnd(s)
  {
    if after == [] {
      assert s + after == s;
    } else {
      var n := |after| - 1;
      assert (s + after)[..|s + after| - 1] == s + after[..n];
      TrimEndPadded(s, after[..n]);
    }
  }

  lemma TrimPadded(before: string, value: string, after: string)
    requires IsOptionalWhitespace(before) && IsOptionalWhitespace(after) && IsTrimmed(value)
    ensures Trim(before + value + after) == value
  {
    assert before + value + after == before + (value + after);
    TrimStartPadded(before, value + after);
    if value == "" {
      assert value + after == after + "";
      TrimStartPadded(after, "");
    } else {
      assert (value + after)[0] == value[0];
      TrimEndPadded(value, after);
    }
  }

  lemma {:induction false} LinesStep(line: string, rest: string)
    requires '\n' !in line
    ensures Lines(line + "\r\n" + rest) == [line] + Lines(rest)
  {
    var s := line + "\r\n" + rest;
    assert s == (line + "\r") + ['\n'] + rest;
    SplitOnceAt(line + "\r", '\n', rest);
    var i := IndexOf(s, '\n');
    assert s[..i] == line + "\r" && s[i + 1..] == rest;
    assert (line + "\r")[..|line|] == line;
  }

  lemma TokenIsTrimmed(name: string)
    requires ValidName(name)
    ensures Trim(name) == name && ':' !in name && '\n' !in name
  {
    forall i | 0 <= i < |name|
      ensures !IsWhitespace(name[i]) && name[i] != ':' && name[i] != '\n'
    {
      TokenCharIsPlain(name[i]);
    }
    TrimPadded("", name, "");
    assert "" + name + "" == name;
  }

  lemma TokenCharIsPlain(c: char)
    requires IsTokenChar(c)
    ensures !IsWhitespace(c) && c != ':' && c != '\n'
  {
  }

  lemma RenderedFieldIsOneLine(f: Field)
    requires WellFormed(f)
    ensures '\n' !in RenderField(f) && !IsBlank(RenderField(f))
  {
    TokenIsTrimmed(f.name);
    assert '\n' !in f.before && '\n' !in f.value && '\n' !in f.after;
    assert RenderField(f)[|f.name|] == ':';
  }

  lemma RenderedFieldMarks(f: Field, flags: Flags)
    requires WellFormed(f)
    ensures LineMarked(RenderField(f), flags) == Marked(f.name, f.value, flags)
  {
    TokenIsTrimmed(f.name);
    TrimPadded(f.before, f.value, f.after);
    SplitOnceAt(f.name, ':', f.before + f.value + f.after);
  }

  lemma {:induction false} RenderedFieldsMark(fields: seq<Field>, body: string, flags: Flags)
    requires forall i :: 0 <= i < |fields| ==> WellFormed(fields[i])
    ensures FlagsAfter(Lines(RenderFields(fields, "\r\n" + body)), flags) == MarkAll(Headers(fields), flags)
  {
    if fields == [] {
      assert "\r\n" + body == "" + "\r\n" + body;
      LinesStep("", body);
    } else {
      var f := fields[0];
      RenderedFieldMarks(f, flags);
      RenderedFieldIsOneLine(f);
      LinesStep(RenderField(f), RenderFields(fields[1..], "\r\n" + body));
      RenderedFieldsMark(fields[1..], body, Marked(f.name, f.value, flags));
    }
  }

  lemma {:induction false} MarkAllIsLast(headers: seq<Header>, flags: Flags)
    ensures MarkAll(headers, flags)
            == Flags(
                 match LastValue(headers, "connection") case Some(v) => HasToken(v, "upgrade") case None => flags.connection,
                 match LastValue(headers, "upgrade") case Some(v) => EqIgnoreCase(v, "websocket") case None => flags.upgrade,
                 flags.version || HasField(headers, "sec-websocket-version"),
                 flags.key || HasField(headers, "sec-websocket-key"))
  {
    if headers == [] {
    } else {
      MarkedIs(headers[0].0, headers[0].1, flags);
      MarkAllIsLast(headers[1..], Marked(headers[0].0, headers[0].1, flags));
    }
  }

  lemma MarkedIs(name: string, value: string, flags: Flags)
    ensures Marked(name, value, flags)
            == Flags(
                 if Lower(name) == "connection" then HasToken(value, "upgrade") else flags.connection,
                 if Lower(name) == "upgrade" then EqIgnoreCase(value, "websocket") else flags.upgrade,
                 flags.version || Lower(name) == "sec-websocket-version",
                 flags.key || Lower(name) == "sec-websocket-key")
  {
    LiteralsAreLower();
  }

  lemma LiteralsAreLower()
    ensures Lower("connection") == "connection" && Lower("upgrade") == "upgrade"
    ensures Lower("sec-websocket-version") == "sec-websocket-version" && Lower("sec-websocket-key") == "sec-websocket-key"
  {
  }

  lemma {:induction false} LastValueIsValid(fields: seq<Field>, name: string)
    requires forall i :: 0 <= i < |fields| ==> WellFormed(fields[i])
    ensures LastValue(Headers(fields), name).Some? ==> ValidValue(LastValue(Headers(fields), name).value)
  {
    if fields == [] {
    } else {
      LastValueIsValid(fields[1..], name);
    }
  }

  /** On every rendered request the raw detector decides by the last `Connection` and the last
      `Upgrade` field, whatever follows the blank line. */
  lemma {:induction false} RawDecidesByLastFields(requestLine: string, fields: seq<Field>, body: string)
    requires '\n' !in requestLine
    requires forall i :: 0 <= i < |fields| ==> WellFormed(fields[i])
    ensures var headers := Headers(fields);
            RawVerdict(RenderRequest(requestLine, fields, body))
            <==> Upgrades(LastValue(headers, "connection"), LastValue(headers, "upgrade"),
                          HasField(headers, "sec-websocket-version"), HasField(headers, "sec-websocket-key"))
  {
    LinesStep(requestLine, RenderFields(fields, "\r\n" + body));
    RenderedFieldsMark(fields, body, NO_FLAGS);
    MarkAllIsLast(Headers(fields), NO_FLAGS);
    LastValueIsValid(fields, "connection");
    LastValueIsValid(fields, "upgrade");
  }

  function FieldCount(headers: seq<Header>, name: string): nat {
    if headers == [] then 0 else (if Lower(headers[0].0) == name then 1 else 0) + FieldCount(headers[1..], name)
  }

  lemma {:induction false} SingleFirstIsLast(headers: seq<Header>, name: string)
    requires FieldCount(headers, name) <= 1
    ensures FirstValue(headers, name) == LastValue(headers, name)
    ensures FieldCount(headers, name) == 0 ==> FirstValue(headers, name).None?
  {
    if headers == [] {
    } else {
      SingleFirstIsLast(headers[1..], name);
    }
  }

  /** With at most one `Connection` and one `Upgrade` field the two detectors agree. */
  lemma {:induction false} RawAgreesWithParsed(requestLine: string, fields: seq<Field>, body: string)
    requires '\n' !in requestLine
    requires forall i :: 0 <= i < |fields| ==> WellFormed(fields[i])
    requires FieldCount(Headers(fields), "connection") <= 1 && FieldCount(Headers(fields), "upgrade") <= 1
    ensures RawVerdict(RenderRequest(requestLine, fields, body)) <==> IsWebsocketUpgrade(Headers(fields))
  {
    RawDecidesByLastFields(requestLine, fields, body);
    SingleFirstIsLast(Headers(fields), "connection");
    SingleFirstIsLast(Headers(fields), "upgrade");
  }

  lemma {:induction false} AppendedField(fields: seq<Field>, f: Field, name: string)
    ensures Headers(fields + [f]) == Headers(fields) + [(f.name, f.value)]
    ensures FirstValue(Headers(fields), name).Some? ==> FirstValue(Headers(fields + [f]), name) == FirstValue(Headers(fields), name)
    ensures Lower(f.name) == name ==> LastValue(Headers(fields + [f]), name) == Some(f.value)
  {
    if fields == [] {
      assert fields + [f] == [f];
    } else {
      assert (fields + [f])[1..] == fields[1..] + [f];
      AppendedField(fields[1..], f, name);
    }
  }

  /** More fields never withdraw the parsed verdict ... */
  lemma {:induction false} ParsedVerdictStays(fields: seq<Field>, f: Field)
    requires IsWebsocketUpgrade(Headers(fields))
    ensures IsWebsocketUpgrade(Headers(fields + [f]))
  {
    AppendedField(fields, f, "connection");
    AppendedField(fields, f, "upgrade");
    AppendedField(fields, f, "sec-websocket-version");
    AppendedField(fields, f, "sec-websocket-key");
  }

  /** ... but a later `Connection` field without the token withdraws the raw one, so with two such
      fields the detectors can differ. */
  lemma RawVerdictFalls(requestLine: string, fields: seq<Field>, f: Field, body: string)
    requires '\n' !in requestLine
    requires forall i :: 0 <= i < |fields + [f]| ==> WellFormed((fields + [f])[i])
    requires Lower(f.name) == "connection" && !HasToken(f.value, "upgrade")
    ensures !RawVerdict(RenderRequest(requestLine, fields + [f], body))
  {
    AppendedField(fields, f, "connection");
    RawDecidesByLastFields(requestLine, fields + [f], body);
  }

  // Exactly when the detectors agree

  /** The values ask for an upgrade to WebSocket. */
  predicate Asks(connection: Option<string>, upgrade: Option<string>) {
    && connection.Some? && HasToken(connection.value, "upgrade")
    && upgrade.Some? && EqIgnoreCase(upgrade.value, "websocket")
  }

  lemma {:induction false} FirstValueIsValid(fields: seq<Field>, name: string)
    requires forall i :: 0 <= i < |fields| ==> WellFormed(fields[i])
    ensures FirstValue(Headers(fields), name).Some? ==> ValidValue(FirstValue(Headers(fields), name).value)
  {
    if fields == [] {
    } else {
      FirstValueIsValid(fields[1..], name);
    }
  }

  /** On every rendered request the detectors agree exactly when a `Sec-WebSocket` field is missing, or
      the first `Connection` and `Upgrade` fields ask for an upgrade just as the last ones do. */
  lemma {:induction false} DetectorsAgreeIff(requestLine: string, fields: seq<Field>, body: string)
    requires '\n' !in requestLine
    requires forall i :: 0 <= i < |fields| ==> WellFormed(fields[i])
    ensures var headers := Headers(fields);
            (RawVerdict(RenderRequest(requestLine, fields, body)) <==> IsWebsocketUpgrade(headers))
            <==> (HasField(headers, "sec-websocket-version") && HasField(headers, "sec-websocket-key")
                  ==> (Asks(FirstValue(headers, "connection"), FirstValue(headers, "upgrade"))
                       <==> Asks(LastValue(headers, "connection"), LastValue(headers, "upgrade"))))
  {
    RawDecidesByLastFields(requestLine, fields, body);
    FirstValueIsValid(fields, "connection");
    FirstValueIsValid(fields, "upgrade");
    LastValueIsValid(fields, "connection");
    LastValueIsValid(fields, "upgrade");
  }

  /** Inputs: every handshake that is followed by a `Connection` field without the token. */
  lemma {:induction false} ClosedHandshakesDisagree(requestLine: string, fields: seq<Field>, f: Field, body: string)
    requires '\n' !in requestLine && IsWebsocketUpgrade(Headers(fields))
    requires forall i :: 0 <= i < |fields + [f]| ==> WellFormed((fields + [f])[i])
    requires Lower(f.name) == "connection" && !HasToken(f.value, "upgrade")
    ensures IsWebsocketUpgrade(Headers(fields + [f])) && !RawVerdict(RenderRequest(requestLine, fields + [f], body))
  {
    ParsedVerdictStays(fields, f);
    RawVerdictFalls(requestLine, fields, f, body);
  }

  const CONNECTION := Field("connection", " ", "upgrade", "")
  const UPGRADE := Field("upgrade", " ", "websocket", "")
  const VERSION := Field("sec-websocket-version", " ", "13", "")
  const KEY := Field("sec-websocket-key", " ", "a", "")
  const CLOSING := Field("connection", " ", "close", "")

  /** One of them: a request for an upgrade, and then `connection: close`. */
  lemma TwoConnectionFieldsDisagree(requestLine: string, body: string)
    requires '\n' !in requestLine
    ensures var fields := [CONNECTION, UPGRADE, VERSION, KEY] + [CLOSING];
            IsWebsocketUpgrade(Headers(fields)) && !RawVerdict(RenderRequest(requestLine, fields, body))
  {
    ConnectionIsWellFormed();
    UpgradeIsWellFormed();
    VersionIsWellFormed();
    KeyIsWellFormed();
    ClosingIsWellFormed();
    ConnectionAsks();
    ClosingDoesNotAsk();
    LiteralsAreLower();
    HandshakeThenClose(requestLine, CONNECTION, UPGRADE, VERSION, KEY, CLOSING, body);
  }

  lemma HandshakeThenClose(
    requestLine: string, connection: Field, upgrade: Field, version: Field, key: Field, closing: Field, body: string)
    requires '\n' !in requestLine
    requires WellFormed(connection) && WellFormed(upgrade) && WellFormed(version) && WellFormed(key) && WellFormed(closing)
    requires Lower(connection.name) == "connection" && HasToken(connection.value, "upgrade")
    requires Lower(upgrade.name) == "upgrade" && EqIgnoreCase(upgrade.value, "websocket")
    requires Lower(version.name) == "sec-websocket-version" && Lower(key.name) == "sec-websocket-key"
    requires Lower(closing.name) == "connection" && !HasToken(closing.value, "upgrade")
    ensures var fields := [connection, upgrade, version, key] + [closing];
            IsWebsocketUpgrade(Headers(fields)) && !RawVerdict(RenderRequest(requestLine, fields, body))
  {
    FourFieldsAsk([connection, upgrade, version, key]);
    ClosedHandshakesDisagree(requestLine, [connection, upgrade, version, key], closing, body);
  }

  lemma {:induction false} FourFieldsAsk(fields: seq<Field>)
    requires |fields| == 4 && forall i :: 0 <= i < 4 ==> WellFormed(fields[i])
    requires Lower(fields[0].name) == "connection" && HasToken(fields[0].value, "upgrade")
    requires Lower(fields[1].name) == "upgrade" && EqIgnoreCase(fields[1].value, "websocket")
    requires Lower(fields[2].name) == "sec-websocket-version" && Lower(fields[3].name) == "sec-websocket-key"
    ensures IsWebsocketUpgrade(Headers(fields))
  {
    HeadersOfFour(fields);
    FirstValuesOfFour(Headers(fields));
  }

  lemma TokenOfOnePart(value: string, token: string)
    requires ',' !in value && IsTrimmed(value)
    ensures HasToken(value, token) <==> EqIgnoreCase(value, token)
  {
    SplitOfFree(value, ',');
    TrimPadded("", value, "");
    assert "" + value + "" == value;
    assert value in Split(value, ',');
  }

  lemma ClosingDoesNotAsk()
    ensures Lower(CLOSING.name) == "connection" && !HasToken(CLOSING.value, "upgrade")
  {
    LiteralsAreLower();
    TokenOfOnePart("close", "upgrade");
    assert |Lower("close")| != |Lower("upgrade")|;
  }

  lemma ConnectionAsks()
    ensures Lower(CONNECTION.name) == "connection" && HasToken(CONNECTION.value, "upgrade")
  {
    LiteralsAreLower();
    TokenOfOnePart("upgrade", "upgrade");
  }

  lemma {:induction false} HeadersOfFour(fields: seq<Field>)
    requires |fields| == 4
    ensures Headers(fields) == seq(4, i requires 0 <= i < 4 => (fields[i].name, fields[i].value))
  {
    assert fields[1..][1..] == fields[2..] && fields[2..][1..] == fields[3..] && fields[3..][1..] == [];
    assert Headers(fields[3..]) == [(fields[3].name, fields[3].value)];
    assert Headers(fields[2..]) == [(fields[2].name, fields[2].value)] + Headers(fields[3..]);
    assert Headers(fields[1..]) == [(fields[1].name, fields[1].value)] + Headers(fields[2..]);
  }

  lemma {:induction false} FirstValuesOfFour(headers: seq<Header>)
    requires |headers| == 4 && Lower(headers[0].0) == "connection" && Lower(headers[1].0) == "upgrade"
    requires Lower(headers[2].0) == "sec-websocket-version" && Lower(headers[3].0) == "sec-websocket-key"
    ensures FirstValue(headers, "connection") == Some(headers[0].1) && FirstValue(headers, "upgrade") == Some(headers[1].1)
    ensures HasField(headers, "sec-websocket-version") && HasField(headers, "sec-websocket-key")
  {
    var a, b, c := headers[1..], headers[2..], headers[3..];
    assert a[1..] == b && b[1..] == c;
    assert |Lower(headers[0].0)| == 10 && |Lower(a[0].0)| == 7 && |Lower(b[0].0)| == 21 && |Lower(c[0].0)| == 17;
    assert FirstValue(c, "sec-websocket-key").Some?;
    assert FirstValue(b, "sec-websocket-key").Some? && FirstValue(b, "sec-websocket-version").Some?;
    assert FirstValue(a, "sec-websocket-key").Some? && FirstValue(a, "sec-websocket-version").Some?;
    assert FirstValue(a, "upgrade") == Some(headers[1].1);
  }

  lemma ConnectionIsWellFormed()
    ensures WellFormed(CONNECTION)
  {
  }

  lemma UpgradeIsWellFormed()
    ensures WellFormed(UPGRADE)
  {
  }

  lemma VersionIsWellFormed()
    ensures WellFormed(VERSION)
  {
  }

  lemma KeyIsWellFormed()
    ensures WellFormed(KEY)
  {
  }

  lemma ClosingIsWellFormed()
    ensures WellFormed(CLOSING)
  {
  }

  // Lists of words

  /** A word of a comma-separated value, with the optional whitespace around it. */
  datatype Member = Member(before: string, word: string, after: string)

  predicate IsMember(m: Member) {
    && IsOptionalWhitespace(m.before) && IsOptionalWhitespace(m.after)
    && ',' !in m.word && IsTrimmed(m.word)
  }

  function MemberTexts(members: seq<Member>): (texts: seq<string>)
    ensures |texts| == |members|
    ensures forall i :: 0 <= i < |members| ==> texts[i] == members[i].before + members[i].word + members[i].after
  {
    seq(|members|, i requires 0 <= i < |members| => members[i].before + members[i].word + members[i].after)
  }

  function ListText(members: seq<Member>): string {
    Join(MemberTexts(members), ',')
  }

  /** Some word of the list is the given one, in either case of its letters. */
  predicate Lists(members: seq<Member>, word: string) {
    exists i :: 0 <= i < |members| && SameText(members[i].word, word)
  }

  /** Every word of a list counts, wherever it stands and whatever whitespace is around it. */
  lemma TokenIsListedIff(members: seq<Member>, token: string)
    requires members != [] && forall i :: 0 <= i < |members| ==> IsMember(members[i])
    ensures HasToken(ListText(members), token) <==> Lists(members, token)
  {
    var texts := MemberTexts(members);
    forall i | 0 <= i < |texts|
      ensures ',' !in texts[i] && Trim(texts[i]) == members[i].word
    {
      TrimPadded(members[i].before, members[i].word, members[i].after);
    }
    SplitJoin(texts, ',');
    forall i | 0 <= i < |texts|
      ensures EqIgnoreCase(Trim(texts[i]), token) <==> SameText(members[i].word, token)
    {
      EqIgnoreCaseIff(members[i].word, token);
    }
    if part :| part in Split(ListText(members), ',') && EqIgnoreCase(Trim(part), token) {
      var i :| 0 <= i < |texts| && texts[i] == part;
    }
    if i :| 0 <= i < |members| && SameText(members[i].word, token) {
      assert texts[i] in Split(ListText(members), ',');
    }
  }

  /** A handshake as section 4.2.1 of RFC 6455 asks for it: `Connection` lists the word "upgrade", `Upgrade`
      is "websocket", and version and key are given. */
  predicate IsHandshake(members: seq<Member>, upgrade: Option<string>, version: bool, key: bool) {
    Lists(members, "upgrade") && upgrade.Some? && SameText(upgrade.value, "websocket") && version && key
  }

  /** On a rendered head whose last `Connection` field is a list, the raw detector answers by its words. */
  lemma {:induction false} RawHandshakeIff(requestLine: string, fields: seq<Field>, members: seq<Member>, body: string)
    requires '\n' !in requestLine
    requires forall i :: 0 <= i < |fields| ==> WellFormed(fields[i])
    requires members != [] && forall i :: 0 <= i < |members| ==> IsMember(members[i])
    requires LastValue(Headers(fields), "connection") == Some(ListText(members))
    ensures var headers := Headers(fields);
            RawVerdict(RenderRequest(requestLine, fields, body))
            <==> IsHandshake(members, LastValue(headers, "upgrade"),
                             HasField(headers, "sec-websocket-version"), HasField(headers, "sec-websocket-key"))
  {
    var headers := Headers(fields);
    RawDecidesByLastFields(requestLine, fields, body);
    LastValueIsValid(fields, "connection");
    LastValueIsValid(fields, "upgrade");
    TokenIsListedIff(members, "upgrade");
    if LastValue(headers, "upgrade").Some? {
      EqIgnoreCaseIff(LastValue(headers, "upgrade").value, "websocket");
    }
  }

  /** And the parsed one by the words of the first. */
  lemma {:induction false} ParsedHandshakeIff(fields: seq<Field>, members: seq<Member>)
    requires forall i :: 0 <= i < |fields| ==> WellFormed(fields[i])
    requires members != [] && forall i :: 0 <= i < |members| ==> IsMember(members[i])
    requires FirstValue(Headers(fields), "connection") == Some(ListText(members))
    ensures var headers := Headers(fields);
            IsWebsocketUpgrade(headers)
            <==> IsHandshake(members, FirstValue(headers, "upgrade"),
                             HasField(headers, "sec-websocket-version"), HasField(headers, "sec-websocket-key"))
  {
    var headers := Headers(fields);
    FirstValueIsValid(fields, "connection");
    FirstValueIsValid(fields, "upgrade");
    TokenIsListedIff(members, "upgrade");
    if FirstValue(headers, "upgrade").Some? {
      EqIgnoreCaseIff(FirstValue(headers, "upgrade").value, "websocket");
    }
  }

  const KEEP_ALIVE := Member("", "keep-alive", "")
  const UPGRADING := Member(" ", "Upgrade", "")
  const TWO_WORDS := Field("connection", " ", "keep-alive, Upgrade", "")

  /** For instance `Connection: keep-alive, Upgrade` is a handshake for both. */
  lemma SecondWordCounts(requestLine: string, body: string)
    requires '\n' !in requestLine
    ensures var fields := [TWO_WORDS, UPGRADE, VERSION, KEY];
            IsWebsocketUpgrade(Headers(fields)) && RawVerdict(RenderRequest(requestLine, fields, body))
  {
    TwoWordsAreWellFormed();
    UpgradeIsWellFormed();
    VersionIsWellFormed();
    KeyIsWellFormed();
    LiteralsAreLower();
    TwoWordsAsk();
    HandshakeOfFour(requestLine, TWO_WORDS, UPGRADE, VERSION, KEY, body);
  }

  lemma TwoWordsAreWellFormed()
    ensures WellFormed(TWO_WORDS)
  {
  }

  lemma TwoWordsAsk()
    ensures HasToken(TWO_WORDS.value, "upgrade")
  {
    var members := [KEEP_ALIVE, UPGRADING];
    ListOfTwo(KEEP_ALIVE, UPGRADING);
    assert TWO_WORDS.value == ("" + "keep-alive" + "") + [','] + (" " + "Upgrade" + "");
    UpgradeIsListed();
    TokenIsListedIff(members, "upgrade");
  }

  lemma UpgradeIsListed()
    ensures Lists([KEEP_ALIVE, UPGRADING], "upgrade")
  {
    assert [KEEP_ALIVE, UPGRADING][1] == UPGRADING;
    assert SameText(UPGRADING.word, "upgrade");
  }

  lemma ListOfTwo(a: Member, b: Member)
    ensures ListText([a, b]) == (a.before + a.word + a.after) + [','] + (b.before + b.word + b.after)
  {
    var texts := MemberTexts([a, b]);
    assert texts == [a.before + a.word + a.after, b.before + b.word + b.after];
    assert texts[1..] == [b.before + b.word + b.after];
    assert Join(texts[1..], ',') == b.before + b.word + b.after;
    assert Join(texts, ',') == texts[0] + [','] + Join(texts[1..], ',');
  }

  lemma HandshakeOfFour(requestLine: string, connection: Field, upgrade: Field, version: Field, key: Field, body: string)
    requires '\n' !in requestLine
    requires WellFormed(connection) && WellFormed(upgrade) && WellFormed(version) && WellFormed(key)
    requires Lower(connection.name) == "connection" && HasToken(connection.value, "upgrade")
    requires Lower(upgrade.name) == "upgrade" && EqIgnoreCase(upgrade.value, "websocket")
    requires Lower(version.name) == "sec-websocket-version" && Lower(key.name) == "sec-websocket-key"
    ensures var fields := [connection, upgrade, version, key];
            IsWebsocketUpgrade(Headers(fields)) && RawVerdict(RenderRequest(requestLine, fields, body))
  {
    var fields := [connection, upgrade, version, key];
    FourFieldsAsk(fields);
    HeadersOfFour(fields);
    OneOfEach(Headers(fields));
    RawAgreesWithParsed(requestLine, fields, body);
  }

  lemma {:induction false} OneOfEach(headers: seq<Header>)
    requires |headers| == 4 && Lower(headers[0].0) == "connection" && Lower(headers[1].0) == "upgrade"
    requires Lower(headers[2].0) == "sec-websocket-version" && Lower(headers[3].0) == "sec-websocket-key"
    ensures FieldCount(headers, "connection") <= 1 && FieldCount(headers, "upgrade") <= 1
  {
    var a, b, c := headers[1..], headers[2..], headers[3..];
    assert a[1..] == b && b[1..] == c && c[1..] == [];
    assert |Lower(headers[0].0)| == 10 && |Lower(a[0].0)| == 7 && |Lower(b[0].0)| == 21 && |Lower(c[0].0)| == 17;
    assert FieldCount(c, "connection") == 0 && FieldCount(c, "upgrade") == 0;
    assert FieldCount(b, "connection") == 0 && FieldCount(b, "upgrade") == 0;
    assert FieldCount(a, "connection") == 0 && FieldCount(a, "upgrade") == 1;
  }
}
