/** The ports generated for the data plane: names within the 15-character bound, and port lists
    in which every port appears once.  Names are UTF-8, one `char` for each byte. */
module Ports {
  import opened Text
  import opened Words
  import opened Ordering
  import opened Kube

  const MAX_PORT_NAME_LENGTH := 15

  // Port names

  /** The 32-bit hash, wrapping at each step. */
  function Hash(name: string): nat {
    if name == [] then 0
    else (Hash(name[..|name| - 1]) * 31 % U32 + name[|name| - 1] as int) % U32
  }

  /** The same sum without wrapping. */
  function Polynomial(name: string): nat {
    if name == [] then 0 else Polynomial(name[..|name| - 1]) * 31 + name[|name| - 1] as int
  }

  function HexDigit(n: nat): char
    requires n < 16
  {
    if n < 10 then (48 + n) as char else (87 + n) as char
  }

  function Hex(n: nat): string {
    if n < 16 then [HexDigit(n)] else Hex(n / 16) + [HexDigit(n % 16)]
  }

  function CharCount(s: string): (n: nat)
    ensures n <= |s|
  {
    if s == [] then 0 else (if IsLead(s[0]) then 1 else 0) + CharCount(s[1..])
  }

  /** The first `n` characters. */
  function TakeChars(s: string, n: nat): (r: string)
    ensures r <= s
    ensures CharCount(r) <= n
  {
    if s == [] then []
    else if !IsLead(s[0]) then [s[0]] + TakeChars(s[1..], n)
    else if n == 0 then []
    else [s[0]] + TakeChars(s[1..], n - 1)
  }

  function TrimHyphens(s: string): (r: string)
    ensures r <= s
    ensures r != [] ==> r[|r| - 1] != '-'
  {
    if s != [] && s[|s| - 1] == '-' then TrimHyphens(s[..|s| - 1]) else s
  }

  /** The low 16 bits of the hash, in hexadecimal digits. */
  function Tag(name: string): string {
    Hex(Hash(name) % U16)
  }

  /** What remains of a long name before its tag. */
  function Stem(name: string): string {
    TrimHyphens(TakeChars(name, if |Tag(name)| <= 14 then 14 - |Tag(name)| else 0))
  }

  function SanitizePortName(name: string): string {
    if |name| <= MAX_PORT_NAME_LENGTH then name else Stem(name) + "-" + Tag(name)
  }

  lemma WrappedStep(p: nat, c: nat)
    ensures (p % U32 * 31 % U32 + c) % U32 == (p * 31 + c) % U32
  {
    var q, r := p / U32, p % U32;
    assert p == q * U32 + r;
    var t, u := r * 31 / U32, r * 31 % U32;
    assert r * 31 == t * U32 + u;
    assert p * 31 + c == (q * 31 + t) * U32 + (u + c);
  }

  lemma LowBits(p: nat)
    ensures p % U32 % U16 == p % U16
  {
    var q, r := p / U32, p % U32;
    assert p == (q * U16) * U16 + r;
  }

  lemma {:induction false} HashIsPolynomial(name: string)
    ensures Hash(name) == Polynomial(name) % 0x1_0000_0000
    ensures Hash(name) % 0x1_0000 == Polynomial(name) % 0x1_0000
  {
    if name == [] {
    } else {
      HashIsPolynomial(name[..|name| - 1]);
      WrappedStep(Polynomial(name[..|name| - 1]), name[|name| - 1] as int);
    }
    LowBits(Polynomial(name));
  }

  lemma {:induction false} HexIsShort(n: nat, digits: nat, bound: nat)
    requires n < bound && digits >= 1
    requires (digits == 1 && bound == 16) || (digits == 2 && bound == 256) || (digits == 3 && bound == 4096) || (digits == 4 && bound == U16)
    ensures 1 <= |Hex(n)| <= digits
    ensures forall i :: 0 <= i < |Hex(n)| ==> Hex(n)[i] != '-' && IsLead(Hex(n)[i]) && Hex(n)[i] as int < 0x80
  {
    if n >= 16 {
      HexIsShort(n / 16, digits - 1, bound / 16);
    }
  }

  lemma TagIsShort(name: string)
    ensures 1 <= |Tag(name)| <= 4
    ensures forall i :: 0 <= i < |Tag(name)| ==> Tag(name)[i] != '-' && IsLead(Tag(name)[i]) && Tag(name)[i] as int < 0x80
  {
    HexIsShort(Hash(name) % U16, 4, U16);
  }

  lemma {:induction false} CharCountConcat(a: string, b: string)
    ensures CharCount(a + b) == CharCount(a) + CharCount(b)
  {
    if a == [] {
      assert a + b == b;
    } else {
      CharCountConcat(a[1..], b);
      assert (a + b)[1..] == a[1..] + b;
    }
  }

  /** Every generated name has at most 15 characters. */
  lemma NameWithinBound(name: string)
    ensures CharCount(SanitizePortName(name)) <= 15
  {
    if |name| > MAX_PORT_NAME_LENGTH {
      TagIsShort(name);
      TrimmedIsShort(TakeChars(name, 14 - |Tag(name)|), 14 - |Tag(name)|);
      CharCountConcat(Stem(name) + "-", Tag(name));
      CharCountConcat(Stem(name), "-");
    }
  }

  lemma {:induction false} TrimmedIsShort(taken: string, n: nat)
    requires CharCount(taken) <= n
    ensures CharCount(TrimHyphens(taken)) <= n
  {
    var stem := TrimHyphens(taken);
    assert taken == stem + taken[|stem|..];
    CharCountConcat(stem, taken[|stem|..]);
  }

  predicate IsAscii(s: string) {
    forall i :: 0 <= i < |s| ==> s[i] as int < 0x80
  }

  lemma {:induction false} AsciiCount(s: string)
    requires IsAscii(s)
    ensures CharCount(s) == |s|
  {
    if s == [] {
    } else {
      AsciiCount(s[1..]);
    }
  }

  lemma AsciiNameWithinBound(name: string)
    requires IsAscii(name)
    ensures |SanitizePortName(name)| <= 15
  {
    NameWithinBound(name);
    TagIsShort(name);
    AsciiCount(SanitizePortName(name));
  }

  // When two long names collide

  function HexValue(s: string): int {
    if s == [] then 0
    else
      var c := s[|s| - 1] as int;
      HexValue(s[..|s| - 1]) * 16 + (if c < 58 then c - 48 else c - 87)
  }

  lemma {:induction false} HexRoundTrip(n: nat)
    ensures HexValue(Hex(n)) == n
  {
    if n >= 16 {
      HexRoundTrip(n / 16);
      assert Hex(n)[..|Hex(n)| - 1] == Hex(n / 16);
    }
  }

  lemma LastHyphenSplits(a: string, b: string, x: string, y: string)
    requires '-' !in x && '-' !in y
    requires a + "-" + x == b + "-" + y
    ensures a == b && x == y
  {
    var s := a + "-" + x;
    assert s[|a|] == '-' && s[|b|] == '-';
    assert s[|a| + 1..] == x && s[|b| + 1..] == y;
    assert |a| == |b|;
    assert s[..|a|] == a && s[..|b|] == b;
  }

  /** When two listener names get the same port name.  A name of at most 15 bytes is kept, so it can
      also be the truncated form of a longer one. */
  predicate Collide(a: string, b: string) {
    if |a| <= MAX_PORT_NAME_LENGTH && |b| <= MAX_PORT_NAME_LENGTH then a == b
    else if |a| <= MAX_PORT_NAME_LENGTH then IsTruncationOf(a, b)
    else if |b| <= MAX_PORT_NAME_LENGTH then IsTruncationOf(b, a)
    else Stem(a) == Stem(b) && Polynomial(a) % U16 == Polynomial(b) % U16
  }

  predicate IsTruncationOf(short: string, long: string) {
    short == Stem(long) + "-" + Hex(Polynomial(long) % U16)
  }

  /** The hash does not make truncated names unique: two names collide exactly when their stems agree
      and their byte polynomials agree modulo 65536, or one is what the other is truncated to. */
  lemma NamesCollideIff(a: string, b: string)
    ensures SanitizePortName(a) == SanitizePortName(b) <==> Collide(a, b)
  {
    HashIsPolynomial(a);
    HashIsPolynomial(b);
    if |a| > MAX_PORT_NAME_LENGTH && |b| > MAX_PORT_NAME_LENGTH {
      LongNamesCollideIff(a, b);
    }
  }

  lemma {:induction false} LongNamesCollideIff(a: string, b: string)
    requires |a| > MAX_PORT_NAME_LENGTH && |b| > MAX_PORT_NAME_LENGTH
    ensures SanitizePortName(a) == SanitizePortName(b)
            <==> Stem(a) == Stem(b) && Polynomial(a) % U16 == Polynomial(b) % U16
  {
    TagsAgreeIff(a, b);
    TagIsShort(a);
    TagIsShort(b);
    if SanitizePortName(a) == SanitizePortName(b) {
      LastHyphenSplits(Stem(a), Stem(b), Tag(a), Tag(b));
    }
  }

  /** Every long ASCII name collides with another name: the one it is truncated to. */
  lemma TruncationCollides(name: string)
    requires IsAscii(name) && |name| > MAX_PORT_NAME_LENGTH
    ensures var short := SanitizePortName(name);
            short != name && SanitizePortName(short) == SanitizePortName(name)
  {
    AsciiNameWithinBound(name);
  }

  lemma {:induction false} TagsAgreeIff(a: string, b: string)
    ensures Tag(a) == Tag(b) <==> Polynomial(a) % U16 == Polynomial(b) % U16
  {
    HashIsPolynomial(a);
    HashIsPolynomial(b);
    HexRoundTrip(Hash(a) % U16);
    HexRoundTrip(Hash(b) % U16);
  }

  lemma {:induction false} PolynomialSuffix(a: string, b: string, suffix: string)
    requires Polynomial(a) == Polynomial(b)
    ensures Polynomial(a + suffix) == Polynomial(b + suffix)
  {
    if suffix == [] {
      assert a + suffix == a && b + suffix == b;
    } else {
      var n := |suffix| - 1;
      PolynomialSuffix(a, b, suffix[..n]);
      assert (a + suffix)[..|a + suffix| - 1] == a + suffix[..n];
      assert (b + suffix)[..|b + suffix| - 1] == b + suffix[..n];
    }
  }

  lemma {:induction false} TakeAscii(s: string, rest: string, n: nat)
    requires IsAscii(s) && n < |s|
    ensures TakeChars(s + rest, n) == s[..n]
  {
    assert (s + rest)[0] == s[0] && (s + rest)[1..] == s[1..] + rest;
    if n > 0 {
      TakeAscii(s[1..], rest, n - 1);
    }
  }

  /** A family of distinct names that collide: "an" against "c0" after a common beginning, as listener
      names may have it. */
  lemma DistinctNamesCollide(prefix: string, suffix: string)
    requires IsAscii(prefix) && |prefix| >= 14
    ensures prefix + (['a', 'n'] + suffix) != prefix + (['c', '0'] + suffix)
    ensures SanitizePortName(prefix + (['a', 'n'] + suffix)) == SanitizePortName(prefix + (['c', '0'] + suffix))
  {
    var x, y := ['a', 'n'] + suffix, ['c', '0'] + suffix;
    assert (prefix + x)[|prefix|] == 'a' && (prefix + y)[|prefix|] == 'c';
    TwoCharPolynomial(prefix, 'a', 'n');
    TwoCharPolynomial(prefix, 'c', '0');
    PolynomialSuffix(prefix + ['a', 'n'], prefix + ['c', '0'], suffix);
    assert prefix + x == prefix + ['a', 'n'] + suffix && prefix + y == prefix + ['c', '0'] + suffix;
    SamePolynomialsCollide(prefix, x, y);
  }

  lemma {:induction false} SamePolynomialsCollide(prefix: string, x: string, y: string)
    requires IsAscii(prefix) && |prefix| >= 14 && |x| >= 2 && |y| >= 2
    requires Polynomial(prefix + x) == Polynomial(prefix + y)
    ensures SanitizePortName(prefix + x) == SanitizePortName(prefix + y)
  {
    TagsAgreeIff(prefix + x, prefix + y);
    SameTagsCollide(prefix, x, y);
  }

  lemma SameTagsCollide(prefix: string, x: string, y: string)
    requires IsAscii(prefix) && |prefix| >= 14 && |x| >= 2 && |y| >= 2
    requires Tag(prefix + x) == Tag(prefix + y)
    ensures SanitizePortName(prefix + x) == SanitizePortName(prefix + y)
  {
    NameFromPrefix(prefix, x);
    NameFromPrefix(prefix, y);
  }

  function Tagged(prefix: string, tag: string): string
    requires |tag| <= 14 <= |prefix|
  {
    TrimHyphens(prefix[..14 - |tag|]) + "-" + tag
  }

  lemma NameFromPrefix(prefix: string, rest: string)
    requires IsAscii(prefix) && |prefix| >= 14 && |rest| >= 2
    ensures |Tag(prefix + rest)| <= 4 && SanitizePortName(prefix + rest) == Tagged(prefix, Tag(prefix + rest))
  {
    assert |prefix + rest| > MAX_PORT_NAME_LENGTH;
    TagIsShort(prefix + rest);
    TakeAscii(prefix, rest, 14 - |Tag(prefix + rest)|);
  }

  lemma {:induction false} TwoCharPolynomial(prefix: string, c: char, d: char)
    ensures Polynomial(prefix + [c, d]) == Polynomial(prefix) * 961 + c as int * 31 + d as int
  {
    var s := prefix + [c, d];
    assert s[..|s| - 1] == prefix + [c];
    assert (prefix + [c])[..|prefix|] == prefix;
  }

  // Port lists

  datatype ServicePort = ServicePort(name: string, port: int, targetPort: int)

  datatype ContainerPort = ContainerPort(name: string, containerPort: int, hostPort: int)

  predicate HasPort(listeners: seq<Listener>, port: int) {
    exists l :: l in listeners && l.port == port
  }

  function PortNumbers(listeners: seq<Listener>): (numbers: seq<int>)
    ensures Ascending(numbers, IntLess)
    ensures forall p :: p in numbers <==> HasPort(listeners, p)
  {
    SortedInts(set l | l in listeners :: l.port)
  }

  /** The name of the first listener on the port. */
  function FirstName(listeners: seq<Listener>, port: int): string {
    if listeners == [] then ""
    else if listeners[0].port == port then listeners[0].name
    else FirstName(listeners[1..], port)
  }

  lemma HasPortStep(listeners: seq<Listener>, i: nat, port: int)
    requires i < |listeners|
    ensures HasPort(listeners[..i + 1], port) <==> HasPort(listeners[..i], port) || listeners[i].port == port
  {
    assert listeners[..i + 1] == listeners[..i] + [listeners[i]];
  }

  lemma {:induction false} FirstNameAppended(listeners: seq<Listener>, l: Listener, port: int)
    ensures HasPort(listeners, port) ==> FirstName(listeners + [l], port) == FirstName(listeners, port)
    ensures !HasPort(listeners, port) && l.port == port ==> FirstName(listeners + [l], port) == l.name
  {
    if listeners == [] {
    } else {
      FirstNameAppended(listeners[1..], l, port);
      assert (listeners + [l])[1..] == listeners[1..] + [l];
      assert listeners == [listeners[0]] + listeners[1..];
    }
  }

  /** What the listeners so far say about a port after one more listener. */
  lemma {:induction false} FirstNameStep(listeners: seq<Listener>, i: nat, port: int)
    requires i < |listeners|
    ensures HasPort(listeners[..i + 1], port) <==> HasPort(listeners[..i], port) || listeners[i].port == port
    ensures HasPort(listeners[..i], port) ==> FirstName(listeners[..i + 1], port) == FirstName(listeners[..i], port)
    ensures !HasPort(listeners[..i], port) && listeners[i].port == port ==> FirstName(listeners[..i + 1], port) == listeners[i].name
  {
    HasPortStep(listeners, i, port);
    FirstNameAppended(listeners[..i], listeners[i], port);
    assert listeners[..i + 1] == listeners[..i] + [listeners[i]];
  }

  /** One entry per port, in ascending order, made from the first name on it. */
  function PortsOf<T>(listeners: seq<Listener>, make: (string, int) -> T): seq<T> {
    Mapped(PortNumbers(listeners), (p: int) => make(FirstName(listeners, p), p))
  }

  function ServicePorts(listeners: seq<Listener>): seq<ServicePort> {
    PortsOf(listeners, ServicePortOf)
  }

  function ContainerPorts(listeners: seq<Listener>): seq<ContainerPort> {
    PortsOf(listeners, ContainerPortOf)
  }

  function ServicePortOf(name: string, port: int): ServicePort {
    ServicePort(SanitizePortName(name), port, port)
  }

  function ContainerPortOf(name: string, port: int): ContainerPort {
    ContainerPort(SanitizePortName(name), port, port)
  }

  /** The map has an entry for each port of the listeners, built from the first name on it. */
  ghost predicate IsPortMap<T>(m: map<int, T>, listeners: seq<Listener>, make: (string, int) -> T) {
    && (forall p :: p in m <==> HasPort(listeners, p))
    && (forall p :: p in m ==> m[p] == make(FirstName(listeners, p), p))
  }

  /** The map with an entry under the key: the present one, or else the given one. */
  function OrInsert<T>(m: map<int, T>, key: int, entry: T): map<int, T> {
    if key in m then m else m[key := entry]
  }

  lemma PortMapStep<T>(m: map<int, T>, listeners: seq<Listener>, i: nat, make: (string, int) -> T)
    requires i < |listeners| && IsPortMap(m, listeners[..i], make)
    ensures IsPortMap(OrInsert(m, listeners[i].port, make(listeners[i].name, listeners[i].port)), listeners[..i + 1], make)
  {
    forall p
      ensures HasPort(listeners[..i + 1], p) <==> HasPort(listeners[..i], p) || listeners[i].port == p
      ensures HasPort(listeners[..i], p) ==> FirstName(listeners[..i + 1], p) == FirstName(listeners[..i], p)
      ensures !HasPort(listeners[..i], p) && listeners[i].port == p ==> FirstName(listeners[..i + 1], p) == listeners[i].name
    {
      FirstNameStep(listeners, i, p);
    }
  }

  /** The values of the map, in the order of its keys. */
  function Values<T>(m: map<int, T>): seq<T> {
    var keys := SortedInts(m.Keys);
    assert forall i :: 0 <= i < |keys| ==> keys[i] in keys;
    seq(|keys|, i requires 0 <= i < |keys| => m[keys[i]])
  }

  lemma PortMapLists<T>(m: map<int, T>, listeners: seq<Listener>, make: (string, int) -> T)
    requires IsPortMap(m, listeners, make)
    ensures Values(m) == PortsOf(listeners, make)
  {
    var keys := SortedInts(m.Keys);
    AscendingIsUnique(keys, PortNumbers(listeners), IntLess);
    forall i | 0 <= i < |keys|
      ensures m[keys[i]] == PortsOf(listeners, make)[i]
    {
      assert keys[i] in keys;
    }
  }

  /** Lists the ports of the listeners through an ordered map that keeps the first entry. */
  method BuildPorts<T>(listeners: seq<Listener>, make: (string, int) -> T) returns (ports: seq<T>)
    ensures ports == PortsOf(listeners, make)
  {
    var portMap: map<int, T> := map[];
    for i := 0 to |listeners|
      invariant IsPortMap(portMap, listeners[..i], make)
    {
      PortMapStep(portMap, listeners, i, make);
      portMap := OrInsert(portMap, listeners[i].port, make(listeners[i].name, listeners[i].port));
    }
    assert listeners[..|listeners|] == listeners;
    PortMapLists(portMap, listeners, make);
    ports := Values(portMap);
  }

  method BuildServicePorts(listeners: seq<Listener>) returns (ports: seq<ServicePort>)
    ensures ports == ServicePorts(listeners)
  {
    ports := BuildPorts(listeners, ServicePortOf);
  }

  method BuildContainerPorts(listeners: seq<Listener>) returns (ports: seq<ContainerPort>)
    ensures ports == ContainerPorts(listeners)
  {
    ports := BuildPorts(listeners, ContainerPortOf);
  }

  ghost predicate IsFirstOn(listeners: seq<Listener>, i: int) {
    0 <= i < |listeners| && forall j :: 0 <= j < i ==> listeners[j].port != listeners[i].port
  }

  lemma {:induction false} FirstNameIs(listeners: seq<Listener>, i: nat)
    requires IsFirstOn(listeners, i)
    ensures FirstName(listeners, listeners[i].port) == listeners[i].name
  {
    if i > 0 {
      assert listeners[0].port != listeners[i].port;
      FirstNameIs(listeners[1..], i - 1);
    }
  }

  /** Both lists name strictly ascending ports, exactly those of the listeners, agree position by
      position, and take each name from the first listener on the port. */
  lemma GeneratedPortsAgree(listeners: seq<Listener>)
    ensures var service, container := ServicePorts(listeners), ContainerPorts(listeners);
            && |service| == |container|
            && (forall i :: 0 <= i < |service| ==>
                  service[i].name == container[i].name
                  && service[i].port == service[i].targetPort == container[i].containerPort == container[i].hostPort)
            && (forall i, j :: 0 <= i < j < |service| ==> service[i].port < service[j].port)
            && (forall i :: 0 <= i < |service| ==> HasPort(listeners, service[i].port))
            && (forall k :: IsFirstOn(listeners, k) ==>
                  ServicePort(SanitizePortName(listeners[k].name), listeners[k].port, listeners[k].port) in service)
  {
    var numbers := PortNumbers(listeners);
    ListedPorts(listeners);
    assert forall i, j :: 0 <= i < j < |numbers| ==> IntLess(numbers[i], numbers[j]);
    forall i | 0 <= i < |numbers|
      ensures HasPort(listeners, numbers[i])
    {
      assert numbers[i] in numbers;
    }
    forall k | IsFirstOn(listeners, k)
      ensures ServicePortOf(listeners[k].name, listeners[k].port) in ServicePorts(listeners)
    {
      FirstIsListed(listeners, k);
    }
  }

  lemma {:induction false} ListedPorts(listeners: seq<Listener>)
    ensures var numbers := PortNumbers(listeners);
            && |ServicePorts(listeners)| == |ContainerPorts(listeners)| == |numbers|
            && forall i :: 0 <= i < |numbers| ==>
                 && ServicePorts(listeners)[i] == ServicePortOf(FirstName(listeners, numbers[i]), numbers[i])
                 && ContainerPorts(listeners)[i] == ContainerPortOf(FirstName(listeners, numbers[i]), numbers[i])
  {
  }

  lemma FirstIsListed(listeners: seq<Listener>, k: nat)
    requires IsFirstOn(listeners, k)
    ensures ServicePortOf(listeners[k].name, listeners[k].port) in ServicePorts(listeners)
  {
    ListedPorts(listeners);
    FirstNameIs(listeners, k);
    var numbers := PortNumbers(listeners);
    assert listeners[k] in listeners && HasPort(listeners, listeners[k].port);
    assert listeners[k].port in numbers;
    var i :| 0 <= i < |numbers| && numbers[i] == listeners[k].port;
    assert ServicePorts(listeners)[i] in ServicePorts(listeners);
  }

  /** The generated names of the ports are pairwise distinct, as Kubernetes requires, exactly when no
      two listeners that are first on their ports collide. */
  lemma PortNamesDistinctIff(listeners: seq<Listener>)
    ensures var ports := ServicePorts(listeners);
            (forall i, j :: 0 <= i < j < |ports| ==> ports[i].name != ports[j].name)
            <==> forall k, m :: IsFirstOn(listeners, k) && IsFirstOn(listeners, m) && k != m
                                ==> !Collide(listeners[k].name, listeners[m].name)
  {
    var ports := ServicePorts(listeners);
    forall k, m | IsFirstOn(listeners, k) && IsFirstOn(listeners, m) && k != m && Collide(listeners[k].name, listeners[m].name)
      ensures exists i, j :: 0 <= i < j < |ports| && ports[i].name == ports[j].name
    {
      NamesCollideIff(listeners[k].name, listeners[m].name);
      FirstIsListed(listeners, k);
      FirstIsListed(listeners, m);
      assert k < m ==> listeners[k].port != listeners[m].port;
      assert m < k ==> listeners[m].port != listeners[k].port;
      var i :| 0 <= i < |ports| && ports[i] == ServicePortOf(listeners[k].name, listeners[k].port);
      var j :| 0 <= j < |ports| && ports[j] == ServicePortOf(listeners[m].name, listeners[m].port);
      assert i != j;
    }
    forall i, j | 0 <= i < j < |ports| && ports[i].name == ports[j].name
      ensures exists k, m :: IsFirstOn(listeners, k) && IsFirstOn(listeners, m) && k != m
                             && Collide(listeners[k].name, listeners[m].name)
    {
      var k := ListedIsFirst(listeners, i);
      var m := ListedIsFirst(listeners, j);
      AscendingNumbers(listeners, i, j);
      NamesCollideIff(listeners[k].name, listeners[m].name);
    }
  }

  lemma AscendingNumbers(listeners: seq<Listener>, i: nat, j: nat)
    requires i < j < |PortNumbers(listeners)|
    ensures PortNumbers(listeners)[i] < PortNumbers(listeners)[j]
  {
    assert IntLess(PortNumbers(listeners)[i], PortNumbers(listeners)[j]);
  }

  /** Each listed port is that of the first listener on it. */
  lemma ListedIsFirst(listeners: seq<Listener>, i: nat) returns (k: nat)
    requires i < |ServicePorts(listeners)|
    ensures i < |PortNumbers(listeners)| && IsFirstOn(listeners, k) && listeners[k].port == PortNumbers(listeners)[i]
    ensures ServicePorts(listeners)[i] == ServicePortOf(listeners[k].name, listeners[k].port)
  {
    ListedPorts(listeners);
    var port := PortNumbers(listeners)[i];
    assert port in PortNumbers(listeners);
    k := FirstOn(listeners, port);
    FirstNameIs(listeners, k);
  }

  lemma FirstOn(listeners: seq<Listener>, port: int) returns (k: nat)
    requires HasPort(listeners, port)
    ensures IsFirstOn(listeners, k) && listeners[k].port == port
  {
    k := 0;
    while listeners[k].port != port
      invariant k < |listeners| && forall j :: 0 <= j < k ==> listeners[j].port != port
      decreases |listeners| - k
    {
      assert exists j :: 0 <= j < |listeners| && listeners[j].port == port;
      k := k + 1;
    }
  }
}
