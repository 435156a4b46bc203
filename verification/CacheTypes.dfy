/** Values held by the cache tables (pkg/cache/endpoints.go, service.go). */
module CacheTypes {
  import opened Names

  datatype EndpointInfo = EndpointInfo(endpoint: string, nodename: string, hostname: string, cluster: string)

  datatype ServiceKind = ClusterIP | ExternalName | NodePort | LoadBalancer

  datatype ServiceInfo = ServiceInfo(
    address: string, port: int, portName: string, protocol: string, svcName: NamespacedName, kind: ServiceKind)

  function Digits(n: nat): string {
    if n < 10 then ['0' + n as char] else Digits(n / 10) + ['0' + (n % 10) as char]
  }

  function Decimal(n: int): string {
    if n < 0 then "-" + Digits(-n) else Digits(n)
  }

  function JoinHostPort(host: string, port: int): string {
    if ':' in host then "[" + host + "]:" + Decimal(port) else host + ":" + Decimal(port)
  }

  predicate IsDigit(c: char) { '0' <= c <= '9' }

  /** The number that a text of digits stands for. */
  function Read(s: string): nat
    requires forall c :: c in s ==> IsDigit(c)
  {
    if s == [] then 0 else
    var last := s[|s| - 1];
    assert last in s && IsDigit(last);
    10 * Read(s[..|s| - 1]) + (last - '0') as nat
  }

  /** `t` is the number in digits, without leading zeros, after a sign if it is negative. */
  ghost predicate IsDecimal(t: string, n: int) {
    if n < 0 then t != [] && t[0] == '-' && ReadsAs(t[1..], -n) else ReadsAs(t, n)
  }

  ghost predicate ReadsAs(t: string, n: nat) {
    t != [] && (forall c :: c in t ==> IsDigit(c)) && Read(t) == n && (t[0] == '0' ==> |t| == 1)
  }

  lemma OneDigit(s: string)
    requires forall c :: c in s ==> IsDigit(c)
    ensures |s| == 1 ==> s[0] in s && Read(s) == (s[0] - '0') as nat
  {
    if |s| == 1 { assert s[0] in s && s[..0] == []; }
  }

  lemma {:induction false} DigitsRead(n: nat)
    ensures ReadsAs(Digits(n), n)
  {
    if n >= 10 {
      DigitsRead(n / 10);
      var s, front := Digits(n), Digits(n / 10);
      assert s[..|s| - 1] == front;
      assert forall c :: c in s <==> c in front || c == s[|s| - 1];
      OneDigit(front);
    }
  }

  lemma {:induction false} ReadsAsUnique(t: string, n: nat)
    requires ReadsAs(t, n)
    ensures t == Digits(n)
  {
    var front, last := t[..|t| - 1], t[|t| - 1];
    assert last in t;
    OneDigit(t);
    if front == [] {
      assert t == [last] && '0' + n as char == last;
    } else {
      assert forall c :: c in front ==> c in t;
      ReadPositive(front);
      assert n == 10 * Read(front) + (last - '0') as nat;
      ReadsAsUnique(front, n / 10);
      assert t == front + [last];
    }
  }

  lemma {:induction false} ReadPositive(s: string)
    requires s != [] && (forall c :: c in s ==> IsDigit(c)) && s[0] != '0'
    ensures Read(s) > 0
  {
    assert s[0] in s && s[|s| - 1] in s;
    if |s| > 1 { ReadPositive(s[..|s| - 1]); } else { assert s[..0] == []; }
  }

  /** The text of a number is the one that reads back as it. */
  lemma DecimalIff(t: string, n: int)
    ensures t == Decimal(n) <==> IsDecimal(t, n)
  {
    DigitsRead(if n < 0 then -n else n);
    if IsDecimal(t, n) {
      if n < 0 {
        ReadsAsUnique(t[1..], -n);
        assert t == [t[0]] + t[1..];
      } else {
        ReadsAsUnique(t, n);
      }
    }
  }

  /** The text is host, colon and port; a host with colons is in brackets. */
  ghost predicate HostPort(text: string, host: string, port: int) {
    exists t :: IsDecimal(t, port) && text == (if ':' in host then "[" + host + "]" else host) + ":" + t
  }

  lemma JoinHostPortIff(text: string, host: string, port: int)
    ensures text == JoinHostPort(host, port) <==> HostPort(text, host, port)
  {
    DecimalIff(Decimal(port), port);
    forall t ensures IsDecimal(t, port) <==> t == Decimal(port) { DecimalIff(t, port); }
  }

  /** `m` maps every key with a non-empty list to that list, and no other key. */
  ghost predicate Tabulates(m: map<ServicePortName, seq<EndpointInfo>>, list: ServicePortName -> seq<EndpointInfo>) {
    forall k :: (k in m <==> list(k) != []) && (k in m ==> m[k] == list(k))
  }

  /** Appending under a key that may be missing. */
  function Appended(m: map<ServicePortName, seq<EndpointInfo>>, k: ServicePortName,
                    v: EndpointInfo): map<ServicePortName, seq<EndpointInfo>> {
    m[k := (if k in m then m[k] else []) + [v]]
  }

  /** The lists `list`, with `more` added at the end of the one for `k`. */
  ghost function Extended(list: ServicePortName -> seq<EndpointInfo>, k: ServicePortName,
                          more: seq<EndpointInfo>): ServicePortName -> seq<EndpointInfo> {
    j => if j == k then list(j) + more else list(j)
  }

  lemma AppendedTabulates(m: map<ServicePortName, seq<EndpointInfo>>, list: ServicePortName -> seq<EndpointInfo>,
                          k: ServicePortName, more: seq<EndpointInfo>, v: EndpointInfo)
    requires Tabulates(m, Extended(list, k, more))
    ensures Tabulates(Appended(m, k, v), Extended(list, k, more + [v]))
  {
    var was, now := Extended(list, k, more), Extended(list, k, more + [v]);
    assert now(k) == was(k) + [v];
    forall j | j != k ensures now(j) == was(j) { }
  }

  lemma ExtendedByNothing(m: map<ServicePortName, seq<EndpointInfo>>, list: ServicePortName -> seq<EndpointInfo>,
                          k: ServicePortName)
    requires Tabulates(m, list)
    ensures Tabulates(m, Extended(list, k, []))
  {
    forall j ensures Extended(list, k, [])(j) == list(j) { }
  }

  lemma TabulatesSame(m: map<ServicePortName, seq<EndpointInfo>>, f: ServicePortName -> seq<EndpointInfo>,
                      g: ServicePortName -> seq<EndpointInfo>)
    requires Tabulates(m, f) && forall k :: f(k) == g(k)
    ensures Tabulates(m, g)
  {
  }

  /** Every entry sits under the name and port it was made from. */
  ghost predicate NamedRight(m: map<ServicePortName, ServiceInfo>) {
    forall k :: k in m ==> m[k].svcName == k.namespacedName && m[k].portName == k.port
  }
}
