/** Object names and service port names (pkg/cache/types.go). */
module Names {
  datatype NamespacedName = NamespacedName(namespace: string, name: string)

  datatype ServicePortName = ServicePortName(namespacedName: NamespacedName, port: string, protocol: string)

  function NameString(n: NamespacedName): string {
    n.namespace + "/" + n.name
  }

  function FmtPortName(port: string): string {
    if port == "" then "" else ":" + port
  }

  /** The protocol is not part of the text. */
  function String(spn: ServicePortName): string {
    NameString(spn.namespacedName) + FmtPortName(spn.port)
  }

  ghost predicate Free(s: string) {
    '/' !in s && ':' !in s
  }

  ghost predicate FreeName(spn: ServicePortName) {
    Free(spn.namespacedName.namespace) && Free(spn.namespacedName.name) && Free(spn.port)
  }

  /** Where a separator first occurs, both halves can be read back. */
  lemma SplitUnique(a: string, b: string, a': string, b': string, sep: char)
    requires sep !in a && sep !in a'
    requires a + [sep] + b == a' + [sep] + b'
    ensures a == a' && b == b'
  {
    var s, s' := a + [sep] + b, a' + [sep] + b';
    assert s[|a|] == sep && s'[|a'|] == sep;
    assert forall i :: 0 <= i < |a| ==> s[i] == a[i] && a[i] in a;
    assert forall i :: 0 <= i < |a'| ==> s'[i] == a'[i] && a'[i] in a';
    assert |a| == |a'|;
    assert s[..|a|] == a && s'[..|a'|] == a';
    assert s[|a| + 1..] == b && s'[|a'| + 1..] == b';
  }

  lemma TailInjective(name: string, port: string, name': string, port': string)
    requires Free(name) && Free(port) && Free(name') && Free(port')
    requires name + FmtPortName(port) == name' + FmtPortName(port')
    ensures name == name' && port == port'
  {
    PortNameColon(name, port);
    PortNameColon(name', port');
    if port != "" {
      assert name + FmtPortName(port) == name + [':'] + port;
      assert name' + FmtPortName(port') == name' + [':'] + port';
      SplitUnique(name, port, name', port', ':');
    }
  }

  /** Names without '/' and ':' are told apart by their text, up to the protocol. */
  lemma StringInjective(x: ServicePortName, y: ServicePortName)
    requires FreeName(x) && FreeName(y) && String(x) == String(y)
    ensures x.namespacedName == y.namespacedName && x.port == y.port
  {
    var nx, ny := x.namespacedName, y.namespacedName;
    var tx, ty := nx.name + FmtPortName(x.port), ny.name + FmtPortName(y.port);
    TextSplit(x);
    TextSplit(y);
    SplitUnique(nx.namespace, tx, ny.namespace, ty, '/');
    TailInjective(nx.name, x.port, ny.name, y.port);
  }

  lemma TextSplit(x: ServicePortName)
    ensures String(x) == x.namespacedName.namespace + ['/'] + (x.namespacedName.name + FmtPortName(x.port))
  {
  }

  /** Namespace, name and port can be read off the text. */
  lemma StringReads(x: ServicePortName)
    ensures var s, n := String(x), x.namespacedName; var at := |n.namespace|; var end := at + 1 + |n.name|;
      && |s| >= end && s[..at] == n.namespace && s[at] == '/' && s[at + 1..end] == n.name
      && (x.port == "" ==> |s| == end)
      && (x.port != "" ==> |s| > end && s[end] == ':' && s[end + 1..] == x.port)
  {
    var s, n := String(x), x.namespacedName;
    assert s == n.namespace + "/" + n.name + FmtPortName(x.port);
  }

  lemma PortNameColon(name: string, port: string)
    requires Free(name)
    ensures ':' in name + FmtPortName(port) <==> port != ""
    ensures port == "" ==> name + FmtPortName(port) == name
  {
    if port != "" {
      assert (name + FmtPortName(port))[|name|] == ':';
    }
  }
}
