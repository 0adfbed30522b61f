/** The operator-supplied server inventory, its canonical form and the endpoints derived from it. */
module ClusterTopology {
  import opened Text

  const EMBEDDED_ETCD_V1 := "embedded-etcd-v1"

  /** A decoded `netip` address; text that is not an IPv4 address stays `Malformed`. */
  datatype Address = V4(a: nat, b: nat, c: nat, d: nat) | Malformed(text: string)

  /** A control endpoint; `Https(a)` is the URL of port 6443 at that address. */
  datatype Endpoint = Https(host: Address) | OtherURL(text: string)

  datatype Node = Node(name: string, address: Address)

  datatype Inventory = Inventory(topology: string, bootstrapNode: string, nodes: seq<Node>)

  /** `netip.Addr.Is4` and `IsGlobalUnicast`. */
  predicate GlobalUnicastV4(x: Address) {
    && x.V4?
    && x.a < 256 && x.b < 256 && x.c < 256 && x.d < 256
    && x != V4(0, 0, 0, 0)
    && x != V4(255, 255, 255, 255)
    && x.a != 127
    && !(224 <= x.a <= 239)
    && !(x.a == 169 && x.b == 254)
  }

  predicate LabelChar(c: char) { 'a' <= c <= 'z' || '0' <= c <= '9' }

  /** The DNS-label pattern `^[a-z0-9]([a-z0-9-]{0,61}[a-z0-9])?$`. */
  predicate NodeName(s: string) {
    && 1 <= |s| <= 63
    && LabelChar(s[0])
    && LabelChar(s[|s| - 1])
    && forall i | 0 <= i < |s| :: LabelChar(s[i]) || s[i] == '-'
  }

  lemma NodeNameNotBlank(s: string)
    requires NodeName(s)
    ensures Trim(s) == s && !Blank(s)
  {
    TrimStable(s);
  }

  predicate DistinctNodes(nodes: seq<Node>) {
    forall i, j | 0 <= i < j < |nodes| :: nodes[i].name != nodes[j].name && nodes[i].address != nodes[j].address
  }

  predicate HasNode(inv: Inventory, name: string) {
    exists i | 0 <= i < |inv.nodes| :: inv.nodes[i].name == name
  }

  predicate Valid(inv: Inventory) {
    && inv.topology == EMBEDDED_ETCD_V1
    && (|inv.nodes| == 1 || |inv.nodes| == 3)
    && NodeName(inv.bootstrapNode)
    && (forall i | 0 <= i < |inv.nodes| :: NodeName(inv.nodes[i].name) && GlobalUnicastV4(inv.nodes[i].address))
    && DistinctNodes(inv.nodes)
    && HasNode(inv, inv.bootstrapNode)
  }

  /** The static check made before any host is touched: one pass with two sets of names and addresses seen. */
  method Validate(inv: Inventory) returns (ok: bool)
    ensures ok <==> Valid(inv)
  {
    if inv.topology != EMBEDDED_ETCD_V1 || (|inv.nodes| != 1 && |inv.nodes| != 3) || !NodeName(inv.bootstrapNode) {
      return false;
    }
    var names: set<string>, addresses: set<Address> := {}, {};
    for k := 0 to |inv.nodes|
      invariant names == set i | 0 <= i < k :: inv.nodes[i].name
      invariant addresses == set i | 0 <= i < k :: inv.nodes[i].address
      invariant forall i | 0 <= i < k :: NodeName(inv.nodes[i].name) && GlobalUnicastV4(inv.nodes[i].address)
      invariant DistinctNodes(inv.nodes[..k])
    {
      var node := inv.nodes[k];
      if !NodeName(node.name) || node.name in names || !GlobalUnicastV4(node.address) || node.address in addresses {
        assert !Valid(inv);
        return false;
      }
      names, addresses := names + {node.name}, addresses + {node.address};
      assert inv.nodes[..k + 1] == inv.nodes[..k] + [node];
    }
    assert inv.nodes[..|inv.nodes|] == inv.nodes;
    ok := inv.bootstrapNode in names;
  }

  /** As a 32-bit number an accepted address lies outside the unspecified, loopback, link-local and multicast ranges and is not
      the broadcast address; every other address is accepted. */
  lemma GlobalUnicastIsRange(x: Address)
    ensures GlobalUnicastV4(x) <==>
              && x.V4? && x.a <= 255 && x.b <= 255 && x.c <= 255 && x.d <= 255
              && var n := ((x.a * 256 + x.b) * 256 + x.c) * 256 + x.d;
                 && n != 0 && n != 0xFFFF_FFFF
                 && !(0x7F00_0000 <= n <= 0x7FFF_FFFF) && !(0xA9FE_0000 <= n <= 0xA9FE_FFFF)
                 && !(0xE000_0000 <= n <= 0xEFFF_FFFF)
  {
  }

  /** The grammar of a node name: one letter or digit, or two with up to 61 letters, digits and hyphens between them. */
  lemma NodeNameIsLabel(s: string)
    ensures NodeName(s) <==>
              || (|s| == 1 && LabelChar(s[0]))
              || (2 <= |s| <= 63 && LabelChar(s[0]) && LabelChar(s[|s| - 1])
                  && forall i | 1 <= i < |s| - 1 :: 'a' <= s[i] <= 'z' || '0' <= s[i] <= '9' || s[i] == '-')
  {
  }

  /** Counted instead of compared: one server or three, as many names and as many addresses as servers, the bootstrap among them. */
  lemma ValidIsCounted(inv: Inventory)
    ensures Valid(inv) <==>
              && inv.topology == "embedded-etcd-v1"
              && (|inv.nodes| == 1 || |inv.nodes| == 3)
              && (forall n | n in inv.nodes :: NodeName(n.name) && GlobalUnicastV4(n.address))
              && |set n | n in inv.nodes :: n.name| == |inv.nodes| && |set n | n in inv.nodes :: n.address| == |inv.nodes|
              && inv.bootstrapNode in set n | n in inv.nodes :: n.name
  {
    hide NodeName, GlobalUnicastV4, DistinctNodes;
    DistinctIsCounted(inv.nodes);
    assert forall i | 0 <= i < |inv.nodes| :: inv.nodes[i] in inv.nodes;
    assert HasNode(inv, inv.bootstrapNode) <==> inv.bootstrapNode in set n | n in inv.nodes :: n.name by {
      if n :| n in inv.nodes && n.name == inv.bootstrapNode {
        var i :| 0 <= i < |inv.nodes| && inv.nodes[i] == n;
      }
    }
  }

  lemma DistinctIsCounted(nodes: seq<Node>)
    ensures DistinctNodes(nodes) <==> |set n | n in nodes :: n.name| == |nodes| && |set n | n in nodes :: n.address| == |nodes|
  {
    var names := seq(|nodes|, i requires 0 <= i < |nodes| => nodes[i].name);
    var addresses := seq(|nodes|, i requires 0 <= i < |nodes| => nodes[i].address);
    NamesOf(nodes, names);
    AddressesOf(nodes, addresses);
    CountDistinct(names);
    CountDistinct(addresses);
    if DistinctNodes(nodes) {
      assert forall i, j | 0 <= i < j < |names| :: names[i] != names[j];
      assert forall i, j | 0 <= i < j < |addresses| :: addresses[i] != addresses[j];
    }
    if |set x | x in names| == |names| && |set x | x in addresses| == |addresses| {
      forall i, j | 0 <= i < j < |nodes| ensures nodes[i].name != nodes[j].name && nodes[i].address != nodes[j].address {
        assert names[i] != names[j] && addresses[i] != addresses[j];
      }
    }
  }

  lemma NamesOf(nodes: seq<Node>, names: seq<string>)
    requires |names| == |nodes| && forall i | 0 <= i < |nodes| :: names[i] == nodes[i].name
    ensures (set n | n in nodes :: n.name) == set x | x in names
  {
    forall i | 0 <= i < |nodes| ensures nodes[i].name in names { assert names[i] in names; }
    forall i | 0 <= i < |names| ensures exists n | n in nodes :: n.name == names[i] { assert nodes[i] in nodes; }
  }

  lemma AddressesOf(nodes: seq<Node>, addresses: seq<Address>)
    requires |addresses| == |nodes| && forall i | 0 <= i < |nodes| :: addresses[i] == nodes[i].address
    ensures (set n | n in nodes :: n.address) == set x | x in addresses
  {
    forall i | 0 <= i < |nodes| ensures nodes[i].address in addresses { assert addresses[i] in addresses; }
    forall i | 0 <= i < |addresses| ensures exists n | n in nodes :: n.address == addresses[i] { assert nodes[i] in nodes; }
  }

  /** A list has as many members as places exactly if it repeats none. */
  lemma {:induction false} CountDistinct<T>(s: seq<T>)
    ensures |set x | x in s| <= |s|
    ensures |set x | x in s| == |s| <==> forall i, j | 0 <= i < j < |s| :: s[i] != s[j]
  {
    if s != [] {
      var init, last := s[..|s| - 1], s[|s| - 1];
      CountDistinct(init);
      assert s == init + [last];
      assert (set x | x in s) == (set x | x in init) + {last};
      if last in init {
        var i :| 0 <= i < |init| && init[i] == last;
        assert s[i] == s[|s| - 1];
        assert (set x | x in s) == set x | x in init;
      } else {
        assert forall i | 0 <= i < |init| :: s[i] == init[i] && init[i] in init;
      }
    }
  }

  // ---- Endpoints -------------------------------------------------------------------------------

  function OtherEndpoints(nodes: seq<Node>, bootstrap: string): (r: seq<Endpoint>)
  {
    if nodes == [] then []
    else
      var rest := OtherEndpoints(nodes[..|nodes| - 1], bootstrap);
      var last := nodes[|nodes| - 1];
      if last.name != bootstrap then rest + [Https(last.address)] else rest
  }

  /** The first node carrying a name. */
  function FindNode(nodes: seq<Node>, name: string): (r: Option<Node>)
    ensures r.Some? ==> r.value in nodes && r.value.name == name
    ensures r.None? ==> forall n | n in nodes :: n.name != name
  {
    if nodes == [] then None
    else if nodes[0].name == name then Some(nodes[0])
    else FindNode(nodes[1..], name)
  }

  lemma {:induction false} FindNodeUnique(nodes: seq<Node>, n: Node)
    requires DistinctNodes(nodes) && n in nodes
    ensures FindNode(nodes, n.name) == Some(n)
  {
    if nodes[0].name != n.name {
      assert n in nodes[1..];
      FindNodeUnique(nodes[1..], n);
    } else {
      var i :| 0 <= i < |nodes| && nodes[i] == n;
    }
  }

  /** The addressable endpoints of a valid inventory: the bootstrap server, then the others in file order. */
  function EndpointList(inv: Inventory): (r: seq<Endpoint>)
  {
    var first := FindNode(inv.nodes, inv.bootstrapNode);
    (if first.Some? then [Https(first.value.address)] else []) + OtherEndpoints(inv.nodes, inv.bootstrapNode)
  }

  method APIEndpoints(inv: Inventory) returns (endpoints: seq<Endpoint>)
    ensures Valid(inv) ==> endpoints == EndpointList(inv)
    ensures !Valid(inv) ==> endpoints == []
  {
    var ok := Validate(inv);
    endpoints := [];
    if ok { endpoints := CollectEndpoints(inv); }
  }

  /** The two passes over the nodes: up to the bootstrap server, then everything else. */
  method CollectEndpoints(inv: Inventory) returns (endpoints: seq<Endpoint>)
    ensures endpoints == EndpointList(inv)
  {
    endpoints := [];
    var k := 0;
    while k < |inv.nodes|
      invariant 0 <= k <= |inv.nodes|
      invariant endpoints == []
      invariant FindNode(inv.nodes[k..], inv.bootstrapNode) == FindNode(inv.nodes, inv.bootstrapNode)
    {
      assert inv.nodes[k..][1..] == inv.nodes[k + 1..];
      if inv.nodes[k].name == inv.bootstrapNode {
        endpoints := [Https(inv.nodes[k].address)];
        break;
      }
      k := k + 1;
    }
    ghost var head := endpoints;
    for j := 0 to |inv.nodes|
      invariant endpoints == head + OtherEndpoints(inv.nodes[..j], inv.bootstrapNode)
    {
      assert inv.nodes[..j + 1][..j] == inv.nodes[..j];
      if inv.nodes[j].name != inv.bootstrapNode {
        endpoints := endpoints + [Https(inv.nodes[j].address)];
      }
    }
    assert inv.nodes[..|inv.nodes|] == inv.nodes;
  }

  function BootstrapEndpoint(inv: Inventory): Endpoint {
    var list := EndpointList(inv);
    if list == [] then OtherURL("") else list[0]
  }

  function Sans(nodes: seq<Node>): (r: seq<Address>)
    ensures |r| == |nodes|
    ensures forall i | 0 <= i < |nodes| :: r[i] == nodes[i].address
  {
    seq(|nodes|, i requires 0 <= i < |nodes| => nodes[i].address)
  }

  lemma {:induction false} OtherEndpointsMembers(nodes: seq<Node>, bootstrap: string, e: Endpoint)
    ensures e in OtherEndpoints(nodes, bootstrap)
       <==> exists i | 0 <= i < |nodes| :: nodes[i].name != bootstrap && e == Https(nodes[i].address)
  {
    if nodes != [] {
      OtherEndpointsMembers(nodes[..|nodes| - 1], bootstrap, e);
    }
  }

  lemma {:induction false} OtherEndpointsDistinct(nodes: seq<Node>, bootstrap: string)
    requires DistinctNodes(nodes)
    ensures forall i, j | 0 <= i < j < |OtherEndpoints(nodes, bootstrap)| ::
              OtherEndpoints(nodes, bootstrap)[i] != OtherEndpoints(nodes, bootstrap)[j]
  {
    if nodes != [] {
      OtherEndpointsDistinct(nodes[..|nodes| - 1], bootstrap);
      OtherEndpointsMembers(nodes[..|nodes| - 1], bootstrap, Https(nodes[|nodes| - 1].address));
    }
  }

  lemma {:induction false} OtherEndpointsCount(nodes: seq<Node>, bootstrap: string)
    requires DistinctNodes(nodes)
    ensures |OtherEndpoints(nodes, bootstrap)| + (if FindNode(nodes, bootstrap).Some? then 1 else 0) == |nodes|
  {
    if nodes != [] {
      var init, last := nodes[..|nodes| - 1], nodes[|nodes| - 1];
      assert nodes == init + [last];
      OtherEndpointsCount(init, bootstrap);
      var found := FindNode(nodes, bootstrap);
      if found.Some? && found.value != last { assert found.value in init; }
    }
  }

  /** Every server address appears exactly once among the endpoints, and the bootstrap server comes first. */
  lemma EndpointsOnceBootstrapFirst(inv: Inventory)
    requires Valid(inv)
    ensures var list := EndpointList(inv);
            && |list| == |inv.nodes|
            && (forall i, j | 0 <= i < j < |list| :: list[i] != list[j])
            && (forall e :: e in list <==> exists n | n in inv.nodes :: e == Https(n.address))
            && (forall n | n in inv.nodes && n.name == inv.bootstrapNode :: list[0] == Https(n.address))
  {
    var i :| 0 <= i < |inv.nodes| && inv.nodes[i].name == inv.bootstrapNode;
    var b := inv.nodes[i];
    FindNodeUnique(inv.nodes, b);
    var rest := OtherEndpoints(inv.nodes, inv.bootstrapNode);
    assert EndpointList(inv) == [Https(b.address)] + rest;
    OtherEndpointsCount(inv.nodes, inv.bootstrapNode);
    OtherEndpointsDistinct(inv.nodes, inv.bootstrapNode);
    OtherEndpointsMembers(inv.nodes, inv.bootstrapNode, Https(b.address));
    forall e ensures e in EndpointList(inv) <==> exists n | n in inv.nodes :: e == Https(n.address) {
      OtherEndpointsMembers(inv.nodes, inv.bootstrapNode, e);
    }
    forall n | n in inv.nodes && n.name == inv.bootstrapNode ensures EndpointList(inv)[0] == Https(n.address) {
      FindNodeUnique(inv.nodes, n);
    }
  }

  // ---- Canonical form --------------------------------------------------------------------------

  /** Go's byte-wise string order. */
  predicate Less(x: string, y: string)
  {
    if y == "" then false
    else if x == "" then true
    else x[0] < y[0] || (x[0] == y[0] && Less(x[1..], y[1..]))
  }

  lemma LessIrreflexive(x: string)
    ensures !Less(x, x)
  {
  }

  lemma {:induction false} LessTransitive(x: string, y: string, z: string)
    requires Less(x, y) && Less(y, z)
    ensures Less(x, z)
  {
    if x != "" && x[0] == y[0] && y[0] == z[0] {
      LessTransitive(x[1..], y[1..], z[1..]);
    }
  }

  lemma {:induction false} LessTotal(x: string, y: string)
    ensures x == y || Less(x, y) || Less(y, x)
  {
    if x != "" && y != "" && x[0] == y[0] {
      LessTotal(x[1..], y[1..]);
      assert x == [x[0]] + x[1..] && y == [y[0]] + y[1..];
    }
  }

  /** The texts agree up to `k`, where `x` ends or has the smaller character. */
  predicate LessAt(x: string, y: string, k: nat) { k <= |x| && k < |y| && x[..k] == y[..k] && (k == |x| || x[k] < y[k]) }

  lemma LessAtNext(x: string, y: string, k: nat)
    requires x != "" && y != "" && x[0] == y[0]
    ensures LessAt(x, y, k + 1) <==> LessAt(x[1..], y[1..], k)
  {
    if k <= |x[1..]| && k < |y[1..]| {
      assert x[..k + 1] == [x[0]] + x[1..][..k] && y[..k + 1] == [y[0]] + y[1..][..k];
      assert x[1..][..k] == x[..k + 1][1..] && y[1..][..k] == y[..k + 1][1..];
    }
  }

  lemma LessAtStart(x: string, y: string, k: nat)
    requires x != "" && LessAt(x, y, k)
    ensures if k == 0 then x[0] < y[0] else x[0] == y[0]
  {
    if k > 0 { assert x[0] == x[..k][0] == y[..k][0] == y[0]; }
  }

  /** The order of Go's strings: by the first byte that differs, a proper prefix first. */
  lemma {:induction false} LessIff(x: string, y: string)
    ensures Less(x, y) <==> exists k: nat :: LessAt(x, y, k)
  {
    if x == "" {
      assert y != "" ==> LessAt(x, y, 0);
    } else if y != "" {
      LessIff(x[1..], y[1..]);
      assert x[0] < y[0] ==> LessAt(x, y, 0);
      hide LessAt;
      if x[0] == y[0] && Less(x[1..], y[1..]) {
        var k: nat :| LessAt(x[1..], y[1..], k);
        LessAtNext(x, y, k);
      }
      if k: nat :| LessAt(x, y, k) {
        LessAtStart(x, y, k);
        if k > 0 { LessAtNext(x, y, k - 1); }
      }
    }
  }

  function InsertByName(n: Node, sorted: seq<Node>): (r: seq<Node>)
    ensures multiset(r) == multiset(sorted) + multiset{n}
  {
    if sorted == [] || Less(n.name, sorted[0].name) then [n] + sorted
    else
      assert sorted == [sorted[0]] + sorted[1..];
      [sorted[0]] + InsertByName(n, sorted[1..])
  }

  /** The copy of the nodes sorted by name that the fingerprint encodes. */
  function SortByName(nodes: seq<Node>): (r: seq<Node>)
    ensures multiset(r) == multiset(nodes)
  {
    if nodes == [] then []
    else
      assert nodes == [nodes[0]] + nodes[1..];
      InsertByName(nodes[0], SortByName(nodes[1..]))
  }

  ghost predicate StrictlySorted(s: seq<Node>) {
    forall i, j | 0 <= i < j < |s| :: Less(s[i].name, s[j].name)
  }

  lemma {:induction false} InsertKeepsSorted(n: Node, sorted: seq<Node>)
    requires StrictlySorted(sorted)
    requires forall m | m in sorted :: m.name != n.name
    ensures StrictlySorted(InsertByName(n, sorted))
  {
    if sorted == [] {
    } else if Less(n.name, sorted[0].name) {
      forall j | 0 < j < |sorted| ensures Less(n.name, sorted[j].name) {
        LessTransitive(n.name, sorted[0].name, sorted[j].name);
      }
    } else {
      LessTotal(n.name, sorted[0].name);
      InsertKeepsSorted(n, sorted[1..]);
      var tail := InsertByName(n, sorted[1..]);
      forall m | m in tail ensures Less(sorted[0].name, m.name) {
        assert m in multiset(tail);
        assert m == n || m in multiset(sorted[1..]);
      }
    }
  }

  lemma {:induction false} SortByNameSorted(nodes: seq<Node>)
    requires DistinctNodes(nodes)
    ensures StrictlySorted(SortByName(nodes))
  {
    if nodes != [] {
      SortByNameSorted(nodes[1..]);
      var tail := SortByName(nodes[1..]);
      forall m | m in tail ensures m.name != nodes[0].name {
        assert m in multiset(tail);
        assert m in nodes[1..];
      }
      InsertKeepsSorted(nodes[0], tail);
    }
  }

  /** A strictly sorted list is determined by its elements. */
  lemma {:induction false} SortedUnique(x: seq<Node>, y: seq<Node>)
    requires StrictlySorted(x) && StrictlySorted(y)
    requires forall n :: n in x <==> n in y
    ensures x == y
  {
    if x == [] {
      HeadIsMember(y);
    } else {
      assert x[0] in y;
      HeadsAgree(x, y);
      forall n ensures n in x[1..] <==> n in y[1..] {
        TailMembers(x, n);
        TailMembers(y, n);
      }
      SortedUnique(x[1..], y[1..]);
      assert x == [x[0]] + x[1..] && y == [y[0]] + y[1..];
    }
  }

  lemma HeadIsMember<T>(s: seq<T>)
    ensures s == [] || s[0] in s
  {
  }

  lemma TailMembers(x: seq<Node>, n: Node)
    requires StrictlySorted(x) && x != []
    ensures n in x[1..] <==> n in x && n != x[0]
  {
    LessIrreflexive(x[0].name);
    assert x == [x[0]] + x[1..];
    if n in x[1..] {
      var i :| 1 <= i < |x| && x[i] == n;
    }
  }

  lemma HeadsAgree(x: seq<Node>, y: seq<Node>)
    requires StrictlySorted(x) && StrictlySorted(y) && x != [] && y != []
    requires x[0] in y && y[0] in x
    ensures x[0] == y[0]
  {
    var i :| 0 <= i < |y| && y[i] == x[0];
    var j :| 0 <= j < |x| && x[j] == y[0];
    if i > 0 && j > 0 {
      LessTransitive(x[0].name, y[0].name, x[0].name);
      LessIrreflexive(x[0].name);
    }
  }

  datatype CanonicalForm = CanonicalForm(topology: string, bootstrapNode: string, nodes: seq<Node>)

  function Canonical(inv: Inventory): CanonicalForm {
    CanonicalForm(inv.topology, inv.bootstrapNode, SortByName(inv.nodes))
  }

  /** SHA-256 as an ideal hash: a digest is the form it was taken of. Other text is not a digest. */
  datatype InventoryDigest = DigestOf(form: CanonicalForm) | NotADigest(text: string)

  function Fingerprint(inv: Inventory): InventoryDigest { DigestOf(Canonical(inv)) }

  ghost predicate SameServers(x: Inventory, y: Inventory) {
    && x.bootstrapNode == y.bootstrapNode
    && forall n :: n in x.nodes <==> n in y.nodes
  }

  lemma SortKeepsMembers(nodes: seq<Node>)
    ensures forall n :: n in SortByName(nodes) <==> n in nodes
  {
    forall n ensures n in SortByName(nodes) <==> n in nodes {
      assert n in SortByName(nodes) <==> n in multiset(SortByName(nodes));
      assert n in nodes <==> n in multiset(nodes);
    }
  }

  /** Two valid inventories have one fingerprint exactly when they plan the same servers with the same bootstrap. */
  lemma FingerprintIdentifiesServers(x: Inventory, y: Inventory)
    requires Valid(x) && Valid(y)
    ensures Fingerprint(x) == Fingerprint(y) <==> SameServers(x, y)
  {
    SortKeepsMembers(x.nodes);
    SortKeepsMembers(y.nodes);
    if SameServers(x, y) {
      SortByNameSorted(x.nodes);
      SortByNameSorted(y.nodes);
      SortedUnique(SortByName(x.nodes), SortByName(y.nodes));
    }
  }

  /** The join address does not depend on the order in which the servers are listed. */
  lemma SameServersSameBootstrapEndpoint(x: Inventory, y: Inventory)
    requires Valid(x) && Valid(y) && SameServers(x, y)
    ensures BootstrapEndpoint(x) == BootstrapEndpoint(y)
  {
    EndpointsOnceBootstrapFirst(x);
    EndpointsOnceBootstrapFirst(y);
    var i :| 0 <= i < |x.nodes| && x.nodes[i].name == x.bootstrapNode;
    assert x.nodes[i] in y.nodes;
  }

  // ---- Comparing endpoint lists ----------------------------------------------------------------

  /** `sameStringSet`: equal lengths and equal sets of members. */
  method SameSet<T(==)>(left: seq<T>, right: seq<T>) returns (same: bool)
    ensures same <==> |left| == |right| && (set x | x in left) == (set x | x in right)
  {
    if |left| != |right| { return false; }
    var leftSeen, rightSeen: set<T> := {}, {};
    for i := 0 to |left|
      invariant leftSeen == set x | x in left[..i]
    {
      leftSeen := leftSeen + {left[i]};
    }
    for i := 0 to |right|
      invariant rightSeen == set x | x in right[..i]
    {
      rightSeen := rightSeen + {right[i]};
    }
    assert left[..|left|] == left && right[..|right|] == right;
    if |leftSeen| != |rightSeen| { return false; }
    var rest := leftSeen;
    while rest != {}
      invariant rest <= leftSeen
      invariant leftSeen - rest <= rightSeen
      decreases |rest|
    {
      var value :| value in rest;
      if value !in rightSeen { return false; }
      rest := rest - {value};
    }
    EqualSizedSubset(leftSeen, rightSeen);
    same := true;
  }

  lemma EqualSizedSubset<T>(a: set<T>, b: set<T>)
    requires a <= b && |a| == |b|
    ensures a == b
  {
    assert b == a + (b - a);
  }
}
