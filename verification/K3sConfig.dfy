/** The K3s configuration of one server, derived from the inventory. */
module K3sConfig {
  import opened Text
  import opened ClusterTopology

  datatype Mode = Unset | Server | Agent | OtherMode(text: string)

  const DEFAULT_CLUSTER_CIDR := "10.44.0.0/16"
  const DEFAULT_SERVICE_CIDR := "10.43.0.0/16"

  datatype Config = Config(
    mode: Mode, nodeName: string, dataDir: string, sans: seq<Address>, topology: string, nodeIP: Address,
    serverURL: Endpoint, tokenFile: string, clusterInit: bool, clusterCIDR: string, serviceCIDR: string)

  function EffectiveMode(c: Config): Mode { if c.mode == Unset then Server else c.mode }

  predicate HasServerURL(c: Config) { !(c.serverURL.OtherURL? && Blank(c.serverURL.text)) }

  /** `netip.ParseAddr(..).Is4()`. */
  predicate IsV4(x: Address) { x.V4? && x.a < 256 && x.b < 256 && x.c < 256 && x.d < 256 }

  predicate ValidConfig(c: Config) {
    && !Blank(c.nodeName)
    && !Blank(c.dataDir)
    && (c.topology != "" ==>
          && c.topology == EMBEDDED_ETCD_V1
          && EffectiveMode(c) == Server
          && IsV4(c.nodeIP)
          && c.clusterInit != HasServerURL(c)
          && c.sans != [])
    && match EffectiveMode(c) {
         case Server => !(c.clusterInit && HasServerURL(c)) && (HasServerURL(c) ==> !Blank(c.tokenFile))
         case Agent => !c.clusterInit && HasServerURL(c) && !Blank(c.tokenFile)
         case _ => false
       }
  }

  /** What the member `n` of an inventory is configured with. */
  function MemberConfig(inv: Inventory, n: Node, dataDir: string, tokenFile: string): Config {
    var init := n.name == inv.bootstrapNode;
    Config(Server, n.name, dataDir, Sans(inv.nodes), EMBEDDED_ETCD_V1, n.address,
           if init then OtherURL("") else BootstrapEndpoint(inv), if init then "" else tokenFile,
           init, DEFAULT_CLUSTER_CIDR, DEFAULT_SERVICE_CIDR)
  }

  lemma MemberConfigValid(inv: Inventory, n: Node, dataDir: string, tokenFile: string)
    requires Valid(inv) && n in inv.nodes
    ensures ValidConfig(MemberConfig(inv, n, dataDir, tokenFile))
       <==> !Blank(dataDir) && (n.name == inv.bootstrapNode || !Blank(tokenFile))
  {
    EndpointsOnceBootstrapFirst(inv);
    NodeNameNotBlank(n.name);
    assert EndpointList(inv)[0] in EndpointList(inv);
  }

  /** The configuration is that of the planned server `name`: it registers under its own name and address, keeps its data where it
      was told to and, unless it is the bootstrap, joins the bootstrap's address with the given token file. */
  ghost predicate OwnServer(c: Config, inv: Inventory, name: string, dataDir: string, tokenFile: string) {
    && c.nodeName == name && Node(name, c.nodeIP) in inv.nodes && c.dataDir == dataDir
    && (name == inv.bootstrapNode ==> c.clusterInit && !HasServerURL(c) && c.tokenFile == "")
    && (name != inv.bootstrapNode ==>
          && !c.clusterInit && c.tokenFile == tokenFile
          && c.serverURL.Https? && Node(inv.bootstrapNode, c.serverURL.host) in inv.nodes)
  }

  /** What all servers of an inventory have in common: every server's address in the certificate, and fixed, different ranges
      for pods and services, neither of them the 10.42.0.0/16 that the Wi-Fi access point uses. */
  ghost predicate SharedSettings(c: Config, inv: Inventory) {
    && c.mode == Server && c.topology == EMBEDDED_ETCD_V1
    && |c.sans| == |inv.nodes| && (forall i | 0 <= i < |inv.nodes| :: c.sans[i] == inv.nodes[i].address)
    && c.clusterCIDR == "10.44.0.0/16" && c.serviceCIDR == "10.43.0.0/16" && c.clusterCIDR != c.serviceCIDR
  }

  lemma MemberConfigIsOwn(inv: Inventory, n: Node, dataDir: string, tokenFile: string)
    requires Valid(inv) && n in inv.nodes
    ensures OwnServer(MemberConfig(inv, n, dataDir, tokenFile), inv, n.name, dataDir, tokenFile)
    ensures SharedSettings(MemberConfig(inv, n, dataDir, tokenFile), inv)
  {
    EndpointsOnceBootstrapFirst(inv);
    var i :| 0 <= i < |inv.nodes| && inv.nodes[i].name == inv.bootstrapNode;
    assert inv.nodes[i] in inv.nodes;
    assert "10.44.0.0/16"[4] != "10.43.0.0/16"[4];
  }

  /** Conversely these facts leave no choice: a configuration that has them is the derived one. */
  lemma OwnServerDetermines(c: Config, inv: Inventory, n: Node, dataDir: string, tokenFile: string)
    requires Valid(inv) && n in inv.nodes
    requires OwnServer(c, inv, n.name, dataDir, tokenFile) && SharedSettings(c, inv)
    requires n.name == inv.bootstrapNode ==> c.serverURL == OtherURL("")
    ensures c == MemberConfig(inv, n, dataDir, tokenFile)
  {
    FindNodeUnique(inv.nodes, n);
    FindNodeUnique(inv.nodes, Node(n.name, c.nodeIP));
    EndpointsOnceBootstrapFirst(inv);
    assert c.sans == Sans(inv.nodes);
  }

  /** No two servers of an inventory are configured with one name or one address. */
  lemma ServersAreToldApart(inv: Inventory, m: Node, n: Node, dataDir: string, tokenFile: string)
    requires Valid(inv) && m in inv.nodes && n in inv.nodes && m != n
    ensures var c, d := MemberConfig(inv, m, dataDir, tokenFile), MemberConfig(inv, n, dataDir, tokenFile);
            c.nodeName != d.nodeName && c.nodeIP != d.nodeIP
  {
    var i :| 0 <= i < |inv.nodes| && inv.nodes[i] == m;
    var j :| 0 <= j < |inv.nodes| && inv.nodes[j] == n;
  }

  /** Succeeds exactly for a planned server with a data directory and, away from the bootstrap, a token file. */
  method EmbeddedEtcdConfig(inv: Inventory, nodeName: string, dataDir: string, tokenFile: string)
    returns (r: Outcome<Config>)
    ensures r.Ok? <==> && Valid(inv) && HasNode(inv, nodeName) && !Blank(dataDir)
                       && (nodeName == inv.bootstrapNode || !Blank(tokenFile))
    ensures r.Ok? ==> r.value == MemberConfig(inv, FindNode(inv.nodes, nodeName).value, dataDir, tokenFile)
    ensures r.Ok? ==> OwnServer(r.value, inv, nodeName, dataDir, tokenFile) && SharedSettings(r.value, inv)
  {
    var ok := Validate(inv);
    if !ok { return Err; }
    var k := 0;
    while k < |inv.nodes| && inv.nodes[k].name != nodeName
      invariant 0 <= k <= |inv.nodes|
      invariant forall i | 0 <= i < k :: inv.nodes[i].name != nodeName
    {
      k := k + 1;
    }
    if k == |inv.nodes| { return Err; }
    var node := inv.nodes[k];
    FindNodeUnique(inv.nodes, node);
    MemberConfigValid(inv, node, dataDir, tokenFile);
    MemberConfigIsOwn(inv, node, dataDir, tokenFile);
    EndpointsOnceBootstrapFirst(inv);
    var endpoints := APIEndpoints(inv);
    var cfg := Config(Server, nodeName, dataDir, Sans(inv.nodes), EMBEDDED_ETCD_V1, node.address,
                      OtherURL(""), "", nodeName == inv.bootstrapNode, DEFAULT_CLUSTER_CIDR, DEFAULT_SERVICE_CIDR);
    if !cfg.clusterInit {
      cfg := cfg.(serverURL := endpoints[0], tokenFile := tokenFile);
    }
    if !ValidConfig(cfg) { return Err; }
    return Ok(cfg);
  }

  /** One planned server initialises etcd; every other one joins at that server's own address. */
  lemma OneServerInitialises(inv: Inventory, dataDir: string, tokenFile: string) returns (b: Node)
    requires Valid(inv)
    ensures b in inv.nodes
    ensures forall n | n in inv.nodes :: MemberConfig(inv, n, dataDir, tokenFile).clusterInit <==> n == b
    ensures forall n | n in inv.nodes && n != b :: MemberConfig(inv, n, dataDir, tokenFile).serverURL == Https(b.address)
    ensures !HasServerURL(MemberConfig(inv, b, dataDir, tokenFile))
  {
    var i :| 0 <= i < |inv.nodes| && inv.nodes[i].name == inv.bootstrapNode;
    b := inv.nodes[i];
    EndpointsOnceBootstrapFirst(inv);
    forall n | n in inv.nodes && n.name == inv.bootstrapNode ensures n == b {
      FindNodeUnique(inv.nodes, n);
      FindNodeUnique(inv.nodes, b);
    }
  }

  /** Unlike the fingerprint, a member's configuration does depend on the order in which the same servers are listed. */
  lemma ConfigFollowsListing(x: Inventory, y: Inventory, n: Node, dataDir: string, tokenFile: string)
    requires Valid(x) && Valid(y) && SameServers(x, y) && n in x.nodes
    ensures Fingerprint(x) == Fingerprint(y)
    ensures MemberConfig(x, n, dataDir, tokenFile) == MemberConfig(y, n, dataDir, tokenFile) <==> x.nodes == y.nodes
  {
    FingerprintIdentifiesServers(x, y);
    SameServersSameBootstrapEndpoint(x, y);
    assert DistinctNodes(y.nodes);
    hide Valid, Fingerprint, BootstrapEndpoint;
    if Sans(x.nodes) == Sans(y.nodes) {
      assert |x.nodes| == |Sans(x.nodes)| == |Sans(y.nodes)| == |y.nodes|;
      forall i | 0 <= i < |x.nodes| ensures x.nodes[i] == y.nodes[i] {
        assert Sans(x.nodes)[i] == Sans(y.nodes)[i];
        assert x.nodes[i] in y.nodes;
        var j :| 0 <= j < |y.nodes| && y.nodes[j] == x.nodes[i];
        assert j == i;
      }
    }
  }
}
