/** The substrate gate: does Kubernetes show exactly the planned servers, each ready on its planned address? */
module Readiness {
  import opened Text
  import opened ClusterTopology

  datatype NodeAddress = NodeAddress(kind: string, address: Address)
  datatype Condition = Condition(kind: string, status: string)

  /** One item of `kubectl get nodes -o json`. */
  datatype Item = Item(
    name: string, uid: string, labels: set<string>, unschedulable: bool, taintEffects: seq<string>,
    addresses: seq<NodeAddress>, conditions: seq<Condition>, kubeletVersion: string)

  const CONTROL_PLANE_LABEL := "node-role.kubernetes.io/control-plane"
  const ETCD_LABEL := "node-role.kubernetes.io/etcd"

  function Recorded(uids: map<string, string>, name: string): string { if name in uids then uids[name] else "" }

  predicate BlockingEffect(effect: string) { effect == "NoSchedule" || effect == "NoExecute" }

  /** The observed item is the planned server `n`, in service on the signed version. */
  predicate Fits(item: Item, n: Node, version: string, uids: map<string, string>) {
    && Trim(item.name) == n.name
    && item.uid != ""
    && (Recorded(uids, n.name) == "" || Recorded(uids, n.name) == item.uid)
    && CONTROL_PLANE_LABEL in item.labels
    && ETCD_LABEL in item.labels
    && !item.unschedulable
    && (forall i | 0 <= i < |item.taintEffects| :: !BlockingEffect(item.taintEffects[i]))
    && item.kubeletVersion == version
    && Condition("Ready", "True") in item.conditions
    && NodeAddress("InternalIP", n.address) in item.addresses
  }

  /** `f` pairs every planned server with its own observed item, and leaves no item over. */
  ghost predicate Pairing(f: seq<nat>, plan: seq<Node>, items: seq<Item>, version: string, uids: map<string, string>) {
    && |f| == |plan| == |items|
    && (forall i | 0 <= i < |f| :: f[i] < |items| && Fits(items[f[i]], plan[i], version, uids))
    && (forall i, j | 0 <= i < j < |f| :: f[i] != f[j])
  }

  ghost predicate Planned(item: Item, plan: seq<Node>, version: string, uids: map<string, string>) {
    exists i | 0 <= i < |plan| :: Fits(item, plan[i], version, uids)
  }

  /** Item by item: each fits some planned server, and no two carry one name. */
  ghost predicate EachItemPlanned(plan: seq<Node>, items: seq<Item>, version: string, uids: map<string, string>) {
    && |items| == |plan|
    && (forall k | 0 <= k < |items| :: Planned(items[k], plan, version, uids))
    && (forall j, k | 0 <= j < k < |items| :: Trim(items[j].name) != Trim(items[k].name))
  }

  // ---- Pigeonhole ------------------------------------------------------------------------------

  lemma {:induction false} DistinctCount<T>(s: seq<T>)
    requires forall i, j | 0 <= i < j < |s| :: s[i] != s[j]
    ensures |set x | x in s| == |s|
  {
    if s != [] {
      var init, last := s[..|s| - 1], s[|s| - 1];
      DistinctCount(init);
      assert s == init + [last];
      assert (set x | x in s) == (set x | x in init) + {last};
    }
  }

  /** As many distinct values as there are slots, all drawn from the slots, fill every slot. */
  lemma Pigeonhole<T>(drawn: seq<T>, slots: seq<T>)
    requires |drawn| == |slots|
    requires forall i, j | 0 <= i < j < |drawn| :: drawn[i] != drawn[j]
    requires forall i, j | 0 <= i < j < |slots| :: slots[i] != slots[j]
    requires forall x | x in drawn :: x in slots
    ensures forall x | x in slots :: x in drawn
  {
    DistinctCount(drawn);
    DistinctCount(slots);
    var d, t := set x | x in drawn, set x | x in slots;
    EqualSizedSubset(d, t);
    assert forall x | x in slots :: x in t && x in d;
  }

  function ItemNames(items: seq<Item>): (r: seq<string>)
    ensures |r| == |items| && forall i | 0 <= i < |items| :: r[i] == Trim(items[i].name)
  {
    seq(|items|, i requires 0 <= i < |items| => Trim(items[i].name))
  }

  function PlanNames(plan: seq<Node>): (r: seq<string>)
    ensures |r| == |plan| && forall i | 0 <= i < |plan| :: r[i] == plan[i].name
  {
    seq(|plan|, i requires 0 <= i < |plan| => plan[i].name)
  }

  /** No planned server is missing, although absence is never looked for: counts and distinct names suffice. */
  lemma ItemFor(plan: seq<Node>, items: seq<Item>, version: string, uids: map<string, string>, i: nat) returns (k: nat)
    requires DistinctNodes(plan) && EachItemPlanned(plan, items, version, uids) && i < |plan|
    ensures k < |items| && Fits(items[k], plan[i], version, uids)
  {
    var drawn, slots := ItemNames(items), PlanNames(plan);
    forall x | x in drawn ensures x in slots {
      var j :| 0 <= j < |items| && x == drawn[j];
      var p :| 0 <= p < |plan| && Fits(items[j], plan[p], version, uids);
      assert slots[p] == x;
    }
    Pigeonhole(drawn, slots);
    assert slots[i] in slots;
    k :| 0 <= k < |items| && drawn[k] == slots[i];
    var p :| 0 <= p < |plan| && Fits(items[k], plan[p], version, uids);
    assert p == i;
  }

  lemma PlannedItemsPair(plan: seq<Node>, items: seq<Item>, version: string, uids: map<string, string>) returns (f: seq<nat>)
    requires DistinctNodes(plan) && EachItemPlanned(plan, items, version, uids)
    ensures Pairing(f, plan, items, version, uids)
  {
    f := [];
    while |f| < |plan|
      invariant |f| <= |plan|
      invariant forall i | 0 <= i < |f| :: f[i] < |items| && Fits(items[f[i]], plan[i], version, uids)
    {
      var k := ItemFor(plan, items, version, uids, |f|);
      f := f + [k];
    }
  }

  /** A pairing of equally many leaves no item unpaired. */
  lemma PairedWith(f: seq<nat>, plan: seq<Node>, items: seq<Item>, version: string, uids: map<string, string>, k: nat)
    returns (i: nat)
    requires Pairing(f, plan, items, version, uids) && k < |items|
    ensures i < |plan| && f[i] == k && Fits(items[k], plan[i], version, uids)
  {
    var slots: seq<nat> := seq(|items|, k requires 0 <= k < |items| => k);
    forall x | x in f ensures x in slots {
      assert slots[x] == x;
    }
    Pigeonhole(f, slots);
    assert slots[k] in f;
    i :| 0 <= i < |plan| && f[i] == k;
  }

  lemma PairedItemsPlanned(f: seq<nat>, plan: seq<Node>, items: seq<Item>, version: string, uids: map<string, string>)
    requires DistinctNodes(plan) && Pairing(f, plan, items, version, uids)
    ensures EachItemPlanned(plan, items, version, uids)
  {
    forall k | 0 <= k < |items| ensures Planned(items[k], plan, version, uids) {
      var i := PairedWith(f, plan, items, version, uids, k);
    }
    forall j, k | 0 <= j < k < |items| ensures Trim(items[j].name) != Trim(items[k].name) {
      var p := PairedWith(f, plan, items, version, uids, j);
      var q := PairedWith(f, plan, items, version, uids, k);
      assert p < q || q < p;
    }
  }

  /** What a healthy answer shows of every planned server: a node of that name with an identity, with the two roles, schedulable and
      free of blocking taints, ready, on the signed version and at the planned address. */
  lemma HealthyServer(f: seq<nat>, plan: seq<Node>, items: seq<Item>, version: string, uids: map<string, string>, i: nat)
    requires Pairing(f, plan, items, version, uids) && i < |plan|
    ensures f[i] < |items|
    ensures var item := items[f[i]];
            && Trim(item.name) == plan[i].name && item.uid != ""
            && {"node-role.kubernetes.io/control-plane", "node-role.kubernetes.io/etcd"} <= item.labels
            && !item.unschedulable && "NoSchedule" !in item.taintEffects && "NoExecute" !in item.taintEffects
            && item.kubeletVersion == version && Condition("Ready", "True") in item.conditions
            && NodeAddress("InternalIP", plan[i].address) in item.addresses
            && (plan[i].name in uids && uids[plan[i].name] != "" ==> item.uid == uids[plan[i].name])
  {
    assert Fits(items[f[i]], plan[i], version, uids);
  }

  /** And nothing more is asked of it. */
  lemma ServerFits(item: Item, n: Node, version: string, uids: map<string, string>)
    requires Trim(item.name) == n.name && item.uid != "" && (n.name in uids ==> uids[n.name] == "" || uids[n.name] == item.uid)
    requires {"node-role.kubernetes.io/control-plane", "node-role.kubernetes.io/etcd"} <= item.labels && !item.unschedulable
    requires "NoSchedule" !in item.taintEffects && "NoExecute" !in item.taintEffects
    requires item.kubeletVersion == version && Condition("Ready", "True") in item.conditions
    requires NodeAddress("InternalIP", n.address) in item.addresses
    ensures Fits(item, n, version, uids)
  {
    assert forall i | 0 <= i < |item.taintEffects| :: item.taintEffects[i] in item.taintEffects;
  }

  // ---- The check -------------------------------------------------------------------------------

  method BlockingTaint(effects: seq<string>) returns (blocked: bool)
    ensures blocked <==> exists i | 0 <= i < |effects| :: BlockingEffect(effects[i])
  {
    for i := 0 to |effects|
      invariant forall j | 0 <= j < i :: !BlockingEffect(effects[j])
    {
      if BlockingEffect(effects[i]) { return true; }
    }
    return false;
  }

  /** Reports health for exactly those answers that pair every planned server with its own ready node. */
  method ValidateNodeReadiness(inv: Inventory, reachable: bool, version: string, uids: map<string, string>,
                               response: Option<seq<Item>>)
    returns (healthy: bool)
    ensures healthy <==> && Valid(inv) && reachable && !Blank(version) && response.Some?
                         && exists f :: Pairing(f, inv.nodes, response.value, version, uids)
  {
    var ok := Validate(inv);
    if !ok || !reachable || Blank(version) || response.None? { return false; }
    healthy := ItemsMatchPlan(inv.nodes, response.value, version, uids);
    if healthy {
      var f := PlannedItemsPair(inv.nodes, response.value, version, uids);
    } else {
      forall f | Pairing(f, inv.nodes, response.value, version, uids) ensures false {
        PairedItemsPlanned(f, inv.nodes, response.value, version, uids);
      }
    }
  }

  /** The tests made of one item that carries a planned name. */
  method ItemFits(item: Item, n: Node, version: string, uids: map<string, string>) returns (fits: bool)
    requires Trim(item.name) == n.name
    ensures fits <==> Fits(item, n, version, uids)
  {
    if item.uid == "" || (Recorded(uids, n.name) != "" && Recorded(uids, n.name) != item.uid) { return false; }
    if CONTROL_PLANE_LABEL !in item.labels || ETCD_LABEL !in item.labels || item.unschedulable { return false; }
    var blocked := BlockingTaint(item.taintEffects);
    if blocked || item.kubeletVersion != version { return false; }
    var ready, addressMatches := false, false;
    for c := 0 to |item.conditions|
      invariant ready <==> Condition("Ready", "True") in item.conditions[..c]
    {
      if item.conditions[c].kind == "Ready" && item.conditions[c].status == "True" { ready := true; }
    }
    for c := 0 to |item.addresses|
      invariant addressMatches <==> NodeAddress("InternalIP", n.address) in item.addresses[..c]
    {
      if item.addresses[c].kind == "InternalIP" && item.addresses[c].address == n.address { addressMatches := true; }
    }
    assert item.conditions[..|item.conditions|] == item.conditions;
    assert item.addresses[..|item.addresses|] == item.addresses;
    fits := ready && addressMatches;
  }

  ghost predicate Expects(expected: map<string, Address>, plan: seq<Node>) {
    && (forall n | n in plan :: n.name in expected && expected[n.name] == n.address)
    && (forall name | name in expected :: Node(name, expected[name]) in plan)
  }

  method PlannedAddresses(plan: seq<Node>) returns (expected: map<string, Address>)
    requires DistinctNodes(plan)
    ensures Expects(expected, plan)
  {
    expected := map[];
    for i := 0 to |plan|
      invariant Expects(expected, plan[..i])
    {
      expected := expected[plan[i].name := plan[i].address];
    }
    assert plan[..|plan|] == plan;
  }

  lemma PlannedByName(item: Item, plan: seq<Node>, expected: map<string, Address>, version: string, uids: map<string, string>)
    requires Expects(expected, plan)
    ensures Planned(item, plan, version, uids)
       <==> Trim(item.name) in expected && Fits(item, Node(Trim(item.name), expected[Trim(item.name)]), version, uids)
  {
    if Planned(item, plan, version, uids) {
      var i :| 0 <= i < |plan| && Fits(item, plan[i], version, uids);
      assert plan[i] in plan;
    }
  }

  method ItemsMatchPlan(plan: seq<Node>, items: seq<Item>, version: string, uids: map<string, string>)
    returns (healthy: bool)
    requires DistinctNodes(plan)
    ensures healthy <==> EachItemPlanned(plan, items, version, uids)
  {
    hide Fits, Planned, Trim, Expects;
    if |items| != |plan| { return false; }
    var expected := PlannedAddresses(plan);
    var seen: set<string> := {};
    for k := 0 to |items|
      invariant seen == set j | 0 <= j < k :: Trim(items[j].name)
      invariant forall j | 0 <= j < k :: Planned(items[j], plan, version, uids)
      invariant forall i, j | 0 <= i < j < k :: Trim(items[i].name) != Trim(items[j].name)
    {
      var name := Trim(items[k].name);
      PlannedByName(items[k], plan, expected, version, uids);
      if name !in expected || name in seen { return false; }
      seen := seen + {name};
      var fits := ItemFits(items[k], Node(name, expected[name]), version, uids);
      if !fits { return false; }
    }
    return true;
  }

  /** Every direct endpoint has to answer `ok`; `answers` holds the replies, nothing for a failed call. */
  method ValidateAPIEndpoints(inv: Inventory, reachable: bool, answers: map<Endpoint, string>) returns (healthy: bool)
    ensures healthy <==> && Valid(inv) && reachable
                         && forall n | n in inv.nodes :: Https(n.address) in answers && Trim(answers[Https(n.address)]) == "ok"
  {
    var endpoints := APIEndpoints(inv);
    var ok := Validate(inv);
    if !ok || !reachable { return false; }
    EndpointsOnceBootstrapFirst(inv);
    for i := 0 to |endpoints|
      invariant forall j | 0 <= j < i :: endpoints[j] in answers && Trim(answers[endpoints[j]]) == "ok"
    {
      assert endpoints[i] in endpoints;
      if endpoints[i] !in answers || Trim(answers[endpoints[i]]) != "ok" { return false; }
    }
    forall n | n in inv.nodes ensures Https(n.address) in endpoints {}
    return true;
  }
}
