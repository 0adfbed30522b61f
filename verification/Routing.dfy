/** Withdrawing a node from the inference routing registry. */
module Routing {
  import opened Text

  /** `extra` stands for wire fields that this tool does not decode. */
  datatype Instance = Instance(node: string, models: seq<string>, extra: string)

  /** A binding is kept verbatim; it names an instance if it decodes (an absent name decodes as empty). */
  datatype Binding = Decodable(instance: string, raw: string) | Undecodable(raw: string)

  datatype Registry = Registry(instances: map<string, Instance>, bindings: map<string, Binding>, extra: string)

  datatype Raw = BlankText | Garbage(text: string) | Encoded(registry: Registry)

  predicate OnNode(reg: Registry, node: string) { exists id | id in reg.instances :: reg.instances[id].node == node }

  /** A decodable binding to an instance that is not there. */
  predicate Dangling(reg: Registry, alias: string)
    requires alias in reg.bindings
  {
    reg.bindings[alias].Decodable? && reg.bindings[alias].instance !in reg.instances
  }

  predicate NoDangling(reg: Registry) { forall alias | alias in reg.bindings :: !Dangling(reg, alias) }

  /** Re-encoding keeps what was decoded and drops the rest. */
  function Reencoded(i: Instance): Instance { i.(extra := "") }

  function Withdrawn(reg: Registry, node: string): Registry {
    var instances := map id | id in reg.instances && reg.instances[id].node != node :: Reencoded(reg.instances[id]);
    Registry(instances, Live(reg.bindings, instances.Keys), "")
  }

  /** What the tool would write back: nothing unless it removed an instance. */
  function Update(raw: Raw, node: string): Outcome<Option<Registry>> {
    match raw
    case BlankText => Ok(None)
    case Garbage(_) => Err
    case Encoded(reg) => Ok(if OnNode(reg, node) then Some(Withdrawn(reg, node)) else None)
  }

  function Others(instances: map<string, Instance>, node: string): map<string, Instance> {
    map id | id in instances && instances[id].node != node :: instances[id]
  }

  function Live(bindings: map<string, Binding>, ids: set<string>): map<string, Binding> {
    map alias | alias in bindings && !(bindings[alias].Decodable? && bindings[alias].instance !in ids) :: bindings[alias]
  }

  /** The first pass deletes while it iterates, in no particular order. */
  method RemoveInstances(all: map<string, Instance>, node: string) returns (instances: map<string, Instance>, changed: bool)
    ensures instances == Others(all, node)
    ensures changed <==> exists id | id in all :: all[id].node == node
  {
    instances, changed := all, false;
    var ids := all.Keys;
    while ids != {}
      invariant ids <= all.Keys
      invariant forall id :: id in instances <==> id in all && (id in ids || all[id].node != node)
      invariant forall id | id in instances :: instances[id] == all[id]
      invariant changed <==> exists id | id in all && id !in ids :: all[id].node == node
      decreases |ids|
    {
      var id :| id in ids;
      ids := ids - {id};
      if all[id].node == node {
        instances := instances - {id};
        changed := true;
      }
    }
  }

  /** The second pass drops bindings whose instance is gone; one that does not decode is kept. */
  method RemoveBindings(all: map<string, Binding>, instances: map<string, Instance>) returns (bindings: map<string, Binding>)
    ensures bindings == Live(all, instances.Keys)
  {
    bindings := all;
    var aliases := all.Keys;
    while aliases != {}
      invariant aliases <= all.Keys
      invariant forall alias :: alias in bindings <==>
                  alias in all && (alias in aliases || !(all[alias].Decodable? && all[alias].instance !in instances))
      invariant forall alias | alias in bindings :: bindings[alias] == all[alias]
      decreases |aliases|
    {
      var alias :| alias in aliases;
      aliases := aliases - {alias};
      if all[alias].Decodable? && all[alias].instance !in instances { bindings := bindings - {alias}; }
    }
  }

  method RemoveNode(raw: Raw, node: string) returns (r: Outcome<Option<Registry>>)
    ensures r == Update(raw, node)
  {
    if raw == BlankText { return Ok(None); }
    if raw.Garbage? { return Err; }
    var reg := raw.registry;
    var instances, changed := RemoveInstances(reg.instances, node);
    if !changed { return Ok(None); }
    var bindings := RemoveBindings(reg.bindings, instances);
    assert instances.Keys == Withdrawn(reg, node).instances.Keys;
    r := Ok(Some(Registry(map id | id in instances :: Reencoded(instances[id]), bindings, "")));
    assert r.value.value.instances == Withdrawn(reg, node).instances;
  }

  /** No instance is left on the node, no decodable binding is left without its instance, and nothing else goes. */
  lemma WithdrawnIsClean(reg: Registry, node: string)
    ensures var w := Withdrawn(reg, node);
            && !OnNode(w, node) && NoDangling(w)
            && (forall id | id in reg.instances && reg.instances[id].node != node ::
                  id in w.instances && w.instances[id].node == reg.instances[id].node && w.instances[id].models == reg.instances[id].models)
            && (forall id | id in w.instances :: id in reg.instances && reg.instances[id].node != node)
            && (forall alias | alias in reg.bindings && (reg.bindings[alias].Undecodable? || reg.bindings[alias].instance in w.instances) ::
                  alias in w.bindings && w.bindings[alias] == reg.bindings[alias])
            && (forall alias | alias in w.bindings :: alias in reg.bindings && w.bindings[alias] == reg.bindings[alias])
  {
  }

  /** Something is written back exactly for a registry that decodes and has an instance on the node, and then without any field
      that the tool does not know. */
  lemma UpdateIff(raw: Raw, node: string)
    ensures Update(raw, node).Err? <==> raw.Garbage?
    ensures Update(raw, node).Ok? && Update(raw, node).value.Some? <==> raw.Encoded? && OnNode(raw.registry, node)
    ensures raw.Encoded? && OnNode(raw.registry, node) ==>
              var w := Update(raw, node).value.value;
              w == Withdrawn(raw.registry, node) && w.extra == "" && forall id | id in w.instances :: w.instances[id].extra == ""
  {
  }

  /** A second withdrawal finds nothing to do. */
  lemma SecondWithdrawalIsNoOp(reg: Registry, node: string)
    ensures Update(Encoded(Withdrawn(reg, node)), node) == Ok(None)
  {
    WithdrawnIsClean(reg, node);
  }

  /** The registry as it stands after a run that wrote what `Update` says. */
  function After(reg: Registry, node: string): Registry {
    if OnNode(reg, node) then Withdrawn(reg, node) else reg
  }

  /** No instance is left on the node in any case; stale bindings go exactly when there was one, or when there were none of them. */
  lemma StaleBindingsNeedAnInstance(reg: Registry, node: string)
    ensures !OnNode(After(reg, node), node)
    ensures NoDangling(After(reg, node)) <==> OnNode(reg, node) || NoDangling(reg)
  {
    WithdrawnIsClean(reg, node);
  }

  /** Instances on other nodes survive to the letter exactly when they carry no field that the tool does not know. */
  lemma OtherInstancesVerbatim(reg: Registry, node: string)
    requires OnNode(reg, node)
    ensures (forall id | id in reg.instances && reg.instances[id].node != node :: Withdrawn(reg, node).instances[id] == reg.instances[id])
       <==> (forall id | id in reg.instances && reg.instances[id].node != node :: reg.instances[id].extra == "")
  {
    var w := Withdrawn(reg, node);
    assert forall id | id in reg.instances && reg.instances[id].node != node :: w.instances[id] == Reencoded(reg.instances[id]);
    assert forall id | id in reg.instances && reg.instances[id].node != node ::
        w.instances[id] == reg.instances[id] <==> reg.instances[id].extra == "";
  }

  // ---- Against concurrent publishers -----------------------------------------------------------

  /** The ConfigMap's data in every version so far; the resource version is the length. Empty when there is none. */
  class ConfigMap {
    var history: seq<Raw>

    constructor (history: seq<Raw>)
      ensures this.history == history
    {
      this.history := history;
    }

    method Attempt() returns (ok: bool) { ok := *; }

    /** Any number of publications by others. */
    method OthersPublish() returns (ghost published: seq<Raw>)
      modifies this
      ensures history == old(history) + published
    {
      published := [];
      var more: bool := *;
      var budget: nat := *;
      while more && budget > 0
        invariant history == old(history) + published
        decreases budget
      {
        var raw: Raw := *;
        history := history + [raw];
        published := published + [raw];
        more := *;
        budget := budget - 1;
      }
    }

    /** The `test` operation (section 4.6 of RFC 6902) on the resource version, then the replacement; the answer may be
        lost after the patch was applied. */
    method Patch(version: nat, data: Raw) returns (ok: bool, ghost applied: bool)
      modifies this
      ensures history == if applied then old(history) + [data] else old(history)
      ensures applied ==> |old(history)| == version
      ensures ok ==> applied
    {
      var reaches: bool := *;
      if !reaches || |history| != version { return false, false; }
      history := history + [data];
      ok := *;
      return ok, true;
    }
  }

  /** Read, compute, patch, while others publish. Something is written only if nobody published since the read, and then it
      replaces exactly the version it was computed from. */
  method WithdrawNodeRouting(cm: ConfigMap, node: string)
    returns (ok: bool, ghost written: bool, ghost published: seq<Raw>)
    modifies cm
    ensures written ==>
              && published == [] && old(cm.history) != []
              && var update := Update(old(cm.history)[|old(cm.history)| - 1], node);
                 update.Ok? && update.value.Some? && cm.history == old(cm.history) + [Encoded(update.value.value)]
    ensures !written ==> cm.history == old(cm.history) + published
    ensures ok && !written && old(cm.history) != [] ==> Update(old(cm.history)[|old(cm.history)| - 1], node) == Ok(None)
  {
    written, published := false, [];
    ok := cm.Attempt();
    if !ok { return; }
    if cm.history == [] { return; }
    var version, raw := |cm.history|, cm.history[|cm.history| - 1];
    var update := RemoveNode(raw, node);
    published := cm.OthersPublish();
    if update.Err? { return false, false, published; }
    if update.value.None? { return; }
    ok, written := cm.Patch(version, Encoded(update.value.value));
  }

  /** Who wrote a version: a publisher, or this tool withdrawing a node. */
  datatype Writer = Publisher | Withdrawer(node: string)

  /** Every version that the tool wrote is the withdrawal from its immediate predecessor, as `WithdrawNodeRouting` writes it;
      publishers write what they like. */
  ghost predicate Lineage(history: seq<Raw>, writers: seq<Writer>) {
    && |history| == |writers|
    && forall i | 0 < i < |history| && writers[i].Withdrawer? ::
         Update(history[i - 1], writers[i].node).Ok? && Update(history[i - 1], writers[i].node).value.Some?
         && history[i] == Encoded(Update(history[i - 1], writers[i].node).value.value)
  }

  predicate Publishes(raw: Raw, id: string, node: string, models: seq<string>) {
    raw.Encoded? && id in raw.registry.instances && raw.registry.instances[id].node == node && raw.registry.instances[id].models == models
  }

  predicate Binds(raw: Raw, alias: string, b: Binding) { raw.Encoded? && alias in raw.registry.bindings && raw.registry.bindings[alias] == b }

  /** One successful call extends such a history, whatever others publish beside it. */
  lemma CallsExtendLineage(before: seq<Raw>, writers: seq<Writer>, node: string, written: bool, published: seq<Raw>, after: seq<Raw>)
    returns (all: seq<Writer>)
    requires Lineage(before, writers)
    requires written ==>
               && published == [] && before != []
               && Update(before[|before| - 1], node).Ok? && Update(before[|before| - 1], node).value.Some?
               && after == before + [Encoded(Update(before[|before| - 1], node).value.value)]
    requires !written ==> after == before + published
    ensures Lineage(after, all) && writers <= all
  {
    hide Update;
    all := writers + (if written then [Withdrawer(node)] else seq(|published|, _ => Publisher));
  }

  /** A publication stands until a publisher changes it or its own node is withdrawn, however many withdrawals of other nodes
      and publications fall in between, and whether or not an alias is bound to it. */
  lemma {:induction false} NoPublicationIsLost(history: seq<Raw>, writers: seq<Writer>, k: nat, n: nat, id: string, node: string,
                                               models: seq<string>)
    requires Lineage(history, writers) && k <= n < |history|
    requires Publishes(history[k], id, node, models)
    requires forall i | k < i <= n && writers[i].Withdrawer? :: writers[i].node != node
    requires forall i | k < i <= n && writers[i].Publisher? && Publishes(history[i - 1], id, node, models) ::
               Publishes(history[i], id, node, models)
    ensures Publishes(history[n], id, node, models)
    decreases n
  {
    if k < n {
      NoPublicationIsLost(history, writers, k, n - 1, id, node, models);
      if writers[n].Withdrawer? {
        WithdrawnIsClean(history[n - 1].registry, writers[n].node);
      }
    }
  }

  /** So does a binding to it, with the publication that it is bound to. */
  lemma {:induction false} NoBindingIsLost(history: seq<Raw>, writers: seq<Writer>, k: nat, n: nat, id: string, node: string,
                                           models: seq<string>, alias: string, b: Binding)
    requires Lineage(history, writers) && k <= n < |history|
    requires Publishes(history[k], id, node, models)
    requires Binds(history[k], alias, b) && b.Decodable? && b.instance == id
    requires forall i | k < i <= n && writers[i].Withdrawer? :: writers[i].node != node
    requires forall i | k < i <= n && writers[i].Publisher? && Publishes(history[i - 1], id, node, models) && Binds(history[i - 1], alias, b) ::
               Publishes(history[i], id, node, models) && Binds(history[i], alias, b)
    ensures Publishes(history[n], id, node, models) && Binds(history[n], alias, b)
    decreases n
  {
    if k < n {
      NoBindingIsLost(history, writers, k, n - 1, id, node, models, alias, b);
      if writers[n].Withdrawer? {
        WithdrawnIsClean(history[n - 1].registry, writers[n].node);
      }
    }
  }
}
