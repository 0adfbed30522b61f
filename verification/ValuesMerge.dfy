/** The same merge in place, over nested maps on the heap. */
module ValuesMerge {
  import opened Values

  /** A map entry: a scalar or list, or a nested map that may be nil. */
  datatype Entry = Scalar(text: string) | Nested(dict: Dict?)

  /** A map object; `model` is its value, `Repr` the map objects it owns. */
  class Dict {
    var entries: map<string, Entry>
    ghost var model: Value
    ghost var Repr: set<object>

    ghost predicate Valid()
      reads this, Repr
      ensures Valid() ==> this in Repr
      decreases Repr
    {
      && this in Repr
      && model.Node? && model.m.Keys == entries.Keys
      && (forall k | k in entries && entries[k].Scalar? :: model.m[k] == Leaf(entries[k].text))
      && (forall k | k in entries && entries[k] == Nested(null) :: model.m[k] == EMPTY)
      && (forall k | k in entries && Owns(entries[k]) ::
            && entries[k].dict in Repr && entries[k].dict.Repr <= Repr && this !in entries[k].dict.Repr
            && entries[k].dict.Valid() && entries[k].dict.model == model.m[k])
      && (forall j, k | j in entries && k in entries && j != k && Owns(entries[j]) && Owns(entries[k]) ::
            entries[j].dict.Repr !! entries[k].dict.Repr)
    }

    constructor ()
      ensures Valid() && fresh(Repr) && Repr == {this} && model == EMPTY
    {
      entries, model, Repr := map[], EMPTY, {this};
    }
  }

  predicate Owns(e: Entry) { e.Nested? && e.dict != null }

  /** The merge after some of the source keys. */
  ghost function MergedKeys(d: Value, s: Value, finished: set<string>): (r: Value)
    requires d.Node? && s.Node?
    ensures r.Node?
  {
    Node(map k | k in d.m.Keys + s.m.Keys * finished :: if k in s.m && k in finished then Merge(d, s).m[k] else d.m[k])
  }

  lemma MergedAllKeys(d: Value, s: Value)
    requires d.Node? && s.Node?
    ensures MergedKeys(d, s, s.m.Keys) == Merge(d, s)
    ensures MergedKeys(d, s, {}) == d
  {
    hide Merge;
    assert MergedKeys(d, s, {}).m == d.m;
    assert MergedKeys(d, s, s.m.Keys).m.Keys == Merge(d, s).m.Keys by { MergeKeepsOthers(d, s); }
    MergeKeepsOthers(d, s);
    assert MergedKeys(d, s, s.m.Keys).m == Merge(d, s).m;
  }

  lemma MergeKeepsOthers(d: Value, s: Value)
    requires d.Node? && s.Node?
    ensures forall k | k in d.m && k !in s.m :: Merge(d, s).m[k] == d.m[k]
  {
  }

  /** Everything that `Valid` says of a map except about one entry. */
  ghost predicate ValidElsewhere(d: Dict, key: string)
    reads d, d.Repr
  {
    && d in d.Repr && d.model.Node?
    && (forall k | k in d.entries && k != key :: k in d.model.m)
    && (forall k | k in d.model.m && k != key :: k in d.entries)
    && (forall k | k in d.entries && k != key && d.entries[k].Scalar? :: d.model.m[k] == Leaf(d.entries[k].text))
    && (forall k | k in d.entries && k != key && d.entries[k] == Nested(null) :: d.model.m[k] == EMPTY)
    && (forall k | k in d.entries && k != key && Owns(d.entries[k]) ::
          && d.entries[k].dict in d.Repr && d.entries[k].dict.Repr <= d.Repr && d !in d.entries[k].dict.Repr
          && d.entries[k].dict.Valid() && d.entries[k].dict.model == d.model.m[k])
    && (forall j, k | j in d.entries && k in d.entries && j != k && j != key && k != key && Owns(d.entries[j]) && Owns(d.entries[k]) ::
          d.entries[j].dict.Repr !! d.entries[k].dict.Repr)
  }

  /** Nothing that the other entries own is among `others`. */
  ghost predicate Elsewhere(d: Dict, key: string, others: set<object>)
    reads d, d.Repr
  {
    forall k | k in d.entries && k != key && Owns(d.entries[k]) && d.entries[k].dict in d.Repr :: d.entries[k].dict.Repr !! others
  }

  lemma ValidWithChild(d: Dict, key: string)
    requires ValidElsewhere(d, key) && key in d.entries && Owns(d.entries[key]) && key in d.model.m
    requires var c := d.entries[key].dict;
             c in d.Repr && c.Repr <= d.Repr && d !in c.Repr && c.Valid() && c.model == d.model.m[key] && Elsewhere(d, key, c.Repr)
    ensures d.Valid()
  {
  }

  /** The entry `key` of `dst` is, or becomes, the map `child`. */
  method Attach(dst: Dict, key: string, child: Dict)
    requires ValidElsewhere(dst, key) && child.Valid() && dst !in child.Repr && Elsewhere(dst, key, child.Repr)
    modifies dst
    ensures dst.Valid() && dst.entries == old(dst.entries)[key := Nested(child)]
    ensures dst.Repr == old(dst.Repr) + child.Repr
    ensures dst.model == Node(old(dst.model).m[key := child.model])
  {
    Put(dst, key, child);
    ValidWithChild(dst, key);
  }

  method Put(dst: Dict, key: string, child: Dict)
    requires ValidElsewhere(dst, key) && child.Valid() && dst !in child.Repr && Elsewhere(dst, key, child.Repr)
    modifies dst
    ensures ValidElsewhere(dst, key) && child.Valid() && dst !in child.Repr && Elsewhere(dst, key, child.Repr)
    ensures dst.entries == old(dst.entries)[key := Nested(child)]
    ensures dst.Repr == old(dst.Repr) + child.Repr
    ensures dst.model == Node(old(dst.model).m[key := child.model])
  {
    hide Dict.Valid, Merge;
    label L:
    dst.entries, dst.model, dst.Repr := dst.entries[key := Nested(child)], Node(dst.model.m[key := child.model]), dst.Repr + child.Repr;
    forall k | k in old@L(dst.entries) && k != key && Owns(old@L(dst.entries)[k])
      ensures dst.entries[k].dict.Valid() && dst.entries[k].dict.Repr == old@L(dst.entries[k].dict.Repr)
      ensures dst.entries[k].dict in dst.Repr && dst.entries[k].dict.Repr <= dst.Repr && dst !in dst.entries[k].dict.Repr
    {
      assert old@L(dst.entries[k].dict.Valid());
    }
  }

  lemma RestOfValid(d: Dict, key: string)
    requires d.Valid()
    ensures ValidElsewhere(d, key)
    ensures key in d.entries && Owns(d.entries[key]) ==>
              && d.entries[key].dict.Valid() && d !in d.entries[key].dict.Repr && d.entries[key].dict.Repr <= d.Repr
              && Elsewhere(d, key, d.entries[key].dict.Repr) && d.model == Node(d.model.m[key := d.entries[key].dict.model])
  {
    hide Merge;
    if key in d.entries && Owns(d.entries[key]) { assert d.model.m == d.model.m[key := d.entries[key].dict.model]; }
  }

  /** `dst[key]` as a map of its own: the one that is there, or a new empty one in place of anything else. */
  method OwnedChild(dst: Dict, key: string) returns (child: Dict)
    requires dst.Valid()
    modifies dst
    ensures dst.Valid() && key in dst.entries && dst.entries[key] == Nested(child)
    ensures fresh(dst.Repr - old(dst.Repr)) && old(dst.Repr) <= dst.Repr
    ensures dst.model == Node(old(dst.model).m[key := Under(old(dst.model), key)])
  {
    RestOfValid(dst, key);
    if key in dst.entries && Owns(dst.entries[key]) {
      child := dst.entries[key].dict;
    } else {
      assert Under(dst.model, key) == EMPTY by { OnlyOwnedMapsCount(dst, key); }
      hide Dict.Valid, Merge;
      child := new Dict();
      Attach(dst, key, child);
    }
  }

  lemma OnlyOwnedMapsCount(d: Dict, key: string)
    requires d.Valid() && !(key in d.entries && Owns(d.entries[key]))
    ensures Under(d.model, key) == EMPTY
  {
    hide Merge;
    if key in d.entries && d.entries[key].Nested? { assert d.entries[key] == Nested(null); }
  }

  method SetScalar(dst: Dict, key: string, text: string)
    requires dst.Valid()
    modifies dst
    ensures dst.Valid() && dst.Repr == old(dst.Repr)
    ensures dst.model == Node(old(dst.model).m[key := Leaf(text)])
  {
    hide Merge;
    RestOfValid(dst, key);
    dst.entries := dst.entries[key := Scalar(text)];
    dst.model := Node(dst.model.m[key := Leaf(text)]);
  }

  /** A nested source map goes into the map that `dst` has under that key. */
  method MergeChild(dst: Dict, key: string, src: Dict?)
    requires dst.Valid()
    requires src != null ==> src.Valid() && dst.Repr !! src.Repr
    modifies dst.Repr
    ensures dst.Valid() && fresh(dst.Repr - old(dst.Repr)) && old(dst.Repr) <= dst.Repr
    ensures dst.model == Node(old(dst.model).m[key := Merge(Under(old(dst.model), key), if src == null then EMPTY else old(src.model))])
    decreases if src == null then {} else src.Repr, 3
  {
    hide Merge, Dict.Valid;
    ghost var d := dst.model;
    KeysAgree(dst);
    var child := OwnedChild(dst, key);
    RestOfValid(dst, key);
    assert child.model == Under(d, key) by { assert dst.model.m[key] == child.model; }
    if src == null {
      RightIdentity(child.model);
      return;
    }
    MergeOwned(dst, key, child, src);
    Attach(dst, key, child);
  }

  /** The nested merge leaves everything else that `dst` owns alone. */
  method MergeOwned(dst: Dict, key: string, child: Dict, src: Dict)
    requires ValidElsewhere(dst, key) && child.Valid() && dst !in child.Repr && Elsewhere(dst, key, child.Repr)
    requires child.Repr <= dst.Repr && src.Valid() && dst.Repr !! src.Repr
    modifies child.Repr
    ensures ValidElsewhere(dst, key) && child.Valid() && dst !in child.Repr && Elsewhere(dst, key, child.Repr)
    ensures fresh(child.Repr - old(child.Repr)) && dst.Repr == old(dst.Repr)
    ensures child.model == Merge(old(child.model), old(src.model))
    decreases src.Repr, 2, 1
  {
    hide Merge, Dict.Valid;
    MergeValues(child, src);
  }

  lemma EntryModel(d: Dict, key: string)
    requires d.Valid() && key in d.entries
    ensures key in d.model.m && d.model.m.Keys == d.entries.Keys
    ensures d.entries[key].Scalar? ==> d.model.m[key] == Leaf(d.entries[key].text)
    ensures d.entries[key] == Nested(null) ==> d.model.m[key] == EMPTY
    ensures Owns(d.entries[key]) ==>
              && d.entries[key].dict.Valid() && d.model.m[key] == d.entries[key].dict.model && d.model.m[key].Node?
              && d.entries[key].dict.Repr < d.Repr
  {
  }

  method MergeKey(dst: Dict, src: Dict, key: string)
    requires dst.Valid() && src.Valid() && dst.Repr !! src.Repr && key in src.entries && key in src.model.m
    modifies dst.Repr
    ensures dst.Valid() && fresh(dst.Repr - old(dst.Repr)) && old(dst.Repr) <= dst.Repr
    ensures dst.model == Node(old(dst.model).m[key := if old(src.model).m[key].Leaf? then old(src.model).m[key]
                                                      else Merge(Under(old(dst.model), key), old(src.model).m[key])])
    decreases src.Repr, 1
  {
    hide Merge, Dict.Valid;
    EntryModel(src, key);
    match src.entries[key]
    case Scalar(text) => SetScalar(dst, key, text);
    case Nested(child) => MergeChild(dst, key, child);
  }

  /** In place and recursive; afterwards no map of `src` is part of `dst`, and `src` is as it was. */
  method MergeValues(dst: Dict, src: Dict)
    requires dst.Valid() && src.Valid() && dst.Repr !! src.Repr
    modifies dst.Repr
    ensures dst.Valid() && fresh(dst.Repr - old(dst.Repr)) && old(dst.Repr) <= dst.Repr
    ensures dst.model == Merge(old(dst.model), old(src.model))
    ensures src.Valid() && src.model == old(src.model) && src.Repr == old(src.Repr) && dst.Repr !! src.Repr
    decreases src.Repr, 2, 0
  {
    hide Merge, MergedKeys, Dict.Valid;
    ghost var d, s := dst.model, src.model;
    assert s.m.Keys == src.entries.Keys && d.Node? && s.Node? by { KeysAgree(dst); KeysAgree(src); }
    var rest := src.entries.Keys;
    MergedAllKeys(d, s);
    assert src.entries.Keys - rest == {};
    while rest != {}
      invariant rest <= src.entries.Keys
      invariant src.entries == old(src.entries) && src.model == s && src.Repr == old(src.Repr) && src.Valid()
      invariant dst.Valid() && fresh(dst.Repr - old(dst.Repr)) && old(dst.Repr) <= dst.Repr
      invariant dst.model == MergedKeys(d, s, src.entries.Keys - rest)
      decreases |rest|
    {
      var key :| key in rest;
      MergedNextKey(d, s, src.entries.Keys - rest, key);
      assert src.entries.Keys - (rest - {key}) == (src.entries.Keys - rest) + {key};
      rest := rest - {key};
      MergeKey(dst, src, key);
    }
    assert src.entries.Keys - rest == s.m.Keys;
  }

  lemma KeysAgree(d: Dict)
    requires d.Valid()
    ensures d.model.Node? && d.model.m.Keys == d.entries.Keys
  {
  }

  lemma MergedNextKey(d: Value, s: Value, finished: set<string>, key: string)
    requires d.Node? && s.Node? && key in s.m && key !in finished
    ensures MergedKeys(d, s, finished + {key})
         == Node(MergedKeys(d, s, finished).m[key := if s.m[key].Leaf? then s.m[key] else Merge(Under(MergedKeys(d, s, finished), key), s.m[key])])
  {
    var before, after := MergedKeys(d, s, finished), MergedKeys(d, s, finished + {key});
    assert Under(before, key) == Under(d, key);
    assert after.m == before.m[key := if s.m[key].Leaf? then s.m[key] else Merge(Under(d, key), s.m[key])];
  }
}
