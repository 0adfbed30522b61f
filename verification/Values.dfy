/** Deep merge of chart values, on values. */
module Values {
  import opened Text

  /** A YAML value: a map, or anything else as an indivisible leaf. */
  datatype Value = Leaf(text: string) | Node(m: map<string, Value>)

  const EMPTY := Node(map[])

  /** What a nested source map is merged into. */
  function Under(d: Value, k: string): (r: Value)
    requires d.Node?
    ensures r.Node?
  {
    if k in d.m && d.m[k].Node? then d.m[k] else EMPTY
  }

  /** `src` over `dst`: maps are merged key by key, everything else is replaced. */
  function Merge(d: Value, s: Value): (r: Value)
    requires d.Node? && s.Node?
    ensures r.Node? && r.m.Keys == d.m.Keys + s.m.Keys
    decreases s
  {
    Node(map k | k in d.m.Keys + s.m.Keys ::
           if k !in s.m then d.m[k]
           else assert s.m[k] < s; if s.m[k].Leaf? then s.m[k]
           else Merge(Under(d, k), s.m[k]))
  }

  /** Every leaf of the source arrives, whatever was there before. */
  lemma {:induction false} LeftIdentity(s: Value)
    requires s.Node?
    ensures Merge(EMPTY, s) == s
    decreases s
  {
    var r := Merge(EMPTY, s);
    forall k | k in s.m ensures r.m[k] == s.m[k] {
      assert s.m[k] < s;
      if s.m[k].Node? { LeftIdentity(s.m[k]); }
    }
    assert r.m == s.m;
  }

  lemma RightIdentity(d: Value)
    requires d.Node?
    ensures Merge(d, EMPTY) == d
  {
    assert Merge(d, EMPTY).m == d.m;
  }

  /** Merging the same source again changes nothing. */
  lemma {:induction false} IdempotentInSource(d: Value, s: Value)
    requires d.Node? && s.Node?
    ensures Merge(Merge(d, s), s) == Merge(d, s)
    decreases s
  {
    var once, twice := Merge(d, s), Merge(Merge(d, s), s);
    forall k | k in once.m ensures twice.m[k] == once.m[k] {
      if k in s.m && s.m[k].Node? {
        assert s.m[k] < s;
        IdempotentInSource(Under(d, k), s.m[k]);
      }
    }
    assert twice.m == once.m;
  }

  /** What stands at a path. */
  function Get(v: Value, path: seq<string>): (r: Option<Value>)
    decreases |path|
  {
    if path == [] then Some(v)
    else if v.Leaf? || path[0] !in v.m then None
    else Get(v.m[path[0]], path[1..])
  }

  /** The source has its say at a path: it holds something there, or something that is not a map on the way. */
  predicate Decides(s: Value, path: seq<string>)
    decreases |path|
  {
    if path == [] then true
    else if s.Leaf? then true
    else path[0] in s.m && Decides(s.m[path[0]], path[1..])
  }

  /** Leaf by leaf: what the source holds wins, what it does not decide stays, and nothing else is there. */
  lemma {:induction false} SourceWins(d: Value, s: Value, path: seq<string>, text: string)
    requires d.Node? && s.Node?
    ensures Get(Merge(d, s), path) == Some(Leaf(text)) <==>
              || Get(s, path) == Some(Leaf(text))
              || (Get(d, path) == Some(Leaf(text)) && !Decides(s, path))
    decreases |path|
  {
    if path != [] && path[0] in s.m {
      var k, rest := path[0], path[1..];
      if s.m[k].Node? {
        SourceWins(Under(d, k), s.m[k], rest, text);
        if !(k in d.m && d.m[k].Node?) && k in d.m && rest == [] { assert Decides(s.m[k], rest); }
        EmptyHasNoLeaf(rest, text);
        LeafHasNothingBelow(d, k, rest, text);
      }
    }
  }

  lemma EmptyHasNoLeaf(path: seq<string>, text: string)
    ensures Get(EMPTY, path) != Some(Leaf(text))
  {
  }

  lemma LeafHasNothingBelow(d: Value, k: string, path: seq<string>, text: string)
    requires d.Node?
    ensures k in d.m && d.m[k].Leaf? && path != [] ==> Get(d.m[k], path) == None
  {
  }

  /** No path holds something that is not a map in `b` and a map in `c`. */
  predicate NoClash(b: Value, c: Value)
    requires b.Node? && c.Node?
    decreases c
  {
    forall k | k in b.m && k in c.m && c.m[k].Node? :: b.m[k].Node? && (assert c.m[k] < c; NoClash(b.m[k], c.m[k]))
  }

  lemma {:induction false} AssociativeWithoutClash(a: Value, b: Value, c: Value)
    requires a.Node? && b.Node? && c.Node? && NoClash(b, c)
    ensures Merge(Merge(a, b), c) == Merge(a, Merge(b, c))
    decreases c
  {
    var left, right := Merge(Merge(a, b), c), Merge(a, Merge(b, c));
    forall k | k in left.m ensures left.m[k] == right.m[k] {
      if k in c.m && c.m[k].Node? {
        assert c.m[k] < c;
        if k in b.m {
          AssociativeWithoutClash(Under(a, k), b.m[k], c.m[k]);
        } else {
          LeftIdentity(c.m[k]);
        }
      }
    }
    assert left.m == right.m;
  }

  lemma {:induction false} Longer(keys: set<string>) returns (n: nat)
    ensures forall k | k in keys :: |k| < n
    decreases |keys|
  {
    if keys == {} {
      n := 0;
    } else {
      var k :| k in keys;
      var rest := Longer(keys - {k});
      n := rest + |k| + 1;
    }
  }

  /** Where there is a clash, a map in the first operand survives on one side of the law and not on the other. */
  lemma {:induction false} ClashBreaksAssociativity(b: Value, c: Value) returns (a: Value)
    requires b.Node? && c.Node? && !NoClash(b, c)
    ensures a.Node? && Merge(Merge(a, b), c) != Merge(a, Merge(b, c))
    decreases c
  {
    var k :| k in b.m && k in c.m && c.m[k].Node? && !(b.m[k].Node? && NoClash(b.m[k], c.m[k]));
    assert c.m[k] < c;
    if b.m[k].Node? {
      var inner := ClashBreaksAssociativity(b.m[k], c.m[k]);
      a := Node(map[k := inner]);
    } else {
      var n := Longer(c.m[k].m.Keys);
      var x := seq(n, _ => 'x');
      a := Node(map[k := Node(map[x := Leaf("")])]);
      LeftIdentity(c.m[k]);
      assert Merge(Merge(a, b), c).m[k] == c.m[k];
      assert x in Merge(a, Merge(b, c)).m[k].m;
    }
  }

  predicate Associates(a: Value, b: Value, c: Value)
    requires a.Node? && b.Node? && c.Node?
  {
    Merge(Merge(a, b), c) == Merge(a, Merge(b, c))
  }

  lemma AssociatesWithoutClash(a: Value, b: Value, c: Value)
    requires a.Node? && b.Node? && c.Node? && NoClash(b, c)
    ensures Associates(a, b, c)
  {
    AssociativeWithoutClash(a, b, c);
  }

  lemma DoesNotAssociate(a: Value, b: Value, c: Value)
    requires a.Node? && b.Node? && c.Node? && Merge(Merge(a, b), c) != Merge(a, Merge(b, c))
    ensures !Associates(Node(a.m), b, c)
  {
    assert a == Node(a.m);
  }

  /** Grouping does not matter for any first operand exactly when the last two do not clash. */
  lemma AssociativeIffNoClash(b: Value, c: Value)
    requires b.Node? && c.Node?
    ensures NoClash(b, c) <==> forall m: map<string, Value> :: Associates(Node(m), b, c)
  {
    hide *;
    if NoClash(b, c) {
      forall m: map<string, Value> ensures Associates(Node(m), b, c) { AssociatesWithoutClash(Node(m), b, c); }
    } else {
      var a := ClashBreaksAssociativity(b, c);
      DoesNotAssociate(a, b, c);
    }
  }
}
