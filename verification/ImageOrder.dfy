/** Image archives, and the order in which they are imported. */
module ImageOrder {
  import opened Text
  import opened ImageReferences

  /** The `index.json` of an archive: absent, unusable, or naming the manifest. */
  datatype Index = NotOCI | BadIndex | OCI(manifestDigest: string, annotation: string)

  datatype Archive = Archive(fileDigest: string, index: Index)

  datatype Image = Image(name: string, archive: Archive, expectedDigest: string, category: int, requireReference: bool)

  /** The images of one category, in their order. */
  function OfCategory(images: seq<Image>, c: int): (r: seq<Image>)
  {
    if images == [] then []
    else if images[0].category == c then [images[0]] + OfCategory(images[1..], c)
    else OfCategory(images[1..], c)
  }

  ghost predicate Ascending(images: seq<Image>) {
    forall i, j | 0 <= i < j < |images| :: images[i].category <= images[j].category
  }

  /** A stable category sort: ascending, and each category keeps its own order. */
  ghost predicate StableOrder(images: seq<Image>, sorted: seq<Image>) {
    Ascending(sorted) && forall c :: OfCategory(sorted, c) == OfCategory(images, c)
  }

  lemma {:induction false} OfCategoryConcat(a: seq<Image>, b: seq<Image>, c: int)
    ensures OfCategory(a + b, c) == OfCategory(a, c) + OfCategory(b, c)
  {
    if a == [] {
      assert a + b == b;
    } else {
      assert (a + b)[0] == a[0] && (a + b)[1..] == a[1..] + b;
      OfCategoryConcat(a[1..], b, c);
    }
  }

  lemma {:induction false} OfCategoryCounts(images: seq<Image>, x: Image)
    ensures multiset(OfCategory(images, x.category))[x] == multiset(images)[x]
  {
    if images != [] {
      assert images == [images[0]] + images[1..];
      OfCategoryCounts(images[1..], x);
    }
  }

  /** A stable order is a permutation. */
  lemma StableOrderPermutes(images: seq<Image>, sorted: seq<Image>)
    requires StableOrder(images, sorted)
    ensures multiset(sorted) == multiset(images)
    ensures forall x :: x in sorted <==> x in images
  {
    forall x ensures multiset(sorted)[x] == multiset(images)[x] {
      OfCategoryCounts(sorted, x);
      OfCategoryCounts(images, x);
      assert OfCategory(sorted, x.category) == OfCategory(images, x.category);
    }
    forall x ensures x in sorted <==> x in images {
      assert x in sorted <==> x in multiset(sorted);
      assert x in images <==> x in multiset(images);
    }
  }

  lemma {:induction false} OfLeast(s: seq<Image>, c: int)
    requires Ascending(s) && s != [] && c == s[0].category
    ensures OfCategory(s, c) != [] && OfCategory(s, c)[0] == s[0]
  {
  }

  lemma {:induction false} OfCategoryAt(s: seq<Image>, c: int)
    requires OfCategory(s, c) != []
    ensures exists x | x in s :: x.category == c
  {
    if s[0].category != c { OfCategoryAt(s[1..], c); }
  }

  lemma SomeCategory(s: seq<Image>)
    ensures s != [] ==> exists c :: OfCategory(s, c) != []
  {
    if s != [] { assert OfCategory(s, s[0].category) != []; }
  }

  /** There is only one stable order: it does not depend on the sorting algorithm. */
  lemma {:induction false} StableOrderUnique(s: seq<Image>, t: seq<Image>)
    requires Ascending(s) && Ascending(t) && forall c :: OfCategory(s, c) == OfCategory(t, c)
    ensures s == t
  {
    SomeCategory(s);
    SomeCategory(t);
    if s != [] && t != [] {
      OfLeast(s, s[0].category);
      OfLeast(t, t[0].category);
      assert OfCategory(t, s[0].category) == OfCategory(s, s[0].category);
      OfCategoryAt(t, s[0].category);
      OfCategoryAt(s, t[0].category);
      assert s[0] == t[0];
      forall c ensures OfCategory(s[1..], c) == OfCategory(t[1..], c) {
        assert OfCategory(s, c) == OfCategory(t, c);
        if c == s[0].category { assert OfCategory(s, c)[1..] == OfCategory(s[1..], c) && OfCategory(t, c)[1..] == OfCategory(t[1..], c); }
      }
      StableOrderUnique(s[1..], t[1..]);
      assert s == [s[0]] + s[1..] && t == [t[0]] + t[1..];
    }
  }

  /** The preload order, built by stable insertion into a new slice. */
  method Ordered(images: seq<Image>) returns (sorted: seq<Image>)
    ensures StableOrder(images, sorted)
  {
    sorted := [];
    for i := 0 to |images|
      invariant StableOrder(images[..i], sorted)
    {
      var k := |sorted|;
      while k > 0 && sorted[k - 1].category > images[i].category
        invariant 0 <= k <= |sorted|
        invariant forall j | k <= j < |sorted| :: sorted[j].category > images[i].category
      {
        k := k - 1;
      }
      InsertIsStable(images, i, sorted, k);
      sorted := sorted[..k] + [images[i]] + sorted[k..];
    }
    assert images[..|images|] == images;
  }

  lemma InsertIsStable(images: seq<Image>, i: nat, sorted: seq<Image>, k: nat)
    requires i < |images| && k <= |sorted| && StableOrder(images[..i], sorted)
    requires forall j | k <= j < |sorted| :: sorted[j].category > images[i].category
    requires k > 0 ==> sorted[k - 1].category <= images[i].category
    ensures StableOrder(images[..i + 1], sorted[..k] + [images[i]] + sorted[k..])
  {
    forall c ensures OfCategory(sorted[..k] + [images[i]] + sorted[k..], c) == OfCategory(images[..i + 1], c) {
      InsertInCategory(images[..i], images[i], sorted, k, c);
      assert images[..i + 1] == images[..i] + [images[i]];
    }
  }

  lemma InsertInCategory(done: seq<Image>, x: Image, sorted: seq<Image>, k: nat, c: int)
    requires k <= |sorted| && OfCategory(sorted, c) == OfCategory(done, c)
    requires forall j | k <= j < |sorted| :: sorted[j].category > x.category
    ensures OfCategory(sorted[..k] + [x] + sorted[k..], c) == OfCategory(done + [x], c)
  {
    var low, high := sorted[..k], sorted[k..];
    assert sorted == low + high;
    OfCategoryConcat(low, high, c);
    OfCategoryConcat(low, [x], c);
    OfCategoryConcat(low + [x], high, c);
    OfCategoryConcat(done, [x], c);
    if c == x.category && OfCategory(high, c) != [] { OfCategoryAt(high, c); }
  }
}
