/**
 * The recently-viewed list of hooks/useRecentlyViewed.ts: the loader's filter/map over the
 * backend entries, and the optimistic most-recently-used update of `addToRecentlyViewed`.
 */
module RecentlyViewed {
  import opened Wrappers
  import opened Types
  import opened Seqs
  import opened Backend

  /** How many products the list keeps. */
  const Capacity: nat := 20

  /** An entry of `recentlyViewed`; its product is absent when the product was deleted. */
  datatype ViewedEntry = ViewedEntry(product: Option<BackendProduct>)

  /** `.filter(item => item.product).map(item => transformProduct(item.product))` */
  function LoadedProducts(entries: seq<ViewedEntry>): (r: seq<Product>)
    ensures |r| <= |entries|
  {
    if entries == [] then []
    else match entries[0].product
      case Some(b) => [TransformProduct(b)] + LoadedProducts(entries[1..])
      case None => LoadedProducts(entries[1..])
  }

  /**
   * `loadRecentlyViewed`: `response` is the `recentlyViewed` array of a request that came back
   * ok with status "success", and `None` otherwise; only then is the list replaced.
   */
  function LoadRecentlyViewed(current: seq<Product>, response: Option<seq<ViewedEntry>>): (r: seq<Product>)
    ensures response.None? ==> r == current
    ensures response.Some? ==> |r| <= |response.value|
  {
    match response
    case None => current
    case Some(entries) => LoadedProducts(entries)
  }


  /** Loading works entry by entry: an empty entry contributes nothing, a full one its product. */
  lemma {:induction false} LoadConcat(a: seq<ViewedEntry>, b: seq<ViewedEntry>)
    ensures LoadedProducts(a + b) == LoadedProducts(a) + LoadedProducts(b)
  {
    if a == [] {
      assert a + b == b;
    } else {
      assert (a + b)[1..] == a[1..] + b;
      LoadConcat(a[1..], b);
    }
  }

  lemma LoadEntry(e: ViewedEntry)
    ensures LoadedProducts([e]) == if e.product.Some? then [TransformProduct(e.product.value)] else []
  {
  }

  /** Nothing is invented: the list is no longer than the response, and as long exactly when no entry is empty. */
  lemma {:induction false} LoadLength(entries: seq<ViewedEntry>)
    ensures |LoadedProducts(entries)| == |entries| <==> forall i :: 0 <= i < |entries| ==> entries[i].product.Some?
  {
    if entries != [] {
      LoadLength(entries[1..]);
      assert forall i :: 1 <= i < |entries| ==> entries[i] == entries[1..][i - 1];
    }
  }

  /** The predicate `addToRecentlyViewed` filters the old list with. */
  function OtherThan(id: string): Product -> bool
  {
    (item: Product) => item.id != id
  }

  /** The updater passed to `setRecentlyViewed`: move `product` to the front, keep at most 20. */
  function MoveToFront(prev: seq<Product>, product: Product): (r: seq<Product>)
    ensures |r| >= 1 && r[0] == product && |r| <= Capacity
  {
    Take([product] + Filter(OtherThan(product.id), prev), Capacity)
  }

  /**
   * `addToRecentlyViewed`: `viewPosted` says whether the awaited `POST .../view` completed
   * (whatever its status); when the request throws, the update is skipped.
   */
  function AddToRecentlyViewed(prev: seq<Product>, product: Product, viewPosted: bool): (r: seq<Product>)
    ensures viewPosted ==> r != [] && r[0] == product
    ensures !viewPosted ==> r == prev
  {
    if viewPosted then MoveToFront(prev, product) else prev
  }


  /**
   * The added product comes first and its id nowhere else; the rest is the old list without
   * that id, in order, cut to 19; the list grows by at most one and never beyond 20.
   */
  lemma AddSpec(prev: seq<Product>, product: Product)
    ensures MoveToFront(prev, product)[0] == product
    ensures |MoveToFront(prev, product)| <= Capacity
    ensures |MoveToFront(prev, product)| <= |prev| + 1
    ensures forall i :: 1 <= i < |MoveToFront(prev, product)| ==> MoveToFront(prev, product)[i].id != product.id
    ensures MoveToFront(prev, product)[1..] == Take(Filter(OtherThan(product.id), prev), Capacity - 1)
  {
    var rest := Filter(OtherThan(product.id), prev);
    FilterMembers(OtherThan(product.id), prev);
    var r := MoveToFront(prev, product);
    assert r[1..] == Take(rest, Capacity - 1);
    forall i | 1 <= i < |r| ensures r[i].id != product.id {
      assert r[i] == rest[i - 1];
      assert rest[i - 1] in rest;
    }
  }

  /** Viewing the same product twice in a row leaves the list as viewing it once did. */
  lemma AddTwice(prev: seq<Product>, product: Product)
    ensures MoveToFront(MoveToFront(prev, product), product) == MoveToFront(prev, product)
  {
    var keep := OtherThan(product.id);
    var once := MoveToFront(prev, product);
    AddSpec(prev, product);
    var tail := once[1..];
    assert once == [product] + tail;
    assert forall x :: x in tail ==> keep(x);
    FilterKeepsAll(keep, tail);
    assert Filter(keep, once) == Filter(keep, [product] + tail);
    FilterConcat(keep, [product], tail);
    assert Filter(keep, [product]) == [];
    assert Filter(keep, once) == tail;
  }

  /** Pairwise-distinct ids. */
  predicate DistinctIds(s: seq<Product>)
  {
    forall i, j :: 0 <= i < j < |s| ==> s[i].id != s[j].id
  }

  lemma {:induction false} FilterKeepsDistinctIds(f: Product -> bool, s: seq<Product>)
    requires DistinctIds(s)
    ensures DistinctIds(Filter(f, s))
  {
    if s != [] {
      FilterKeepsDistinctIds(f, s[1..]);
      if f(s[0]) {
        var t := Filter(f, s[1..]);
        FilterMembers(f, s[1..]);
        forall i, j | 0 <= i < j < |[s[0]] + t| ensures ([s[0]] + t)[i].id != ([s[0]] + t)[j].id {
          if i == 0 {
            var x := ([s[0]] + t)[j];
            assert x == t[j - 1] && x in t;
            var k :| 0 <= k < |s[1..]| && s[1..][k] == x;
            assert s[k + 1] == x;
          }
        }
      }
    }
  }

  /** A list of distinct ids keeps distinct ids after an add. */
  lemma AddKeepsDistinctIds(prev: seq<Product>, product: Product)
    requires DistinctIds(prev)
    ensures DistinctIds(MoveToFront(prev, product))
  {
    var rest := Filter(OtherThan(product.id), prev);
    FilterKeepsDistinctIds(OtherThan(product.id), prev);
    AddSpec(prev, product);
    var r := MoveToFront(prev, product);
    forall i, j | 0 <= i < j < |r| ensures r[i].id != r[j].id {
      if i > 0 {
        assert r[i] == rest[i - 1] && r[j] == rest[j - 1];
      }
    }
  }
}
