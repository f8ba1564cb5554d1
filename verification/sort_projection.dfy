/** The display order of the listing (`filterAndSortProducts` in app/page.tsx):
    a copy of the accumulated products, stably sorted by the selected key.
    `Array.prototype.sort` is stable, so the order is determined by the key
    alone: products with equal keys keep their accumulation order. The model
    sorts by insertion; `StableSortUnique` shows that every sorted,
    tie-preserving rearrangement is this one, whatever algorithm produced it. */
module SortProjection {

  import opened Products

  /** The `switch (sortOption)` branches; `Default` also covers unknown options. */
  datatype SortKey = Default | PriceAsc | PriceDesc | TitleAsc | TitleDesc

  /** The option string that selects a key. */
  function KeyName(key: SortKey): string
  {
    match key
    case Default => "default"
    case PriceAsc => "price-asc"
    case PriceDesc => "price-desc"
    case TitleAsc => "title-asc"
    case TitleDesc => "title-desc"
  }

  /** The branch of the `switch` an option string takes. */
  function ParseSortOption(option: string): (key: SortKey)
    ensures key == Default || KeyName(key) == option
    ensures option in {"price-asc", "price-desc", "title-asc", "title-desc"} ==> KeyName(key) == option
  {
    if option == "price-asc" then PriceAsc
    else if option == "price-desc" then PriceDesc
    else if option == "title-asc" then TitleAsc
    else if option == "title-desc" then TitleDesc
    else Default
  }

  /** Every key's name selects that key. */
  lemma ParseKeyName(key: SortKey)
    ensures ParseSortOption(KeyName(key)) == key
  {
  }

  /** Code-point lexicographic order on titles, standing in for `localeCompare`. */
  predicate LexLe(a: string, b: string)
    decreases |a|
  {
    a == [] || (b != [] && (a[0] < b[0] || (a[0] == b[0] && LexLe(a[1..], b[1..]))))
  }

  lemma {:induction false} LexLeTotal(a: string, b: string)
    ensures LexLe(a, b) || LexLe(b, a)
    decreases |a|
  {
    if a != [] && b != [] && a[0] == b[0] {
      LexLeTotal(a[1..], b[1..]);
    }
  }

  lemma {:induction false} LexLeReflexive(a: string)
    ensures LexLe(a, a)
    decreases |a|
  {
    if a != [] {
      LexLeReflexive(a[1..]);
    }
  }

  lemma {:induction false} LexLeAntisymmetric(a: string, b: string)
    requires LexLe(a, b) && LexLe(b, a)
    ensures a == b
    decreases |a|
  {
    if a != [] {
      LexLeAntisymmetric(a[1..], b[1..]);
      assert a == [a[0]] + a[1..] && b == [b[0]] + b[1..];
    }
  }

  lemma {:induction false} LexLeTransitive(a: string, b: string, c: string)
    requires LexLe(a, b) && LexLe(b, c)
    ensures LexLe(a, c)
    decreases |a|
  {
    if a != [] && a[0] == b[0] && b[0] == c[0] {
      LexLeTransitive(a[1..], b[1..], c[1..]);
    }
  }

  /** `a` may stay before `b`: the comparator of the key's branch is not
      positive. Two products that tie on the key are always in order, and
      under the default key every pair is. */
  predicate KeyLe(key: SortKey, a: Product, b: Product)
    ensures SameKey(key, a, b) ==> KeyLe(key, a, b)
    ensures key == Default ==> KeyLe(key, a, b)
  {
    LexLeReflexive(a.title);
    match key
    case Default => true
    case PriceAsc => a.price <= b.price
    case PriceDesc => b.price <= a.price
    case TitleAsc => LexLe(a.title, b.title)
    case TitleDesc => LexLe(b.title, a.title)
  }

  /** The comparator of the key's branch returns 0: the two products tie. */
  predicate SameKey(key: SortKey, a: Product, b: Product)
  {
    match key
    case Default => true
    case PriceAsc | PriceDesc => a.price == b.price
    case TitleAsc | TitleDesc => a.title == b.title
  }

  lemma KeyLeTotal(key: SortKey, a: Product, b: Product)
    ensures KeyLe(key, a, b) || KeyLe(key, b, a)
  {
    if key.TitleAsc? || key.TitleDesc? {
      LexLeTotal(a.title, b.title);
    }
  }

  lemma KeyLeTransitive(key: SortKey, a: Product, b: Product, c: Product)
    requires KeyLe(key, a, b) && KeyLe(key, b, c)
    ensures KeyLe(key, a, c)
  {
    match key
    case TitleAsc => LexLeTransitive(a.title, b.title, c.title);
    case TitleDesc => LexLeTransitive(c.title, b.title, a.title);
    case _ =>
  }

  /** Two products tie exactly when each may stay before the other. */
  lemma SameKeyIffBothWays(key: SortKey, a: Product, b: Product)
    ensures SameKey(key, a, b) <==> KeyLe(key, a, b) && KeyLe(key, b, a)
  {
    if key.TitleAsc? || key.TitleDesc? {
      LexLeReflexive(a.title);
      if LexLe(a.title, b.title) && LexLe(b.title, a.title) {
        LexLeAntisymmetric(a.title, b.title);
      }
    }
  }

  ghost predicate Sorted(key: SortKey, s: seq<Product>)
  {
    forall i, j :: 0 <= i < j < |s| ==> KeyLe(key, s[i], s[j])
  }

  /** The products of `s` that tie with `k`, in their order in `s`. Stability
      says that this subsequence is the same before and after sorting. */
  function ClassOf(key: SortKey, s: seq<Product>, k: Product): (r: seq<Product>)
    ensures |r| <= |s|
  {
    if s == [] then []
    else (if SameKey(key, s[0], k) then [s[0]] else []) + ClassOf(key, s[1..], k)
  }

  lemma {:induction false} ClassOfAppend(key: SortKey, a: seq<Product>, b: seq<Product>, k: Product)
    ensures ClassOf(key, a + b, k) == ClassOf(key, a, k) + ClassOf(key, b, k)
    decreases |a|
  {
    if a == [] {
      assert a + b == b;
    } else {
      assert (a + b)[0] == a[0] && (a + b)[1..] == a[1..] + b;
      ClassOfAppend(key, a[1..], b, k);
    }
  }

  /** A product belongs to a class only if it occurs in the sequence and ties with `k`. */
  lemma {:induction false} ClassOfMembers(key: SortKey, s: seq<Product>, k: Product, x: Product)
    ensures x in ClassOf(key, s, k) <==> x in s && SameKey(key, x, k)
    decreases |s|
  {
    if s != [] {
      ClassOfMembers(key, s[1..], k, x);
      assert s == [s[0]] + s[1..];
    }
  }

  /** Insert `x` after every element that may stay before it: the step by which a
      stable sort places a later element. */
  function Insert(key: SortKey, x: Product, t: seq<Product>): (r: seq<Product>)
    ensures |r| == |t| + 1
  {
    if t == [] then [x]
    else if KeyLe(key, t[0], x) then [t[0]] + Insert(key, x, t[1..])
    else [x] + t
  }

  lemma {:induction false} InsertMultiset(key: SortKey, x: Product, t: seq<Product>)
    ensures multiset(Insert(key, x, t)) == multiset(t) + multiset{x}
    decreases |t|
  {
    if t != [] && KeyLe(key, t[0], x) {
      InsertMultiset(key, x, t[1..]);
      assert t == [t[0]] + t[1..];
    }
  }

  /** Inserting adds `x` and keeps everything else. */
  lemma {:induction false} InsertMembers(key: SortKey, x: Product, t: seq<Product>, y: Product)
    ensures y in Insert(key, x, t) <==> y == x || y in t
    decreases |t|
  {
    if t != [] && KeyLe(key, t[0], x) {
      InsertMembers(key, x, t[1..], y);
      assert t == [t[0]] + t[1..];
    }
  }

  /** A sorted sequence stays sorted under a head that may precede all of it. */
  lemma ConsSorted(key: SortKey, h: Product, s: seq<Product>)
    requires Sorted(key, s)
    requires forall y :: y in s ==> KeyLe(key, h, y)
    ensures Sorted(key, [h] + s)
  {
    var r := [h] + s;
    forall i, j | 0 <= i < j < |r| ensures KeyLe(key, r[i], r[j]) {
      assert r[j] == s[j - 1];
      if i > 0 { assert r[i] == s[i - 1]; }
    }
  }

  lemma {:induction false} InsertSorted(key: SortKey, x: Product, t: seq<Product>)
    requires Sorted(key, t)
    ensures Sorted(key, Insert(key, x, t))
    decreases |t|
  {
    if t != [] {
      if KeyLe(key, t[0], x) {
        var r' := Insert(key, x, t[1..]);
        InsertSorted(key, x, t[1..]);
        forall y | y in r' ensures KeyLe(key, t[0], y) {
          InsertMembers(key, x, t[1..], y);
        }
        ConsSorted(key, t[0], r');
      } else {
        KeyLeTotal(key, t[0], x);
        forall y | y in t ensures KeyLe(key, x, y) {
          var j :| 0 <= j < |t| && t[j] == y;
          if j > 0 { KeyLeTransitive(key, x, t[0], t[j]); }
        }
        ConsSorted(key, x, t);
      }
    }
  }

  /** Nothing in a sorted sequence ties with `k` when `k` sorts strictly before its head. */
  lemma NoTieAfterStrictlyGreater(key: SortKey, x: Product, t: seq<Product>, k: Product)
    requires Sorted(key, t) && t != []
    requires !KeyLe(key, t[0], x) && SameKey(key, x, k)
    ensures ClassOf(key, t, k) == []
  {
    if ClassOf(key, t, k) != [] {
      var y := ClassOf(key, t, k)[0];
      ClassOfMembers(key, t, k, y);
      var j :| 0 <= j < |t| && t[j] == y;
      SameKeyIffBothWays(key, x, k);
      SameKeyIffBothWays(key, y, k);
      KeyLeTotal(key, t[0], x);
      // y ties with x, and t[0] <= y, so t[0] <= x
      KeyLeTransitive(key, y, k, x);
      if j > 0 { KeyLeTransitive(key, t[0], y, x); }
      assert false;
    }
  }

  lemma {:induction false} InsertClass(key: SortKey, x: Product, t: seq<Product>, k: Product)
    requires Sorted(key, t)
    ensures ClassOf(key, Insert(key, x, t), k)
         == ClassOf(key, t, k) + (if SameKey(key, x, k) then [x] else [])
    decreases |t|
  {
    if t == [] {
    } else if KeyLe(key, t[0], x) {
      var cx := if SameKey(key, x, k) then [x] else [];
      var c0 := if SameKey(key, t[0], k) then [t[0]] else [];
      InsertClass(key, x, t[1..], k);
      assert ([t[0]] + Insert(key, x, t[1..]))[1..] == Insert(key, x, t[1..]);
      assert c0 + (ClassOf(key, t[1..], k) + cx) == (c0 + ClassOf(key, t[1..], k)) + cx;
    } else {
      assert ([x] + t)[1..] == t;
      if SameKey(key, x, k) {
        NoTieAfterStrictlyGreater(key, x, t, k);
      }
    }
  }

  /** The sort of `filterAndSortProducts`: each element in turn, from first to
      last, is inserted after everything that may stay before it. */
  function StableSort(key: SortKey, s: seq<Product>): (r: seq<Product>)
    ensures multiset(r) == multiset(s)
    ensures |r| == |s|
  {
    if s == [] then []
    else
      var sorted := StableSort(key, s[..|s| - 1]);
      InsertMultiset(key, s[|s| - 1], sorted);
      assert s == s[..|s| - 1] + [s[|s| - 1]];
      Insert(key, s[|s| - 1], sorted)
  }

  lemma {:induction false} StableSortSorted(key: SortKey, s: seq<Product>)
    ensures Sorted(key, StableSort(key, s))
    decreases |s|
  {
    if s != [] {
      StableSortSorted(key, s[..|s| - 1]);
      InsertSorted(key, s[|s| - 1], StableSort(key, s[..|s| - 1]));
    }
  }

  lemma StableSortLast(key: SortKey, s: seq<Product>)
    requires s != []
    ensures StableSort(key, s) == Insert(key, s[|s| - 1], StableSort(key, s[..|s| - 1]))
  {
  }

  lemma ClassOfLast(key: SortKey, s: seq<Product>, k: Product)
    requires s != []
    ensures ClassOf(key, s, k)
         == ClassOf(key, s[..|s| - 1], k) + (if SameKey(key, s[|s| - 1], k) then [s[|s| - 1]] else [])
  {
    var init, last := s[..|s| - 1], s[|s| - 1];
    assert s == init + [last];
    ClassOfAppend(key, init, [last], k);
    assert ClassOf(key, [last], k) == (if SameKey(key, last, k) then [last] else []) + ClassOf(key, [], k);
  }

  lemma InsertIntoSortedClass(key: SortKey, init: seq<Product>, last: Product, k: Product)
    ensures ClassOf(key, Insert(key, last, StableSort(key, init)), k)
         == ClassOf(key, StableSort(key, init), k) + (if SameKey(key, last, k) then [last] else [])
  {
    StableSortSorted(key, init);
    InsertClass(key, last, StableSort(key, init), k);
  }

  /** Stability: the products tying with any `k` appear in the same order. */
  lemma {:induction false} StableSortKeepsTies(key: SortKey, s: seq<Product>, k: Product)
    ensures ClassOf(key, StableSort(key, s), k) == ClassOf(key, s, k)
    decreases |s|
  {
    if s != [] {
      var init, last := s[..|s| - 1], s[|s| - 1];
      StableSortLast(key, s);
      InsertIntoSortedClass(key, init, last, k);
      StableSortKeepsTies(key, init, k);
      ClassOfLast(key, s, k);
    }
  }

  /** In a sorted sequence the first element may stay before every element. */
  lemma FirstIsLeast(key: SortKey, s: seq<Product>, y: Product)
    requires Sorted(key, s) && y in s
    ensures KeyLe(key, s[0], y)
  {
    var j :| 0 <= j < |s| && s[j] == y;
    if j == 0 {
      KeyLeTotal(key, y, y);
    }
  }

  /** Equal classes for every product: a sequence element belongs to the other sequence. */
  lemma TieMember(key: SortKey, a: seq<Product>, b: seq<Product>, x: Product)
    requires forall k :: ClassOf(key, a, k) == ClassOf(key, b, k)
    requires x in a
    ensures x in b
  {
    SameKeyIffBothWays(key, x, x);
    KeyLeTotal(key, x, x);
    ClassOfMembers(key, a, x, x);
    ClassOfMembers(key, b, x, x);
    assert ClassOf(key, a, x) == ClassOf(key, b, x);
  }

  /** Two sorted sequences with the same ties for every product are equal. */
  lemma {:induction false} SortedWithSameTiesEqual(key: SortKey, r1: seq<Product>, r2: seq<Product>)
    requires Sorted(key, r1) && Sorted(key, r2)
    requires forall k :: ClassOf(key, r1, k) == ClassOf(key, r2, k)
    ensures r1 == r2
    decreases |r1|
  {
    if r1 == [] || r2 == [] {
      if r1 != [] { TieMember(key, r1, r2, r1[0]); }
      if r2 != [] {
        assert forall k :: ClassOf(key, r2, k) == ClassOf(key, r1, k);
        TieMember(key, r2, r1, r2[0]);
      }
    } else {
      var x1, x2 := r1[0], r2[0];
      assert x1 == x2 by {
        TieMember(key, r1, r2, x1);
        assert forall k :: ClassOf(key, r2, k) == ClassOf(key, r1, k);
        TieMember(key, r2, r1, x2);
        FirstIsLeast(key, r2, x1);
        FirstIsLeast(key, r1, x2);
        SameKeyIffBothWays(key, x1, x2);
        SameKeyIffBothWays(key, x1, x1);
        assert ClassOf(key, r1, x1) == ClassOf(key, r2, x1);
        assert ClassOf(key, r1, x1)[0] == x1;
        assert ClassOf(key, r2, x1)[0] == x2;
      }
      forall k ensures ClassOf(key, r1[1..], k) == ClassOf(key, r2[1..], k) {
        var head := if SameKey(key, x1, k) then [x1] else [];
        var a, b := ClassOf(key, r1[1..], k), ClassOf(key, r2[1..], k);
        assert head + a == ClassOf(key, r1, k) == ClassOf(key, r2, k) == head + b;
        assert a == (head + a)[|head|..] && b == (head + b)[|head|..];
      }
      SortedWithSameTiesEqual(key, r1[1..], r2[1..]);
      assert r1 == [x1] + r1[1..] && r2 == [x2] + r2[1..];
    }
  }

  /** The model is THE stable sort: any arrangement that is sorted by the key and
      keeps every group of ties in its input order equals `StableSort`. */
  lemma StableSortUnique(key: SortKey, s: seq<Product>, r: seq<Product>)
    requires Sorted(key, r)
    requires forall k :: ClassOf(key, r, k) == ClassOf(key, s, k)
    ensures r == StableSort(key, s)
  {
    StableSortSorted(key, s);
    forall k ensures ClassOf(key, r, k) == ClassOf(key, StableSort(key, s), k) {
      StableSortKeepsTies(key, s, k);
    }
    SortedWithSameTiesEqual(key, r, StableSort(key, s));
  }

  /** The displayed order for the accumulated products and the sort option. */
  function Project(products: seq<Product>, option: string): (r: seq<Product>)
    ensures multiset(r) == multiset(products)
    ensures ParseSortOption(option) == Default ==> r == products
    ensures Sorted(ParseSortOption(option), r)
    ensures forall k :: ClassOf(ParseSortOption(option), r, k) == ClassOf(ParseSortOption(option), products, k)
  {
    var key := ParseSortOption(option);
    if key == Default then products
    else
      StableSortSorted(key, products);
      assert forall k :: ClassOf(key, StableSort(key, products), k) == ClassOf(key, products, k) by {
        forall k ensures ClassOf(key, StableSort(key, products), k) == ClassOf(key, products, k) {
          StableSortKeepsTies(key, products, k);
        }
      }
      StableSort(key, products)
  }

  /** What `filterAndSortProducts` promises: the same products, the key's order,
      ties in accumulation order, and the accumulation order itself for
      "default" and every unknown option. */
  lemma ProjectContract(products: seq<Product>, option: string)
    ensures multiset(Project(products, option)) == multiset(products)
    ensures ParseSortOption(option) == Default ==> Project(products, option) == products
    ensures var r := Project(products, option);
      && (option == "price-asc" ==> forall i, j :: 0 <= i < j < |r| ==> r[i].price <= r[j].price)
      && (option == "price-desc" ==> forall i, j :: 0 <= i < j < |r| ==> r[i].price >= r[j].price)
      && (option == "title-asc" ==> forall i, j :: 0 <= i < j < |r| ==> LexLe(r[i].title, r[j].title))
      && (option == "title-desc" ==> forall i, j :: 0 <= i < j < |r| ==> LexLe(r[j].title, r[i].title))
    ensures forall k :: ClassOf(ParseSortOption(option), Project(products, option), k)
                     == ClassOf(ParseSortOption(option), products, k)
  {
  }

  /** Projecting an already projected list changes nothing. */
  lemma ProjectIdempotent(products: seq<Product>, option: string)
    ensures Project(Project(products, option), option) == Project(products, option)
  {
    var key := ParseSortOption(option);
    if key != Default {
      var once := StableSort(key, products);
      StableSortSorted(key, once);
      StableSortSorted(key, products);
      forall k ensures ClassOf(key, StableSort(key, once), k) == ClassOf(key, once, k) {
        StableSortKeepsTies(key, once, k);
      }
      SortedWithSameTiesEqual(key, StableSort(key, once), once);
    }
  }
}
