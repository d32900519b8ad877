/**
 * JSON trees: canonicalisation by key order and removal of sensitive keys.
 *
 * An object is its list of entries in insertion order. Keys are sorted by a comparison that is a
 * total preorder: two different names may be of one rank, and the sort is stable, so those stay in
 * the order in which they were inserted. Which keys are sensitive is a parameter.
 */
module JsonTrees {
  import opened Wrappers

  /** `rank` is where the comparison puts the key. */
  datatype Key = Key(rank: nat, name: nat)

  datatype Json = Leaf(value: int) | Arr(items: seq<Json>) | Obj(entries: seq<Entry>)
  datatype Entry = Entry(key: Key, value: Json)

  predicate DistinctKeys(es: seq<Entry>) {
    forall i, j :: 0 <= i < j < |es| ==> es[i].key != es[j].key
  }

  /** No object repeats a key. */
  predicate Valid(v: Json) {
    match v
    case Leaf(_) => true
    case Arr(items) => forall i :: 0 <= i < |items| ==> Valid(items[i])
    case Obj(es) => DistinctKeys(es) && forall i :: 0 <= i < |es| ==> Valid(es[i].value)
  }

  predicate DistinctRanks(es: seq<Entry>) {
    forall i, j :: 0 <= i < j < |es| ==> es[i].key.rank != es[j].key.rank
  }

  /** The comparison tells the keys of every object apart. */
  predicate Untied(v: Json) {
    match v
    case Leaf(_) => true
    case Arr(items) => forall i :: 0 <= i < |items| ==> Untied(items[i])
    case Obj(es) => DistinctRanks(es) && forall i :: 0 <= i < |es| ==> Untied(es[i].value)
  }

  // ----- sorting entries -----

  function Insert(es: seq<Entry>, e: Entry): seq<Entry> {
    if es == [] then [e]
    else if e.key.rank <= es[0].key.rank then [e] + es
    else [es[0]] + Insert(es[1..], e)
  }

  /** The stable sort. */
  function Sort(es: seq<Entry>): seq<Entry> {
    if es == [] then [] else Insert(Sort(es[1..]), es[0])
  }

  predicate Sorted(es: seq<Entry>) {
    forall i, j :: 0 <= i < j < |es| ==> es[i].key.rank <= es[j].key.rank
  }

  lemma {:induction false} InsertMembers(es: seq<Entry>, e: Entry)
    ensures |Insert(es, e)| == |es| + 1 && forall x :: x in Insert(es, e) <==> x in es || x == e
  {
    if es != [] && e.key.rank > es[0].key.rank {
      InsertMembers(es[1..], e);
      assert forall x :: x in es <==> x == es[0] || x in es[1..];
    }
  }

  lemma {:induction false} SortMembers(es: seq<Entry>)
    ensures |Sort(es)| == |es| && forall x :: x in Sort(es) <==> x in es
  {
    if es != [] {
      SortMembers(es[1..]);
      InsertMembers(Sort(es[1..]), es[0]);
    }
  }

  lemma ConsSorted(e: Entry, es: seq<Entry>)
    requires Sorted(es) && forall x :: x in es ==> e.key.rank <= x.key.rank
    ensures Sorted([e] + es)
  {
    assert forall i :: 0 <= i < |es| ==> es[i] in es;
  }

  lemma {:induction false} InsertSorted(es: seq<Entry>, e: Entry)
    requires Sorted(es)
    ensures Sorted(Insert(es, e))
  {
    if es != [] {
      assert es[0] in es && forall x :: x in es ==> es[0].key.rank <= x.key.rank;
      if e.key.rank <= es[0].key.rank {
        ConsSorted(e, es);
      } else {
        InsertSorted(es[1..], e);
        InsertMembers(es[1..], e);
        assert forall x :: x in es[1..] ==> x in es;
        ConsSorted(es[0], Insert(es[1..], e));
      }
    }
  }

  lemma {:induction false} SortSorted(es: seq<Entry>)
    ensures Sorted(Sort(es))
  {
    if es != [] {
      SortSorted(es[1..]);
      InsertSorted(Sort(es[1..]), es[0]);
    }
  }

  /** A sorted list is left as it is. */
  lemma {:induction false} SortKeepsSorted(es: seq<Entry>)
    requires Sorted(es)
    ensures Sort(es) == es
  {
    if es != [] { SortKeepsSorted(es[1..]); }
  }

  /** Two sorted lists of the same entries are equal when the comparison tells these apart. */
  lemma {:induction false} SortedUnique(a: seq<Entry>, b: seq<Entry>)
    requires Sorted(a) && Sorted(b) && DistinctRanks(a) && DistinctKeys(b) && forall x :: x in a <==> x in b
    ensures a == b
  {
    assert (a != [] ==> a[0] in a) && (b != [] ==> b[0] in b);
    if a != [] && b != [] {
      assert a[0] in b && b[0] in a;
      assert a[0].key.rank == b[0].key.rank && a[0] == b[0];
      forall x ensures x in a[1..] <==> x in b[1..] {
        assert x in a <==> x == a[0] || x in a[1..];
        assert x in b <==> x == b[0] || x in b[1..];
        assert a[0] !in a[1..] && b[0] !in b[1..];
      }
      SortedUnique(a[1..], b[1..]);
    }
  }

  ghost predicate Before(s: seq<Entry>, x: Entry, y: Entry) {
    exists p, q :: 0 <= p < q < |s| && s[p] == x && s[q] == y
  }

  lemma BeforeOneWay(s: seq<Entry>, x: Entry, y: Entry)
    requires DistinctKeys(s) && Before(s, x, y)
    ensures !Before(s, y, x)
  {}

  lemma BeforeCons(h: Entry, s: seq<Entry>, x: Entry, y: Entry)
    requires (h == x && y in s) || Before(s, x, y)
    ensures Before([h] + s, x, y)
  {
    var t := [h] + s;
    if h == x && y in s {
      var q :| 0 <= q < |s| && s[q] == y;
      assert t[0] == x && t[q + 1] == y;
    } else {
      var p, q :| 0 <= p < q < |s| && s[p] == x && s[q] == y;
      assert t[p + 1] == x && t[q + 1] == y;
    }
  }

  lemma BeforeTail(s: seq<Entry>, x: Entry, y: Entry)
    requires Before(s, x, y)
    ensures (s[0] == x && y in s[1..]) || Before(s[1..], x, y)
  {
    var p, q :| 0 <= p < q < |s| && s[p] == x && s[q] == y;
    assert s[1..][q - 1] == y;
    if p > 0 { assert s[1..][p - 1] == x; }
  }

  lemma {:induction false} InsertedBefore(s: seq<Entry>, h: Entry, y: Entry)
    requires Sorted(s) && y in s && h.key.rank <= y.key.rank
    ensures Before(Insert(s, h), h, y)
  {
    if h.key.rank <= s[0].key.rank {
      BeforeCons(h, s, h, y);
    } else {
      assert s == [s[0]] + s[1..];
      InsertedBefore(s[1..], h, y);
      BeforeCons(s[0], Insert(s[1..], h), h, y);
    }
  }

  lemma {:induction false} InsertKeepsOrder(s: seq<Entry>, h: Entry, x: Entry, y: Entry)
    requires Before(s, x, y)
    ensures Before(Insert(s, h), x, y)
  {
    if h.key.rank <= s[0].key.rank {
      BeforeCons(h, s, x, y);
    } else {
      BeforeTail(s, x, y);
      InsertMembers(s[1..], h);
      if Before(s[1..], x, y) { InsertKeepsOrder(s[1..], h, x, y); }
      BeforeCons(s[0], Insert(s[1..], h), x, y);
    }
  }

  /** The sort is stable. */
  lemma {:induction false} SortStable(es: seq<Entry>, i: nat, j: nat)
    requires i < j < |es| && es[i].key.rank == es[j].key.rank
    ensures Before(Sort(es), es[i], es[j])
  {
    var rest := es[1..];
    if i == 0 {
      SortSorted(rest);
      SortMembers(rest);
      assert rest[j - 1] in rest;
      InsertedBefore(Sort(rest), es[0], es[j]);
    } else {
      SortStable(rest, i - 1, j - 1);
      InsertKeepsOrder(Sort(rest), es[0], es[i], es[j]);
    }
  }

  // ----- changing the values only -----

  function MapValues(es: seq<Entry>, f: Json -> Json): (r: seq<Entry>)
    ensures |r| == |es| && forall i :: 0 <= i < |es| ==> r[i] == Entry(es[i].key, f(es[i].value))
  {
    seq(|es|, i requires 0 <= i < |es| => Entry(es[i].key, f(es[i].value)))
  }

  lemma MapCons(h: Entry, t: seq<Entry>, f: Json -> Json)
    ensures MapValues([h] + t, f) == [Entry(h.key, f(h.value))] + MapValues(t, f)
  {}

  lemma {:induction false} InsertMaps(es: seq<Entry>, e: Entry, f: Json -> Json)
    ensures MapValues(Insert(es, e), f) == Insert(MapValues(es, f), Entry(e.key, f(e.value)))
  {
    if es == [] {
      MapCons(e, [], f);
    } else {
      var rest := MapValues(es[1..], f);
      assert es == [es[0]] + es[1..];
      MapCons(es[0], es[1..], f);
      if e.key.rank <= es[0].key.rank {
        MapCons(e, es, f);
      } else {
        InsertMaps(es[1..], e, f);
        MapCons(es[0], Insert(es[1..], e), f);
        assert MapValues(es, f)[1..] == rest;
      }
      hide MapValues;
    }
  }

  lemma {:induction false} SortMaps(es: seq<Entry>, f: Json -> Json)
    ensures MapValues(Sort(es), f) == Sort(MapValues(es, f))
  {
    if es != [] {
      SortMaps(es[1..], f);
      InsertMaps(Sort(es[1..]), es[0], f);
      assert MapValues(es, f)[1..] == MapValues(es[1..], f);
    }
  }

  // ----- canonicalisation -----

  function Canonical(v: Json): Json {
    match v
    case Leaf(_) => v
    case Arr(items) => Arr(seq(|items|, i requires 0 <= i < |items| => Canonical(items[i])))
    case Obj(es) => Obj(Sort(seq(|es|, i requires 0 <= i < |es| => Entry(es[i].key, Canonical(es[i].value)))))
  }

  function CanonicalValues(es: seq<Entry>): seq<Entry> {
    MapValues(es, (v: Json) => Canonical(v))
  }

  lemma CanonicalObject(es: seq<Entry>)
    ensures Canonical(Obj(es)) == Obj(Sort(CanonicalValues(es)))
  {
    assert CanonicalValues(es) == seq(|es|, i requires 0 <= i < |es| => Entry(es[i].key, Canonical(es[i].value)));
  }

  /** The two differ only by the order of keys, at any depth. */
  ghost predicate SameButOrder(a: Json, b: Json)
    decreases a
  {
    match a
    case Leaf(x) => b == a
    case Arr(items) => b.Arr? && |items| == |b.items| && forall i :: 0 <= i < |items| ==> SameButOrder(items[i], b.items[i])
    case Obj(es) => b.Obj? && |es| == |b.entries| && forall i :: 0 <= i < |es| ==> HasCounterpart(es[i], b.entries)
  }

  ghost predicate HasCounterpart(e: Entry, bs: seq<Entry>)
    decreases e
  {
    exists j :: 0 <= j < |bs| && e.key == bs[j].key && SameButOrder(e.value, bs[j].value)
  }

  lemma CanonicalEntries(es: seq<Entry>)
    ensures Sorted(Canonical(Obj(es)).entries) && |Canonical(Obj(es)).entries| == |es|
    ensures forall x :: x in Canonical(Obj(es)).entries <==> x in CanonicalValues(es)
  {
    CanonicalObject(es);
    SortMembers(CanonicalValues(es));
    SortSorted(CanonicalValues(es));
  }

  lemma {:induction false} SortedKeepsDistinct(es: seq<Entry>)
    ensures DistinctKeys(es) ==> DistinctKeys(Sort(es))
    ensures DistinctRanks(es) ==> DistinctRanks(Sort(es))
  {
    if es != [] {
      SortedKeepsDistinct(es[1..]);
      SortMembers(es[1..]);
      InsertKeepsDistinct(Sort(es[1..]), es[0]);
      assert forall x :: x in es[1..] ==> exists i :: 0 < i < |es| && es[i] == x;
    }
  }

  lemma {:induction false} InsertKeepsDistinct(es: seq<Entry>, e: Entry)
    ensures DistinctKeys(es) && (forall x :: x in es ==> x.key != e.key) ==> DistinctKeys(Insert(es, e))
    ensures DistinctRanks(es) && (forall x :: x in es ==> x.key.rank != e.key.rank) ==> DistinctRanks(Insert(es, e))
  {
    assert forall i :: 0 <= i < |es| ==> es[i] in es;
    if es != [] && e.key.rank > es[0].key.rank {
      var rest := Insert(es[1..], e);
      InsertKeepsDistinct(es[1..], e);
      InsertMembers(es[1..], e);
      assert forall i :: 0 <= i < |rest| ==> rest[i] in rest;
      assert forall x :: x in es[1..] ==> exists i :: 0 < i < |es| && es[i] == x;
    }
  }

  lemma {:induction false} SameGivesEqual(a: Json, b: Json)
    requires Valid(a) && Valid(b) && Untied(a) && SameButOrder(a, b)
    ensures Canonical(a) == Canonical(b)
    decreases a
  {
    match a
    case Leaf(_) =>
    case Arr(items) =>
      forall i | 0 <= i < |items| ensures Canonical(items[i]) == Canonical(b.items[i]) { SameGivesEqual(items[i], b.items[i]); }
    case Obj(es) =>
      CanonicalEntries(es);
      CanonicalEntries(b.entries);
      CanonicalObject(es);
      CanonicalObject(b.entries);
      var ca, cb := CanonicalValues(es), CanonicalValues(b.entries);
      forall i | 0 <= i < |es| ensures ca[i] in cb {
        assert HasCounterpart(es[i], b.entries);
        var j :| 0 <= j < |b.entries| && es[i].key == b.entries[j].key && SameButOrder(es[i].value, b.entries[j].value);
        SameGivesEqual(es[i].value, b.entries[j].value);
        assert cb[j] == ca[i];
      }
      Pigeonhole(ca, cb);
      SortedKeepsDistinct(ca);
      SortedKeepsDistinct(cb);
      SortedUnique(Sort(ca), Sort(cb));
  }

  /** A list within another of the same length, both without repeated keys, has the same members. */
  lemma Pigeonhole(a: seq<Entry>, b: seq<Entry>)
    requires |a| == |b| && DistinctKeys(a) && DistinctKeys(b) && forall i :: 0 <= i < |a| ==> a[i] in b
    ensures forall x :: x in a <==> x in b
  {
    var sa, sb := set x | x in a, set x | x in b;
    Cardinality(a);
    Cardinality(b);
    assert sa <= sb;
    SubsetSameSize(sa, sb);
    forall x ensures x in a <==> x in b { assert x in sa <==> x in sb; }
  }

  lemma {:induction false} Cardinality(es: seq<Entry>)
    requires DistinctKeys(es)
    ensures |set x | x in es| == |es|
  {
    if es != [] {
      Cardinality(es[1..]);
      assert es[0] !in es[1..];
      assert (set x | x in es) == (set x | x in es[1..]) + {es[0]};
    }
  }

  lemma {:induction false} SubsetSameSize(a: set<Entry>, b: set<Entry>)
    requires a <= b && |a| == |b|
    ensures a == b
  {
    if a != {} {
      var x :| x in a;
      SubsetSameSize(a - {x}, b - {x});
    }
  }

  lemma {:induction false} EqualGivesSame(a: Json, b: Json)
    requires Valid(a) && Valid(b) && Canonical(a) == Canonical(b)
    ensures SameButOrder(a, b)
    decreases a
  {
    match a
    case Leaf(_) =>
    case Arr(items) =>
      forall i | 0 <= i < |items| ensures SameButOrder(items[i], b.items[i]) {
        assert Canonical(a).items[i] == Canonical(b).items[i];
        EqualGivesSame(items[i], b.items[i]);
      }
    case Obj(es) =>
      CanonicalEntries(es);
      CanonicalEntries(b.entries);
      forall i | 0 <= i < |es| ensures HasCounterpart(es[i], b.entries) {
        var e := CanonicalValues(es)[i];
        assert e in CanonicalValues(b.entries);
        var j :| 0 <= j < |b.entries| && CanonicalValues(b.entries)[j] == e;
        EqualGivesSame(es[i].value, b.entries[j].value);
      }
  }

  lemma {:induction false} SameSelf(v: Json)
    ensures SameButOrder(v, v)
    decreases v
  {
    match v
    case Leaf(_) =>
    case Arr(items) => forall i | 0 <= i < |items| ensures SameButOrder(items[i], items[i]) { SameSelf(items[i]); }
    case Obj(es) =>
      forall i | 0 <= i < |es| ensures SameButOrder(es[i].value, es[i].value) { SameSelf(es[i].value); }
      SameEntries(es, es);
  }

  /** Entry by entry the same, which is more than the same but for order. */
  lemma SameEntries(es: seq<Entry>, bs: seq<Entry>)
    requires |es| == |bs| && forall i :: 0 <= i < |es| ==> es[i].key == bs[i].key && SameButOrder(es[i].value, bs[i].value)
    ensures SameButOrder(Obj(es), Obj(bs))
  {
    forall i | 0 <= i < |es| ensures HasCounterpart(es[i], bs) { assert es[i].key == bs[i].key; }
  }

  /**
   * Equal canonical forms mean that two values differ only by key order, at any depth; the converse
   * holds for a value whose keys the comparison tells apart.
   */
  lemma CanonicalExactly(a: Json, b: Json)
    requires Valid(a) && Valid(b)
    ensures Canonical(a) == Canonical(b) ==> SameButOrder(a, b)
    ensures Untied(a) ==> (Canonical(a) == Canonical(b) <==> SameButOrder(a, b))
  {
    if Untied(a) && SameButOrder(a, b) { SameGivesEqual(a, b); }
    if Canonical(a) == Canonical(b) { EqualGivesSame(a, b); }
  }

  // ----- keys that the comparison ties -----

  function Swapped(es: seq<Entry>, i: nat, j: nat): seq<Entry>
    requires i < j < |es|
  {
    es[i := es[j]][j := es[i]]
  }

  /** Two tied keys in the other order. */
  lemma SwapDiffers(es: seq<Entry>, i: nat, j: nat)
    requires i < j < |es| && es[i].key.rank == es[j].key.rank && Valid(Obj(es))
    ensures var b := Obj(Swapped(es, i, j)); Valid(b) && SameButOrder(Obj(es), b) && Canonical(b) != Canonical(Obj(es))
  {
    var bs := Swapped(es, i, j);
    var ca, cb := CanonicalValues(es), CanonicalValues(bs);
    SwapSame(es, i, j);
    CanonicalObject(es);
    CanonicalObject(bs);
    SortStable(ca, i, j);
    SortStable(cb, i, j);
    SortedKeepsDistinct(ca);
    assert ca[i] == cb[j] && ca[j] == cb[i];
    BeforeOneWay(Sort(ca), ca[i], ca[j]);
  }

  lemma SwapSame(es: seq<Entry>, i: nat, j: nat)
    requires i < j < |es| && Valid(Obj(es))
    ensures Valid(Obj(Swapped(es, i, j))) && SameButOrder(Obj(es), Obj(Swapped(es, i, j)))
  {
    var bs := Swapped(es, i, j);
    forall k | 0 <= k < |es| ensures HasCounterpart(es[k], bs) {
      SameSelf(es[k].value);
      var l := if k == i then j else if k == j then i else k;
      assert es[k] == bs[l];
    }
  }

  /** One value replaced by another that has another canonical form. */
  lemma ChildDiffers(es: seq<Entry>, i: nat, c: Json)
    requires i < |es| && Valid(Obj(es)) && Valid(c) && SameButOrder(es[i].value, c) && Canonical(c) != Canonical(es[i].value)
    ensures var b := Obj(es[i := Entry(es[i].key, c)]); Valid(b) && SameButOrder(Obj(es), b) && Canonical(b) != Canonical(Obj(es))
  {
    var bs := es[i := Entry(es[i].key, c)];
    forall k | 0 <= k < |es| ensures es[k].key == bs[k].key && SameButOrder(es[k].value, bs[k].value) { SameSelf(es[k].value); }
    SameEntries(es, bs);
    CanonicalEntries(es);
    CanonicalEntries(bs);
    var ca, cb := CanonicalValues(es), CanonicalValues(bs);
    assert cb[i] in cb;
    forall m | 0 <= m < |ca| ensures ca[m] != cb[i] {
      if m < i { assert es[m].key != es[i].key; }
      if m > i { assert es[i].key != es[m].key; }
    }
  }

  /** A value with tied keys has another that differs from it only by key order but not in the same canonical form. */
  lemma {:induction false} TiedDiffers(a: Json) returns (b: Json)
    requires Valid(a) && !Untied(a)
    ensures Valid(b) && SameButOrder(a, b) && Canonical(a) != Canonical(b)
    decreases a
  {
    match a
    case Arr(items) =>
      var i :| 0 <= i < |items| && !Untied(items[i]);
      var c := TiedDiffers(items[i]);
      b := Arr(items[i := c]);
      forall k | 0 <= k < |items| ensures SameButOrder(items[k], b.items[k]) { SameSelf(items[k]); }
      assert Canonical(a).items[i] != Canonical(b).items[i];
    case Obj(es) =>
      if DistinctRanks(es) {
        var i :| 0 <= i < |es| && !Untied(es[i].value);
        var c := TiedDiffers(es[i].value);
        b := Obj(es[i := Entry(es[i].key, c)]);
        ChildDiffers(es, i, c);
      } else {
        var i, j :| 0 <= i < j < |es| && es[i].key.rank == es[j].key.rank;
        b := Obj(Swapped(es, i, j));
        SwapDiffers(es, i, j);
      }
  }

  /** Key order cannot change the canonical form of a value exactly when no object in it has keys that the comparison ties. */
  lemma OrderIndependentExactly(a: Json)
    requires Valid(a)
    ensures (forall b :: Valid(b) && SameButOrder(a, b) ==> Canonical(a) == Canonical(b)) <==> Untied(a)
  {
    if Untied(a) {
      forall b | Valid(b) && SameButOrder(a, b) ensures Canonical(a) == Canonical(b) { SameGivesEqual(a, b); }
    } else {
      var b := TiedDiffers(a);
    }
  }

  lemma {:induction false} CanonicalIdempotent(v: Json)
    ensures Canonical(Canonical(v)) == Canonical(v)
    decreases v
  {
    match v
    case Leaf(_) =>
    case Arr(items) =>
      forall i | 0 <= i < |items| ensures Canonical(Canonical(items[i])) == Canonical(items[i]) { CanonicalIdempotent(items[i]); }
      assert Canonical(Canonical(v)).items == Canonical(v).items;
    case Obj(es) =>
      var values := CanonicalValues(es);
      forall i | 0 <= i < |es| ensures Canonical(values[i].value) == values[i].value { CanonicalIdempotent(es[i].value); }
      CanonicalObject(es);
      CanonicalObject(Sort(values));
      SortMaps(values, (x: Json) => Canonical(x));
      assert CanonicalValues(values) == values;
      SortSorted(values);
      SortKeepsSorted(Sort(values));
  }

  // ----- sanitising -----

  function Kept(es: seq<Entry>, sensitive: set<Key>): seq<Entry> {
    if es == [] then []
    else (if es[0].key in sensitive then [] else [es[0]]) + Kept(es[1..], sensitive)
  }

  function Sanitized(v: Json, sensitive: set<Key>): Json {
    match v
    case Leaf(_) => v
    case Arr(items) => Arr(seq(|items|, i requires 0 <= i < |items| => Sanitized(items[i], sensitive)))
    case Obj(es) => Obj(Kept(seq(|es|, i requires 0 <= i < |es| => Entry(es[i].key, Sanitized(es[i].value, sensitive))), sensitive))
  }

  /** No sensitive key at any depth. */
  predicate Clean(v: Json, sensitive: set<Key>) {
    match v
    case Leaf(_) => true
    case Arr(items) => forall i :: 0 <= i < |items| ==> Clean(items[i], sensitive)
    case Obj(es) => forall i :: 0 <= i < |es| ==> es[i].key !in sensitive && Clean(es[i].value, sensitive)
  }

  function SanitizedValues(es: seq<Entry>, sensitive: set<Key>): seq<Entry> {
    MapValues(es, (v: Json) => Sanitized(v, sensitive))
  }

  lemma SanitizedObject(es: seq<Entry>, sensitive: set<Key>)
    ensures Sanitized(Obj(es), sensitive) == Obj(Kept(SanitizedValues(es, sensitive), sensitive))
  {
    assert SanitizedValues(es, sensitive) == seq(|es|, i requires 0 <= i < |es| => Entry(es[i].key, Sanitized(es[i].value, sensitive)));
  }

  lemma {:induction false} KeptMembers(es: seq<Entry>, sensitive: set<Key>)
    ensures forall x :: x in Kept(es, sensitive) <==> x in es && x.key !in sensitive
  {
    if es != [] {
      KeptMembers(es[1..], sensitive);
      assert forall x :: x in es <==> x == es[0] || x in es[1..];
    }
  }

  lemma {:induction false} KeptAll(es: seq<Entry>, sensitive: set<Key>)
    requires forall i :: 0 <= i < |es| ==> es[i].key !in sensitive
    ensures Kept(es, sensitive) == es
  {
    if es != [] { KeptAll(es[1..], sensitive); }
  }

  /** Whatever the input, the output holds no sensitive key at any depth. */
  lemma {:induction false} SanitizedIsClean(v: Json, sensitive: set<Key>)
    ensures Clean(Sanitized(v, sensitive), sensitive)
    decreases v
  {
    match v
    case Leaf(_) =>
    case Arr(items) =>
      forall i | 0 <= i < |items| ensures Clean(Sanitized(items[i], sensitive), sensitive) { SanitizedIsClean(items[i], sensitive); }
    case Obj(es) =>
      var values := SanitizedValues(es, sensitive);
      SanitizedObject(es, sensitive);
      KeptMembers(values, sensitive);
      forall i | 0 <= i < |es| ensures Clean(values[i].value, sensitive) { SanitizedIsClean(es[i].value, sensitive); }
      var out := Sanitized(v, sensitive).entries;
      forall i | 0 <= i < |out| ensures out[i].key !in sensitive && Clean(out[i].value, sensitive) {
        assert out[i] in out;
        var j :| 0 <= j < |values| && values[j] == out[i];
      }
  }

  /** A clean value loses nothing, so sanitising twice is sanitising once. */
  lemma {:induction false} CleanIsKept(v: Json, sensitive: set<Key>)
    requires Clean(v, sensitive)
    ensures Sanitized(v, sensitive) == v
    decreases v
  {
    match v
    case Leaf(_) =>
    case Arr(items) =>
      forall i | 0 <= i < |items| ensures Sanitized(items[i], sensitive) == items[i] { CleanIsKept(items[i], sensitive); }
      assert Sanitized(v, sensitive).items == items;
    case Obj(es) =>
      forall i | 0 <= i < |es| ensures Sanitized(es[i].value, sensitive) == es[i].value { CleanIsKept(es[i].value, sensitive); }
      SanitizedObject(es, sensitive);
      assert SanitizedValues(es, sensitive) == es;
      KeptAll(es, sensitive);
  }

  lemma SanitizedIdempotent(v: Json, sensitive: set<Key>)
    ensures Sanitized(Sanitized(v, sensitive), sensitive) == Sanitized(v, sensitive)
  {
    SanitizedIsClean(v, sensitive);
    CleanIsKept(Sanitized(v, sensitive), sensitive);
  }

  lemma SanitizedMembers(es: seq<Entry>, sensitive: set<Key>, x: Entry)
    ensures x in Sanitized(Obj(es), sensitive).entries <==>
              exists i :: 0 <= i < |es| && es[i].key !in sensitive && x == Entry(es[i].key, Sanitized(es[i].value, sensitive))
  {
    var values := SanitizedValues(es, sensitive);
    SanitizedObject(es, sensitive);
    KeptMembers(values, sensitive);
    if x in values && x.key !in sensitive {
      var i :| 0 <= i < |values| && values[i] == x;
    }
    if i :| 0 <= i < |es| && es[i].key !in sensitive && x == Entry(es[i].key, Sanitized(es[i].value, sensitive)) {
      assert values[i] == x;
    }
  }

  lemma {:induction false} KeptMaps(es: seq<Entry>, sensitive: set<Key>, f: Json -> Json)
    ensures MapValues(Kept(es, sensitive), f) == Kept(MapValues(es, f), sensitive)
  {
    if es != [] {
      KeptMaps(es[1..], sensitive, f);
      assert MapValues(es, f)[1..] == MapValues(es[1..], f);
    }
  }

  lemma {:induction false} KeptInsert(es: seq<Entry>, e: Entry, sensitive: set<Key>)
    requires Sorted(es)
    ensures Kept(Insert(es, e), sensitive) == if e.key in sensitive then Kept(es, sensitive) else Insert(Kept(es, sensitive), e)
  {
    if es == [] {
      assert [e][1..] == [];
    } else if e.key.rank <= es[0].key.rank {
      assert ([e] + es)[1..] == es;
      var kept := Kept(es, sensitive);
      KeptMembers(es, sensitive);
      if kept != [] { assert kept[0] in es; }
    } else {
      KeptInsert(es[1..], e, sensitive);
      assert ([es[0]] + Insert(es[1..], e))[1..] == Insert(es[1..], e);
      var rest := Kept(es[1..], sensitive);
      if es[0].key in sensitive {
        assert Kept(es, sensitive) == rest;
        assert Kept(Insert(es, e), sensitive) == Kept(Insert(es[1..], e), sensitive);
      } else {
        assert Kept(es, sensitive) == [es[0]] + rest && ([es[0]] + rest)[1..] == rest;
      }
    }
  }

  /** Dropping keys and sorting may be done in either order. */
  lemma {:induction false} KeptSort(es: seq<Entry>, sensitive: set<Key>)
    ensures Kept(Sort(es), sensitive) == Sort(Kept(es, sensitive))
  {
    if es != [] {
      KeptSort(es[1..], sensitive);
      SortSorted(es[1..]);
      KeptInsert(Sort(es[1..]), es[0], sensitive);
      var rest := Kept(es[1..], sensitive);
      assert [] + rest == rest && ([es[0]] + rest)[1..] == rest;
    }
  }

  /** Sanitising and canonicalising may be done in either order. */
  lemma {:induction false} SanitizeCommutes(v: Json, sensitive: set<Key>)
    ensures Sanitized(Canonical(v), sensitive) == Canonical(Sanitized(v, sensitive))
    decreases v
  {
    match v
    case Leaf(_) =>
    case Arr(items) =>
      forall i | 0 <= i < |items| ensures Sanitized(Canonical(items[i]), sensitive) == Canonical(Sanitized(items[i], sensitive)) {
        SanitizeCommutes(items[i], sensitive);
      }
      assert Sanitized(Canonical(v), sensitive).items == Canonical(Sanitized(v, sensitive)).items;
    case Obj(es) =>
      forall i | 0 <= i < |es| ensures Sanitized(Canonical(es[i].value), sensitive) == Canonical(Sanitized(es[i].value, sensitive)) {
        SanitizeCommutes(es[i].value, sensitive);
      }
      ObjectCommutes(es, sensitive);
  }

  lemma ObjectCommutes(es: seq<Entry>, sensitive: set<Key>)
    requires forall i :: 0 <= i < |es| ==> Sanitized(Canonical(es[i].value), sensitive) == Canonical(Sanitized(es[i].value, sensitive))
    ensures Sanitized(Canonical(Obj(es)), sensitive) == Canonical(Sanitized(Obj(es), sensitive))
  {
    var canonical, sanitized := CanonicalValues(es), SanitizedValues(es, sensitive);
    assert SanitizedValues(canonical, sensitive) == CanonicalValues(sanitized);
    CanonicalObject(es);
    SanitizedObject(Sort(canonical), sensitive);
    SortMaps(canonical, (v: Json) => Sanitized(v, sensitive));
    KeptSort(CanonicalValues(sanitized), sensitive);
    SanitizedObject(es, sensitive);
    CanonicalObject(Kept(sanitized, sensitive));
    KeptMaps(sanitized, sensitive, (v: Json) => Canonical(v));
  }

  // ----- the recursive methods with their loops -----

  lemma KeptStep(kept: seq<Entry>, values: seq<Entry>, i: nat, sensitive: set<Key>)
    requires i < |values|
    ensures values[i].key in sensitive ==> kept + Kept(values[i + 1..], sensitive) == kept + Kept(values[i..], sensitive)
    ensures values[i].key !in sensitive ==> kept + [values[i]] + Kept(values[i + 1..], sensitive) == kept + Kept(values[i..], sensitive)
  {
    assert values[i..] == [values[i]] + values[i + 1..];
  }

  /** `sanitizeNestedValue`. */
  method SanitizeNestedValue(v: Json, sensitive: set<Key>) returns (out: Json)
    ensures out == Sanitized(v, sensitive)
    decreases v
  {
    match v {
      case Leaf(_) => return v;
      case Arr(items) =>
        var done: seq<Json> := [];
        for i := 0 to |items|
          invariant |done| == i && forall j :: 0 <= j < i ==> done[j] == Sanitized(items[j], sensitive)
        {
          var item := SanitizeNestedValue(items[i], sensitive);
          done := done + [item];
        }
        return Arr(done);
      case Obj(es) =>
        SanitizedObject(es, sensitive);
        ghost var values := SanitizedValues(es, sensitive);
        var kept: seq<Entry> := [];
        for i := 0 to |es|
          invariant kept + Kept(values[i..], sensitive) == Kept(values, sensitive)
        {
          KeptStep(kept, values, i, sensitive);
          hide Kept, Sanitized;
          if es[i].key in sensitive { continue; }
          var child := SanitizeNestedValue(es[i].value, sensitive);
          kept := kept + [Entry(es[i].key, child)];
        }
        return Obj(kept);
    }
  }

  lemma FillStep(sorted: seq<Entry>, i: nat)
    requires i < |sorted|
    ensures |CanonicalValues(sorted)| == |sorted|
    ensures CanonicalValues(sorted)[..i + 1] == CanonicalValues(sorted)[..i] + [Entry(sorted[i].key, Canonical(sorted[i].value))]
  {}

  /** `canonicalizeJsonValue`: sorts the keys, then fills the output in that order. */
  method CanonicalizeJsonValue(v: Json) returns (out: Json)
    ensures out == Canonical(v)
    decreases v
  {
    match v {
      case Leaf(_) => return v;
      case Arr(items) =>
        var done: seq<Json> := [];
        for i := 0 to |items|
          invariant |done| == i && forall j :: 0 <= j < i ==> done[j] == Canonical(items[j])
        {
          var item := CanonicalizeJsonValue(items[i]);
          done := done + [item];
        }
        return Arr(done);
      case Obj(es) =>
        CanonicalObject(es);
        SortMaps(es, (x: Json) => Canonical(x));
        SortMembers(es);
        var sorted := Sort(es);
        var filled: seq<Entry> := [];
        for i := 0 to |sorted|
          invariant filled == CanonicalValues(sorted)[..i]
        {
          hide Canonical, Sort, CanonicalValues;
          FillStep(sorted, i);
          assert sorted[i] in es;
          var j :| 0 <= j < |es| && es[j] == sorted[i];
          var child := CanonicalizeJsonValue(es[j].value);
          filled := filled + [Entry(sorted[i].key, child)];
        }
        assert CanonicalValues(sorted)[..|sorted|] == CanonicalValues(sorted);
        return Obj(filled);
    }
  }
}
