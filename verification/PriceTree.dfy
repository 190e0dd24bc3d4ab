/** The ordered price tree. The library's red-black tree is seen only through the contracts of
    `Put`, `Delete`, `Min` and `Max`: some search tree with the updated entries. */
module PriceTree {
  import opened Orders

  datatype Entry<V> = Entry(key: int, value: V)

  datatype Tree<V> = Leaf | Node(left: Tree<V>, key: int, value: V, right: Tree<V>)

  function Entries<V>(t: Tree<V>): seq<Entry<V>> {
    match t
    case Leaf => []
    case Node(left, key, value, right) => Entries(left) + [Entry(key, value)] + Entries(right)
  }

  ghost predicate Ascending<V>(es: seq<Entry<V>>) {
    forall i, j :: 0 <= i < j < |es| ==> es[i].key < es[j].key
  }

  ghost predicate SearchTree<V>(t: Tree<V>) {
    Ascending(Entries(t))
  }

  lemma SubtreesSearch<V>(t: Tree<V>)
    requires SearchTree(t) && t.Node?
    ensures SearchTree(t.left) && SearchTree(t.right)
    ensures forall e :: e in Entries(t.left) ==> e.key < t.key
    ensures forall e :: e in Entries(t.right) ==> t.key < e.key
  {
    var es, n := Entries(t), |Entries(t.left)|;
    assert es[n] == Entry(t.key, t.value);
    forall i | 0 <= i < n ensures Entries(t.left)[i] == es[i] {
    }
    forall i | 0 <= i < |Entries(t.right)| ensures Entries(t.right)[i] == es[n + 1 + i] {
    }
  }

  /** The part of the tree with keys below `key`. */
  function Below<V>(t: Tree<V>, key: int): Tree<V> {
    match t
    case Leaf => Leaf
    case Node(left, k, v, right) => if k < key then Node(left, k, v, Below(right, key)) else Below(left, key)
  }

  function Above<V>(t: Tree<V>, key: int): Tree<V> {
    match t
    case Leaf => Leaf
    case Node(left, k, v, right) => if key < k then Node(Above(left, key), k, v, right) else Above(right, key)
  }

  /** Exactly the first `c` entries have keys below `key`. */
  ghost predicate CutBelow<V>(es: seq<Entry<V>>, c: nat, key: int) {
    c <= |es| && forall i :: 0 <= i < |es| ==> (es[i].key < key <==> i < c)
  }

  ghost predicate CutAbove<V>(es: seq<Entry<V>>, c: nat, key: int) {
    c <= |es| && forall i :: 0 <= i < |es| ==> (es[i].key > key <==> c <= i)
  }

  lemma CutLow<V>(low: seq<Entry<V>>, here: Entry<V>, high: seq<Entry<V>>, c: nat, key: int)
    requires Ascending(low + [here] + high) && c <= |low|
    ensures (low + [here] + high)[..c] == low[..c]
    ensures (low + [here] + high)[c..] == low[c..] + [here] + high
    ensures CutBelow(low, c, key) && key <= here.key ==> CutBelow(low + [here] + high, c, key)
    ensures CutAbove(low, c, key) && key < here.key ==> CutAbove(low + [here] + high, c, key)
  {
    var es, n := low + [here] + high, |low|;
    assert es[n] == here && forall i :: 0 <= i < n ==> es[i] == low[i];
  }

  lemma CutHigh<V>(low: seq<Entry<V>>, here: Entry<V>, high: seq<Entry<V>>, c: nat, key: int)
    requires Ascending(low + [here] + high) && c <= |high|
    ensures (low + [here] + high)[..|low| + 1 + c] == low + [here] + high[..c]
    ensures (low + [here] + high)[|low| + 1 + c..] == high[c..]
    ensures CutBelow(high, c, key) && here.key < key ==> CutBelow(low + [here] + high, |low| + 1 + c, key)
    ensures CutAbove(high, c, key) && here.key <= key ==> CutAbove(low + [here] + high, |low| + 1 + c, key)
  {
    var es, n := low + [here] + high, |low|;
    assert es[n] == here && forall i :: n < i < |es| ==> es[i] == high[i - n - 1];
  }

  lemma CutNone<V>(key: int)
    ensures CutBelow<V>([], 0, key) && CutAbove<V>([], 0, key)
  {
  }

  lemma {:induction false} BelowIsPrefix<V>(t: Tree<V>, key: int) returns (c: nat)
    requires SearchTree(t)
    ensures c <= |Entries(t)| && CutBelow(Entries(t), c, key) && Entries(Below(t, key)) == Entries(t)[..c]
  {
    hide Ascending, CutBelow, CutAbove;
    match t {
      case Leaf =>
        c := 0;
        CutNone<V>(key);
      case Node(left, k, v, right) =>
        SubtreesSearch(t);
        if k < key {
          var d := BelowIsPrefix(right, key);
          CutHigh(Entries(left), Entry(k, v), Entries(right), d, key);
          c := |Entries(left)| + 1 + d;
        } else {
          c := BelowIsPrefix(left, key);
          CutLow(Entries(left), Entry(k, v), Entries(right), c, key);
        }
    }
  }

  lemma {:induction false} AboveIsSuffix<V>(t: Tree<V>, key: int) returns (c: nat)
    requires SearchTree(t)
    ensures c <= |Entries(t)| && CutAbove(Entries(t), c, key) && Entries(Above(t, key)) == Entries(t)[c..]
  {
    hide Ascending, CutBelow, CutAbove;
    match t {
      case Leaf =>
        c := 0;
        CutNone<V>(key);
      case Node(left, k, v, right) =>
        SubtreesSearch(t);
        if key < k {
          c := AboveIsSuffix(left, key);
          CutLow(Entries(left), Entry(k, v), Entries(right), c, key);
        } else {
          var d := AboveIsSuffix(right, key);
          CutHigh(Entries(left), Entry(k, v), Entries(right), d, key);
          c := |Entries(left)| + 1 + d;
        }
    }
  }

  /** Binds an absent key: a new entry at its place `i` in the key order. */
  method Put<V>(t: Tree<V>, key: int, value: V) returns (r: Tree<V>, ghost i: nat)
    requires SearchTree(t) && forall e :: e in Entries(t) ==> e.key != key
    ensures SearchTree(r) && forall e :: e in Entries(r) <==> e == Entry(key, value) || e in Entries(t)
    ensures i <= |Entries(t)| && Entries(r) == Entries(t)[..i] + [Entry(key, value)] + Entries(t)[i..]
    ensures forall j :: 0 <= j < |Entries(t)| ==> if j < i then Entries(t)[j].key < key else key < Entries(t)[j].key
  {
    i := BelowIsPrefix(t, key);
    ghost var c := AboveIsSuffix(t, key);
    if i < |Entries(t)| { assert Entries(t)[i] in Entries(t); }
    if i > 0 { assert Entries(t)[i - 1] in Entries(t); }
    assert c == i;
    r := Node(Below(t, key), key, value, Above(t, key));
    PutMembers(Entries(t), i, Entry(key, value));
  }

  lemma PutMembers<V>(es: seq<Entry<V>>, i: nat, e: Entry<V>)
    requires i <= |es| && Ascending(es)
    requires forall j :: 0 <= j < |es| ==> if j < i then es[j].key < e.key else e.key < es[j].key
    ensures var after := es[..i] + [e] + es[i..];
            Ascending(after) && forall f :: f in after <==> f == e || f in es
  {
    var after := es[..i] + [e] + es[i..];
    SplitMembers(es, i);
    forall j, k | 0 <= j < k < |after| ensures after[j].key < after[k].key {
      assert after[j] == if j < i then es[j] else if j == i then e else es[j - 1];
      assert after[k] == if k < i then es[k] else if k == i then e else es[k - 1];
    }
  }

  lemma SplitMembers<V>(es: seq<Entry<V>>, i: nat)
    requires i <= |es|
    ensures forall f :: f in es <==> f in es[..i] || f in es[i..]
  {
    assert es == es[..i] + es[i..];
  }

  /** Removing the key of entry `i` removes that entry. */
  method Delete<V>(t: Tree<V>, key: int, ghost i: nat) returns (r: Tree<V>)
    requires SearchTree(t) && i < |Entries(t)| && Entries(t)[i].key == key
    ensures Entries(r) == Entries(t)[..i] + Entries(t)[i + 1..]
  {
    ghost var b := BelowIsPrefix(t, key);
    ghost var c := AboveIsSuffix(t, key);
    ghost var es := Entries(t);
    assert es[i].key == key;
    if i > 0 { assert es[i - 1].key < key; }
    if i + 1 < |es| { assert es[i + 1].key > key; }
    assert b == i && c == i + 1;
    r := Join(Below(t, key), Above(t, key));
  }

  function Join<V>(low: Tree<V>, high: Tree<V>): (r: Tree<V>)
    ensures Entries(r) == Entries(low) + Entries(high)
  {
    match high
    case Leaf => low
    case Node(left, key, value, right) =>
      var r := Node(Join(low, left), key, value, right);
      assert Entries(low) + Entries(high) == (Entries(low) + Entries(left)) + [Entry(key, value)] + Entries(right);
      r
  }

  function Min<V>(t: Tree<V>): (r: Option<V>)
    ensures r == if Entries(t) == [] then None else Some(Entries(t)[0].value)
  {
    match t
    case Leaf => None
    case Node(left, _, value, _) => if left.Leaf? then Some(value) else Min(left)
  }

  function Max<V>(t: Tree<V>): (r: Option<V>)
    ensures r == if Entries(t) == [] then None else Some(Entries(t)[|Entries(t)| - 1].value)
  {
    match t
    case Leaf => None
    case Node(_, _, value, right) => if right.Leaf? then Some(value) else Max(right)
  }

  /** A subtree holding entries `lo` to `hi` splits at its root. */
  lemma SubtreeSlices<V>(es: seq<Entry<V>>, lo: nat, hi: nat, node: Tree<V>) returns (n: nat)
    requires lo <= hi <= |es| && node.Node? && Entries(node) == es[lo..hi]
    ensures lo <= n < hi && es[n] == Entry(node.key, node.value)
    ensures Entries(node.left) == es[lo..n] && Entries(node.right) == es[n + 1..hi]
  {
    var left, right := Entries(node.left), Entries(node.right);
    n := lo + |left|;
    assert |es[lo..hi]| == |left| + 1 + |right|;
    assert es[n] == es[lo..hi][|left|];
    assert es[lo..n] == es[lo..hi][..|left|];
    assert es[n + 1..hi] == es[lo..hi][|left| + 1..];
  }

  lemma LeafIsEmpty<V>(t: Tree<V>)
    requires t.Leaf?
    ensures |Entries(t)| == 0
  {
  }

  lemma KeysAround<V>(es: seq<Entry<V>>, n: nat)
    requires Ascending(es) && n < |es|
    ensures forall j :: 0 <= j < n ==> es[j].key < es[n].key
    ensures forall j :: n < j < |es| ==> es[n].key < es[j].key
  {
  }

  /** The greatest entry below `price`. */
  ghost predicate IsFloor<V>(es: seq<Entry<V>>, price: int, e: Entry<V>) {
    e in es && e.key < price && forall f :: f in es && f.key < price ==> f.key <= e.key
  }

  /** The least entry above `price`. */
  ghost predicate IsCeiling<V>(es: seq<Entry<V>>, price: int, e: Entry<V>) {
    e in es && price < e.key && forall f :: f in es && price < f.key ==> e.key <= f.key
  }

  /** The descent towards the greatest key below `price`, keeping the best node seen so far; it ends
      between entries `i` and `i + 1`. */
  method Floor<V>(t: Tree<V>, price: int) returns (floor: Option<Entry<V>>, ghost i: int)
    requires SearchTree(t)
    ensures floor.None? <==> forall e :: e in Entries(t) ==> price <= e.key
    ensures floor.Some? ==> IsFloor(Entries(t), price, floor.value)
    ensures -1 <= i < |Entries(t)|
    ensures forall j :: 0 <= j < |Entries(t)| ==> (Entries(t)[j].key < price <==> j <= i)
    ensures floor == if i < 0 then None else Some(Entries(t)[i])
  {
    hide Entries, Ascending, IsFloor, IsCeiling;
    ghost var es := Entries(t);
    var node := t;
    floor := None;
    ghost var lo, hi := 0, |es|;
    assert es[lo..hi] == es;
    while node.Node?
      invariant 0 <= lo <= hi <= |es| && Entries(node) == es[lo..hi]
      invariant forall j :: 0 <= j < lo ==> es[j].key < price
      invariant forall j :: hi <= j < |es| ==> price <= es[j].key
      invariant floor == if lo == 0 then None else Some(es[lo - 1])
      decreases node
    {
      ghost var n := SubtreeSlices(es, lo, hi, node);
      KeysAround(es, n);
      if price > node.key {
        floor := Some(Entry(node.key, node.value));
        lo := n + 1;
        node := node.right;
      } else {
        hi := n;
        node := node.left;
      }
    }
    LeafIsEmpty(node);
    i := lo - 1;
    FloorAt(es, price, i);
  }

  lemma FloorAt<V>(es: seq<Entry<V>>, price: int, i: int)
    requires Ascending(es) && -1 <= i < |es| && forall j :: 0 <= j < |es| ==> (es[j].key < price <==> j <= i)
    ensures i < 0 <==> forall e :: e in es ==> price <= e.key
    ensures i >= 0 ==> IsFloor(es, price, es[i])
  {
    assert i >= 0 ==> es[i] in es;
  }

  /** The descent towards the least key above `price`; it ends just before entry `i`. */
  method Ceiling<V>(t: Tree<V>, price: int) returns (ceiling: Option<Entry<V>>, ghost i: nat)
    requires SearchTree(t)
    ensures ceiling.None? <==> forall e :: e in Entries(t) ==> e.key <= price
    ensures ceiling.Some? ==> IsCeiling(Entries(t), price, ceiling.value)
    ensures i <= |Entries(t)|
    ensures forall j :: 0 <= j < |Entries(t)| ==> (price < Entries(t)[j].key <==> i <= j)
    ensures ceiling == if i == |Entries(t)| then None else Some(Entries(t)[i])
  {
    hide Entries, Ascending, IsFloor, IsCeiling;
    ghost var es := Entries(t);
    var node := t;
    ceiling := None;
    ghost var lo, hi := 0, |es|;
    assert es[lo..hi] == es;
    while node.Node?
      invariant 0 <= lo <= hi <= |es| && Entries(node) == es[lo..hi]
      invariant forall j :: 0 <= j < lo ==> es[j].key <= price
      invariant forall j :: hi <= j < |es| ==> price < es[j].key
      invariant ceiling == if hi == |es| then None else Some(es[hi])
      decreases node
    {
      ghost var n := SubtreeSlices(es, lo, hi, node);
      KeysAround(es, n);
      if price < node.key {
        ceiling := Some(Entry(node.key, node.value));
        hi := n;
        node := node.left;
      } else {
        lo := n + 1;
        node := node.right;
      }
    }
    LeafIsEmpty(node);
    i := hi;
    CeilingAt(es, price, i);
  }

  lemma CeilingAt<V>(es: seq<Entry<V>>, price: int, i: nat)
    requires Ascending(es) && i <= |es| && forall j :: 0 <= j < |es| ==> (price < es[j].key <==> i <= j)
    ensures i == |es| <==> forall e :: e in es ==> e.key <= price
    ensures i < |es| ==> IsCeiling(es, price, es[i])
  {
    assert i < |es| ==> es[i] in es;
  }

  ghost predicate HasKey<V>(es: seq<Entry<V>>, key: int) {
    exists i :: 0 <= i < |es| && es[i].key == key
  }

  /** The tree of a map, its keys put in any order. */
  method Build<V>(bindings: map<int, V>) returns (t: Tree<V>)
    ensures SearchTree(t)
    ensures forall e :: e in Entries(t) <==> e.key in bindings && e.value == bindings[e.key]
  {
    hide Entries, SearchTree;
    t := Empty();
    var rest := bindings.Keys;
    while exists p :: p in rest
      invariant rest <= bindings.Keys && SearchTree(t)
      invariant forall e :: e in Entries(t) ==> e.key in bindings && e.key !in rest && e.value == bindings[e.key]
      invariant forall key :: key in bindings && key !in rest ==> Entry(key, bindings[key]) in Entries(t)
      decreases rest
    {
      var key :| key in rest;
      ghost var i;
      t, i := Put(t, key, bindings[key]);
      rest := rest - {key};
    }
  }

  function Empty<V>(): (t: Tree<V>)
    ensures SearchTree(t) && Entries(t) == []
  {
    Leaf
  }

  /** The entries of a built tree, by position and by key. */
  /** The tree holds the bindings of a map. */
  ghost predicate Binds<V>(t: Tree<V>, bindings: map<int, V>) {
    && SearchTree(t)
    && (forall i :: 0 <= i < |Entries(t)| ==>
        Entries(t)[i].key in bindings && Entries(t)[i].value == bindings[Entries(t)[i].key])
    && (forall key :: key in bindings ==> HasKey(Entries(t), key))
  }

  lemma BuiltEntries<V>(bindings: map<int, V>, es: seq<Entry<V>>)
    requires forall e :: e in es <==> e.key in bindings && e.value == bindings[e.key]
    ensures forall i :: 0 <= i < |es| ==> es[i].key in bindings && es[i].value == bindings[es[i].key]
    ensures forall key :: key in bindings ==> HasKey(es, key)
  {
    forall i | 0 <= i < |es| ensures es[i].key in bindings && es[i].value == bindings[es[i].key] {
      assert es[i] in es;
    }
    forall key | key in bindings ensures HasKey(es, key) {
      var i :| 0 <= i < |es| && es[i] == Entry(key, bindings[key]);
      assert es[i].key == key;
    }
  }
}
