/**
 * The lossless-JSON check: a depth-first walk over an arbitrary object heap
 * that carries the set of ancestors of the current value, so that a cycle is
 * refused and sharing is not.
 */
module JsonValue {

  import opened FiniteSets
  import opened Text

  type Ref = nat

  datatype Value =
    | Null
    | Boolean(b: bool)
    | Chars(s: string)
    | Finite(n: real)
    | NegativeZero
    | NonFinite      // NaN and the infinities
    | Undefined      // undefined, functions, symbols and big integers
    | Pointer(ref: Ref)

  datatype Key = Name(name: string) | Symbol(id: nat)

  /** `Accessor` is a property described by a getter or a setter. */
  datatype Descriptor = Data(value: Value) | Accessor

  datatype Property = Property(key: Key, enumerable: bool, descriptor: Descriptor)

  /**
   * The own keys of an array other than `length`, and of an object in the order of
   * `Reflect.ownKeys`; and what a callable `toJSON` that it inherits makes of it.
   */
  datatype Node =
    | Array(length: nat, own: map<string, Value>, symbols: set<nat>, toJson: Method)
    | Object(plain: bool, properties: seq<Property>, toJson: Method)

  datatype Method = NoMethod | Replaces(outcome: Print)

  /** What is read back in place of a value: a tree, nothing if it is printed as `undefined`, or an exception. */
  datatype Print = Printed(tree: Tree) | Nothing | Thrown

  type Heap = map<Ref, Node>

  // ---------------------------------------------------------------------------
  // Canonical array indices
  // ---------------------------------------------------------------------------

  const MAX_SAFE_INTEGER: nat := 9007199254740991
  const MAX_ARRAY_LENGTH: nat := 4294967295

  /** What `Number` makes of a string. */
  datatype Numeral = SafeInteger(n: int) | OtherNumber

  /** The only property of `Number` that is needed: it reads back a safe integer that was printed. */
  ghost predicate ReadsIntegers(number: string -> Numeral) {
    forall n: nat :: n <= MAX_SAFE_INTEGER ==> number(Decimal(n)) == SafeInteger(n)
  }

  predicate IsCanonicalArrayIndex(key: string, length: nat, number: string -> Numeral) {
    && key != ""
    && number(key).SafeInteger?
    && 0 <= number(key).n < length
    && Decimal(number(key).n) == key
  }

  predicate IsIndexKey(key: string, length: nat) {
    exists i :: 0 <= i < length && Decimal(i) == key
  }

  lemma DecimalIsNotEmpty(n: nat)
    ensures Decimal(n) != ""
  {
  }

  /** The test by way of `Number` recognises exactly the printed indices below the length. */
  lemma CanonicalIndices(key: string, length: nat, number: string -> Numeral)
    requires ReadsIntegers(number) && length <= MAX_ARRAY_LENGTH
    ensures IsCanonicalArrayIndex(key, length, number) <==> IsIndexKey(key, length)
  {
    if IsIndexKey(key, length) {
      var i :| 0 <= i < length && Decimal(i) == key;
      DecimalIsNotEmpty(i);
      assert number(Decimal(i)) == SafeInteger(i);
    }
  }

  // ---------------------------------------------------------------------------
  // Paths
  // ---------------------------------------------------------------------------

  predicate IsLeaf(v: Value) {
    v.Null? || v.Boolean? || v.Chars? || v.Finite? || v.NegativeZero?
  }

  /** The values below a node; a hole or an accessor has none and counts as `Undefined`. */
  function Kids(node: Node): seq<Value> {
    match node
    case Array(length, own, _, _) =>
        seq(length, i requires 0 <= i < length => if Decimal(i) in own then own[Decimal(i)] else Undefined)
    case Object(_, properties, _) =>
      seq(|properties|, i requires 0 <= i < |properties| =>
        if properties[i].descriptor.Data? then properties[i].descriptor.value else Undefined)
  }

  /** The node has no key that JSON text would lose, and an object is plain; the prototype of an array is not asked. */
  predicate IsShapely(node: Node) {
    match node
    case Array(length, own, symbols, _) => symbols == {} && forall key :: key in own ==> IsIndexKey(key, length)
    case Object(plain, properties, _) =>
      plain && forall i :: 0 <= i < |properties| ==> properties[i].key.Name? && properties[i].enumerable
  }

  predicate IsSound(node: Node) {
    IsShapely(node) && forall i :: 0 <= i < |Kids(node)| ==> Kids(node)[i].Pointer? || IsLeaf(Kids(node)[i])
  }

  predicate WellFormed(h: Heap) {
    forall r :: r in h ==>
      && (h[r].Array? ==> h[r].length <= MAX_ARRAY_LENGTH)
      && forall i :: 0 <= i < |Kids(h[r])| ==> PointsInto(Kids(h[r])[i], h)
  }

  predicate PointsInto(v: Value, h: Heap) {
    v.Pointer? ==> v.ref in h
  }

  /** A path through the heap, from node to node. */
  predicate IsPath(h: Heap, p: seq<Ref>) {
    && p != [] && p[0] in h
    && (|p| > 1 ==> Pointer(p[1]) in Kids(h[p[0]]) && IsPath(h, p[1..]))
  }

  /** A path that does not close a cycle and ends in a sound node. */
  predicate IsGoodPath(h: Heap, p: seq<Ref>, ancestors: set<Ref>)
    requires IsPath(h, p)
  {
    PathEndsInHeap(h, p);
    NoDuplicates(p) && p[|p| - 1] !in ancestors && IsSound(h[p[|p| - 1]])
  }

  lemma PathEndsInHeap(h: Heap, p: seq<Ref>)
    requires IsPath(h, p)
    ensures p[|p| - 1] in h
  {
    if |p| > 1 {
      PathEndsInHeap(h, p[1..]);
    }
  }

  /** Every path from the value is acyclic and ends in valid leaves. */
  ghost predicate IsJson(h: Heap, v: Value, ancestors: set<Ref>) {
    if v.Pointer? then
      forall p: seq<Ref> :: IsPath(h, p) && p[0] == v.ref ==> IsGoodPath(h, p, ancestors)
    else
      IsLeaf(v)
  }

  ghost predicate AreKidsJson(h: Heap, node: Node, ancestors: set<Ref>) {
    forall i :: 0 <= i < |Kids(node)| ==> IsJson(h, Kids(node)[i], ancestors)
  }

  lemma DownOneLevel(h: Heap, r: Ref, ancestors: set<Ref>, i: nat)
    requires r in h && IsJson(h, Pointer(r), ancestors) && i < |Kids(h[r])|
    ensures IsJson(h, Kids(h[r])[i], ancestors + {r})
  {
    hide Kids, IsShapely;
    var kid := Kids(h[r])[i];
    assert IsPath(h, [r]);
    if kid.Pointer? {
      forall p: seq<Ref> | IsPath(h, p) && p[0] == kid.ref
        ensures IsGoodPath(h, p, ancestors + {r})
      {
        var longer := [r] + p;
        assert longer[1..] == p;
        assert IsPath(h, longer) && longer[0] == r;
        assert IsGoodPath(h, longer, ancestors);
        PathEndsInHeap(h, p);
        assert longer[|longer| - 1] == p[|p| - 1];
        assert forall j, k :: 0 <= j < k < |p| ==> p[j] == longer[j + 1] && p[k] == longer[k + 1];
      }
    }
  }

  /** A path below the kids of `r`, none of which leads back to `r`. */
  lemma {:induction false} AvoidsRoot(h: Heap, p: seq<Ref>, v: Value, ancestors: set<Ref>, r: Ref, k: nat)
    requires v.Pointer? && IsJson(h, v, ancestors + {r})
    requires IsPath(h, p) && p[0] == v.ref && k < |p|
    ensures p[k] != r
  {
    PrefixIsPath(h, p, k + 1);
    assert IsGoodPath(h, p[..k + 1], ancestors + {r});
  }

  lemma {:induction false} PrefixIsPath(h: Heap, p: seq<Ref>, n: nat)
    requires IsPath(h, p) && 0 < n <= |p|
    ensures IsPath(h, p[..n])
    decreases n
  {
    if n > 1 {
      PrefixIsPath(h, p[1..], n - 1);
      assert p[..n][1..] == p[1..][..n - 1];
    }
  }

  lemma UpOneLevel(h: Heap, r: Ref, ancestors: set<Ref>)
    requires r in h && r !in ancestors && IsShapely(h[r]) && AreKidsJson(h, h[r], ancestors + {r})
    ensures IsJson(h, Pointer(r), ancestors)
  {
    hide Kids, IsShapely;
    forall i | 0 <= i < |Kids(h[r])|
      ensures Kids(h[r])[i].Pointer? || IsLeaf(Kids(h[r])[i])
    {
      assert IsJson(h, Kids(h[r])[i], ancestors + {r});
    }
    forall p: seq<Ref> | IsPath(h, p) && p[0] == r
      ensures IsGoodPath(h, p, ancestors)
    {
      if |p| > 1 {
        var i :| 0 <= i < |Kids(h[r])| && Kids(h[r])[i] == Pointer(p[1]);
        var kid := Kids(h[r])[i];
        assert IsJson(h, kid, ancestors + {r});
        assert IsGoodPath(h, p[1..], ancestors + {r});
        forall k | 0 < k < |p|
          ensures p[k] != r
        {
          AvoidsRoot(h, p[1..], kid, ancestors, r, k - 1);
        }
        DistinctFront(p);
      }
    }
  }

  lemma DistinctFront<T>(p: seq<T>)
    requires p != [] && NoDuplicates(p[1..]) && forall k :: 0 < k < |p| ==> p[k] != p[0]
    ensures NoDuplicates(p)
  {
    forall i, j | 0 <= i < j < |p|
      ensures p[i] != p[j]
    {
      if i > 0 {
        assert p[1..][i - 1] != p[1..][j - 1];
      }
    }
  }

  /** One step of the walk decides the paths of a node by those of its kids. */
  lemma JsonUnfolds(h: Heap, r: Ref, ancestors: set<Ref>)
    requires r in h
    ensures IsJson(h, Pointer(r), ancestors) <==>
        r !in ancestors && IsShapely(h[r]) && AreKidsJson(h, h[r], ancestors + {r})
  {
    hide Kids, IsShapely;
    if IsJson(h, Pointer(r), ancestors) {
      assert IsPath(h, [r]) && [r][0] == r && [r][|[r]| - 1] == r;
      assert IsGoodPath(h, [r], ancestors);
      forall i | 0 <= i < |Kids(h[r])|
        ensures IsJson(h, Kids(h[r])[i], ancestors + {r})
      {
        DownOneLevel(h, r, ancestors, i);
      }
    } else if r !in ancestors && IsShapely(h[r]) && AreKidsJson(h, h[r], ancestors + {r}) {
      UpOneLevel(h, r, ancestors);
    }
  }

  // ---------------------------------------------------------------------------
  // The walk
  // ---------------------------------------------------------------------------

  lemma OneMoreAncestor(h: Heap, ancestors: set<Ref>, r: Ref)
    requires r in h && r !in ancestors
    ensures |h.Keys - (ancestors + {r})| < |h.Keys - ancestors|
  {
    SubsetIsSmaller(h.Keys - (ancestors + {r}), h.Keys - ancestors, r);
  }

  class Walk {
    const heap: Heap
    const number: string -> Numeral
    var ancestors: set<Ref>

    constructor (heap: Heap, number: string -> Numeral)
      ensures this.heap == heap && this.number == number && ancestors == {}
    {
      this.heap, this.number, this.ancestors := heap, number, {};
    }

    ghost predicate Valid() {
      WellFormed(heap) && ReadsIntegers(number)
    }

    method IsJsonValueInternal(value: Value) returns (ok: bool)
      requires Valid() && PointsInto(value, heap)
      modifies this
      ensures ancestors == old(ancestors)
      ensures ok <==> IsJson(heap, value, ancestors)
      decreases |heap.Keys - ancestors|, 1
    {
      if !value.Pointer? {
        return IsLeaf(value);
      }
      JsonUnfolds(heap, value.ref, ancestors);
      if value.ref in ancestors {
        return false;
      }
      hide IsJson, IsShapely;
      OneMoreAncestor(heap, ancestors, value.ref);
      ancestors := ancestors + {value.ref};
      if heap[value.ref].Array? {
        ok := CheckArray(value.ref);
      } else {
        ok := CheckObject(value.ref);
      }
      ancestors := ancestors - {value.ref};
    }

    method CheckArray(r: Ref) returns (ok: bool)
      requires Valid() && r in heap && heap[r].Array?
      modifies this
      ensures ancestors == old(ancestors)
      ensures ok <==> IsShapely(heap[r]) && AreKidsJson(heap, heap[r], ancestors)
      decreases |heap.Keys - ancestors|, 2
    {
      hide IsJson;
      var node := heap[r];
      for index := 0 to node.length
        invariant ancestors == old(ancestors)
        invariant forall i :: 0 <= i < index ==> IsJson(heap, Kids(node)[i], ancestors)
      {
        if Decimal(index) !in node.own {
          UndefinedIsNotJson(heap, ancestors);
          assert Kids(node)[index] == Undefined;
          return false;
        }
        assert Kids(node)[index] == node.own[Decimal(index)];
        var one := IsJsonValueInternal(node.own[Decimal(index)]);
        if !one {
          return false;
        }
      }
      forall key | key in node.own
        ensures IsCanonicalArrayIndex(key, node.length, number) <==> IsIndexKey(key, node.length)
      {
        CanonicalIndices(key, node.length, number);
      }
      ok := node.symbols == {} && forall key :: key in node.own ==> IsCanonicalArrayIndex(key, node.length, number);
    }

    method CheckObject(r: Ref) returns (ok: bool)
      requires Valid() && r in heap && heap[r].Object?
      modifies this
      ensures ancestors == old(ancestors)
      ensures ok <==> IsShapely(heap[r]) && AreKidsJson(heap, heap[r], ancestors)
      decreases |heap.Keys - ancestors|, 2
    {
      hide IsJson;
      var node := heap[r];
      if !node.plain {
        return false;
      }
      for i := 0 to |node.properties|
        invariant ancestors == old(ancestors)
        invariant forall j :: 0 <= j < i ==>
          node.properties[j].key.Name? && node.properties[j].enumerable && IsJson(heap, Kids(node)[j], ancestors)
      {
        var property := node.properties[i];
        if property.key.Symbol? || !property.enumerable {
          return false;
        }
        if property.descriptor.Accessor? {
          UndefinedIsNotJson(heap, ancestors);
          assert Kids(node)[i] == Undefined;
          return false;
        }
        assert Kids(node)[i] == property.descriptor.value;
        var one := IsJsonValueInternal(property.descriptor.value);
        if !one {
          return false;
        }
      }
      return true;
    }
  }

  lemma UndefinedIsNotJson(h: Heap, ancestors: set<Ref>)
    ensures !IsJson(h, Undefined, ancestors)
  {
  }

  method IsJsonValue(heap: Heap, number: string -> Numeral, value: Value) returns (ok: bool)
    requires WellFormed(heap) && ReadsIntegers(number) && PointsInto(value, heap)
    ensures ok <==> IsJson(heap, value, {})
  {
    var walk := new Walk(heap, number);
    ok := walk.IsJsonValueInternal(value);
  }

  // ---------------------------------------------------------------------------
  // JSON values are finite trees
  // ---------------------------------------------------------------------------

  datatype Tree =
    | Leaf(value: Value)
    | Items(items: seq<Tree>)
    | Fields(names: seq<string>, items: seq<Tree>)

  /** The names of a shapely object; an array has none. */
  function Names(node: Node): seq<string>
    requires node.Object? && IsShapely(node)
  {
    seq(|node.properties|, i requires 0 <= i < |node.properties| => node.properties[i].key.name)
  }

  /** The tree writes out the value in full, losing nothing. */
  predicate WritesOut(h: Heap, v: Value, t: Tree)
    decreases t
  {
    if t.Leaf? then IsLeaf(v) && t.value == v
    else
      && v.Pointer? && v.ref in h && IsShapely(h[v.ref])
      && h[v.ref].Array? == t.Items?
      && (t.Fields? ==> t.names == Names(h[v.ref]))
      && |t.items| == |Kids(h[v.ref])|
      && forall i :: 0 <= i < |t.items| ==> WritesOut(h, Kids(h[v.ref])[i], t.items[i])
  }

  lemma {:induction false} OneTree(h: Heap, v: Value, t: Tree, u: Tree)
    requires WritesOut(h, v, t) && WritesOut(h, v, u)
    ensures t == u
    decreases t
  {
    if !t.Leaf? {
      forall i | 0 <= i < |t.items|
        ensures t.items[i] == u.items[i]
      {
        OneTree(h, Kids(h[v.ref])[i], t.items[i], u.items[i]);
      }
      assert t.items == u.items;
    }
  }

  /** The tree that the walk below a set of ancestors would print. */
  ghost function WriteOut(h: Heap, v: Value, ancestors: set<Ref>): (t: Tree)
    requires WellFormed(h) && PointsInto(v, h) && IsJson(h, v, ancestors)
    ensures WritesOut(h, v, t)
    decreases |h.Keys - ancestors|
  {
    if !v.Pointer? then Leaf(v)
    else
      JsonUnfolds(h, v.ref, ancestors);
      OneMoreAncestor(h, ancestors, v.ref);
      var node := h[v.ref];
      var items := seq(
          |Kids(node)|, i requires 0 <= i < |Kids(node)| => WriteOut(h, Kids(node)[i], ancestors + {v.ref}));
      if node.Array? then Items(items) else Fields(Names(node), items)
  }

  ghost predicate HasBiggerTree(h: Heap, a: Ref, t: Tree) {
    exists big: Tree :: WritesOut(h, Pointer(a), big) && t < big
  }

  /** Ancestors that have bigger trees cannot be met again. */
  lemma {:induction false} TreesAreAcyclic(h: Heap, v: Value, t: Tree, ancestors: set<Ref>)
    requires WritesOut(h, v, t)
    requires forall a :: a in ancestors ==> HasBiggerTree(h, a, t)
    ensures IsJson(h, v, ancestors)
    decreases t
  {
    hide IsShapely, IsJson, Kids;
    if t.Leaf? {
      LeafIsJson(h, v, ancestors);
    } else {
      if v.ref in ancestors {
        var big: Tree :| WritesOut(h, Pointer(v.ref), big) && t < big;
        OneTree(h, v, t, big);
      }
      forall i | 0 <= i < |Kids(h[v.ref])|
        ensures IsJson(h, Kids(h[v.ref])[i], ancestors + {v.ref})
      {
        var kid := t.items[i];
        assert kid < t;
        forall a | a in ancestors + {v.ref}
          ensures HasBiggerTree(h, a, kid)
        {
          if a in ancestors {
            var big: Tree :| WritesOut(h, Pointer(a), big) && t < big;
            assert kid < big;
          } else {
            assert WritesOut(h, Pointer(a), t);
          }
        }
        TreesAreAcyclic(h, Kids(h[v.ref])[i], kid, ancestors + {v.ref});
      }
      JsonUnfolds(h, v.ref, ancestors);
    }
  }

  lemma LeafIsJson(h: Heap, v: Value, ancestors: set<Ref>)
    requires IsLeaf(v)
    ensures IsJson(h, v, ancestors)
  {
  }

  /** The check accepts exactly the values that a finite tree writes out in full, and that tree is unique. */
  lemma JsonIsATree(h: Heap, v: Value)
    requires WellFormed(h) && PointsInto(v, h)
    ensures IsJson(h, v, {}) <==> exists t :: WritesOut(h, v, t)
    ensures forall t, u :: WritesOut(h, v, t) && WritesOut(h, v, u) ==> t == u
  {
    hide IsJson, WritesOut;
    if IsJson(h, v, {}) {
      assert WritesOut(h, v, WriteOut(h, v, {}));
    }
    if t :| WritesOut(h, v, t) {
      TreesAreAcyclic(h, v, t, {});
    }
    forall t, u | WritesOut(h, v, t) && WritesOut(h, v, u)
      ensures t == u
    {
      OneTree(h, v, t, u);
    }
  }

  // ---------------------------------------------------------------------------
  // What printing loses
  // ---------------------------------------------------------------------------

  /** What is read back after the value has been printed: negative zero is printed as `0`, and `toJSON` is called. */
  function PrintOf(h: Heap, v: Value, t: Tree): Print
    requires WritesOut(h, v, t)
    decreases t
  {
    if t.Leaf? then Printed(Leaf(if v.NegativeZero? then Finite(0.0) else v))
    else if h[v.ref].toJson.Replaces? then h[v.ref].toJson.outcome
    else
      var kids := Kids(h[v.ref]);
      var prints := seq(|kids|, i requires 0 <= i < |kids| => PrintOf(h, kids[i], t.items[i]));
      if Thrown in prints then Thrown
      else if t.Items? then Printed(Items(WithNulls(prints)))
      else Printed(Fields(KeptNames(t.names, prints), KeptTrees(prints)))
  }

  /** An element that prints nothing becomes `null`. */
  function WithNulls(prints: seq<Print>): seq<Tree>
    requires Thrown !in prints
  {
    seq(|prints|, i requires 0 <= i < |prints| =>
      assert prints[i] in prints; if prints[i].Nothing? then Leaf(Null) else prints[i].tree)
  }

  /** A field that prints nothing is left out. */
  function KeptTrees(prints: seq<Print>): (r: seq<Tree>)
    requires Thrown !in prints
    ensures |r| <= |prints|
    ensures |r| == |prints| ==> forall i :: 0 <= i < |r| ==> prints[i] == Printed(r[i])
  {
    if prints == [] then []
    else
      var front, last := prints[..|prints| - 1], prints[|prints| - 1];
      assert last in prints;
      KeptTrees(front) + if last.Nothing? then [] else [last.tree]
  }

  function KeptNames(names: seq<string>, prints: seq<Print>): (r: seq<string>)
    requires |names| == |prints|
    ensures |r| <= |names|
    ensures Nothing !in prints ==> r == names
  {
    if prints == [] then []
    else
      var front, last := prints[..|prints| - 1], prints[|prints| - 1];
      assert last in prints;
      KeptNames(names[..|names| - 1], front) + if last.Nothing? then [] else [names[|names| - 1]]
  }

  /** How many of the first `n` print something. */
  function CountPrinted(prints: seq<Print>, n: nat): nat
    requires n <= |prints|
  {
    if n == 0 then 0 else CountPrinted(prints, n - 1) + if prints[n - 1] == Nothing then 0 else 1
  }

  /** The fields kept are those that print something, in order and each under its own name. */
  lemma {:induction false} FieldsKeepTheirNames(names: seq<string>, prints: seq<Print>, i: nat)
    requires |names| == |prints| && Thrown !in prints && i < |prints|
    ensures |KeptNames(names, prints)| == |KeptTrees(prints)| == CountPrinted(prints, |prints|)
    ensures prints[i] != Nothing ==>
      && CountPrinted(prints, i) < CountPrinted(prints, |prints|)
      && KeptNames(names, prints)[CountPrinted(prints, i)] == names[i]
      && Printed(KeptTrees(prints)[CountPrinted(prints, i)]) == prints[i]
    decreases |prints|
  {
    var n := |prints| - 1;
    assert prints[n] in prints && prints[i] in prints;
    SameCount(prints, n, n);
    if n > 0 {
      FieldsKeepTheirNames(names[..n], prints[..n], if i < n then i else 0);
    }
    if i < n {
      SameCount(prints, n, i);
    }
  }

  lemma {:induction false} SameCount(prints: seq<Print>, n: nat, k: nat)
    requires k <= n <= |prints|
    ensures CountPrinted(prints[..n], k) == CountPrinted(prints, k)
  {
    if k > 0 {
      SameCount(prints, n, k - 1);
    }
  }

  /** Below a node without a `toJSON` nothing is lost exactly when nothing is lost below its kids. */
  lemma PrintsAsItsKidsDo(h: Heap, v: Value, t: Tree)
    requires WritesOut(h, v, t) && !t.Leaf? && h[v.ref].toJson.NoMethod?
    ensures PrintOf(h, v, t) == Printed(t) <==>
        forall i :: 0 <= i < |t.items| ==> PrintOf(h, Kids(h[v.ref])[i], t.items[i]) == Printed(t.items[i])
  {
    hide Kids, IsShapely, Names;
    var kids := Kids(h[v.ref]);
    var prints := seq(|kids|, i requires 0 <= i < |kids| => PrintOf(h, kids[i], t.items[i]));
    if Thrown !in prints {
      if t.Items? {
        forall i | 0 <= i < |kids| && prints[i] == Nothing
          ensures t.items[i] != Leaf(Null)
        {
          assert WritesOut(h, kids[i], t.items[i]);
        }
        assert |WithNulls(prints)| == |t.items|;
      }
      if forall i :: 0 <= i < |t.items| ==> prints[i] == Printed(t.items[i]) {
        AllKept(prints, t.items);
      }
    }
  }

  lemma {:induction false} AllKept(prints: seq<Print>, items: seq<Tree>)
    requires |prints| == |items| && forall i :: 0 <= i < |items| ==> prints[i] == Printed(items[i])
    ensures Thrown !in prints && Nothing !in prints
    ensures KeptTrees(prints) == items && WithNulls(prints) == items
  {
    if prints != [] {
      AllKept(prints[..|prints| - 1], items[..|items| - 1]);
      assert items == items[..|items| - 1] + [items[|items| - 1]];
    }
  }

  /** A node is printed as something else by its `toJSON`, or without one as a negative zero among its kids. */
  ghost predicate LosesHere(h: Heap, r: Ref)
    requires r in h
  {
    if h[r].toJson.Replaces? then exists t :: WritesOut(h, Pointer(r), t) && h[r].toJson.outcome != Printed(t)
    else NegativeZero in Kids(h[r])
  }

  /** No node before the end of the path has a `toJSON` that keeps the rest from being printed. */
  predicate IsPrinted(h: Heap, p: seq<Ref>)
    requires IsPath(h, p)
  {
    |p| > 1 ==> h[p[0]].toJson.NoMethod? && IsPrinted(h, p[1..])
  }

  ghost predicate EndsInLoss(h: Heap, p: seq<Ref>)
    requires IsPath(h, p)
  {
    PathEndsInHeap(h, p);
    IsPrinted(h, p) && LosesHere(h, p[|p| - 1])
  }

  /** A loss is a negative zero, or the end of a path of printed nodes. */
  ghost predicate ReachesLoss(h: Heap, v: Value) {
    v.NegativeZero? || exists p: seq<Ref> :: v.Pointer? && IsPath(h, p) && p[0] == v.ref && EndsInLoss(h, p)
  }

  lemma {:induction false} ChangeHasLoss(h: Heap, v: Value, t: Tree)
    requires WritesOut(h, v, t) && PrintOf(h, v, t) != Printed(t)
    ensures ReachesLoss(h, v)
    decreases t
  {
    hide Kids, IsShapely;
    if !t.Leaf? {
      assert IsPath(h, [v.ref]) && IsPrinted(h, [v.ref]) && [v.ref][|[v.ref]| - 1] == v.ref;
      if h[v.ref].toJson.Replaces? {
        assert EndsInLoss(h, [v.ref]);
      } else {
        PrintsAsItsKidsDo(h, v, t);
        var i :| 0 <= i < |t.items| && PrintOf(h, Kids(h[v.ref])[i], t.items[i]) != Printed(t.items[i]);
        var kid := Kids(h[v.ref])[i];
        ChangeHasLoss(h, kid, t.items[i]);
        if kid.NegativeZero? {
          assert EndsInLoss(h, [v.ref]);
        } else {
          var p: seq<Ref> :| IsPath(h, p) && p[0] == kid.ref && EndsInLoss(h, p);
          var longer := [v.ref] + p;
          assert longer[1..] == p && longer[|longer| - 1] == p[|p| - 1];
          assert IsPath(h, longer) && EndsInLoss(h, longer);
        }
      }
    }
  }

  lemma {:induction false} LossChanges(h: Heap, v: Value, t: Tree, p: seq<Ref>)
    requires WritesOut(h, v, t) && v.Pointer? && IsPath(h, p) && p[0] == v.ref && EndsInLoss(h, p)
    ensures PrintOf(h, v, t) != Printed(t)
    decreases |p|
  {
    hide Kids, IsShapely;
    var kids := Kids(h[v.ref]);
    if |p| == 1 {
      if h[v.ref].toJson.Replaces? {
        var u :| WritesOut(h, v, u) && h[v.ref].toJson.outcome != Printed(u);
        OneTree(h, v, t, u);
      } else {
        var i :| 0 <= i < |kids| && kids[i] == NegativeZero;
        assert WritesOut(h, kids[i], t.items[i]);
        PrintsAsItsKidsDo(h, v, t);
      }
    } else {
      var i :| 0 <= i < |kids| && kids[i] == Pointer(p[1]);
      assert p[1..][|p[1..]| - 1] == p[|p| - 1];
      LossChanges(h, kids[i], t.items[i], p[1..]);
      PrintsAsItsKidsDo(h, v, t);
    }
  }

  /**
   * An accepted value comes back from JSON text with the same tree exactly when no
   * printed node has a `toJSON` that returns something else, or a negative zero.
   */
  lemma PrintsWithoutLossIff(h: Heap, v: Value, t: Tree)
    requires WritesOut(h, v, t)
    ensures PrintOf(h, v, t) == Printed(t) <==> !ReachesLoss(h, v)
  {
    hide Kids, IsShapely, EndsInLoss;
    if PrintOf(h, v, t) != Printed(t) {
      ChangeHasLoss(h, v, t);
    }
    if ReachesLoss(h, v) {
      if v.Pointer? {
        var p: seq<Ref> :| IsPath(h, p) && p[0] == v.ref && EndsInLoss(h, p);
        LossChanges(h, v, t, p);
      }
    }
  }

  ghost predicate ReachesNegativeZero(h: Heap, v: Value) {
    v.NegativeZero? || exists p: seq<Ref> :: v.Pointer? && IsPath(h, p) && p[0] == v.ref && EndsAtNegativeZero(h, p)
  }

  predicate EndsAtNegativeZero(h: Heap, p: seq<Ref>)
    requires IsPath(h, p)
  {
    PathEndsInHeap(h, p);
    NegativeZero in Kids(h[p[|p| - 1]])
  }

  lemma {:induction false} NoMethodOnTheWay(h: Heap, p: seq<Ref>)
    requires IsPath(h, p) && forall r :: r in h ==> h[r].toJson.NoMethod?
    ensures EndsInLoss(h, p) <==> EndsAtNegativeZero(h, p)
    decreases |p|
  {
    if |p| > 1 {
      assert p[1..][|p[1..]| - 1] == p[|p| - 1];
      NoMethodOnTheWay(h, p[1..]);
    }
  }

  /** Where nothing inherits a `toJSON`, negative zeros are all that is lost. */
  lemma OnlyNegativeZeroIsLost(h: Heap, v: Value, t: Tree)
    requires WritesOut(h, v, t) && forall r :: r in h ==> h[r].toJson.NoMethod?
    ensures PrintOf(h, v, t) == Printed(t) <==> !ReachesNegativeZero(h, v)
  {
    hide WritesOut, PrintOf, EndsInLoss, EndsAtNegativeZero;
    PrintsWithoutLossIff(h, v, t);
    forall p: seq<Ref> | IsPath(h, p)
      ensures EndsInLoss(h, p) <==> EndsAtNegativeZero(h, p)
    {
      NoMethodOnTheWay(h, p);
    }
  }

  /** Negative zero itself is accepted and lost. */
  lemma NegativeZeroIsLost(h: Heap)
    requires WellFormed(h)
    ensures IsJson(h, NegativeZero, {}) && WritesOut(h, NegativeZero, Leaf(NegativeZero))
    ensures PrintOf(h, NegativeZero, Leaf(NegativeZero)) == Printed(Leaf(Finite(0.0)))
  {
  }

  /** An empty array that inherits a `toJSON` is accepted, and what the method returns is read back. */
  lemma InheritedMethodIsPrinted(outcome: Print)
    ensures var h: Heap := map[0 := Array(0, map[], {}, Replaces(outcome))];
      && WellFormed(h) && IsJson(h, Pointer(0), {}) && WritesOut(h, Pointer(0), Items([]))
      && PrintOf(h, Pointer(0), Items([])) == outcome
      && (outcome != Printed(Items([])) ==> ReachesLoss(h, Pointer(0)))
  {
    var h: Heap := map[0 := Array(0, map[], {}, Replaces(outcome))];
    assert WritesOut(h, Pointer(0), Items([]));
    hide IsJson, ReachesLoss;
    JsonIsATree(h, Pointer(0));
    PrintsWithoutLossIff(h, Pointer(0), Items([]));
  }
}
