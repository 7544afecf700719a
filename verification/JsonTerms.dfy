/** What the lossless-JSON check accepts, written out over the nodes of the heap. */
module JsonTerms {
  import opened FiniteSets
  import opened Text
  import opened JsonValue

  /** `null`, a boolean, a string, a finite number, negative zero, or an object to look into. */
  predicate IsPresentable(v: Value) {
    v != NonFinite && v != Undefined
  }

  /** An array without holes, own symbols and other keys; a plain object of enumerable, string-keyed data properties. */
  predicate IsProper(node: Node) {
    match node
    case Array(length, own, symbols, _) =>
      && symbols == {}
      && (forall i :: 0 <= i < length ==> Decimal(i) in own && IsPresentable(own[Decimal(i)]))
      && (forall key :: key in own ==> exists i :: 0 <= i < length && Decimal(i) == key)
    case Object(plain, properties, _) =>
      && plain
      && forall i :: 0 <= i < |properties| ==>
          && properties[i].key.Name? && properties[i].enumerable
          && properties[i].descriptor != Accessor && IsPresentable(properties[i].descriptor.value)
  }

  /** An element of the array or the value of a data property. */
  predicate LeadsTo(node: Node, q: Ref) {
    match node
    case Array(length, own, _, _) => exists i :: 0 <= i < length && Decimal(i) in own && own[Decimal(i)] == Pointer(q)
    case Object(_, properties, _) =>
      exists i :: 0 <= i < |properties| && properties[i].descriptor == Data(Pointer(q))
  }

  /** A route through the heap, from node to node. */
  predicate IsRoute(h: Heap, p: seq<Ref>) {
    && p != [] && (forall k :: 0 <= k < |p| ==> p[k] in h)
    && forall k :: 0 <= k < |p| - 1 ==> LeadsTo(h[p[k]], p[k + 1])
  }

  lemma KidsLead(node: Node, q: Ref)
    ensures LeadsTo(node, q) <==> Pointer(q) in Kids(node)
  {
    var kids := Kids(node);
    match node
    case Array(length, own, _, _) =>
      if Pointer(q) in kids {
        var i :| 0 <= i < |kids| && kids[i] == Pointer(q);
        assert Decimal(i) in own;
      }
      if LeadsTo(node, q) {
        var i :| 0 <= i < length && Decimal(i) in own && own[Decimal(i)] == Pointer(q);
        assert kids[i] == Pointer(q);
      }
    case Object(_, properties, _) =>
      if Pointer(q) in kids {
        var i :| 0 <= i < |kids| && kids[i] == Pointer(q);
        assert properties[i].descriptor == Data(Pointer(q));
      }
      if LeadsTo(node, q) {
        var i :| 0 <= i < |properties| && properties[i].descriptor == Data(Pointer(q));
        assert kids[i] == Pointer(q);
      }
  }

  lemma SoundIsProper(node: Node)
    ensures IsSound(node) <==> IsProper(node)
  {
    var kids := Kids(node);
    match node
    case Array(length, own, symbols, _) =>
      forall i | 0 <= i < length
        ensures (kids[i].Pointer? || IsLeaf(kids[i])) <==> Decimal(i) in own && IsPresentable(own[Decimal(i)])
      {
      }
    case Object(plain, properties, _) =>
      forall i | 0 <= i < |properties|
        ensures (kids[i].Pointer? || IsLeaf(kids[i])) <==>
            properties[i].descriptor != Accessor && IsPresentable(properties[i].descriptor.value)
      {
      }
  }

  lemma {:induction false} RouteIsPath(h: Heap, p: seq<Ref>)
    requires WellFormed(h)
    ensures IsPath(h, p) <==> IsRoute(h, p)
    decreases |p|
  {
    hide Kids, LeadsTo, WellFormed;
    if |p| > 1 {
      RouteIsPath(h, p[1..]);
      if p[0] in h {
        KidsLead(h[p[0]], p[1]);
      }
      if IsRoute(h, p[1..]) && p[0] in h && LeadsTo(h[p[0]], p[1]) {
        forall k | 0 <= k < |p|
          ensures p[k] in h && (k < |p| - 1 ==> LeadsTo(h[p[k]], p[k + 1]))
        {
          assert k > 0 ==> p[k] == p[1..][k - 1];
        }
      }
      if IsRoute(h, p) {
        forall k | 0 <= k < |p[1..]|
          ensures p[1..][k] in h && (k < |p[1..]| - 1 ==> LeadsTo(h[p[1..][k]], p[1..][k + 1]))
        {
          assert p[1..][k] == p[k + 1];
        }
      }
    }
  }

  predicate IsRepeated(p: seq<Ref>) {
    exists j, k :: 0 <= j < k < |p| && p[j] == p[k]
  }

  /**
   * A value is accepted exactly when it is presentable and every route that starts at
   * it meets no node twice and ends in a proper node. Sharing is no obstacle.
   */
  lemma AcceptedIff(h: Heap, v: Value)
    requires WellFormed(h) && PointsInto(v, h)
    ensures IsJson(h, v, {}) <==>
      && IsPresentable(v)
      && (v.Pointer? ==> forall p: seq<Ref> :: IsRoute(h, p) && p[0] == v.ref ==>
            !IsRepeated(p) && IsProper(h[p[|p| - 1]]))
  {
    if v.Pointer? {
      hide IsSound, IsProper, IsPath, IsRoute, WellFormed;
      forall p: seq<Ref>
        ensures IsPath(h, p) <==> IsRoute(h, p)
        ensures IsPath(h, p) ==> p != [] && p[|p| - 1] in h
        ensures IsPath(h, p) ==> (IsGoodPath(h, p, {}) <==> !IsRepeated(p) && IsProper(h[p[|p| - 1]]))
      {
        RouteIsPath(h, p);
        if IsPath(h, p) {
          PathEndsInHeap(h, p);
          SoundIsProper(h[p[|p| - 1]]);
        }
      }
    }
  }
}
