/**
 * Redaction of event data: a memoised clone of a possibly cyclic graph of
 * plain objects and arrays, in which the fields under sensitive keys are
 * replaced. The JavaScript heap is a map from references to containers; the
 * clones are filled in place while the traversal is still running.
 */
module Redaction {

  import opened FiniteSets

  type Ref = nat

  datatype Value = Primitive(text: string) | Pointer(ref: Ref)

  /** `ForeignKind` is every object that is neither an array nor a plain object. */
  datatype Kind = ArrayKind | ObjectKind | ForeignKind

  /** An array item, an own property, the prototype, or what an assignment without effect leaves. */
  datatype Slot =
    | Item(value: Value)
    | Own(key: string, value: Value)
    | Prototype(value: Value)
    | Unset

  datatype Container = Container(kind: Kind, slots: seq<Slot>)

  type Heap = map<Ref, Container>

  /** Which keys hide their field, and what is shown instead. */
  datatype Policy = Policy(sensitive: string -> bool, replacement: string)

  predicate IsForeign(c: Container) {
    c.kind.ForeignKind?
  }

  predicate PointsInto(v: Value, refs: set<Ref>) {
    v.Pointer? ==> v.ref in refs
  }

  predicate ContainerPointsInto(c: Container, refs: set<Ref>) {
    forall i :: 0 <= i < |c.slots| ==> c.slots[i].Unset? || PointsInto(c.slots[i].value, refs)
  }

  /** Arrays have items, plain objects have own properties; foreign objects have what they like. */
  predicate IsOrdinary(c: Container) {
    IsForeign(c) || forall i :: 0 <= i < |c.slots| ==> if c.kind.ArrayKind? then c.slots[i].Item? else c.slots[i].Own?
  }

  /** No pointer leaves the heap. */
  predicate ClosedHeap(h: Heap) {
    forall r :: r in h ==> ContainerPointsInto(h[r], h.Keys) && IsOrdinary(h[r])
  }

  predicate IsHidden(s: Slot, policy: Policy) {
    s.Own? && policy.sensitive(s.key)
  }

  predicate Holds(s: Slot, q: Ref) {
    !s.Unset? && s.value == Pointer(q)
  }

  predicate PointsTo(c: Container, q: Ref) {
    exists i :: 0 <= i < |c.slots| && Holds(c.slots[i], q)
  }

  /**
   * The traversal follows array items and the fields under keys that are not
   * sensitive, and stops at foreign objects.
   */
  predicate Follows(c: Container, q: Ref, policy: Policy) {
    !IsForeign(c) && exists i :: 0 <= i < |c.slots| && !IsHidden(c.slots[i], policy) && Holds(c.slots[i], q)
  }

  /** A set of containers that the traversal cannot leave. */
  ghost predicate FollowClosed(h: Heap, s: set<Ref>, policy: Policy) {
    forall r, q :: r in s && r in h && Follows(h[r], q, policy) ==> q in s
  }

  // ---------------------------------------------------------------------------
  // Images
  // ---------------------------------------------------------------------------

  predicate IsCloneable(input: Heap, v: Value) {
    v.Pointer? && v.ref in input && !IsForeign(input[v.ref])
  }

  /** The clone of the container a value points to, and every other value, foreign objects included, as it is. */
  function ImageOf(v: Value, seen: map<Ref, Ref>): Value {
    if v.Pointer? && v.ref in seen then Pointer(seen[v.ref]) else v
  }

  predicate HasImage(input: Heap, v: Value, seen: map<Ref, Ref>) {
    IsCloneable(input, v) ==> v.ref in seen
  }

  predicate IsImage(input: Heap, v: Value, out: Value, seen: map<Ref, Ref>) {
    HasImage(input, v, seen) && out == ImageOf(v, seen)
  }

  const PROTO_KEY := "__proto__"

  /** What storing `v` in place of slot `s` does: assigning to `__proto__` sets the prototype, or nothing at all. */
  function Stored(s: Slot, v: Value): Slot {
    match s
    case Item(_) => Item(v)
    case Own(key, _) =>
      if key != PROTO_KEY then Own(key, v)
      else if v.Pointer? then Prototype(v)
      else Unset
    case Prototype(_) => Unset
    case Unset => Unset
  }

  predicate IsSlotImage(input: Heap, s: Slot, out: Slot, seen: map<Ref, Ref>, policy: Policy) {
    if IsHidden(s, policy) then out == Stored(s, Primitive(policy.replacement))
    else !s.Unset? && HasImage(input, s.value, seen) && out == Stored(s, ImageOf(s.value, seen))
  }

  /** `clone` holds the images of the first `k` slots of `c`, and nothing else. */
  predicate IsPartialClone(input: Heap, c: Container, clone: Container, k: nat, seen: map<Ref, Ref>, policy: Policy) {
    && clone.kind == c.kind && k <= |c.slots| && |clone.slots| == k
    && forall i :: 0 <= i < k ==> IsSlotImage(input, c.slots[i], clone.slots[i], seen, policy)
  }

  predicate IsClone(input: Heap, c: Container, clone: Container, seen: map<Ref, Ref>, policy: Policy) {
    IsPartialClone(input, c, clone, |c.slots|, seen, policy)
  }

  /** The heap during a traversal, the memo table, and the first unused reference. */
  datatype State = State(heap: Heap, seen: map<Ref, Ref>, next: Ref)

  predicate OnlyCloneable(input: Heap, seen: map<Ref, Ref>) {
    forall r :: r in seen ==> r in input && !IsForeign(input[r])
  }

  /** The input graph is untouched, and every visited container has a clone of its own outside it. */
  ghost predicate Sound(input: Heap, s: State) {
    && ClosedHeap(input)
    && (forall r :: r in input ==> r in s.heap && s.heap[r] == input[r])
    && (forall r :: r in s.heap ==> r < s.next)
    && OnlyCloneable(input, s.seen)
    && (forall r :: r in s.seen ==> s.seen[r] in s.heap && s.seen[r] !in input)
    && (forall r, q :: r in s.seen && q in s.seen && s.seen[r] == s.seen[q] ==> r == q)
  }

  /** `r` was first visited between `s` and `t`, and its clone is new and complete. */
  predicate ClonedSince(input: Heap, s: State, t: State, policy: Policy, r: Ref)
    requires r in input && r in t.seen && t.seen[r] in t.heap
  {
    t.seen[r] !in s.heap && IsClone(input, input[r], t.heap[t.seen[r]], t.seen, policy)
  }

  /** Nothing recorded in `s` is changed in `t`. */
  predicate Keeps(s: State, t: State) {
    && (forall r :: r in s.seen ==> r in t.seen && t.seen[r] == s.seen[r])
    && (forall r :: r in s.heap ==> r in t.heap && t.heap[r] == s.heap[r])
  }

  /** Whatever was first visited between `s` and `t` is in every set closed under the traversal that holds `v`. */
  ghost predicate OnlyVisits(input: Heap, s: State, t: State, policy: Policy, v: Value) {
    forall closed: set<Ref> :: FollowClosed(input, closed, policy) && PointsInto(v, closed) ==>
      t.seen.Keys - s.seen.Keys <= closed
  }

  /** What the redaction of `v` does to the state. */
  ghost predicate Redacts(input: Heap, s: State, t: State, policy: Policy, v: Value) {
    && Sound(input, t)
    && Keeps(s, t)
    && OnlyVisits(input, s, t, policy, v)
    && forall r :: r in t.seen && r !in s.seen ==> ClonedSince(input, s, t, policy, r)
  }

  /** The clone of `r` has its first `k` slots, and everything else visited since `s` is complete. */
  ghost predicate Filling(input: Heap, s: State, t: State, policy: Policy, r: Ref, k: nat) {
    && Sound(input, t)
    && Keeps(s, t)
    && OnlyVisits(input, s, t, policy, Pointer(r))
    && r in t.seen && r !in s.seen && t.seen[r] !in s.heap
    && IsPartialClone(input, input[r], t.heap[t.seen[r]], k, t.seen, policy)
    && forall q :: q in t.seen && q !in s.seen && q != r ==> ClonedSince(input, s, t, policy, q)
  }

  lemma MoreSeenKeepsImages(input: Heap, c: Container, clone: Container, k: nat, seen: map<Ref, Ref>,
                            more: map<Ref, Ref>, policy: Policy)
    requires IsPartialClone(input, c, clone, k, seen, policy)
    requires forall r :: r in seen ==> r in more && more[r] == seen[r]
    requires OnlyCloneable(input, more)
    ensures IsPartialClone(input, c, clone, k, more, policy)
  {
    hide Stored;
    forall i | 0 <= i < k
      ensures IsSlotImage(input, c.slots[i], clone.slots[i], more, policy)
    {
      assert IsSlotImage(input, c.slots[i], clone.slots[i], seen, policy);
    }
  }

  /** `clone` with one more slot, in place of slot `k` of `c`. */
  function Pushed(c: Container, clone: Container, k: nat, v: Value): Container
    requires k < |c.slots|
  {
    clone.(slots := clone.slots + [Stored(c.slots[k], v)])
  }

  lemma PushExtends(input: Heap, c: Container, clone: Container, k: nat, v: Value, seen: map<Ref, Ref>, policy: Policy)
    requires k < |c.slots| && !c.slots[k].Unset? && IsPartialClone(input, c, clone, k, seen, policy)
    requires if IsHidden(c.slots[k], policy) then v == Primitive(policy.replacement)
        else IsImage(input, c.slots[k].value, v, seen)
    ensures IsPartialClone(input, c, Pushed(c, clone, k, v), k + 1, seen, policy)
  {
    hide Stored;
  }

  lemma FollowedSlot(input: Heap, r: Ref, k: nat, policy: Policy, closed: set<Ref>)
    requires r in input && !IsForeign(input[r]) && k < |input[r].slots|
    requires !input[r].slots[k].Unset? && !IsHidden(input[r].slots[k], policy)
    requires FollowClosed(input, closed, policy) && r in closed
    ensures PointsInto(input[r].slots[k].value, closed)
  {
    var v := input[r].slots[k].value;
    if v.Pointer? {
      assert Holds(input[r].slots[k], v.ref);
      assert Follows(input[r], v.ref, policy);
    }
  }

  lemma SlotInHeap(input: Heap, r: Ref, k: nat)
    requires ClosedHeap(input) && r in input && !IsForeign(input[r]) && k < |input[r].slots|
    ensures !input[r].slots[k].Unset? && PointsInto(input[r].slots[k].value, input.Keys)
  {
    assert ContainerPointsInto(input[r], input.Keys);
  }

  /** Redacting the value of slot `k` keeps the clone of `r` at `k` slots. */
  lemma RedactingASlot(input: Heap, s: State, t: State, u: State, policy: Policy, r: Ref, k: nat)
    requires Filling(input, s, t, policy, r, k)
    requires k < |input[r].slots| && !input[r].slots[k].Unset? && !IsHidden(input[r].slots[k], policy)
    requires Redacts(input, t, u, policy, input[r].slots[k].value)
    ensures Filling(input, s, u, policy, r, k)
  {
    hide IsPartialClone, Follows, ClosedHeap;
    MoreSeenKeepsImages(input, input[r], t.heap[t.seen[r]], k, t.seen, u.seen, policy);
    forall q | q in u.seen && q !in s.seen && q != r
      ensures ClonedSince(input, s, u, policy, q)
    {
      if q in t.seen {
        assert ClonedSince(input, s, t, policy, q);
        MoreSeenKeepsImages(input, input[q], t.heap[t.seen[q]], |input[q].slots|, t.seen, u.seen, policy);
      } else {
        assert ClonedSince(input, t, u, policy, q);
      }
    }
    forall closed: set<Ref> | FollowClosed(input, closed, policy) && PointsInto(Pointer(r), closed)
      ensures u.seen.Keys - s.seen.Keys <= closed
    {
      FollowedSlot(input, r, k, policy, closed);
      assert u.seen.Keys - t.seen.Keys <= closed;
      assert t.seen.Keys - s.seen.Keys <= closed;
    }
  }

  /** Storing slot `k` advances the clone of `r` and no other. */
  lemma StoringASlot(input: Heap, s: State, t: State, u: State, policy: Policy, r: Ref, k: nat, v: Value)
    requires Filling(input, s, t, policy, r, k) && k < |input[r].slots| && !input[r].slots[k].Unset?
    requires if IsHidden(input[r].slots[k], policy) then v == Primitive(policy.replacement)
             else IsImage(input, input[r].slots[k].value, v, t.seen)
    requires u == t.(heap := t.heap[t.seen[r] := Pushed(input[r], t.heap[t.seen[r]], k, v)])
    ensures Filling(input, s, u, policy, r, k + 1)
  {
    hide IsPartialClone, FollowClosed, ClosedHeap, IsImage, IsHidden, Pushed;
    PushExtends(input, input[r], t.heap[t.seen[r]], k, v, t.seen, policy);
    forall q | q in u.seen && q !in s.seen && q != r
      ensures ClonedSince(input, s, u, policy, q)
    {
      assert ClonedSince(input, s, t, policy, q);
      assert u.seen[q] != u.seen[r];
    }
  }

  function Empty(c: Container): Container {
    Container(c.kind, [])
  }

  /** Registering an empty clone before filling it. */
  lemma Registering(input: Heap, s: State, t: State, policy: Policy, r: Ref)
    requires Sound(input, s) && r in input && r !in s.seen && !IsForeign(input[r])
    requires t == State(s.heap[s.next := Empty(input[r])], s.seen[r := s.next], s.next + 1)
    ensures Filling(input, s, t, policy, r, 0)
  {
    hide ClosedHeap;
    forall closed: set<Ref> | FollowClosed(input, closed, policy) && PointsInto(Pointer(r), closed)
      ensures t.seen.Keys - s.seen.Keys <= closed
    {
    }
  }

  /** A full clone ends the redaction of its container. */
  lemma Filled(input: Heap, s: State, t: State, policy: Policy, r: Ref)
    requires r in input && Filling(input, s, t, policy, r, |input[r].slots|)
    ensures Redacts(input, s, t, policy, Pointer(r))
  {
    hide IsPartialClone, FollowClosed, ClosedHeap;
  }

  // ---------------------------------------------------------------------------
  // The traversal
  // ---------------------------------------------------------------------------

  class Redactor {
    const policy: Policy
    var heap: Heap
    var seen: map<Ref, Ref>
    var next: Ref

    constructor (heap: Heap, next: Ref, policy: Policy)
      ensures View() == State(heap, map[], next) && this.policy == policy
    {
      this.heap, this.seen, this.next, this.policy := heap, map[], next, policy;
    }

    function View(): State
      reads this
    {
      State(heap, seen, next)
    }

    method RedactValue(ghost input: Heap, value: Value) returns (result: Value)
      requires Sound(input, View()) && PointsInto(value, input.Keys)
      modifies this`heap, this`seen, this`next
      ensures Redacts(input, old(View()), View(), policy, value)
      ensures IsImage(input, value, result, seen)
      decreases |input.Keys - seen.Keys|, 1
    {
      if !value.Pointer? || IsForeign(heap[value.ref]) {
        return value;
      }
      if value.ref in seen {
        return Pointer(seen[value.ref]);
      }
      result := CloneContainer(input, value.ref);
    }

    method Register(ghost input: Heap, r: Ref) returns (c: Container, clone: Ref)
      requires Sound(input, View()) && r in input && r !in seen && !IsForeign(input[r])
      modifies this`heap, this`seen, this`next
      ensures Filling(input, old(View()), View(), policy, r, 0)
      ensures c == input[r] && r in seen && seen[r] == clone
    {
      hide ClosedHeap, Filling;
      c, clone := heap[r], next;
      heap, seen, next := heap[clone := Empty(c)], seen[r := clone], next + 1;
      Registering(input, old(View()), View(), policy, r);
    }

    /** Registers an empty clone first, so that cycles and sharing lead back to it, and then fills it. */
    method CloneContainer(ghost input: Heap, r: Ref) returns (result: Value)
      requires Sound(input, View()) && r in input && r !in seen && !IsForeign(input[r])
      modifies this`heap, this`seen, this`next
      ensures Redacts(input, old(View()), View(), policy, Pointer(r))
      ensures IsImage(input, Pointer(r), result, seen)
      decreases |input.Keys - seen.Keys|, 0
    {
      hide Filling, Redacts, Sound, IsImage;
      ghost var start := View();
      var c, clone := Register(input, r);
      for k := 0 to |c.slots|
        invariant Filling(input, start, View(), policy, r, k)
        invariant r in seen && seen[r] == clone
      {
        FillingFacts(input, start, View(), policy, r, k);
        SubsetIsSmaller(input.Keys - seen.Keys, input.Keys - start.seen.Keys, r);
        FillSlot(input, start, r, c, clone, k);
      }
      Filled(input, start, View(), policy, r);
      result := Pointer(clone);
      RegisteredIsImage(input, r, clone, seen);
    }

    method FillSlot(ghost input: Heap, ghost start: State, ghost r: Ref, c: Container, clone: Ref, k: nat)
      requires Filling(input, start, View(), policy, r, k)
      requires r in input && c == input[r] && k < |c.slots| && r in seen && seen[r] == clone
      modifies this`heap, this`seen, this`next
      ensures Filling(input, start, View(), policy, r, k + 1)
      ensures r in seen && seen[r] == clone
      decreases |input.Keys - seen.Keys|, 2
    {
      hide Filling, Redacts, IsPartialClone, ClonedSince, OnlyVisits, ClosedHeap, IsImage;
      FillingFacts(input, start, View(), policy, r, k);
      SlotInHeap(input, r, k);
      var v := Primitive(policy.replacement);
      if !IsHidden(c.slots[k], policy) {
        ghost var before := View();
        v := RedactValue(input, c.slots[k].value);
        RedactingASlot(input, start, before, View(), policy, r, k);
        KeepsSeen(input, before, View(), policy, c.slots[k].value, r);
        FillingFacts(input, start, View(), policy, r, k);
      }
      ghost var filled := View();
      heap := heap[clone := Pushed(c, heap[clone], k, v)];
      StoringASlot(input, start, filled, View(), policy, r, k, v);
    }
  }

  lemma RegisteredIsImage(input: Heap, r: Ref, clone: Ref, seen: map<Ref, Ref>)
    requires r in seen && seen[r] == clone
    ensures IsImage(input, Pointer(r), Pointer(clone), seen)
  {
  }

  lemma FillingFacts(input: Heap, s: State, t: State, policy: Policy, r: Ref, k: nat)
    requires r in input && Filling(input, s, t, policy, r, k)
    ensures Sound(input, t) && r in t.seen && r !in s.seen && s.seen.Keys <= t.seen.Keys
    ensures t.seen[r] in t.heap && !IsForeign(input[r])
  {
    hide ClosedHeap, OnlyVisits, ClonedSince;
  }

  lemma KeepsSeen(input: Heap, s: State, t: State, policy: Policy, v: Value, r: Ref)
    requires Redacts(input, s, t, policy, v) && r in s.seen
    ensures r in t.seen && t.seen[r] == s.seen[r]
  {
  }

  /** One event: a new memo table over the heap that holds the event's data. */
  method Process(heap: Heap, next: Ref, policy: Policy, data: Value)
    returns (result: Value, after: Heap, ghost seen: map<Ref, Ref>)
    requires ClosedHeap(heap) && PointsInto(data, heap.Keys)
    requires forall r :: r in heap ==> r < next
    ensures IsRedaction(heap, next, policy, data, result, after, seen)
    ensures forall r :: r in heap ==> r in after && after[r] == heap[r]
  {
    var redactor := new Redactor(heap, next, policy);
    result := redactor.RedactValue(heap, data);
    after, seen := redactor.heap, redactor.seen;
    assert redactor.View() == State(after, seen, redactor.next);
  }

  // ---------------------------------------------------------------------------
  // What a redaction is
  // ---------------------------------------------------------------------------

  ghost predicate IsRedaction(input: Heap, next: Ref, policy: Policy, data: Value, result: Value, after: Heap,
                              seen: map<Ref, Ref>) {
    && PointsInto(data, input.Keys)
    && IsImage(input, data, result, seen)
    && exists end: Ref :: Redacts(input, State(input, map[], next), State(after, seen, end), policy, data)
  }

  predicate Trail(h: Heap, p: seq<Ref>, policy: Policy) {
    |p| <= 1 || (Trail(h, p[..|p| - 1], policy) && p[|p| - 2] in h && Follows(h[p[|p| - 2]], p[|p| - 1], policy))
  }

  /** `r` can be reached from `v` through items and through fields that are not hidden. */
  ghost predicate Visible(h: Heap, v: Value, r: Ref, policy: Policy) {
    exists p: seq<Ref> :: p != [] && v == Pointer(p[0]) && Trail(h, p, policy) && p[|p| - 1] == r
  }

  lemma VisibleStep(h: Heap, v: Value, r: Ref, q: Ref, policy: Policy)
    requires Visible(h, v, r, policy) && r in h && Follows(h[r], q, policy)
    ensures Visible(h, v, q, policy)
  {
    var p: seq<Ref> :| p != [] && v == Pointer(p[0]) && Trail(h, p, policy) && p[|p| - 1] == r;
    var longer := p + [q];
    assert longer[..|longer| - 1] == p && longer[0] == p[0] && longer[|longer| - 1] == q;
  }

  lemma VisibleStart(h: Heap, r: Ref, policy: Policy)
    ensures Visible(h, Pointer(r), r, policy)
  {
    var alone := [r];
    assert Trail(h, alone, policy) && alone[|alone| - 1] == r;
  }

  lemma {:induction false} TrailStaysInside(h: Heap, p: seq<Ref>, policy: Policy, closed: set<Ref>)
    requires p != [] && Trail(h, p, policy)
    requires FollowClosed(h, closed, policy) && p[0] in closed
    ensures p[|p| - 1] in closed
  {
    if |p| > 1 {
      TrailStaysInside(h, p[..|p| - 1], policy, closed);
    }
  }

  lemma VisibleIsClosed(input: Heap, policy: Policy, data: Value) returns (closed: set<Ref>)
    requires ClosedHeap(input) && PointsInto(data, input.Keys)
    ensures closed == set q | q in input && Visible(input, data, q, policy)
    ensures PointsInto(data, closed) && FollowClosed(input, closed, policy)
  {
    closed := set q | q in input && Visible(input, data, q, policy);
    if data.Pointer? {
      VisibleStart(input, data.ref, policy);
    }
    hide Visible;
    forall x, y | x in closed && x in input && Follows(input[x], y, policy)
      ensures y in closed
    {
      VisibleStep(input, data, x, y, policy);
      assert ContainerPointsInto(input[x], input.Keys);
    }
  }

  lemma VisibleIsInside(input: Heap, policy: Policy, data: Value, r: Ref)
    requires ClosedHeap(input) && PointsInto(data, input.Keys) && Visible(input, data, r, policy)
    ensures r in input
  {
    var closed := VisibleIsClosed(input, policy, data);
    var p: seq<Ref> :| p != [] && data == Pointer(p[0]) && Trail(input, p, policy) && p[|p| - 1] == r;
    TrailStaysInside(input, p, policy, closed);
  }

  /** Every container with an entry in the memo table has a complete clone outside the input, slot by slot. */
  lemma CloneOf(input: Heap, next: Ref, policy: Policy, data: Value, result: Value, after: Heap, seen: map<Ref, Ref>,
                r: Ref)
    requires IsRedaction(input, next, policy, data, result, after, seen) && r in seen
    ensures r in input && !IsForeign(input[r]) && seen[r] in after && seen[r] !in input
    ensures IsOrdinary(input[r]) && IsClone(input, input[r], after[seen[r]], seen, policy)
  {
    hide IsClone, OnlyVisits, IsImage, IsOrdinary;
    var s := State(input, map[], next);
    var end :| Redacts(input, s, State(after, seen, end), policy, data);
    assert ClonedSince(input, s, State(after, seen, end), policy, r);
  }

  /** What is shown of a value: itself, or the clone of the array or plain object it points to. */
  predicate Shows(input: Heap, v: Value, shown: Value, seen: map<Ref, Ref>) {
    match v
    case Primitive(_) => shown == v
    case Pointer(q) =>
      if q in input && input[q].kind != ForeignKind then q in seen && shown == Pointer(seen[q]) else shown == v
  }

  /** A sensitive field shows the replacement; assigning to `__proto__` sets the prototype if an object is assigned. */
  predicate ShowsSlot(input: Heap, s: Slot, shown: Slot, seen: map<Ref, Ref>, policy: Policy) {
    match s
    case Item(v) => shown.Item? && Shows(input, v, shown.value, seen)
    case Own(key, v) =>
      if policy.sensitive(key) then
        if key == "__proto__" then shown == Unset else shown == Own(key, Primitive(policy.replacement))
      else if key == "__proto__" then
        if v.Pointer? then shown.Prototype? && Shows(input, v, shown.value, seen) else shown == Unset
      else shown.Own? && shown.key == key && Shows(input, v, shown.value, seen)
    case _ => false
  }

  /** Slot by slot, the clone shows what the policy lets it show, and the result is shown by the same rule. */
  lemma ClonesShowTheirOriginals(input: Heap, next: Ref, policy: Policy, data: Value, result: Value, after: Heap,
                                 seen: map<Ref, Ref>, r: Ref)
    requires IsRedaction(input, next, policy, data, result, after, seen)
    ensures Shows(input, data, result, seen)
    ensures r in seen ==>
      && r in input && seen[r] in after
      && var c, clone := input[r], after[seen[r]];
         clone.kind == c.kind && |clone.slots| == |c.slots|
         && forall i :: 0 <= i < |c.slots| ==> ShowsSlot(input, c.slots[i], clone.slots[i], seen, policy)
  {
    RedactionFacts(input, next, policy, data, result, after, seen);
    if r in seen {
      CloneOf(input, next, policy, data, result, after, seen, r);
      var c, clone := input[r], after[seen[r]];
      forall i | 0 <= i < |c.slots|
        ensures ShowsSlot(input, c.slots[i], clone.slots[i], seen, policy)
      {
        assert IsSlotImage(input, c.slots[i], clone.slots[i], seen, policy);
        assert ContainerPointsInto(c, input.Keys);
      }
    }
  }

  lemma RedactionFacts(input: Heap, next: Ref, policy: Policy, data: Value, result: Value, after: Heap,
                       seen: map<Ref, Ref>)
    requires IsRedaction(input, next, policy, data, result, after, seen)
    ensures ClosedHeap(input) && PointsInto(data, input.Keys)
        && IsImage(input, data, result, seen) && OnlyCloneable(input, seen)
    ensures forall r :: r in input ==> r in after && after[r] == input[r]
    ensures forall r, q :: r in seen && q in seen && seen[r] == seen[q] ==> r == q
    ensures forall closed: set<Ref> :: FollowClosed(input, closed, policy) && PointsInto(data, closed) ==>
        seen.Keys <= closed
  {
    hide IsClone, ClosedHeap, IsImage, FollowClosed;
    var s := State(input, map[], next);
    var end :| Redacts(input, s, State(after, seen, end), policy, data);
    assert State(after, seen, end).seen.Keys - s.seen.Keys == seen.Keys;
  }

  /** A followed slot is kept by the clone, as the clone it leads to or as the foreign object itself. */
  lemma CloneFollows(input: Heap, c: Container, clone: Container, q: Ref, seen: map<Ref, Ref>, policy: Policy)
    requires IsClone(input, c, clone, seen, policy) && IsOrdinary(c) && Follows(c, q, policy)
    ensures HasImage(input, Pointer(q), seen) && PointsTo(clone, ImageOf(Pointer(q), seen).ref)
  {
    var i :| 0 <= i < |c.slots| && !IsHidden(c.slots[i], policy) && Holds(c.slots[i], q);
    assert IsSlotImage(input, c.slots[i], clone.slots[i], seen, policy);
    assert Holds(clone.slots[i], ImageOf(Pointer(q), seen).ref);
  }

  /** Whatever a clone points to is the image of a followed slot. */
  lemma CloneOnlyFollows(input: Heap, c: Container, clone: Container, x: Ref, seen: map<Ref, Ref>, policy: Policy)
    returns (q: Ref)
    requires IsClone(input, c, clone, seen, policy) && PointsTo(clone, x) && !IsForeign(c)
    ensures Follows(c, q, policy) && HasImage(input, Pointer(q), seen) && ImageOf(Pointer(q), seen) == Pointer(x)
  {
    var i :| 0 <= i < |clone.slots| && Holds(clone.slots[i], x);
    assert IsSlotImage(input, c.slots[i], clone.slots[i], seen, policy);
    q := c.slots[i].value.ref;
    assert Holds(c.slots[i], q);
  }

  lemma ClonesAreClosed(input: Heap, next: Ref, policy: Policy, data: Value, result: Value, after: Heap,
                        seen: map<Ref, Ref>,
                        closed: set<Ref>)
    requires IsRedaction(input, next, policy, data, result, after, seen)
    requires closed == seen.Keys + set r | r in input && IsForeign(input[r])
    ensures FollowClosed(input, closed, policy)
  {
    hide IsClone, IsRedaction;
    forall x, y | x in closed && x in input && Follows(input[x], y, policy)
      ensures y in closed
    {
      RedactionFacts(input, next, policy, data, result, after, seen);
      CloneOf(input, next, policy, data, result, after, seen, x);
      CloneFollows(input, input[x], after[seen[x]], y, seen, policy);
      assert ContainerPointsInto(input[x], input.Keys);
    }
  }

  /** Exactly the plain containers that are visible in the data get a clone, and one each. */
  lemma ClonesTheVisible(input: Heap, next: Ref, policy: Policy, data: Value, result: Value, after: Heap,
                         seen: map<Ref, Ref>, r: Ref)
    requires IsRedaction(input, next, policy, data, result, after, seen)
    ensures r in seen <==> Visible(input, data, r, policy) && r in input && !IsForeign(input[r])
    ensures forall q :: q in seen && r in seen && seen[q] == seen[r] ==> q == r
  {
    hide Trail, Follows, FollowClosed, IsRedaction, ClosedHeap;
    RedactionFacts(input, next, policy, data, result, after, seen);
    var visible := VisibleIsClosed(input, policy, data);
    if Visible(input, data, r, policy) {
      var p: seq<Ref> :| p != [] && data == Pointer(p[0]) && Trail(input, p, policy) && p[|p| - 1] == r;
      var closed := seen.Keys + set f | f in input && IsForeign(input[f]);
      ClonesAreClosed(input, next, policy, data, result, after, seen, closed);
      TrailStaysInside(input, p, policy, closed);
    }
  }

  /** Sharing and cycles are preserved: the clones point to each other exactly as their originals visibly do. */
  lemma RedactionMirrors(input: Heap, next: Ref, policy: Policy, data: Value, result: Value, after: Heap,
                         seen: map<Ref, Ref>,
                         r: Ref, q: Ref)
    requires IsRedaction(input, next, policy, data, result, after, seen)
    requires r in seen && q in seen
    ensures r in input && seen[r] in after
    ensures PointsTo(after[seen[r]], seen[q]) <==> Follows(input[r], q, policy)
  {
    hide IsRedaction, IsClone, Follows, PointsTo, ClosedHeap, IsOrdinary;
    RedactionFacts(input, next, policy, data, result, after, seen);
    CloneOf(input, next, policy, data, result, after, seen, r);
    CloneOf(input, next, policy, data, result, after, seen, q);
    if Follows(input[r], q, policy) {
      CloneFollows(input, input[r], after[seen[r]], q, seen, policy);
    }
    if PointsTo(after[seen[r]], seen[q]) {
      var o := CloneOnlyFollows(input, input[r], after[seen[r]], seen[q], seen, policy);
      FollowedIsInside(input, r, o, policy);
      assert o == q;
    }
  }

  lemma FollowedIsInside(input: Heap, r: Ref, q: Ref, policy: Policy)
    requires ClosedHeap(input) && r in input && Follows(input[r], q, policy)
    ensures q in input
  {
    assert ContainerPointsInto(input[r], input.Keys);
  }

  // ---------------------------------------------------------------------------
  // What the result leads to
  // ---------------------------------------------------------------------------

  /** No own field under a sensitive key shows anything but the replacement. */
  predicate IsClean(c: Container, policy: Policy) {
    forall i :: 0 <= i < |c.slots| && IsHidden(c.slots[i], policy) ==> c.slots[i].value == Primitive(policy.replacement)
  }

  predicate Route(h: Heap, p: seq<Ref>) {
    |p| <= 1 || (Route(h, p[..|p| - 1]) && p[|p| - 2] in h && PointsTo(h[p[|p| - 2]], p[|p| - 1]))
  }

  /** `x` can be reached from `v` through any slots, prototypes included. */
  ghost predicate Reaches(h: Heap, v: Value, x: Ref) {
    exists p: seq<Ref> :: p != [] && v == Pointer(p[0]) && Route(h, p) && p[|p| - 1] == x
  }

  lemma ReachesStart(h: Heap, x: Ref)
    ensures Reaches(h, Pointer(x), x)
  {
    var alone := [x];
    assert Route(h, alone) && alone[|alone| - 1] == x;
  }

  lemma ReachesStep(h: Heap, v: Value, x: Ref, y: Ref)
    requires Reaches(h, v, x) && x in h && PointsTo(h[x], y)
    ensures Reaches(h, v, y)
  {
    var p: seq<Ref> :| p != [] && v == Pointer(p[0]) && Route(h, p) && p[|p| - 1] == x;
    var longer := p + [y];
    assert longer[..|longer| - 1] == p && longer[0] == p[0] && longer[|longer| - 1] == y;
  }

  /** A container of the input that a foreign object in plain view leads to. */
  ghost predicate Exposed(input: Heap, data: Value, x: Ref, policy: Policy) {
    exists f :: f in input && IsForeign(input[f]) && Visible(input, data, f, policy) && Reaches(input, Pointer(f), x)
  }

  lemma ExposedStep(input: Heap, data: Value, x: Ref, y: Ref, policy: Policy)
    requires Exposed(input, data, x, policy) && x in input && PointsTo(input[x], y)
    ensures Exposed(input, data, y, policy)
  {
    hide Visible, PointsTo, Reaches;
    var f :| f in input && IsForeign(input[f]) && Visible(input, data, f, policy) && Reaches(input, Pointer(f), x);
    ReachesStep(input, Pointer(f), x, y);
  }

  lemma VisibleForeignIsExposed(input: Heap, data: Value, f: Ref, policy: Policy)
    requires f in input && IsForeign(input[f]) && Visible(input, data, f, policy)
    ensures Exposed(input, data, f, policy)
  {
    hide Visible, Reaches;
    ReachesStart(input, f);
  }

  ghost predicate IsCloneOrExposed(input: Heap, data: Value, seen: map<Ref, Ref>, x: Ref, policy: Policy) {
    (exists r :: r in seen && seen[r] == x) || Exposed(input, data, x, policy)
  }

  lemma {:induction false} RouteStaysInClosed(h: Heap, p: seq<Ref>)
    requires ClosedHeap(h) && p != [] && Route(h, p) && p[0] in h
    ensures p[|p| - 1] in h
  {
    if |p| > 1 {
      RouteStaysInClosed(h, p[..|p| - 1]);
      assert ContainerPointsInto(h[p[|p| - 2]], h.Keys);
    }
  }

  lemma ExposedIsInside(input: Heap, data: Value, x: Ref, policy: Policy)
    requires ClosedHeap(input) && Exposed(input, data, x, policy)
    ensures x in input
  {
    var f :| f in input && IsForeign(input[f]) && Visible(input, data, f, policy) && Reaches(input, Pointer(f), x);
    var p: seq<Ref> :| p != [] && Pointer(f) == Pointer(p[0]) && Route(input, p) && p[|p| - 1] == x;
    RouteStaysInClosed(input, p);
  }

  /** The image of a visible pointer is a clone, or the foreign object itself. */
  lemma ImageIsCloneOrExposed(input: Heap, data: Value, seen: map<Ref, Ref>, q: Ref, policy: Policy)
    requires q in input && Visible(input, data, q, policy) && HasImage(input, Pointer(q), seen)
    ensures IsCloneOrExposed(input, data, seen, ImageOf(Pointer(q), seen).ref, policy)
  {
    hide Visible, Exposed;
    if q !in seen {
      VisibleForeignIsExposed(input, data, q, policy);
    }
  }

  lemma StaysCloneOrExposed(input: Heap, next: Ref, policy: Policy, data: Value, result: Value, after: Heap,
                            seen: map<Ref, Ref>,
                            x: Ref, y: Ref)
    requires IsRedaction(input, next, policy, data, result, after, seen)
    requires IsCloneOrExposed(input, data, seen, x, policy) && x in after && PointsTo(after[x], y)
    ensures IsCloneOrExposed(input, data, seen, y, policy)
  {
    hide IsRedaction, ClosedHeap, PointsTo, Follows, IsClone, Visible, Exposed, OnlyCloneable, FollowClosed, ImageOf;
    RedactionFacts(input, next, policy, data, result, after, seen);
    if r :| r in seen && seen[r] == x {
      CloneOf(input, next, policy, data, result, after, seen, r);
      ClonesTheVisible(input, next, policy, data, result, after, seen, r);
      var q := CloneOnlyFollows(input, input[r], after[x], y, seen, policy);
      FollowedIsInside(input, r, q, policy);
      VisibleStep(input, data, r, q, policy);
      ImageIsCloneOrExposed(input, data, seen, q, policy);
    } else {
      ExposedIsInside(input, data, x, policy);
      ExposedStep(input, data, x, y, policy);
    }
  }

  lemma {:induction false} RouteIsCloneOrExposed(input: Heap, next: Ref, policy: Policy, data: Value, result: Value,
                                                 after: Heap,
                                                 seen: map<Ref, Ref>, p: seq<Ref>)
    requires IsRedaction(input, next, policy, data, result, after, seen)
    requires p != [] && result == Pointer(p[0]) && Route(after, p)
    ensures IsCloneOrExposed(input, data, seen, p[|p| - 1], policy)
    decreases |p|
  {
    hide IsRedaction, IsCloneOrExposed, ClosedHeap, FollowClosed, PointsTo;
    if |p| == 1 {
      RedactionFacts(input, next, policy, data, result, after, seen);
      VisibleStart(input, data.ref, policy);
      ImageIsCloneOrExposed(input, data, seen, data.ref, policy);
    } else {
      RouteIsCloneOrExposed(input, next, policy, data, result, after, seen, p[..|p| - 1]);
      StaysCloneOrExposed(input, next, policy, data, result, after, seen, p[|p| - 2], p[|p| - 1]);
    }
  }

  /** The image of everything visible can be reached from the result. */
  lemma {:induction false} VisibleIsReached(input: Heap, next: Ref, policy: Policy, data: Value, result: Value,
                                            after: Heap,
                                            seen: map<Ref, Ref>, p: seq<Ref>)
    requires IsRedaction(input, next, policy, data, result, after, seen)
    requires p != [] && data == Pointer(p[0]) && Trail(input, p, policy)
    ensures Reaches(after, result, ImageOf(Pointer(p[|p| - 1]), seen).ref)
    decreases |p|
  {
    hide IsRedaction, Reaches, ClosedHeap, FollowClosed, PointsTo, Follows, IsClone, OnlyCloneable, Visible, IsOrdinary;
    RedactionFacts(input, next, policy, data, result, after, seen);
    if |p| == 1 {
      ReachesStart(after, result.ref);
    } else {
      var r, q := p[|p| - 2], p[|p| - 1];
      TrailIsVisible(input, p[..|p| - 1], policy, data);
      VisibleIsInside(input, policy, data, r);
      FollowerIsPlain(input[r], q, policy);
      ClonesTheVisible(input, next, policy, data, result, after, seen, r);
      VisibleIsReached(input, next, policy, data, result, after, seen, p[..|p| - 1]);
      CloneOf(input, next, policy, data, result, after, seen, r);
      CloneFollows(input, input[r], after[seen[r]], q, seen, policy);
      ReachesStep(after, result, seen[r], ImageOf(Pointer(q), seen).ref);
    }
  }

  lemma TrailIsVisible(input: Heap, p: seq<Ref>, policy: Policy, data: Value)
    requires p != [] && data == Pointer(p[0]) && Trail(input, p, policy)
    ensures Visible(input, data, p[|p| - 1], policy)
  {
  }

  lemma FollowerIsPlain(c: Container, q: Ref, policy: Policy)
    requires Follows(c, q, policy)
    ensures !IsForeign(c)
  {
  }

  lemma {:induction false} RouteIsKept(input: Heap, after: Heap, v: Value, f: Ref, p: seq<Ref>)
    requires forall r :: r in input ==> r in after && after[r] == input[r]
    requires Reaches(after, v, f) && p != [] && p[0] == f && Route(input, p)
    ensures Reaches(after, v, p[|p| - 1])
    decreases |p|
  {
    hide Reaches, PointsTo;
    if |p| > 1 {
      RouteIsKept(input, after, v, f, p[..|p| - 1]);
      ReachesStep(after, v, p[|p| - 2], p[|p| - 1]);
    }
  }

  /** The result leads exactly to the clones, and to what foreign objects in plain view lead to. */
  lemma ResultLeadsTo(input: Heap, next: Ref, policy: Policy, data: Value, result: Value, after: Heap,
                      seen: map<Ref, Ref>, x: Ref)
    requires IsRedaction(input, next, policy, data, result, after, seen)
    ensures Reaches(after, result, x) <==> (exists r :: r in seen && seen[r] == x) || Exposed(input, data, x, policy)
  {
    hide IsRedaction, ClosedHeap, FollowClosed, IsImage, OnlyCloneable, Trail, Route;
    if Reaches(after, result, x) {
      var p: seq<Ref> :| p != [] && result == Pointer(p[0]) && Route(after, p) && p[|p| - 1] == x;
      RouteIsCloneOrExposed(input, next, policy, data, result, after, seen, p);
    }
    RedactionFacts(input, next, policy, data, result, after, seen);
    if r :| r in seen && seen[r] == x {
      ClonesTheVisible(input, next, policy, data, result, after, seen, r);
      var p: seq<Ref> :| p != [] && data == Pointer(p[0]) && Trail(input, p, policy) && p[|p| - 1] == r;
      VisibleIsReached(input, next, policy, data, result, after, seen, p);
    }
    if Exposed(input, data, x, policy) {
      ExposedIsReached(input, next, policy, data, result, after, seen, x);
    }
  }

  lemma ExposedIsReached(input: Heap, next: Ref, policy: Policy, data: Value, result: Value, after: Heap,
                         seen: map<Ref, Ref>, x: Ref)
    requires IsRedaction(input, next, policy, data, result, after, seen) && Exposed(input, data, x, policy)
    ensures Reaches(after, result, x)
  {
    hide IsRedaction, ClosedHeap, FollowClosed, IsImage, Trail, Route;
    RedactionFacts(input, next, policy, data, result, after, seen);
    var f :| f in input && IsForeign(input[f]) && Visible(input, data, f, policy) && Reaches(input, Pointer(f), x);
    var p: seq<Ref> :| p != [] && data == Pointer(p[0]) && Trail(input, p, policy) && p[|p| - 1] == f;
    VisibleIsReached(input, next, policy, data, result, after, seen, p);
    assert f !in seen;
    var q: seq<Ref> :| q != [] && Pointer(f) == Pointer(q[0]) && Route(input, q) && q[|q| - 1] == x;
    RouteIsKept(input, after, result, f, q);
  }

  /** Foreign objects aside, the result leads to new containers only, and it shows nothing under a sensitive key. */
  ghost predicate IsSafe(input: Heap, policy: Policy, result: Value, after: Heap) {
    forall x :: Reaches(after, result, x) ==>
        x in after && IsClean(after[x], policy) && (x in input ==> IsForeign(input[x]))
  }

  /** Whatever the foreign objects in plain view lead to is foreign too, and clean. */
  ghost predicate ForeignObjectsAreHarmless(input: Heap, policy: Policy, data: Value) {
    forall x :: Exposed(input, data, x, policy) ==> x in input && IsForeign(input[x]) && IsClean(input[x], policy)
  }

  lemma CloneIsClean(input: Heap, c: Container, clone: Container, seen: map<Ref, Ref>, policy: Policy)
    requires IsClone(input, c, clone, seen, policy) && IsOrdinary(c) && !IsForeign(c)
    ensures IsClean(clone, policy)
  {
    forall i | 0 <= i < |clone.slots| && IsHidden(clone.slots[i], policy)
      ensures clone.slots[i].value == Primitive(policy.replacement)
    {
      assert IsSlotImage(input, c.slots[i], clone.slots[i], seen, policy);
    }
  }

  /**
   * The redaction is safe exactly when the foreign objects in plain view lead to
   * no plain container of the input and to no sensitive field: foreign objects
   * are passed on as they are, with everything behind them.
   */
  lemma RedactionIsSafeIff(input: Heap, next: Ref, policy: Policy, data: Value, result: Value, after: Heap,
                           seen: map<Ref, Ref>)
    requires IsRedaction(input, next, policy, data, result, after, seen)
    ensures IsSafe(input, policy, result, after) <==> ForeignObjectsAreHarmless(input, policy, data)
  {
    hide IsRedaction, ClosedHeap, FollowClosed, IsImage, OnlyCloneable, Reaches, Exposed, IsClean, IsOrdinary, IsClone;
    RedactionFacts(input, next, policy, data, result, after, seen);
    forall x
      ensures Reaches(after, result, x) <==> (exists r :: r in seen && seen[r] == x) || Exposed(input, data, x, policy)
      ensures Exposed(input, data, x, policy) ==> x in input
    {
      ResultLeadsTo(input, next, policy, data, result, after, seen, x);
      if Exposed(input, data, x, policy) {
        ExposedIsInside(input, data, x, policy);
      }
    }
    forall r | r in seen
      ensures seen[r] in after && seen[r] !in input && IsClean(after[seen[r]], policy)
    {
      CloneOf(input, next, policy, data, result, after, seen, r);
      CloneIsClean(input, input[r], after[seen[r]], seen, policy);
    }
  }

  /** Without a foreign object in plain view the result is safe. */
  lemma PlainDataIsSafe(input: Heap, next: Ref, policy: Policy, data: Value, result: Value, after: Heap,
                        seen: map<Ref, Ref>)
    requires IsRedaction(input, next, policy, data, result, after, seen)
    requires forall f :: f in input && Visible(input, data, f, policy) ==> !IsForeign(input[f])
    ensures IsSafe(input, policy, result, after)
  {
    hide IsRedaction, Visible, Reaches, IsClean;
    RedactionIsSafeIff(input, next, policy, data, result, after, seen);
  }

  /** A secret inside a foreign object is passed on. */
  lemma ForeignObjectLeaks(next: Ref, policy: Policy, key: string, secret: string, result: Value, after: Heap,
                           seen: map<Ref, Ref>)
    requires policy.sensitive(key) && !policy.sensitive("wrapper") && secret != policy.replacement
    requires IsRedaction(Wrapped(key, secret), next, policy, Pointer(0), result, after, seen)
    ensures Reaches(after, result, 1) && 1 in after && after[1] == Container(ForeignKind, [Own(key, Primitive(secret))])
    ensures !IsSafe(Wrapped(key, secret), policy, result, after)
  {
    hide IsRedaction, Trail, Reaches, Visible;
    var input := Wrapped(key, secret);
    VisibleStart(input, 0, policy);
    assert Holds(input[0].slots[0], 1) && Follows(input[0], 1, policy);
    VisibleStep(input, Pointer(0), 0, 1, policy);
    VisibleForeignIsExposed(input, Pointer(0), 1, policy);
    ResultLeadsTo(input, next, policy, Pointer(0), result, after, seen, 1);
    RedactionFacts(input, next, policy, Pointer(0), result, after, seen);
    assert IsHidden(after[1].slots[0], policy);
  }

  function Wrapped(key: string, secret: string): Heap {
    map[0 := Container(ObjectKind, [Own("wrapper", Pointer(1))]),
        1 := Container(ForeignKind, [Own(key, Primitive(secret))])]
  }
}
