/**
 * What the fingerprint of a frontier tells: on ids without the separators it is the
 * same for two frontiers exactly when they have the same ids, statuses and
 * dependencies in the same order. With a separator in an id it may not be.
 */
module Fingerprints {
  import opened Text
  import opened GoalTypes

  predicate Lacks(s: string, c: char) {
    forall k :: 0 <= k < |s| ==> s[k] != c
  }

  predicate IsPlainId(id: Id) {
    Lacks(id, ':') && Lacks(id, ',') && Lacks(id, '|')
  }

  predicate IsPlainItem(x: WorkItem) {
    IsPlainId(x.id) && forall d :: d in x.dependsOn ==> d != "" && IsPlainId(d)
  }

  predicate IsSameStep(x: WorkItem, y: WorkItem) {
    x.id == y.id && x.status == y.status && x.dependsOn == y.dependsOn
  }

  predicate IsSamePlan(a: seq<WorkItem>, b: seq<WorkItem>) {
    |a| == |b| && forall i :: 0 <= i < |a| ==> IsSameStep(a[i], b[i])
  }

  // ---------------------------------------------------------------------------
  // Splitting texts
  // ---------------------------------------------------------------------------

  /** A text is split by the first separator in one way only. */
  lemma SplitsOnce(s: string, t: string, u: string, v: string, c: char)
    requires Lacks(s, c) && Lacks(u, c) && s + [c] + t == u + [c] + v
    ensures s == u && t == v
  {
    var all := s + [c] + t;
    assert all[|s|] == c && all[|u|] == c;
    assert forall k :: 0 <= k < |s| ==> all[k] == s[k];
    assert forall k :: 0 <= k < |u| ==> all[k] == u[k];
    assert |s| == |u|;
    assert all[..|s|] == s && all[..|u|] == u && all[|s| + 1..] == t && all[|u| + 1..] == v;
  }

  lemma JoinLacks(s: string, t: string, c: char)
    ensures Lacks(s + t, c) <==> Lacks(s, c) && Lacks(t, c)
  {
    if Lacks(s + t, c) {
      assert forall k :: 0 <= k < |s| ==> (s + t)[k] == s[k];
      assert forall k :: 0 <= k < |t| ==> (s + t)[|s| + k] == t[k];
    }
  }

  lemma {:induction false} CommasTell(a: seq<Id>, b: seq<Id>)
    requires forall d :: d in a || d in b ==> d != "" && Lacks(d, ',')
    requires JoinComma(a) == JoinComma(b)
    ensures a == b
    decreases |a|
  {
    if a != [] && b != [] {
      assert a[0] in a && b[0] in b;
      assert |a| > 1 ==> JoinComma(a)[|a[0]|] == ',';
      assert |b| > 1 ==> JoinComma(b)[|b[0]|] == ',';
      if |a| > 1 && |b| > 1 {
        SplitsOnce(a[0], JoinComma(a[1..]), b[0], JoinComma(b[1..]), ',');
        assert (forall d :: d in a[1..] ==> d in a) && (forall d :: d in b[1..] ==> d in b);
        CommasTell(a[1..], b[1..]);
        assert a == [a[0]] + a[1..] && b == [b[0]] + b[1..];
      }
    } else {
      JoinedIsNotEmpty(a);
      JoinedIsNotEmpty(b);
    }
  }

  lemma JoinedIsNotEmpty(a: seq<Id>)
    requires forall d :: d in a ==> d != ""
    ensures JoinComma(a) == "" <==> a == []
  {
    if a != [] {
      assert a[0] in a;
    }
  }

  lemma {:induction false} JoinedLacks(a: seq<Id>, c: char)
    requires c != ',' && forall d :: d in a ==> Lacks(d, c)
    ensures Lacks(JoinComma(a), c)
    decreases |a|
  {
    if |a| > 1 {
      JoinedLacks(a[1..], c);
      JoinLacks(a[0], ",", c);
      JoinLacks(a[0] + ",", JoinComma(a[1..]), c);
    }
  }

  // ---------------------------------------------------------------------------
  // Items and frontiers
  // ---------------------------------------------------------------------------

  lemma NamesDiffer(s: ItemStatus, t: ItemStatus)
    ensures StatusName(s) == StatusName(t) <==> s == t
    ensures Lacks(StatusName(s), ':') && Lacks(StatusName(s), '|')
  {
    assert StatusName(s)[0] == match s
      case Open => 'o' case Claimed => 'c' case Running => 'r'
      case Done => 'd' case Deferred => 'd' case Cancelled => 'c';
    assert StatusName(t)[0] == match t
      case Open => 'o' case Claimed => 'c' case Running => 'r'
      case Done => 'd' case Deferred => 'd' case Cancelled => 'c';
  }

  lemma PrintTells(x: WorkItem, y: WorkItem)
    requires IsPlainItem(x) && IsPlainItem(y)
    ensures ItemPrint(x) == ItemPrint(y) <==> IsSameStep(x, y)
  {
    if ItemPrint(x) == ItemPrint(y) {
      var s, t := StatusName(x.status), StatusName(y.status);
      var c, d := JoinComma(x.dependsOn), JoinComma(y.dependsOn);
      NamesDiffer(x.status, y.status);
      NamesDiffer(y.status, x.status);
      assert ItemPrint(x) == x.id + ":" + (s + ":" + c) && ItemPrint(y) == y.id + ":" + (t + ":" + d);
      SplitsOnce(x.id, s + ":" + c, y.id, t + ":" + d, ':');
      SplitsOnce(s, c, t, d, ':');
      CommasTell(x.dependsOn, y.dependsOn);
    }
  }

  lemma PrintLacksBar(x: WorkItem)
    requires IsPlainItem(x)
    ensures Lacks(ItemPrint(x), '|') && ItemPrint(x) != ""
  {
    NamesDiffer(x.status, x.status);
    JoinedLacks(x.dependsOn, '|');
    JoinLacks(x.id, ":", '|');
    JoinLacks(x.id + ":", StatusName(x.status), '|');
    JoinLacks(x.id + ":" + StatusName(x.status), ":", '|');
    JoinLacks(x.id + ":" + StatusName(x.status) + ":", JoinComma(x.dependsOn), '|');
  }

  lemma {:induction false} FingerprintTells(a: seq<WorkItem>, b: seq<WorkItem>)
    requires forall x :: x in a || x in b ==> IsPlainItem(x)
    ensures Fingerprint(a) == Fingerprint(b) <==> IsSamePlan(a, b)
    decreases |a|
  {
    hide ItemPrint, IsPlainItem, IsSameStep;
    if a != [] && b != [] {
      assert a[0] in a && b[0] in b;
      PrintLacksBar(a[0]);
      PrintLacksBar(b[0]);
      PrintTells(a[0], b[0]);
      assert |a| > 1 ==> Fingerprint(a)[|ItemPrint(a[0])|] == '|';
      assert |b| > 1 ==> Fingerprint(b)[|ItemPrint(b[0])|] == '|';
      if |a| > 1 && |b| > 1 {
        FingerprintTells(a[1..], b[1..]);
        if Fingerprint(a) == Fingerprint(b) {
          SplitsOnce(ItemPrint(a[0]), Fingerprint(a[1..]), ItemPrint(b[0]), Fingerprint(b[1..]), '|');
        }
        SameRest(a, b);
      }
    } else {
      PrintIsNotEmpty(a);
      PrintIsNotEmpty(b);
    }
  }

  lemma SameRest(a: seq<WorkItem>, b: seq<WorkItem>)
    requires a != [] && b != []
    ensures IsSamePlan(a, b) <==> IsSameStep(a[0], b[0]) && IsSamePlan(a[1..], b[1..])
  {
    hide IsSameStep;
    if IsSameStep(a[0], b[0]) && IsSamePlan(a[1..], b[1..]) {
      forall i | 0 <= i < |a|
        ensures IsSameStep(a[i], b[i])
      {
        assert i > 0 ==> a[i] == a[1..][i - 1] && b[i] == b[1..][i - 1];
      }
    }
    if IsSamePlan(a, b) {
      forall i | 0 <= i < |a[1..]|
        ensures IsSameStep(a[1..][i], b[1..][i])
      {
        assert a[1..][i] == a[i + 1] && b[1..][i] == b[i + 1];
      }
    }
  }

  lemma PrintIsNotEmpty(a: seq<WorkItem>)
    requires forall x :: x in a ==> IsPlainItem(x)
    ensures Fingerprint(a) == "" <==> a == []
  {
    if a != [] {
      assert a[0] in a;
      PrintLacksBar(a[0]);
    }
  }

  /** With a separator in an id, one item has the fingerprint of two. */
  lemma OddIdsCollide(one: WorkItem, first: WorkItem, second: WorkItem)
    requires one.id == "a" && one.status == Open && one.dependsOn == ["b|c:open:"]
    requires first.id == "a" && first.status == Open && first.dependsOn == ["b"]
    requires second.id == "c" && second.status == Open && second.dependsOn == []
    ensures Fingerprint([one]) == Fingerprint([first, second]) == "a:open:b|c:open:"
  {
    assert [first, second][1..] == [second];
  }
}
