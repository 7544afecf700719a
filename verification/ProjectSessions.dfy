/**
 * Which stored sessions belong to a project: those that name its directory,
 * and those that inherit it from their parent session. The entries are
 * objects, so they are references into a store, and several entries may carry
 * the same session id.
 */
module ProjectSessions {

  import opened FiniteSets
  import opened GoalTypes
  import opened Text

  type Ref = nat

  datatype Entry = Entry(
    sessionId: string,
    parentSessionId: Option<string>,
    metadataWorkDir: Option<string>,
    worktreePath: Option<string>,
    workDirs: seq<string>)

  type Store = map<Ref, Entry>

  /** A project directory, and how paths are normalised before they are compared. */
  datatype Project = Project(workDir: string, normalize: string -> string)

  predicate SamePath(project: Project, a: string, b: string) {
    project.normalize(a) == project.normalize(b)
  }

  predicate UsesDeclaredWorktree(project: Project, entry: Entry) {
    entry.metadataWorkDir.Some? && entry.worktreePath.Some?
        && SamePath(project, entry.metadataWorkDir.value, entry.worktreePath.value)
  }

  predicate NamesProject(project: Project, entry: Entry) {
    exists i :: 0 <= i < |entry.workDirs| && SamePath(project, entry.workDirs[i], project.workDir)
  }

  function Refs(entries: seq<Ref>): set<Ref> {
    set e | e in entries
  }

  /** The entries that carry a session id. */
  function Carriers(store: Store, all: set<Ref>, id: string): set<Ref>
    requires all <= store.Keys
  {
    set e | e in all && store[e].sessionId == id
  }

  /** The ownership rule: every entry with the parent's id is owned, and the entry names no other directory. */
  predicate Inherits(store: Store, all: set<Ref>, project: Project, owned: set<Ref>, e: Ref)
    requires all <= store.Keys && e in all
  {
    var entry := store[e];
    && entry.parentSessionId.Some?
    && Carriers(store, all, entry.parentSessionId.value) != {}
    && Carriers(store, all, entry.parentSessionId.value) <= owned
    && (entry.workDirs == [] || UsesDeclaredWorktree(project, entry))
  }

  ghost predicate IsClosed(store: Store, all: set<Ref>, project: Project, owned: set<Ref>)
    requires all <= store.Keys
  {
    forall e :: e in all && (NamesProject(project, store[e]) || Inherits(store, all, project, owned, e)) ==> e in owned
  }

  // ---------------------------------------------------------------------------
  // The least fixed point
  // ---------------------------------------------------------------------------

  function Direct(store: Store, all: set<Ref>, project: Project): set<Ref>
    requires all <= store.Keys
  {
    set e | e in all && NamesProject(project, store[e])
  }

  function Round(store: Store, all: set<Ref>, project: Project, owned: set<Ref>): set<Ref>
    requires all <= store.Keys
  {
    owned + set e | e in all && Inherits(store, all, project, owned, e)
  }

  /** Rounds of the rule, each applied to all entries at once, until one adds nothing. */
  function Rounds(store: Store, all: set<Ref>, project: Project, owned: set<Ref>): (final: set<Ref>)
    requires owned <= all <= store.Keys
    ensures owned <= final <= all
    ensures Round(store, all, project, final) == final
    decreases |all - owned|
  {
    var next := Round(store, all, project, owned);
    if next == owned then owned
    else
      assert exists x :: x in next && x !in owned;
      var x :| x in next && x !in owned;
      SubsetIsSmaller(all - next, all - owned, x);
      Rounds(store, all, project, next)
  }

  function Owned(store: Store, all: set<Ref>, project: Project): set<Ref>
    requires all <= store.Keys
  {
    Rounds(store, all, project, Direct(store, all, project))
  }

  lemma {:induction false} RoundsStayBelow(store: Store, all: set<Ref>, project: Project, owned: set<Ref>,
                                           closed: set<Ref>)
    requires owned <= all <= store.Keys && owned <= closed && IsClosed(store, all, project, closed)
    ensures Rounds(store, all, project, owned) <= closed
    decreases |all - owned|
  {
    var next := Round(store, all, project, owned);
    if next != owned {
      assert exists x :: x in next && x !in owned;
      var x :| x in next && x !in owned;
      SubsetIsSmaller(all - next, all - owned, x);
      RoundsStayBelow(store, all, project, next, closed);
    }
  }

  /** `Owned` is closed under the rule and inside every set that is. */
  lemma OwnedIsLeast(store: Store, all: set<Ref>, project: Project)
    requires all <= store.Keys
    ensures IsClosed(store, all, project, Owned(store, all, project))
    ensures forall closed: set<Ref> :: IsClosed(store, all, project, closed) ==> Owned(store, all, project) <= closed
  {
    var owned := Owned(store, all, project);
    forall e | e in all && Inherits(store, all, project, owned, e)
      ensures e in owned
    {
      assert e in Round(store, all, project, owned);
    }
    forall closed: set<Ref> | IsClosed(store, all, project, closed)
      ensures owned <= closed
    {
      RoundsStayBelow(store, all, project, Direct(store, all, project), closed);
    }
  }

  /** A path among the session's directories is the project's, once both are normalised. */
  predicate IsSessionOf(project: Project, entry: Entry) {
    exists dir :: dir in entry.workDirs && project.normalize(dir) == project.normalize(project.workDir)
  }

  /** It names no directory, or declares the worktree it was started in. */
  predicate MayFollow(project: Project, entry: Entry) {
    || entry.workDirs == []
    || (entry.metadataWorkDir.Some? && entry.worktreePath.Some?
        && project.normalize(entry.metadataWorkDir.value) == project.normalize(entry.worktreePath.value))
  }

  /** Some entry has the id of its parent session, and all that have it are selected. */
  ghost predicate HasSelectedParents(store: Store, all: set<Ref>, selected: set<Ref>, entry: Entry)
    requires all <= store.Keys
  {
    && entry.parentSessionId.Some?
    && (exists x :: x in all && store[x].sessionId == entry.parentSessionId.value)
    && forall x :: x in all && store[x].sessionId == entry.parentSessionId.value ==> x in selected
  }

  ghost predicate MustBeSelected(store: Store, all: set<Ref>, project: Project, selected: set<Ref>, e: Ref)
    requires all <= store.Keys && e in all
  {
    || IsSessionOf(project, store[e])
    || (HasSelectedParents(store, all, selected, store[e]) && MayFollow(project, store[e]))
  }

  /** Sessions of the project are selected, and those that may follow their selected parents. */
  ghost predicate FollowsRule(store: Store, all: set<Ref>, project: Project, selected: set<Ref>)
    requires all <= store.Keys
  {
    forall e :: e in all && MustBeSelected(store, all, project, selected, e) ==> e in selected
  }

  lemma RuleIs(store: Store, all: set<Ref>, project: Project, selected: set<Ref>)
    requires all <= store.Keys
    ensures FollowsRule(store, all, project, selected) <==> IsClosed(store, all, project, selected)
  {
    forall e | e in all
      ensures NamesProject(project, store[e]) <==> IsSessionOf(project, store[e])
      ensures Inherits(store, all, project, selected, e) <==>
          HasSelectedParents(store, all, selected, store[e]) && MayFollow(project, store[e])
    {
      var entry := store[e];
      if entry.parentSessionId.Some? {
        var carriers := Carriers(store, all, entry.parentSessionId.value);
        assert forall x :: x in carriers <==> x in all && store[x].sessionId == entry.parentSessionId.value;
      }
    }
  }

  /** An entry is selected exactly when every set of entries that follows the rule has it. */
  lemma SelectedIff(store: Store, all: set<Ref>, project: Project, e: Ref)
    requires all <= store.Keys && e in all
    ensures e in Owned(store, all, project) <==>
        forall selected: set<Ref> :: FollowsRule(store, all, project, selected) ==> e in selected
  {
    hide FollowsRule, IsClosed;
    OwnedIsLeast(store, all, project);
    forall selected: set<Ref>
      ensures FollowsRule(store, all, project, selected) <==> IsClosed(store, all, project, selected)
    {
      RuleIs(store, all, project, selected);
    }
  }

  lemma {:induction false} RoundsAreEarned(store: Store, all: set<Ref>, project: Project, owned: set<Ref>)
    requires owned <= all <= store.Keys
    requires forall e :: e in owned ==> NamesProject(project, store[e]) || Inherits(store, all, project, owned, e)
    ensures var final := Rounds(store, all, project, owned);
            forall e :: e in final ==> NamesProject(project, store[e]) || Inherits(store, all, project, final, e)
    decreases |all - owned|
  {
    var next := Round(store, all, project, owned);
    if next != owned {
      assert exists x :: x in next && x !in owned;
      var x :| x in next && x !in owned;
      SubsetIsSmaller(all - next, all - owned, x);
      RoundsAreEarned(store, all, project, next);
    }
  }

  /**
   * A child of owned entries is owned unless it names other directories only and is
   * not in the worktree it declares.
   */
  lemma ChildFollowsParents(store: Store, all: set<Ref>, project: Project, e: Ref)
    requires all <= store.Keys && e in all && store[e].parentSessionId.Some?
    requires Carriers(store, all, store[e].parentSessionId.value) != {}
    requires Carriers(store, all, store[e].parentSessionId.value) <= Owned(store, all, project)
    ensures var entry := store[e];
            e in Owned(store, all, project) <==>
              || NamesProject(project, entry)
              || entry.workDirs == []
              || (entry.metadataWorkDir.Some? && entry.worktreePath.Some?
                  && project.normalize(entry.metadataWorkDir.value) == project.normalize(entry.worktreePath.value))
  {
    OwnedIsLeast(store, all, project);
    RoundsAreEarned(store, all, project, Direct(store, all, project));
  }

  /** Each entry is a child of the next, all are distinct, and the last one names the project. */
  predicate IsParentChain(store: Store, all: set<Ref>, project: Project, chain: seq<Ref>)
    requires all <= store.Keys
  {
    && chain != [] && chain[0] in all
    && if |chain| == 1 then NamesProject(project, store[chain[0]])
       else
         && store[chain[0]].parentSessionId.Some?
         && chain[1] in Carriers(store, all, store[chain[0]].parentSessionId.value)
         && chain[0] !in chain[1..]
         && IsParentChain(store, all, project, chain[1..])
  }

  ghost predicate HasChain(store: Store, all: set<Ref>, project: Project, owned: set<Ref>, e: Ref)
    requires all <= store.Keys
  {
    exists chain :: IsParentChain(store, all, project, chain) && chain[0] == e && Refs(chain) <= owned
  }

  lemma {:induction false} RoundsHaveChains(store: Store, all: set<Ref>, project: Project, owned: set<Ref>)
    requires owned <= all <= store.Keys
    requires forall e :: e in owned ==> HasChain(store, all, project, owned, e)
    ensures forall e :: e in Rounds(store, all, project, owned) ==>
        HasChain(store, all, project, Rounds(store, all, project, owned), e)
    decreases |all - owned|
  {
    var next := Round(store, all, project, owned);
    if next != owned {
      assert exists x :: x in next && x !in owned;
      var x :| x in next && x !in owned;
      SubsetIsSmaller(all - next, all - owned, x);
      forall e | e in next
        ensures HasChain(store, all, project, next, e)
      {
        if e in owned {
          var chain :| IsParentChain(store, all, project, chain) && chain[0] == e && Refs(chain) <= owned;
          assert Refs(chain) <= next;
        } else {
          ChainGrows(store, all, project, owned, e);
        }
      }
      RoundsHaveChains(store, all, project, next);
    }
  }

  lemma ChainGrows(store: Store, all: set<Ref>, project: Project, owned: set<Ref>, e: Ref)
    requires owned <= all <= store.Keys
    requires forall x :: x in owned ==> HasChain(store, all, project, owned, x)
    requires e in all && e !in owned && Inherits(store, all, project, owned, e)
    ensures HasChain(store, all, project, Round(store, all, project, owned), e)
  {
    var parents := Carriers(store, all, store[e].parentSessionId.value);
    assert exists parent :: parent in parents;
    var parent :| parent in parents;
    var rest :| IsParentChain(store, all, project, rest) && rest[0] == parent && Refs(rest) <= owned;
    var chain := [e] + rest;
    assert chain[1..] == rest && (e in rest ==> e in Refs(rest));
    assert IsParentChain(store, all, project, chain);
    assert Refs(chain) <= owned + {e};
  }

  /** Every owned entry has a finite chain of distinct owned ancestors up to one that names the project. */
  lemma OwnedHasChain(store: Store, all: set<Ref>, project: Project, e: Ref)
    requires all <= store.Keys && e in Owned(store, all, project)
    ensures HasChain(store, all, project, Owned(store, all, project), e)
  {
    var direct := Direct(store, all, project);
    forall x | x in direct
      ensures HasChain(store, all, project, direct, x)
    {
      assert IsParentChain(store, all, project, [x]) && [x][0] == x && Refs([x]) <= direct;
    }
    RoundsHaveChains(store, all, project, direct);
  }

  /**
   * A set of entries that can only vouch for each other: none names the
   * project, and each names another directory, has no known parent, or has a
   * parent entry in the set.
   */
  predicate IsUnfounded(store: Store, all: set<Ref>, project: Project, group: set<Ref>)
    requires all <= store.Keys
  {
    forall e :: e in group && e in all ==>
      && !NamesProject(project, store[e])
      && !Inherits(store, all, project, all - group, e)
  }

  /** An entry is left out exactly when it belongs to an unfounded group. */
  lemma UnownedIffUnfounded(store: Store, all: set<Ref>, project: Project, e: Ref)
    requires all <= store.Keys && e in all
    ensures e !in Owned(store, all, project) <==>
        exists group: set<Ref> :: e in group && IsUnfounded(store, all, project, group)
  {
    var owned := Owned(store, all, project);
    OwnedIsLeast(store, all, project);
    if e !in owned {
      assert all - (all - owned) == owned;
      assert IsUnfounded(store, all, project, all - owned);
    }
    if group: set<Ref> :| e in group && IsUnfounded(store, all, project, group) {
      forall x | x in all && (NamesProject(project, store[x]) || Inherits(store, all, project, all - group, x))
        ensures x in all - group
      {
      }
      assert IsClosed(store, all, project, all - group);
    }
  }

  // ---------------------------------------------------------------------------
  // The selection
  // ---------------------------------------------------------------------------

  function Filtered(entries: seq<Ref>, keep: set<Ref>): (kept: seq<Ref>) {
    if entries == [] then []
    else
      var last := entries[|entries| - 1];
      Filtered(entries[..|entries| - 1], keep) + if last in keep then [last] else []
  }

  lemma {:induction false} FilteredKeeps(entries: seq<Ref>, keep: set<Ref>)
    ensures Refs(Filtered(entries, keep)) == Refs(entries) * keep
  {
    if entries != [] {
      var init, last := entries[..|entries| - 1], entries[|entries| - 1];
      FilteredKeeps(init, keep);
      assert entries == init + [last];
      RefsAppend(init, last);
      RefsAppend(Filtered(init, keep), last);
      assert Filtered(init, keep) + [] == Filtered(init, keep);
    }
  }

  lemma RefsAppend(s: seq<Ref>, x: Ref)
    ensures Refs(s + [x]) == Refs(s) + {x}
  {
  }

  /** Groups the entries by session id. */
  method BySessionId(entries: seq<Ref>, store: Store) returns (groups: map<string, seq<Ref>>)
    requires Refs(entries) <= store.Keys
    ensures forall id :: id in groups <==> Carriers(store, Refs(entries), id) != {}
    ensures forall id :: id in groups ==> Refs(groups[id]) == Carriers(store, Refs(entries), id)
  {
    groups := map[];
    for i := 0 to |entries|
      invariant forall id :: id in groups <==> Carriers(store, Refs(entries[..i]), id) != {}
      invariant forall id :: id in groups ==> Refs(groups[id]) == Carriers(store, Refs(entries[..i]), id)
    {
      var id := store[entries[i]].sessionId;
      var matches := if id in groups then groups[id] else [];
      CarriersGrow(store, entries, i);
      groups := groups[id := matches + [entries[i]]];
      assert Refs(matches + [entries[i]]) == Refs(matches) + {entries[i]};
    }
    assert entries[..|entries|] == entries;
  }

  lemma CarriersGrow(store: Store, entries: seq<Ref>, i: nat)
    requires Refs(entries) <= store.Keys && i < |entries|
    ensures Refs(entries[..i]) <= store.Keys && Refs(entries[..i + 1]) <= store.Keys
    ensures forall id :: Carriers(store, Refs(entries[..i + 1]), id) ==
              Carriers(store, Refs(entries[..i]), id) + if store[entries[i]].sessionId == id then {entries[i]} else {}
  {
    assert Refs(entries[..i + 1]) == Refs(entries[..i]) + {entries[i]};
  }

  /**
   * Sweeps over the entries until a sweep selects nothing, each selection
   * being visible to the rest of its sweep. The result is the least fixed
   * point whatever the order of the entries.
   */
  method SelectProjectSessions(entries: seq<Ref>, store: Store, project: Project) returns (result: seq<Ref>)
    requires Refs(entries) <= store.Keys
    ensures result == Filtered(entries, Owned(store, Refs(entries), project))
  {
    hide IsClosed, Direct, Owned, Carriers;
    ghost var all := Refs(entries);
    var groups := BySessionId(entries, store);
    var selected := SelectDirect(entries, store, project);
    OwnedIsLeast(store, all, project);
    OwnedIsInside(store, all, project);
    var changed := true;
    while changed
      invariant Direct(store, all, project) <= selected <= Owned(store, all, project)
      invariant !changed ==> IsClosed(store, all, project, selected)
      decreases |all - selected|, changed
    {
      ghost var before := selected;
      changed, selected := Sweep(entries, store, project, groups, selected);
      if changed {
        ghost var x :| x in selected && x !in before;
        OwnedIsInside(store, all, project);
        SubsetIsSmaller(all - selected, all - before, x);
      }
    }
    assert selected == Owned(store, all, project);
    result := Keep(entries, selected);
  }

  lemma OwnedIsInside(store: Store, all: set<Ref>, project: Project)
    requires all <= store.Keys
    ensures Direct(store, all, project) <= Owned(store, all, project) <= all
  {
  }

  method SelectDirect(entries: seq<Ref>, store: Store, project: Project) returns (selected: set<Ref>)
    requires Refs(entries) <= store.Keys
    ensures selected == Direct(store, Refs(entries), project)
  {
    selected := {};
    for i := 0 to |entries|
      invariant selected == Direct(store, Refs(entries[..i]), project)
    {
      assert Refs(entries[..i + 1]) == Refs(entries[..i]) + {entries[i]};
      if NamesProject(project, store[entries[i]]) {
        selected := selected + {entries[i]};
      }
    }
    assert entries[..|entries|] == entries;
  }

  method Keep(entries: seq<Ref>, keep: set<Ref>) returns (kept: seq<Ref>)
    ensures kept == Filtered(entries, keep)
  {
    kept := [];
    for i := 0 to |entries|
      invariant kept == Filtered(entries[..i], keep)
    {
      assert entries[..i + 1][..i] == entries[..i];
      if entries[i] in keep {
        kept := kept + [entries[i]];
      }
    }
    assert entries[..|entries|] == entries;
  }

  method Sweep(entries: seq<Ref>, store: Store, project: Project, groups: map<string, seq<Ref>>, before: set<Ref>)
    returns (changed: bool, selected: set<Ref>)
    requires Refs(entries) <= store.Keys
    requires forall id :: id in groups <==> Carriers(store, Refs(entries), id) != {}
    requires forall id :: id in groups ==> Refs(groups[id]) == Carriers(store, Refs(entries), id)
    requires Direct(store, Refs(entries), project) <= before <= Owned(store, Refs(entries), project)
    ensures before <= selected <= Owned(store, Refs(entries), project)
    ensures changed <==> before != selected
    ensures changed ==> exists x :: x in selected && x !in before
    ensures !changed ==> IsClosed(store, Refs(entries), project, selected)
  {
    ghost var all := Refs(entries);
    changed, selected := false, before;
    for i := 0 to |entries|
      invariant before <= selected <= Owned(store, all, project)
      invariant changed ==> exists x :: x in selected && x !in before
      invariant !changed ==> selected == before
      invariant !changed ==> forall j :: 0 <= j < i && Inherits(store, all, project, before, entries[j]) ==>
          entries[j] in before
    {
      var e := entries[i];
      var entry := store[e];
      if e in selected || entry.parentSessionId.None? {
        continue;
      }
      var parents := if entry.parentSessionId.value in groups then groups[entry.parentSessionId.value] else [];
      ParentsSelected(store, all, entry.parentSessionId.value, parents, selected);
      if parents == [] || exists p :: p in parents && p !in selected {
        continue;
      }
      if entry.workDirs != [] && !UsesDeclaredWorktree(project, entry) {
        continue;
      }
      OwnedInherits(store, all, project, selected, e);
      selected, changed := selected + {e}, true;
    }
  }

  lemma ParentsSelected(store: Store, all: set<Ref>, id: string, parents: seq<Ref>, selected: set<Ref>)
    requires all <= store.Keys && Refs(parents) == Carriers(store, all, id)
    ensures parents == [] <==> Carriers(store, all, id) == {}
    ensures (exists p :: p in parents && p !in selected) <==> !(Carriers(store, all, id) <= selected)
  {
    assert forall p :: p in parents <==> p in Refs(parents);
    if parents != [] {
      assert parents[0] in Refs(parents);
    }
  }

  lemma OwnedInherits(store: Store, all: set<Ref>, project: Project, selected: set<Ref>, e: Ref)
    requires all <= store.Keys && e in all
    requires selected <= Owned(store, all, project) && Inherits(store, all, project, selected, e)
    ensures e in Owned(store, all, project)
  {
    OwnedIsLeast(store, all, project);
    assert Inherits(store, all, project, Owned(store, all, project), e);
  }

  /** Reordering or repeating the entries selects the same ones. */
  lemma OrderDoesNotMatter(entries: seq<Ref>, others: seq<Ref>, store: Store, project: Project)
    requires Refs(entries) == Refs(others) <= store.Keys
    ensures Refs(Filtered(entries, Owned(store, Refs(entries), project)))
        == Refs(Filtered(others, Owned(store, Refs(others), project)))
  {
    FilteredKeeps(entries, Owned(store, Refs(entries), project));
    FilteredKeeps(others, Owned(store, Refs(others), project));
  }

  /** The entries that carry an id, when an entry may carry several. */
  function CarriersOf(all: set<Ref>, idsOf: Ref -> seq<string>, id: string): set<Ref> {
    set e | e in all && id in idsOf(e)
  }

  /** The carriers of `id` among the entries done, and `e` if `id` is among the first `k` of its ids. */
  function CarriersSoFar(done: set<Ref>, idsOf: Ref -> seq<string>, e: Ref, k: nat, id: string): set<Ref>
    requires k <= |idsOf(e)|
  {
    CarriersOf(done, idsOf, id) + if id in idsOf(e)[..k] then {e} else {}
  }

  predicate IsGrouped(groups: map<string, seq<Ref>>, id: string, carriers: set<Ref>) {
    (id in groups <==> carriers != {}) && (id in groups ==> Refs(groups[id]) == carriers)
  }

  lemma OneIdMore(groups: map<string, seq<Ref>>, done: set<Ref>, idsOf: Ref -> seq<string>, e: Ref, k: nat, id: string)
    requires k < |idsOf(e)|
    requires forall any :: IsGrouped(groups, any, CarriersSoFar(done, idsOf, e, k, any))
    ensures var own := idsOf(e)[k]; var matches := if own in groups then groups[own] else [];
            IsGrouped(groups[own := matches + [e]], id, CarriersSoFar(done, idsOf, e, k + 1, id))
  {
    var own := idsOf(e)[k];
    var matches := if own in groups then groups[own] else [];
    assert idsOf(e)[..k + 1] == idsOf(e)[..k] + [own];
    assert IsGrouped(groups, own, CarriersSoFar(done, idsOf, e, k, own));
    assert IsGrouped(groups, id, CarriersSoFar(done, idsOf, e, k, id));
    RefsAppend(matches, e);
  }

  lemma AllIdsMore(done: set<Ref>, idsOf: Ref -> seq<string>, e: Ref, id: string)
    ensures CarriersSoFar(done, idsOf, e, |idsOf(e)|, id) == CarriersOf(done + {e}, idsOf, id)
    ensures CarriersSoFar(done, idsOf, e, 0, id) == CarriersOf(done, idsOf, id)
  {
    assert idsOf(e)[..|idsOf(e)|] == idsOf(e);
  }

  /** Groups by id, each entry under each of its ids; then keeps the ids all of whose carriers are selected. */
  method UniquelySelectedIds(entries: seq<Ref>, selected: set<Ref>, idsOf: Ref -> seq<string>)
    returns (ids: set<string>)
    ensures forall id :: id in ids <==>
        CarriersOf(Refs(entries), idsOf, id) != {} && CarriersOf(Refs(entries), idsOf, id) <= selected
  {
    var groups: map<string, seq<Ref>> := map[];
    for i := 0 to |entries|
      invariant forall id :: IsGrouped(groups, id, CarriersOf(Refs(entries[..i]), idsOf, id))
    {
      groups := AddUnderItsIds(groups, Refs(entries[..i]), entries[i], idsOf);
      assert entries[..i + 1] == entries[..i] + [entries[i]];
      RefsAppend(entries[..i], entries[i]);
    }
    assert entries[..|entries|] == entries;
    ids := set id | id in groups && forall e :: e in groups[id] ==> e in selected;
    forall id
      ensures IsGrouped(groups, id, CarriersOf(Refs(entries), idsOf, id))
    {
    }
    forall id | id in groups
      ensures (forall e :: e in groups[id] ==> e in selected) <==> CarriersOf(Refs(entries), idsOf, id) <= selected
    {
      assert forall e :: e in groups[id] <==> e in Refs(groups[id]);
    }
  }

  method AddUnderItsIds(before: map<string, seq<Ref>>, ghost done: set<Ref>, e: Ref, idsOf: Ref -> seq<string>)
    returns (groups: map<string, seq<Ref>>)
    requires forall id :: IsGrouped(before, id, CarriersOf(done, idsOf, id))
    ensures forall id :: IsGrouped(groups, id, CarriersOf(done + {e}, idsOf, id))
  {
    hide IsGrouped, CarriersSoFar;
    groups := before;
    forall id
      ensures IsGrouped(groups, id, CarriersSoFar(done, idsOf, e, 0, id))
    {
      AllIdsMore(done, idsOf, e, id);
    }
    for k := 0 to |idsOf(e)|
      invariant forall id :: IsGrouped(groups, id, CarriersSoFar(done, idsOf, e, k, id))
    {
      ghost var earlier := groups;
      var own := idsOf(e)[k];
      var matches := if own in groups then groups[own] else [];
      groups := groups[own := matches + [e]];
      ghost var n := k + 1;
      forall id
        ensures IsGrouped(groups, id, CarriersSoFar(done, idsOf, e, n, id))
      {
        OneIdMore(earlier, done, idsOf, e, k, id);
      }
    }
    forall id
      ensures IsGrouped(groups, id, CarriersOf(done + {e}, idsOf, id))
    {
      AllIdsMore(done, idsOf, e, id);
    }
  }
}
