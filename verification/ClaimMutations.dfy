/** The goal mutations that the work-claim operations of the project store apply. */
module ClaimMutations {
  import opened Text
  import opened GoalTypes
  import opened GoalService

  function MapItem(items: seq<WorkItem>, id: Id, f: WorkItem -> WorkItem): (r: seq<WorkItem>)
    ensures |r| == |items|
    ensures forall i :: 0 <= i < |items| ==> r[i] == if items[i].id == id then f(items[i]) else items[i]
  {
    seq(|items|, i requires 0 <= i < |items| => if items[i].id == id then f(items[i]) else items[i])
  }

  predicate HasItem(goal: Goal, id: Id) {
    exists x :: x in goal.workItems && x.id == id
  }

  function MarkRunning(goal: Goal, id: Id, at: Time): Goal {
    if !HasItem(goal, id) then goal
    else Bump(goal.(
        workItems := MapItem(goal.workItems, id, (x: WorkItem) => x.(status := Running, updatedAt := at))), at)
  }

  predicate IsHeld(item: WorkItem) {
    item.status.Running? || item.status.Claimed?
  }

  /** Puts a running or claimed item back on the open frontier. */
  function ReleaseItem(goal: Goal, id: Id, at: Time): Goal {
    if !(exists x :: x in goal.workItems && x.id == id && IsHeld(x)) then goal
    else
      Bump(goal.(workItems := MapItem(goal.workItems, id,
        (x: WorkItem) => if IsHeld(x) then x.(status := Open, updatedAt := at) else x)), at)
  }

  predicate CanComplete(goal: Goal, id: Id) {
    exists x :: x in goal.workItems && x.id == id && !x.status.Done?
  }

  function CompleteItem(goal: Goal, id: Id, refs: seq<string>, at: Time): Goal {
    if !CanComplete(goal, id) then goal
    else
      Bump(goal.(
        workItems := MapItem(goal.workItems, id,
          (x: WorkItem) => if x.status.Done? then x
                           else x.(status := Done,
                               evidenceRefs := UniqueStrings(x.evidenceRefs + refs), updatedAt := at)),
        delivery := goal.delivery.(completedWorkItems := goal.delivery.completedWorkItems + 1),
        planRevision := goal.planRevision + 1), at)
  }

  /** The three rewrites of a claimed item, as one value. */
  datatype ItemWrite = Marking | Releasing | Completing(refs: seq<string>)

  function Rewrite(goal: Goal, id: Id, write: ItemWrite, at: Time): Goal {
    match write
    case Marking => MarkRunning(goal, id, at)
    case Releasing => ReleaseItem(goal, id, at)
    case Completing(refs) => CompleteItem(goal, id, refs, at)
  }

  /** The goal has an item that the write would change. */
  predicate Affects(goal: Goal, id: Id, write: ItemWrite) {
    match write
    case Marking => HasItem(goal, id)
    case Releasing => exists x :: x in goal.workItems && x.id == id && IsHeld(x)
    case Completing(_) => CanComplete(goal, id)
  }

  lemma RewriteKeepsStatus(goal: Goal, id: Id, write: ItemWrite, at: Time)
    ensures Rewrite(goal, id, write, at).status == goal.status
  {
    hide UniqueStrings, MapItem;
  }
}
