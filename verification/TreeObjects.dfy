/** The objects of the status tree: their conditions, what makes them healthy, and the group
    nodes that stand for several objects. */
module TreeObjects {
  import opened Common
  import opened TreeShape

  datatype Status = ConditionTrue | ConditionFalse | ConditionUnknown

  datatype Condition = Condition(kind: string, status: Status, reason: string, message: string, lastTransition: int)

  /** `grouping`, `group` and `groupItems` are the annotations that drive grouping. */
  datatype Object = Object(uid: Uid, kind: string, name: string, conditions: seq<Condition>,
                           grouping: bool, group: bool, groupItems: string, zOrder: int)

  const READY := "Ready"
  const PENDING := "Pending"

  function FindReady(conditions: seq<Condition>): (ready: Option<Condition>)
    ensures ready.Some? ==> ready.value.kind == READY
  {
    if conditions == [] then None
    else if conditions[0].kind == READY then Some(conditions[0])
    else FindReady(conditions[1..])
  }

  function ReadyOf(o: Object): Option<Condition> {
    FindReady(o.conditions)
  }

  predicate IsPending(c: Condition) {
    c.reason == PENDING && c.status == ConditionUnknown
  }

  predicate HasFailedConditions(o: Object, showPending: bool) {
    exists i :: 0 <= i < |o.conditions| &&
      o.conditions[i].status != ConditionTrue && (showPending || !IsPending(o.conditions[i]))
  }

  predicate IsHealthy(o: Object, showPending: bool) {
    match ReadyOf(o)
    case None => !HasFailedConditions(o, showPending)
    case Some(ready) => ready.status == ConditionTrue
  }

  /** A child that by itself keeps its parent out of a group. */
  predicate IsNotReady(o: Object, showPending: bool) {
    match ReadyOf(o)
    case None => HasFailedConditions(o, showPending)
    case Some(ready) => ready.status != ConditionTrue
  }

  /** An organizational node: its own children are looked at in its place. */
  predicate IsPlain(o: Object) {
    |o.conditions| == 0
  }

  predicate SameStatusAndReason(a: Option<Condition>, b: Option<Condition>) {
    a.None? == b.None? && (a.Some? && b.Some? ==> a.value.status == b.value.status && a.value.reason == b.value.reason)
  }

  predicate ReadyTrue(o: Object) {
    ReadyOf(o).Some? && ReadyOf(o).value.status == ConditionTrue
  }

  /** The reason and the transition time of the Ready condition, if there is one. */
  function Reason(o: Object): string {
    match ReadyOf(o)
    case None => ""
    case Some(ready) => ready.reason
  }

  function Since(o: Object): int {
    match ReadyOf(o)
    case None => 0
    case Some(ready) => ready.lastTransition
  }
}
