/** The part of a pod that the controller reads and writes, and the condition helpers of
    pkg/controller/pod_controller.go. */
module Pods {
  import opened Common

  /** Condition types; the readiness gate carries the name of the warmup condition. */
  datatype Kind = WarmupReady | ContainersReady | OtherKind(name: string)

  datatype Truth = IsTrue | IsFalse | IsUnknown

  datatype Phase = Running | OtherPhase(name: string)

  /** `WarmupComplete` and `WarmupFailedOpen` are the reasons the controller writes. */
  datatype Reason = WarmupComplete | WarmupFailedOpen | OtherReason(text: string)

  /** `FailOpen(text)` is the text behind the controller's fail-open prefix. */
  datatype Message = Plain(text: string) | FailOpen(text: string)

  datatype Condition = Condition(kind: Kind, status: Truth, transition: int, reason: Reason, message: Message)

  datatype Container = Container(name: string, ports: seq<int>)

  datatype Status = Status(phase: Phase, conditions: seq<Condition>, containersReady: seq<bool>, podIP: string)

  /** `version` is metadata.resourceVersion and `uid` metadata.uid. */
  datatype Pod = Pod(
    uid: nat, version: nat, namespace: string, node: string,
    annotations: Option<map<string, string>>, containers: seq<Container>, gates: seq<Kind>,
    status: Status)

  // ---------------------------------------------------------------- reading

  /** Index i holds the first condition of the given kind. */
  ghost predicate FirstOfKind(conditions: seq<Condition>, kind: Kind, i: int) {
    && 0 <= i < |conditions| && conditions[i].kind == kind
    && forall j :: 0 <= j < i ==> conditions[j].kind != kind
  }

  ghost predicate HasCondition(conditions: seq<Condition>, kind: Kind) {
    exists i :: FirstOfKind(conditions, kind, i) && conditions[i].status == IsTrue
  }

  method IsConditionTrue(conditions: seq<Condition>, kind: Kind) returns (r: bool)
    ensures r <==> HasCondition(conditions, kind)
  {
    for i := 0 to |conditions|
      invariant forall j :: 0 <= j < i ==> conditions[j].kind != kind
    {
      if conditions[i].kind == kind {
        assert FirstOfKind(conditions, kind, i);
        return conditions[i].status == IsTrue;
      }
    }
    return false;
  }

  ghost predicate AllReady(containersReady: seq<bool>) {
    containersReady != [] && forall i :: 0 <= i < |containersReady| ==> containersReady[i]
  }

  method AreContainersReady(containersReady: seq<bool>) returns (r: bool)
    ensures r <==> AllReady(containersReady)
  {
    for i := 0 to |containersReady|
      invariant forall j :: 0 <= j < i ==> containersReady[j]
    {
      if !containersReady[i] {
        return false;
      }
    }
    return |containersReady| > 0;
  }

  /** The checks Reconcile makes before it starts a warmup. */
  ghost predicate ReadyForWarmup(pod: Pod) {
    && WarmupReady in pod.gates
    && !HasCondition(pod.status.conditions, WarmupReady)
    && pod.status.phase == Running
    && AllReady(pod.status.containersReady)
    && HasCondition(pod.status.conditions, ContainersReady)
  }

  // ---------------------------------------------------------------- writing

  function Ready(now: int, reason: Reason, message: Message): Condition {
    Condition(WarmupReady, IsTrue, now, reason, message)
  }

  /** The conditions after setConditionTrue: the first warmup condition is overwritten, or a
      new one is appended. */
  function WithReady(conditions: seq<Condition>, ready: Condition): seq<Condition> {
    if conditions == [] then [ready]
    else if conditions[0].kind == WarmupReady then [ready] + conditions[1..]
    else [conditions[0]] + WithReady(conditions[1..], ready)
  }

  /** One position k changed to the given condition; every other position is untouched. */
  ghost predicate OnlyChanged(before: seq<Condition>, after: seq<Condition>, k: int, ready: Condition) {
    && 0 <= k < |after| && |before| <= |after| <= |before| + 1
    && (|after| > |before| ==> k == |before|)
    && after[k] == ready
    && forall j :: 0 <= j < |before| && j != k ==> after[j] == before[j]
  }

  /** Writing the condition makes it the first of its kind, hence true to isConditionTrue, and
      changes nothing else: any position it overwrites held the first warmup condition. */
  lemma {:induction false} WithReadyChangesOnlyIt(conditions: seq<Condition>, ready: Condition) returns (k: nat)
    requires ready.kind == WarmupReady
    ensures OnlyChanged(conditions, WithReady(conditions, ready), k, ready)
    ensures FirstOfKind(WithReady(conditions, ready), WarmupReady, k)
    ensures k < |conditions| ==> FirstOfKind(conditions, WarmupReady, k)
    decreases |conditions|
  {
    if conditions == [] || conditions[0].kind == WarmupReady {
      k := 0;
    } else {
      var t := WithReadyChangesOnlyIt(conditions[1..], ready);
      k := t + 1;
      var after := WithReady(conditions, ready);
      assert forall j :: 0 < j < |conditions| ==> conditions[j] == conditions[1..][j - 1];
      assert forall j :: 0 < j < |after| ==> after[j] == WithReady(conditions[1..], ready)[j - 1];
    }
  }

  /** Every other kind of condition reads the same before and after. */
  lemma WithReadyKeepsOthers(conditions: seq<Condition>, ready: Condition, kind: Kind)
    requires ready.kind == WarmupReady && kind != WarmupReady
    ensures HasCondition(WithReady(conditions, ready), kind) <==> HasCondition(conditions, kind)
  {
    var k := WithReadyChangesOnlyIt(conditions, ready);
    var after := WithReady(conditions, ready);
    if i :| FirstOfKind(conditions, kind, i) && conditions[i].status == IsTrue {
      assert FirstOfKind(after, kind, i) && after[i].status == IsTrue;
    }
    if i :| FirstOfKind(after, kind, i) && after[i].status == IsTrue {
      assert FirstOfKind(conditions, kind, i) && conditions[i].status == IsTrue;
    }
  }

  /** The place of the change: the first warmup condition, or the end. */
  lemma {:induction false} WithReadyAt(conditions: seq<Condition>, ready: Condition, i: nat)
    requires i <= |conditions| && forall j :: 0 <= j < i ==> conditions[j].kind != WarmupReady
    requires i < |conditions| ==> conditions[i].kind == WarmupReady
    ensures WithReady(conditions, ready)
            == if i < |conditions| then conditions[i := ready] else conditions + [ready]
    decreases i
  {
    if i > 0 {
      WithReadyAt(conditions[1..], ready, i - 1);
      assert conditions == [conditions[0]] + conditions[1..];
    }
  }

  /** podCopy: the deep copy whose conditions are edited in place. */
  class PodCopy {
    var conditions: seq<Condition>

    constructor (conditions: seq<Condition>)
      ensures this.conditions == conditions
    {
      this.conditions := conditions;
    }

    /** The find-or-append loop of setConditionTrue. */
    method SetReady(now: int, reason: Reason, message: Message)
      modifies this
      ensures conditions == WithReady(old(conditions), Ready(now, reason, message))
    {
      ghost var before := conditions;
      var updated := false;
      for i := 0 to |conditions|
        invariant conditions == before && !updated
        invariant forall j :: 0 <= j < i ==> before[j].kind != WarmupReady
      {
        if conditions[i].kind == WarmupReady {
          WithReadyAt(before, Ready(now, reason, message), i);
          conditions := conditions[i := Condition(conditions[i].kind, IsTrue, now, reason, message)];
          updated := true;
          break;
        }
      }
      if !updated {
        WithReadyAt(before, Ready(now, reason, message), |before|);
        conditions := conditions + [Condition(WarmupReady, IsTrue, now, reason, message)];
      }
    }
  }
}
