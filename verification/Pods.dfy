/** Cache pods as the API server reports them, and the ring membership derived from them. */
module Pods {
  import opened Names
  import opened Sorting

  /** The drain annotation: absent, a well-formed unix timestamp, or text that does not parse. */
  datatype Drain = Unmarked | Marked(ts: int) | Garbled

  datatype Phase = Pending | Running | Succeeded | Failed | Unknown

  datatype ConditionStatus = IsTrue | IsFalse | IsUnknown

  datatype Condition = Condition(kind: string, status: ConditionStatus)

  const POD_READY := "Ready"

  /** `id` tells instances apart: a re-created pod keeps the name and gets a new `id`. */
  datatype Pod = Pod(
    id: nat,
    name: string,
    phase: Phase,
    conditions: seq<Condition>,
    terminating: bool,
    drain: Drain)

  /** The first Ready condition decides; without one the pod is not ready. */
  function IsReady(conditions: seq<Condition>): (ready: bool)
    ensures ready <==> exists i :: 0 <= i < |conditions|
                         && conditions[i] == Condition(POD_READY, IsTrue)
                         && forall j :: 0 <= j < i ==> conditions[j].kind != POD_READY
  {
    if conditions == [] then false
    else if conditions[0].kind == POD_READY then
      assert conditions[0].status == IsTrue ==> conditions[0] == Condition(POD_READY, IsTrue);
      conditions[0].status == IsTrue
    else
      var ready := IsReady(conditions[1..]);
      assert ready ==> exists i :: 0 <= i < |conditions[1..]|
                         && conditions[1..][i] == Condition(POD_READY, IsTrue)
                         && forall j :: 0 <= j < i ==> conditions[1..][j].kind != POD_READY;
      assert forall i :: 1 <= i < |conditions| ==> conditions[i] == conditions[1..][i - 1];
      ready
  }

  /** The first condition of the kind "Ready" has this status. */
  predicate FirstReady(conditions: seq<Condition>, status: ConditionStatus) {
    exists i :: 0 <= i < |conditions| && conditions[i] == Condition("Ready", status)
             && forall j :: 0 <= j < i ==> conditions[j].kind != "Ready"
  }

  lemma ReadyIff(conditions: seq<Condition>)
    ensures IsReady(conditions) <==> FirstReady(conditions, IsTrue)
  {
  }

  /** The pods that belong in the ring. */
  predicate Eligible(p: Pod) {
    && !p.terminating
    && p.drain.Unmarked?
    && p.phase.Running?
    && IsReady(p.conditions)
    && PodOrdinal(p.name).Some?
  }

  /** The names of the eligible pods, in list order. */
  function EligibleNames(pods: seq<Pod>): (names: seq<string>)
    ensures forall n :: n in names <==> exists p :: p in pods && Eligible(p) && p.name == n
  {
    if pods == [] then []
    else
      var last := pods[|pods| - 1];
      var front := EligibleNames(pods[..|pods| - 1]);
      assert pods == pods[..|pods| - 1] + [last];
      if Eligible(last) then front + [last.name] else front
  }

  /** The sort key; the default is never used on an eligible pod. */
  function Ordinal(name: string): int {
    var k := PodOrdinal(name);
    if k.Some? then k.value else -1
  }

  predicate DistinctOrdinals(pods: seq<Pod>) {
    forall i, j :: 0 <= i < j < |pods| ==> Ordinal(pods[i].name) != Ordinal(pods[j].name)
  }

  /** Ring membership as one function, used wherever pods have distinct ordinals. */
  function Members(pods: seq<Pod>): (members: seq<string>)
    ensures SortedBy(Ordinal, members)
    ensures forall n :: n in members <==> exists p :: p in pods && Eligible(p) && p.name == n
  {
    SameElements(Sort(Ordinal, EligibleNames(pods)), EligibleNames(pods));
    Sort(Ordinal, EligibleNames(pods))
  }

  lemma {:induction false} EligibleNamesDistinct(pods: seq<Pod>)
    requires DistinctOrdinals(pods)
    ensures DistinctKeys(Ordinal, EligibleNames(pods))
  {
    if pods != [] {
      var front := pods[..|pods| - 1];
      EligibleNamesDistinct(front);
      var last := pods[|pods| - 1];
      var names := EligibleNames(front);
      forall i | 0 <= i < |names| ensures Ordinal(names[i]) != Ordinal(last.name) {
        assert names[i] in names;
        var p :| p in front && Eligible(p) && p.name == names[i];
      }
    }
  }

  /** With distinct ordinals every sort of the eligible names is the same list. */
  lemma MembersUnique(pods: seq<Pod>, out: seq<string>)
    requires DistinctOrdinals(pods)
    requires IsSortOf(Ordinal, out, EligibleNames(pods))
    ensures StrictlySortedBy(Ordinal, out)
    ensures out == Members(pods)
  {
    EligibleNamesDistinct(pods);
    SortDistinct(Ordinal, out, EligibleNames(pods));
    SortDistinct(Ordinal, Members(pods), EligibleNames(pods));
    SameElements(out, EligibleNames(pods));
    StrictlySortedUnique(Ordinal, out, Members(pods));
  }

  /** The order in which pods are listed never shows in the ring. */
  lemma MembersIgnoreListOrder(a: seq<Pod>, b: seq<Pod>)
    requires DistinctOrdinals(a) && DistinctOrdinals(b)
    requires forall p :: p in a <==> p in b
    ensures Members(a) == Members(b)
  {
    MembersUnique(a, Members(a));
    MembersUnique(b, Members(b));
    StrictlySortedUnique(Ordinal, Members(a), Members(b));
  }

  /** The filter-and-sort of the published membership. */
  method ComputeMembers(pods: seq<Pod>) returns (out: seq<string>)
    ensures IsSortOf(Ordinal, out, EligibleNames(pods))
    ensures DistinctOrdinals(pods) ==> out == Members(pods)
    ensures forall n :: n in out <==>
              exists p :: (p in pods && p.name == n && !p.terminating && p.drain == Unmarked && p.phase == Running
                           && FirstReady(p.conditions, IsTrue) && PodOrdinal(n).Some?)
  {
    var ready: seq<string> := [];
    for i := 0 to |pods|
      invariant ready == EligibleNames(pods[..i])
    {
      var p := pods[i];
      assert pods[..i + 1][..i] == pods[..i];
      if p.terminating { continue; }
      if !p.drain.Unmarked? { continue; }
      if !p.phase.Running? { continue; }
      if !IsReady(p.conditions) { continue; }
      if PodOrdinal(p.name).None? { continue; }
      ready := ready + [p.name];
    }
    assert pods[..|pods|] == pods;
    out := Sort(Ordinal, ready);
    SameElements(out, ready);
    forall p | p in pods ensures IsReady(p.conditions) <==> FirstReady(p.conditions, IsTrue) { ReadyIff(p.conditions); }
    if DistinctOrdinals(pods) {
      MembersUnique(pods, out);
    }
  }

  /** A strictly increasing list of ordinals in [0, n) has at most n entries. */
  lemma {:induction false} Pigeonhole(members: seq<string>, n: nat)
    requires StrictlySortedBy(Ordinal, members)
    requires forall m :: m in members ==> 0 <= Ordinal(m) < n
    ensures |members| <= n
  {
    if members != [] {
      var last := members[|members| - 1];
      assert last in members;
      var front := members[..|members| - 1];
      forall m | m in front ensures 0 <= Ordinal(m) < Ordinal(last) {
        assert m in members;
      }
      Pigeonhole(front, Ordinal(last));
    }
  }
}
