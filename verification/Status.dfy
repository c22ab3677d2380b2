/** How large a published ring can be, and what the status conditions then say. */
module Status {
  import opened Basics
  import opened Pods
  import opened HashRing
  import opened ApiServer
  import opened Protocol
  import opened Invariants
  import opened Versions

  datatype Reason = NoReadyPods | InsufficientReplicas | RingNotPublished | Reconciled

  /** The conditions a completed pass reports. */
  datatype Conditions = Conditions(available: bool, reason: Reason, progressing: bool)

  function ObservedConditions(desired: Count, ring: Ring): (c: Conditions)
    ensures c.available <==> c.reason == Reconciled
    ensures c.reason == RingNotPublished <==> ring.version == 0 && 0 < |ring.members| && desired <= |ring.members|
  {
    var ready := |ring.members|;
    var reason :=
      if ready == 0 then NoReadyPods
      else if ready < desired then InsufficientReplicas
      else if ring.version == 0 then RingNotPublished
      else Reconciled;
    Conditions(reason.Reconciled?, reason, ready != desired)
  }

  lemma OwnOrdinal(cfg: Config, o: Objects, p: Pod)
    requires PodsInv(cfg, o) && p in o.pods
    ensures 0 <= Ordinal(p.name)
  {
    assert OwnPod(cfg, o, p);
  }

  /** Members below the requested count are at most as many. */
  lemma MembersFit(cfg: Config, o: Objects, replicas: Count)
    requires PodsInv(cfg, o) && forall n :: n in Members(o.pods) ==> Ordinal(n) < replicas
    ensures |Members(o.pods)| <= replicas
  {
    OwnNames(cfg, o);
    MembersUnique(o.pods, Members(o.pods));
    forall n | n in Members(o.pods) ensures 0 <= Ordinal(n) {
      var p :| p in o.pods && Eligible(p) && p.name == n;
      OwnOrdinal(cfg, o, p);
    }
    Pigeonhole(Members(o.pods), replicas);
  }

  /**
   A pass publishes only pods below the replica count it read, apart from pods created after it
   listed the pods to drain: the bound holds exactly when none of those is eligible above it.
   */
  lemma MembersBelowRequest(cfg: Config, w: World)
    requires Inv(cfg, w) && w.op.Scaled?
    ensures (forall n :: n in Members(w.o.pods) ==> Ordinal(n) < w.op.cr.replicas)
       <==> (forall p :: p in w.o.pods && p.id >= w.op.fence && Eligible(p) ==> Ordinal(p.name) < w.op.cr.replicas)
    ensures (forall n :: n in Members(w.o.pods) ==> Ordinal(n) < w.op.cr.replicas) ==>
              |Members(w.o.pods)| <= w.op.cr.replicas
  {
    if forall n :: n in Members(w.o.pods) ==> Ordinal(n) < w.op.cr.replicas {
      MembersFit(cfg, w.o, w.op.cr.replicas);
      forall p | p in w.o.pods && Eligible(p) ensures Ordinal(p.name) < w.op.cr.replicas {
        assert p.name in Members(w.o.pods);
      }
    }
  }

  /** The ring bound in every run: without pods created mid-pass, at most as many members as replicas requested. */
  lemma RingBound(cfg: Config, run: Run, k: nat)
    requires IsRun(cfg, run) && k < |run.steps| && run.states[k].op.Scaled?
    requires run.states[k].op.fence == run.states[k].o.nextId
    ensures |DesiredRing(run.states[k].o).members| <= run.states[k].op.cr.replicas
    ensures forall n :: n in DesiredRing(run.states[k].o).members ==> Ordinal(n) < run.states[k].op.cr.replicas
  {
    RunInv(cfg, run, k);
    var w := run.states[k];
    forall p | p in w.o.pods ensures p.id < w.op.fence {
      assert OwnPod(cfg, w.o, p);
    }
    MembersBelowRequest(cfg, w);
  }

  predicate RequestsPods(w: World) {
    && (w.o.cr.Some? ==> w.o.cr.value.replicas >= 1)
    && (!w.op.Idle? ==> w.op.cr.replicas >= 1)
  }

  lemma {:induction false} RunRequestsPods(cfg: Config, run: Run, k: nat)
    requires IsRun(cfg, run) && k < |run.states|
    ensures RequestsPods(run.states[k])
  {
    if k > 0 {
      RunRequestsPods(cfg, run, k - 1);
      assert StepAt(cfg, run, k - 1);
      RequestsStep(cfg, run.states[k - 1], run.steps[k - 1]);
    }
  }

  lemma RequestsStep(cfg: Config, w: World, s: Step)
    requires RequestsPods(w) && Enabled(cfg, w, s)
    ensures RequestsPods(Apply(cfg, w, s))
  {
    match s
    case Operator(a) =>
      match a {
        case Begin(_) =>
        case DrainPods(_) =>
        case _ =>
      }
    case Env(e) =>
    case Poll(_) =>
  }

  /** What a pass reports at its publication, in terms of the ring's size and the request. */
  lemma ReportedConditions(cfg: Config, run: Run, k: nat)
    requires IsRun(cfg, run) && k < |run.steps| && Clean(run, k) && CanCount(run.states[k].o.ring) && run.states[k].op.Scaled?
    ensures var ready, desired := |DesiredRing(run.states[k].o).members|, run.states[k].op.cr.replicas;
            var conditions := ObservedConditions(desired, DesiredRing(run.states[k].o));
            && (conditions.available <==> ready >= desired)
            && (conditions.progressing <==> ready != desired)
            && (conditions.reason == NoReadyPods <==> ready == 0)
            && (conditions.reason == InsufficientReplicas <==> 0 < ready < desired)
            && (conditions.reason == Reconciled <==> ready >= desired)
  {
    RunRequestsPods(cfg, run, k);
    RunRing(cfg, run, k);
  }

  /**
   A non-empty ring has a version of at least one, so the ring is never reported as unpublished;
   and Available is the negation of Progressing exactly when the ring is not larger than the
   request.
   */
  lemma ConditionsAgreeIff(cfg: Config, run: Run, k: nat)
    requires IsRun(cfg, run) && k < |run.steps| && Clean(run, k) && CanCount(run.states[k].o.ring) && run.states[k].op.Scaled?
    ensures var ring := DesiredRing(run.states[k].o);
            var conditions := ObservedConditions(run.states[k].op.cr.replicas, ring);
            && (ring.members != [] ==> ring.version >= 1)
            && !conditions.reason.RingNotPublished?
            && ((conditions.available <==> !conditions.progressing) <==> |ring.members| <= run.states[k].op.cr.replicas)
  {
    RunRequestsPods(cfg, run, k);
    RunRing(cfg, run, k);
  }

  /**
   After a pass during which no pod was created, Available holds exactly when Progressing does
   not: the two conditions are not independent.
   */
  lemma AvailableIffSteady(cfg: Config, run: Run, k: nat)
    requires IsRun(cfg, run) && k < |run.steps| && Clean(run, k) && CanCount(run.states[k].o.ring)
    requires run.states[k].op.Scaled? && run.states[k].op.fence == run.states[k].o.nextId
    ensures var conditions := ObservedConditions(run.states[k].op.cr.replicas, DesiredRing(run.states[k].o));
            conditions.available <==> !conditions.progressing
  {
    RingBound(cfg, run, k);
    ConditionsAgreeIff(cfg, run, k);
  }
}
