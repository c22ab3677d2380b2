/** What every reachable state of the drain protocol satisfies. */
module Invariants {
  import opened Basics
  import opened Names
  import opened Pods
  import opened ApiServer
  import opened Protocol

  /** The pod was printed by this cache's StatefulSet. */
  predicate OwnPod(cfg: Config, o: Objects, p: Pod) {
    OfSet(cfg.name, p.name) && p.id < o.nextId
  }

  predicate UniqueIds(pods: seq<Pod>) {
    forall i, j :: 0 <= i < j < |pods| ==> pods[i].id != pods[j].id
  }

  /** Pods carry the set's names; instances and names are unique. */
  predicate PodsInv(cfg: Config, o: Objects) {
    && (forall p :: p in o.pods ==> OwnPod(cfg, o, p))
    && UniqueNames(o.pods)
    && UniqueIds(o.pods)
  }

  predicate LiveOp(op: Op) {
    op.Began? || op.Placed? || op.Drained? || op.Scaled?
  }

  predicate DyingOp(op: Op) {
    op.Dying? || op.DyingMarked? || op.DyingShown? || op.TornDown?
  }

  /**
   The finalizer guards everything the operator creates: without it nothing exists and no pass is
   under way; a pass under way implies it; the cell terminates only for a resource being deleted.
   */
  predicate GuardInv(cfg: Config, w: World) {
    && (!CrossNamespace(cfg) || w.op.TornDown? ==> w.o.cell.NoCell?)
    && (w.o.cr.None? ==> w.op.Idle?)
    && (w.o.cr.Some? && !w.o.cr.value.finalizer ==>
          w.op.Idle? && w.o.sts.None? && w.o.pods == [] && w.o.cell.NoCell? && !w.o.cr.value.deleting)
    && (LiveOp(w.op) ==> !w.o.cell.Terminating?)
    && (LiveOp(w.op) && !w.op.Began? ==> Writable(cfg, w.o))
    && (DyingOp(w.op) ==> w.o.cr.Some? && w.o.cr.value.deleting)
    && (w.o.cell.Terminating? ==> w.o.cr.Some? && w.o.cr.value.deleting)
    && (w.o.pods != [] && w.o.sts.None? ==> w.o.cr.None? || w.o.cell.Terminating?)
  }

  /** The pod can no longer enter a published ring. */
  predicate Out(p: Pod) {
    !p.drain.Unmarked? || p.terminating
  }

  /** Pods at or above the StatefulSet's count are on their way out. */
  predicate BeyondInv(o: Objects) {
    o.sts.Some? ==> forall p :: p in o.pods && Ordinal(p.name) >= o.sts.value ==> Out(p)
  }

  /** Pods listed by the pass at or above the requested count are on their way out. */
  predicate FencedOut(o: Objects, replicas: Count, fence: nat) {
    forall p :: p in o.pods && p.id < fence && Ordinal(p.name) >= replicas ==> Out(p)
  }

  /** A finished drain: every doomed pod still there has waited out its grace. */
  predicate DoomedAged(o: Objects, cr: Cr) {
    o.sts.Some? ==>
      forall p :: p in o.pods && cr.replicas <= Ordinal(p.name) < o.sts.value ==> Aged(p, cr.grace, o.clock)
  }

  /** A finished deletion drain: every pod it listed has waited out its grace. */
  predicate FencedAged(o: Objects, cr: Cr, fence: nat) {
    forall p :: p in o.pods && p.id < fence ==> Aged(p, cr.grace, o.clock)
  }

  /** No pod listed by the deletion pass can be in a ring. */
  predicate FencedMarked(o: Objects, fence: nat) {
    forall p :: p in o.pods && p.id < fence ==> !p.drain.Unmarked?
  }

  predicate PassInv(w: World) {
    match w.op
    case Drained(cr, complete, fence) =>
      fence == w.o.nextId && FencedOut(w.o, cr.replicas, fence) && (complete ==> DoomedAged(w.o, cr))
    case Scaled(cr, complete, fence) =>
      fence <= w.o.nextId && FencedOut(w.o, cr.replicas, fence)
    case DyingMarked(cr, complete, fence) =>
      fence <= w.o.nextId && FencedMarked(w.o, fence) && (complete ==> FencedAged(w.o, cr, fence))
    case DyingShown(cr, fence) =>
      fence <= w.o.nextId && FencedAged(w.o, cr, fence)
    case TornDown(cr, fence) =>
      fence <= w.o.nextId && FencedAged(w.o, cr, fence)
    case _ => true
  }

  predicate Inv(cfg: Config, w: World) {
    PodsInv(cfg, w.o) && GuardInv(cfg, w) && BeyondInv(w.o) && PassInv(w)
  }

  // Pod lists

  /** The ordinal of one of the set's pods determines its name. */
  lemma OwnNames(cfg: Config, o: Objects)
    requires PodsInv(cfg, o)
    ensures DistinctOrdinals(o.pods)
  {
    forall i, j | 0 <= i < j < |o.pods|
      ensures Ordinal(o.pods[i].name) != Ordinal(o.pods[j].name)
    {
      assert o.pods[i] in o.pods && o.pods[j] in o.pods;
    }
  }

  lemma SameIdSamePod(pods: seq<Pod>, p: Pod, q: Pod)
    requires UniqueIds(pods) && p in pods && q in pods && p.id == q.id
    ensures p == q
  {
  }

  lemma SameNameSamePod(pods: seq<Pod>, p: Pod, q: Pod)
    requires UniqueNames(pods) && p in pods && q in pods && p.name == q.name
    ensures p == q
  {
  }

  lemma UniqueIdsFromNames(a: seq<Pod>, b: seq<Pod>)
    requires UniqueIds(a) && UniqueNames(b) && SamePods(b, a)
    ensures UniqueIds(b)
  {
    forall i, j | 0 <= i < j < |b| ensures b[i].id != b[j].id {
      assert b[i] in a && b[j] in a;
      if b[i].id == b[j].id { SameIdSamePod(a, b[i], b[j]); }
    }
  }

  /** How a pod of the new list relates to the old list: the same instance, no less drained. */
  predicate Descends(p: Pod, q: Pod) {
    && p.id == q.id && p.name == q.name
    && (q.terminating ==> p.terminating)
    && (q.drain.Marked? ==> p.drain == q.drain)
    && (!q.drain.Unmarked? ==> !p.drain.Unmarked?)
  }

  /** Every pod after a step descends from a pod before it, or is a new instance of the set. */
  ghost predicate PodsEvolve(cfg: Config, o: Objects, o': Objects) {
    && o.nextId <= o'.nextId
    && o.clock <= o'.clock
    && forall p :: p in o'.pods ==>
         (o.nextId <= p.id < o'.nextId && OfSet(cfg.name, p.name) && p.drain.Unmarked?) || exists q :: q in o.pods && Descends(p, q)
  }

  lemma VisitsDescend(pods: seq<Pod>, r: seq<Pod>)
    requires |r| == |pods|
    requires forall i :: 0 <= i < |r| ==> Descends(r[i], pods[i])
    ensures forall p :: p in r ==> exists q :: q in pods && Descends(p, q)
  {
    forall p | p in r ensures exists q :: q in pods && Descends(p, q) {
      var i :| 0 <= i < |r| && r[i] == p;
      assert pods[i] in pods;
    }
  }

  /** Leaving the pods alone lets them descend from themselves. */
  lemma SamePodsEvolve(cfg: Config, o: Objects, o': Objects)
    requires o'.pods == o.pods && o.nextId <= o'.nextId && o.clock <= o'.clock
    ensures PodsEvolve(cfg, o, o')
  {
    forall p | p in o'.pods ensures exists q :: q in o.pods && Descends(p, q) {
      assert Descends(p, p);
    }
  }

  lemma DrainEvolves(cfg: Config, w: World, cut: nat)
    requires w.op.Placed? && cut <= |w.o.pods|
    ensures PodsEvolve(cfg, w.o, DrainPass(cfg, w, cut).o)
  {
    VisitsDescend(w.o.pods, VisitUpTo(w.o.pods, Doomed(cfg, w.o, w.op.cr), w.o.clock, cut));
  }

  lemma MarkEvolves(cfg: Config, w: World, cut: nat)
    requires w.op.Dying? && cut <= |w.o.pods|
    ensures PodsEvolve(cfg, w.o, MarkPass(w, cut).o)
  {
    VisitsDescend(w.o.pods, DeletionVisitUpTo(w.o.pods, w.o.clock, cut));
  }

  /** Only the two drain loops touch pods. */
  lemma OtherStepsKeepPods(cfg: Config, w: World, a: OperatorStep)
    requires OperatorEnabled(w, a) && !a.DrainPods? && !a.MarkAll?
    ensures var o' := ApplyOperator(cfg, w, a).o; o'.pods == w.o.pods && o'.nextId == w.o.nextId && o'.clock == w.o.clock
  {
  }

  lemma OperatorEvolves(cfg: Config, w: World, a: OperatorStep)
    requires OperatorEnabled(w, a)
    ensures PodsEvolve(cfg, w.o, ApplyOperator(cfg, w, a).o)
  {
    match a
    case DrainPods(cut) => DrainEvolves(cfg, w, cut);
    case MarkAll(cut) => MarkEvolves(cfg, w, cut);
    case _ =>
      OtherStepsKeepPods(cfg, w, a);
      SamePodsEvolve(cfg, w.o, ApplyOperator(cfg, w, a).o);
  }

  lemma StepEvolves(cfg: Config, w: World, s: Step)
    requires Enabled(cfg, w, s)
    ensures PodsEvolve(cfg, w.o, Apply(cfg, w, s).o)
  {
    match s
    case Operator(a) => OperatorEvolves(cfg, w, a);
    case Env(e) => EnvEvolves(cfg, w, e);
    case Poll(_) => SamePodsEvolve(cfg, w.o, w.o);
  }

  lemma EnvEvolves(cfg: Config, w: World, e: EnvStep)
    requires EnvEnabled(cfg, w, e)
    ensures PodsEvolve(cfg, w.o, ApplyEnv(cfg, w, e))
  {
    var o' := ApplyEnv(cfg, w, e);
    forall p | p in o'.pods
      ensures (w.o.nextId <= p.id < o'.nextId && OfSet(cfg.name, p.name) && p.drain.Unmarked?) || exists q :: q in w.o.pods && Descends(p, q)
    {
      var i :| 0 <= i < |o'.pods| && o'.pods[i] == p;
      match e
      case ChangeStatus(_, _, _) => assert Descends(p, w.o.pods[i]);
      case TerminatePod(_) => assert Descends(p, w.o.pods[i]);
      case Scribble(_) => assert Descends(p, w.o.pods[i]);
      case CreatePod(ordinal) =>
        OrdinalRoundTrip(cfg.name, ordinal);
        assert Descends(p, p);
      case _ => assert Descends(p, p);
    }
  }

  lemma EnvKeepsUnique(cfg: Config, w: World, e: EnvStep)
    requires PodsInv(cfg, w.o) && EnvEnabled(cfg, w, e)
    ensures UniqueNames(ApplyEnv(cfg, w, e).pods) && UniqueIds(ApplyEnv(cfg, w, e).pods)
  {
    match e
    case Reorder(pods) => UniqueIdsFromNames(w.o.pods, pods);
    case CreatePod(ordinal) => AdditionKeepsUnique(w.o.pods, NewPod(cfg, w.o, ordinal));
    case RemovePod(i) => RemovalKeepsUnique(w.o.pods, i);
    case ChangeStatus(i, _, _) => UpdateKeepsUnique(w.o.pods, i, ApplyEnv(cfg, w, e).pods[i]);
    case TerminatePod(i) => UpdateKeepsUnique(w.o.pods, i, ApplyEnv(cfg, w, e).pods[i]);
    case Scribble(i) => UpdateKeepsUnique(w.o.pods, i, ApplyEnv(cfg, w, e).pods[i]);
    case _ =>
  }

  lemma AdditionKeepsUnique(pods: seq<Pod>, p: Pod)
    requires UniqueNames(pods) && UniqueIds(pods)
    requires forall q :: q in pods ==> q.name != p.name && q.id != p.id
    ensures UniqueNames(pods + [p]) && UniqueIds(pods + [p])
  {
    assert forall i :: 0 <= i < |pods| ==> pods[i] in pods;
  }

  lemma UpdateKeepsUnique(pods: seq<Pod>, k: nat, p: Pod)
    requires UniqueNames(pods) && UniqueIds(pods) && k < |pods| && p.name == pods[k].name && p.id == pods[k].id
    ensures UniqueNames(pods[k := p]) && UniqueIds(pods[k := p])
  {
  }

  lemma RemovalKeepsUnique(pods: seq<Pod>, k: nat)
    requires UniqueNames(pods) && UniqueIds(pods) && k < |pods|
    ensures UniqueNames(pods[..k] + pods[k + 1..]) && UniqueIds(pods[..k] + pods[k + 1..])
  {
    var r := pods[..k] + pods[k + 1..];
    forall i, j | 0 <= i < j < |r| ensures r[i].name != r[j].name && r[i].id != r[j].id {
      assert r[i] == pods[if i < k then i else i + 1];
      assert r[j] == pods[if j < k then j else j + 1];
    }
  }

  predicate OwnPods(cfg: Config, o: Objects) {
    forall p :: p in o.pods ==> OwnPod(cfg, o, p)
  }

  lemma OwnPodsEvolve(cfg: Config, o: Objects, o': Objects)
    requires OwnPods(cfg, o) && PodsEvolve(cfg, o, o')
    ensures OwnPods(cfg, o')
  {
  }

  /** Operator steps never rename, add or drop a pod. */
  lemma OperatorKeepsPods(cfg: Config, w: World, a: OperatorStep)
    requires OperatorEnabled(w, a)
    ensures var o' := ApplyOperator(cfg, w, a).o;
            |o'.pods| == |w.o.pods| && o'.nextId == w.o.nextId && o'.clock == w.o.clock
            && forall i :: 0 <= i < |o'.pods| ==> o'.pods[i].id == w.o.pods[i].id && o'.pods[i].name == w.o.pods[i].name
  {
  }

  lemma PodsStep(cfg: Config, w: World, s: Step)
    requires PodsInv(cfg, w.o) && Enabled(cfg, w, s)
    ensures PodsInv(cfg, Apply(cfg, w, s).o)
  {
    var o' := Apply(cfg, w, s).o;
    assert OwnPods(cfg, o') by {
      StepEvolves(cfg, w, s);
      OwnPodsEvolve(cfg, w.o, o');
    }
    assert UniqueNames(o'.pods) && UniqueIds(o'.pods) by {
      match s
      case Operator(a) => OperatorKeepsPods(cfg, w, a);
      case Env(e) => EnvKeepsUnique(cfg, w, e);
      case Poll(_) =>
    }
  }

  // The finalizer guard

  lemma GuardOperator(cfg: Config, w: World, a: OperatorStep)
    requires GuardInv(cfg, w) && OperatorEnabled(w, a)
    ensures GuardInv(cfg, ApplyOperator(cfg, w, a))
  {
  }

  lemma GuardEnv(cfg: Config, w: World, e: EnvStep)
    requires GuardInv(cfg, w) && EnvEnabled(cfg, w, e)
    ensures GuardInv(cfg, w.(o := ApplyEnv(cfg, w, e)))
  {
  }

  lemma GuardStep(cfg: Config, w: World, s: Step)
    requires GuardInv(cfg, w) && Enabled(cfg, w, s)
    ensures GuardInv(cfg, Apply(cfg, w, s))
  {
    match s
    case Operator(a) => GuardOperator(cfg, w, a);
    case Env(e) => GuardEnv(cfg, w, e);
    case Poll(_) =>
  }

  // Pods on their way out

  /** Instances below the fence stay out, aged or marked, whatever happens to the list. */
  lemma FencesHold(cfg: Config, o: Objects, o': Objects, cr: Cr, fence: nat)
    requires PodsEvolve(cfg, o, o') && fence <= o.nextId
    ensures FencedOut(o, cr.replicas, fence) ==> FencedOut(o', cr.replicas, fence)
    ensures FencedAged(o, cr, fence) ==> FencedAged(o', cr, fence)
    ensures FencedMarked(o, fence) ==> FencedMarked(o', fence)
  {
  }

  /** With no pod created and the count unchanged, a finished drain stays finished. */
  lemma DoomedStaysAged(cfg: Config, o: Objects, o': Objects, cr: Cr)
    requires PodsEvolve(cfg, o, o') && o'.nextId == o.nextId && (o'.sts == o.sts || o'.sts.None?)
    ensures DoomedAged(o, cr) ==> DoomedAged(o', cr)
  {
  }

  /** One of the set's pods is doomed exactly when its ordinal is in the doomed range. */
  lemma DoomedOwn(cfg: Config, o: Objects, p: Pod, lo: Count, hi: Count)
    requires OwnPod(cfg, o, p)
    ensures p.name in DoomedNames(cfg.name, lo, hi) <==> lo <= Ordinal(p.name) < hi
  {
    DoomedIffOrdinal(cfg.name, p.name, lo, hi);
  }

  /** A visit leaves a pod at or above the requested count on its way out. */
  lemma VisitLeavesOut(cfg: Config, o: Objects, cr: Cr, p: Pod)
    requires OwnPod(cfg, o, p) && Ordinal(p.name) >= cr.replicas && o.sts.Some?
    requires Ordinal(p.name) >= o.sts.value ==> Out(p)
    ensures Out(Visit(p, Doomed(cfg, o, cr), o.clock))
  {
    DoomedOwn(cfg, o, p, cr.replicas, o.sts.value);
  }

  /** A full scale-down loop leaves nothing eligible at or above the requested count. */
  lemma DrainFences(cfg: Config, w: World)
    requires Inv(cfg, w) && w.op.Placed?
    ensures FencedOut(w.o.(pods := VisitUpTo(w.o.pods, Doomed(cfg, w.o, w.op.cr), w.o.clock, |w.o.pods|)),
                      w.op.cr.replicas, w.o.nextId)
  {
    var r := VisitUpTo(w.o.pods, Doomed(cfg, w.o, w.op.cr), w.o.clock, |w.o.pods|);
    forall p | p in r && Ordinal(p.name) >= w.op.cr.replicas ensures Out(p) {
      var i :| 0 <= i < |r| && r[i] == p;
      assert w.o.pods[i] in w.o.pods && OwnPod(cfg, w.o, w.o.pods[i]);
      VisitLeavesOut(cfg, w.o, w.op.cr, w.o.pods[i]);
    }
  }

  /** A drain reported complete has aged every doomed pod. */
  lemma DrainAges(cfg: Config, w: World)
    requires PodsInv(cfg, w.o) && w.op.Placed?
    requires AllAged(w.o.pods, Doomed(cfg, w.o, w.op.cr), w.op.cr.grace, w.o.clock)
    ensures DoomedAged(w.o.(pods := VisitUpTo(w.o.pods, Doomed(cfg, w.o, w.op.cr), w.o.clock, |w.o.pods|)), w.op.cr)
  {
    var r := VisitUpTo(w.o.pods, Doomed(cfg, w.o, w.op.cr), w.o.clock, |w.o.pods|);
    if w.o.sts.Some? {
      forall p | p in r && w.op.cr.replicas <= Ordinal(p.name) < w.o.sts.value
        ensures Aged(p, w.op.cr.grace, w.o.clock)
      {
        var i :| 0 <= i < |r| && r[i] == p;
        assert w.o.pods[i] in w.o.pods && OwnPod(cfg, w.o, w.o.pods[i]);
        DoomedOwn(cfg, w.o, w.o.pods[i], w.op.cr.replicas, w.o.sts.value);
      }
    }
  }

  lemma DrainPassInv(cfg: Config, w: World, cut: nat)
    requires Inv(cfg, w) && w.op.Placed? && cut <= |w.o.pods|
    ensures PassInv(DrainPass(cfg, w, cut))
  {
    DrainFences(cfg, w);
    if AllAged(w.o.pods, Doomed(cfg, w.o, w.op.cr), w.op.cr.grace, w.o.clock) { DrainAges(cfg, w); }
  }

  lemma OperatorPass(cfg: Config, w: World, a: OperatorStep)
    requires Inv(cfg, w) && OperatorEnabled(w, a)
    ensures PassInv(ApplyOperator(cfg, w, a))
  {
    match a
    case DrainPods(cut) => DrainPassInv(cfg, w, cut);
    case MarkAll(cut) => MarkFences(w);
    case _ =>
  }

  /** A full deletion loop leaves no pod unmarked, and marks nothing it found aged. */
  lemma MarkFences(w: World)
    ensures var o' := w.o.(pods := DeletionVisitUpTo(w.o.pods, w.o.clock, |w.o.pods|));
            FencedMarked(o', w.o.nextId)
    ensures var o' := w.o.(pods := DeletionVisitUpTo(w.o.pods, w.o.clock, |w.o.pods|));
            forall cr: Cr :: EveryAged(w.o.pods, cr.grace, w.o.clock) ==> FencedAged(o', cr, w.o.nextId)
  {
    var r := DeletionVisitUpTo(w.o.pods, w.o.clock, |w.o.pods|);
    forall p | p in r ensures exists q :: q in w.o.pods && p == DeletionVisit(q, w.o.clock) {
      var i :| 0 <= i < |r| && r[i] == p;
      assert w.o.pods[i] in w.o.pods;
    }
  }

  /** Pods evolving leaves a pass's promises standing. */
  lemma PassHolds(cfg: Config, w: World, o': Objects)
    requires PassInv(w) && PodsEvolve(cfg, w.o, o')
    requires w.op.Drained? ==> o'.nextId == w.o.nextId && (o'.sts == w.o.sts || o'.sts.None?)
    ensures PassInv(w.(o := o'))
  {
    match w.op
    case Drained(cr, _, fence) =>
      FencesHold(cfg, w.o, o', cr, fence);
      DoomedStaysAged(cfg, w.o, o', cr);
    case Scaled(cr, _, fence) => FencesHold(cfg, w.o, o', cr, fence);
    case DyingMarked(cr, _, fence) => FencesHold(cfg, w.o, o', cr, fence);
    case DyingShown(cr, fence) => FencesHold(cfg, w.o, o', cr, fence);
    case TornDown(cr, fence) => FencesHold(cfg, w.o, o', cr, fence);
    case _ =>
  }

  lemma EnvPass(cfg: Config, w: World, e: EnvStep)
    requires PassInv(w) && EnvEnabled(cfg, w, e)
    ensures PassInv(w.(o := ApplyEnv(cfg, w, e)))
  {
    EnvEvolves(cfg, w, e);
    PassHolds(cfg, w, ApplyEnv(cfg, w, e));
  }

  /** Raising or keeping the count while pods evolve keeps the pods beyond it out. */
  lemma BeyondEvolves(cfg: Config, o: Objects, o': Objects)
    requires BeyondInv(o) && PodsEvolve(cfg, o, o')
    requires o'.sts.Some? ==> o.sts.Some? && o.sts.value <= o'.sts.value
    requires o'.sts.Some? ==> forall p :: p in o'.pods && p.id >= o.nextId ==> Ordinal(p.name) < o'.sts.value
    ensures BeyondInv(o')
  {
  }

  lemma ScaleKeepsBeyond(cfg: Config, w: World, reply: Reply)
    requires Inv(cfg, w) && w.op.Drained?
    ensures BeyondInv(ScalePass(cfg, w, reply).o)
  {
    assert forall p :: p in w.o.pods ==> OwnPod(cfg, w.o, p);
  }

  lemma EnvKeepsBeyond(cfg: Config, w: World, e: EnvStep)
    requires Inv(cfg, w) && EnvEnabled(cfg, w, e)
    ensures BeyondInv(ApplyEnv(cfg, w, e))
  {
    var o' := ApplyEnv(cfg, w, e);
    EnvEvolves(cfg, w, e);
    forall p | o'.sts.Some? && p in o'.pods && p.id >= w.o.nextId ensures Ordinal(p.name) < o'.sts.value {
      if e.CreatePod? {
        OrdinalRoundTrip(cfg.name, e.ordinal);
        assert p in w.o.pods ==> OwnPod(cfg, w.o, p);
      } else {
        NoNewPods(cfg, w, e, p);
      }
    }
    BeyondEvolves(cfg, w.o, o');
  }

  lemma NoNewPods(cfg: Config, w: World, e: EnvStep, p: Pod)
    requires OwnPods(cfg, w.o) && EnvEnabled(cfg, w, e) && !e.CreatePod? && p in ApplyEnv(cfg, w, e).pods
    ensures p.id < w.o.nextId
  {
    EnvEvolves(cfg, w, e);
  }

  lemma KeptIds(cfg: Config, o: Objects, pods: seq<Pod>)
    requires OwnPods(cfg, o) && |pods| == |o.pods|
    requires forall i :: 0 <= i < |pods| ==> pods[i].id == o.pods[i].id
    ensures forall p :: p in pods ==> p.id < o.nextId
  {
    forall p | p in pods ensures p.id < o.nextId {
      var i :| 0 <= i < |pods| && pods[i] == p;
      assert OwnPod(cfg, o, o.pods[i]);
    }
  }

  lemma OperatorKeepsBeyond(cfg: Config, w: World, a: OperatorStep)
    requires OwnPods(cfg, w.o) && BeyondInv(w.o) && OperatorEnabled(w, a) && !a.Scale?
    ensures BeyondInv(ApplyOperator(cfg, w, a).o)
  {
    var o' := ApplyOperator(cfg, w, a).o;
    assert o'.sts == w.o.sts;
    StepEvolves(cfg, w, Operator(a));
    OperatorKeepsPods(cfg, w, a);
    KeptIds(cfg, w.o, o'.pods);
    BeyondEvolves(cfg, w.o, o');
  }

  lemma BeyondStep(cfg: Config, w: World, s: Step)
    requires Inv(cfg, w) && Enabled(cfg, w, s)
    ensures BeyondInv(Apply(cfg, w, s).o)
  {
    match s
    case Operator(a) =>
      if a.Scale? { ScaleKeepsBeyond(cfg, w, a.reply); } else { OperatorKeepsBeyond(cfg, w, a); }
    case Env(e) => EnvKeepsBeyond(cfg, w, e);
    case Poll(_) =>
  }

  lemma InvStep(cfg: Config, w: World, s: Step)
    requires Inv(cfg, w) && Enabled(cfg, w, s)
    ensures Inv(cfg, Apply(cfg, w, s))
  {
    PodsStep(cfg, w, s);
    GuardStep(cfg, w, s);
    BeyondStep(cfg, w, s);
    match s
    case Operator(a) => OperatorPass(cfg, w, a);
    case Env(e) => EnvPass(cfg, w, e);
    case Poll(_) =>
  }

  /** The invariant holds in every state of every run. */
  lemma {:induction false} RunInv(cfg: Config, run: Run, i: nat)
    requires IsRun(cfg, run) && i < |run.states|
    ensures Inv(cfg, run.states[i])
  {
    if i > 0 {
      RunInv(cfg, run, i - 1);
      assert StepAt(cfg, run, i - 1);
      InvStep(cfg, run.states[i - 1], run.steps[i - 1]);
    }
  }
}
