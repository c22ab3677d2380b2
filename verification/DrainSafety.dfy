/**
 Draining over whole runs: timestamps are stable, an annotated instance never re-enters a
 published ring, and the StatefulSet is lowered only over pods that clients can no longer find
 in any ring published since.
 */
module DrainSafety {
  import opened Basics
  import opened Names
  import opened Sorting
  import opened Pods
  import opened CacheClient
  import opened ApiServer
  import opened Protocol
  import opened Invariants
  import opened Versions

  lemma RunPods(cfg: Config, run: Run, i: nat)
    requires IsRun(cfg, run) && i < |run.states|
    ensures PodsInv(cfg, run.states[i].o)
  {
    RunInv(cfg, run, i);
  }

  lemma KnownId(cfg: Config, run: Run, i: nat, q: Pod)
    requires IsRun(cfg, run) && i < |run.states| && q in run.states[i].o.pods
    ensures q.id < run.states[i].o.nextId
  {
    RunPods(cfg, run, i);
    assert OwnPod(cfg, run.states[i].o, q);
  }

  lemma OneInstance(cfg: Config, run: Run, i: nat, p: Pod, q: Pod)
    requires IsRun(cfg, run) && i < |run.states|
    requires p in run.states[i].o.pods && q in run.states[i].o.pods && p.id == q.id
    ensures p == q
  {
    RunPods(cfg, run, i);
    SameIdSamePod(run.states[i].o.pods, p, q);
  }

  /** Following one instance back through a step. */
  lemma Ancestor(cfg: Config, w: World, s: Step, p: Pod) returns (q: Pod)
    requires Enabled(cfg, w, s) && p in Apply(cfg, w, s).o.pods && p.id < w.o.nextId
    ensures q in w.o.pods && Descends(p, q)
  {
    StepEvolves(cfg, w, s);
    q :| q in w.o.pods && Descends(p, q);
  }

  lemma {:induction false} IdsGrow(cfg: Config, run: Run, i: nat, j: nat)
    requires IsRun(cfg, run) && i <= j < |run.states|
    ensures run.states[i].o.nextId <= run.states[j].o.nextId
    ensures run.states[i].o.clock <= run.states[j].o.clock
  {
    if i < j {
      IdsGrow(cfg, run, i, j - 1);
      assert StepAt(cfg, run, j - 1);
      StepEvolves(cfg, run.states[j - 1], run.steps[j - 1]);
    }
  }

  /** Following one instance back through a run. */
  lemma {:induction false} AncestorInRun(cfg: Config, run: Run, i: nat, j: nat, p: Pod) returns (q: Pod)
    requires IsRun(cfg, run) && i <= j < |run.states|
    requires p in run.states[j].o.pods && p.id < run.states[i].o.nextId
    ensures q in run.states[i].o.pods && Descends(p, q)
  {
    if i == j {
      q := p;
    } else {
      IdsGrow(cfg, run, i, j - 1);
      assert StepAt(cfg, run, j - 1);
      var m := Ancestor(cfg, run.states[j - 1], run.steps[j - 1], p);
      q := AncestorInRun(cfg, run, i, j - 1, m);
    }
  }

  /**
   A well-formed timestamp on an instance is never changed or removed, by complete, cut or
   deletion passes or by anyone else, and any annotation keeps the instance out of the ring.
   */
  lemma MarksAreStable(cfg: Config, run: Run, i: nat, j: nat, p: Pod, q: Pod)
    requires IsRun(cfg, run) && i <= j < |run.states|
    requires p in run.states[i].o.pods && q in run.states[j].o.pods && p.id == q.id
    ensures q.name == p.name
    ensures p.drain.Marked? ==> q.drain == p.drain
    ensures !p.drain.Unmarked? ==> !q.drain.Unmarked? && q.name !in DesiredRing(run.states[j].o).members
  {
    KnownId(cfg, run, i, p);
    var a := AncestorInRun(cfg, run, i, j, q);
    OneInstance(cfg, run, i, a, p);
    if !p.drain.Unmarked? {
      RunPods(cfg, run, j);
      AnnotatedNotMember(cfg, run.states[j].o, q);
    }
  }

  /** While an annotated instance holds its name, the name is not eligible. */
  lemma AnnotatedNotMember(cfg: Config, o: Objects, p: Pod)
    requires PodsInv(cfg, o) && p in o.pods && !p.drain.Unmarked?
    ensures p.name !in Members(o.pods)
  {
    forall q | q in o.pods && Eligible(q) ensures q.name != p.name {
      if q.name == p.name { SameNameSamePod(o.pods, p, q); }
    }
  }

  /** The environment never writes a timestamp. */
  lemma EnvNeverMarks(cfg: Config, w: World, e: EnvStep, p: Pod)
    requires EnvEnabled(cfg, w, e) && p in ApplyEnv(cfg, w, e).pods && p.drain.Marked?
    ensures exists q :: q in w.o.pods && q.id == p.id && q.drain == p.drain
  {
    var pods' := ApplyEnv(cfg, w, e).pods;
    var i :| 0 <= i < |pods'| && pods'[i] == p;
    if p !in w.o.pods {
      assert e.ChangeStatus? || e.TerminatePod?;
      assert w.o.pods[i] in w.o.pods;
    }
  }

  /** The scale-down under way in `w` removes the pod called `name`. */
  predicate Removes(w: World, name: string) {
    w.op.Placed? && w.o.sts.Some? && w.op.cr.replicas <= Ordinal(name) < w.o.sts.value
  }

  /** A scale-down loop writes timestamps only on the pods it removes, and changes nothing else. */
  lemma DrainTouches(cfg: Config, w: World, cut: nat, n: nat)
    requires w.op.Placed? && cut <= |w.o.pods| && n < |w.o.pods|
    ensures var p, p' := w.o.pods[n], DrainPass(cfg, w, cut).o.pods[n];
            p' == p || (Removes(w, p.name) && p' == p.(drain := Drain.Marked(w.o.clock / SECOND)) && !p.drain.Marked?)
  {
    var p := w.o.pods[n];
    if p.name in Doomed(cfg, w.o, w.op.cr) { DoomedIffOrdinal(cfg.name, p.name, w.op.cr.replicas, w.o.sts.value); }
  }

  lemma OperatorMarks(cfg: Config, w: World, a: OperatorStep, n: nat)
    requires OperatorEnabled(w, a) && n < |w.o.pods|
    ensures n < |ApplyOperator(cfg, w, a).o.pods|
    ensures var p, p' := w.o.pods[n], ApplyOperator(cfg, w, a).o.pods[n];
            p'.drain.Marked? && !p.drain.Marked? ==>
              (a.MarkAll? || (a.DrainPods? && Removes(w, p.name))) && p'.drain.ts == w.o.clock / SECOND
  {
    match a
    case DrainPods(cut) => DrainTouches(cfg, w, cut, n);
    case MarkAll(_) =>
    case _ => OtherStepsKeepPods(cfg, w, a);
  }

  /**
   Only a drain loop writes timestamps, it writes the current second, and a scale-down loop
   writes it only on a pod whose ordinal lies between the request and the count.
   */
  lemma OnlyDrainsMark(cfg: Config, w: World, s: Step, p: Pod, q: Pod)
    requires UniqueIds(w.o.pods) && Enabled(cfg, w, s)
    requires p in Apply(cfg, w, s).o.pods && q in w.o.pods && p.id == q.id
    requires p.drain.Marked? && !q.drain.Marked?
    ensures s.Operator? && (s.a.MarkAll? || (s.a.DrainPods? && Removes(w, q.name)))
    ensures p.drain.ts == w.o.clock / SECOND
  {
    match s
    case Operator(a) =>
      var pods' := ApplyOperator(cfg, w, a).o.pods;
      var i :| 0 <= i < |pods'| && pods'[i] == p;
      OperatorKeepsPods(cfg, w, a);
      SameIdSamePod(w.o.pods, w.o.pods[i], q);
      OperatorMarks(cfg, w, a, i);
    case Env(e) =>
      EnvNeverMarks(cfg, w, e, p);
      var r :| r in w.o.pods && r.id == p.id && r.drain == p.drain;
      SameIdSamePod(w.o.pods, r, q);
    case Poll(_) => SameIdSamePod(w.o.pods, p, q);
  }

  /** Step `i` wrote the timestamp that `p` carries. */
  ghost predicate MarkedAt(run: Run, i: nat, p: Pod) {
    && i < |run.steps| && i + 1 < |run.states|
    && run.steps[i].Operator?
    && (run.steps[i].a.MarkAll? || (run.steps[i].a.DrainPods? && Removes(run.states[i], p.name)))
    && p.drain == Marked(run.states[i].o.clock / SECOND)
    && (forall q :: q in run.states[i].o.pods && q.id == p.id ==> !q.drain.Marked?)
    && exists q :: q in run.states[i + 1].o.pods && q.id == p.id && q.name == p.name && q.drain == p.drain
  }

  lemma MarkedAncestor(cfg: Config, w: World, s: Step, p: Pod) returns (q: Pod)
    requires Enabled(cfg, w, s) && p in Apply(cfg, w, s).o.pods && p.drain.Marked?
    ensures q in w.o.pods && Descends(p, q)
  {
    StepEvolves(cfg, w, s);
    q :| q in w.o.pods && Descends(p, q);
  }

  /** Every well-formed timestamp was written by a drain loop of the run. */
  lemma {:induction false} MarkOrigin(cfg: Config, run: Run, k: nat, p: Pod) returns (i: nat)
    requires IsRun(cfg, run) && k < |run.states| && p in run.states[k].o.pods && p.drain.Marked?
    ensures i < k && MarkedAt(run, i, p)
  {
    assert k > 0;
    assert StepAt(cfg, run, k - 1);
    var w, s := run.states[k - 1], run.steps[k - 1];
    RunPods(cfg, run, k - 1);
    var q := MarkedAncestor(cfg, w, s, p);
    if q.drain.Marked? {
      i := MarkOrigin(cfg, run, k - 1, q);
    } else {
      OnlyDrainsMark(cfg, w, s, p, q);
      i := k - 1;
    }
  }

  // Survivors

  /** Up to state `k` the resource is not being deleted and always requests more than `ordinal` replicas. */
  predicate AlwaysRequested(run: Run, k: nat, ordinal: int) {
    forall i :: 0 <= i <= k && i < |run.states| && run.states[i].o.cr.Some? ==>
      !run.states[i].o.cr.value.deleting && ordinal < run.states[i].o.cr.value.replicas
  }

  /** Then every pass works on such a request. */
  lemma {:induction false} PassesRequest(cfg: Config, run: Run, i: nat, k: nat, ordinal: int)
    requires IsRun(cfg, run) && i <= k < |run.states| && AlwaysRequested(run, k, ordinal)
    ensures !run.states[i].op.Idle? ==> LiveOp(run.states[i].op) && ordinal < run.states[i].op.cr.replicas
  {
    if i > 0 {
      PassesRequest(cfg, run, i - 1, k, ordinal);
      assert StepAt(cfg, run, i - 1);
      RequestedStep(cfg, run.states[i - 1], run.steps[i - 1], ordinal);
    }
  }

  lemma RequestedStep(cfg: Config, w: World, s: Step, ordinal: int)
    requires Enabled(cfg, w, s)
    requires w.o.cr.Some? ==> !w.o.cr.value.deleting && ordinal < w.o.cr.value.replicas
    requires !w.op.Idle? ==> LiveOp(w.op) && ordinal < w.op.cr.replicas
    ensures var op := Apply(cfg, w, s).op; !op.Idle? ==> LiveOp(op) && ordinal < op.cr.replicas
  {
  }

  /** A pod that every request keeps is never marked: draining leaves the survivors alone. */
  lemma SurvivorsUnmarked(cfg: Config, run: Run, k: nat, p: Pod)
    requires IsRun(cfg, run) && k < |run.states| && p in run.states[k].o.pods
    requires AlwaysRequested(run, k, Ordinal(p.name))
    ensures !p.drain.Marked?
  {
    if p.drain.Marked? {
      var i := MarkOrigin(cfg, run, k, p);
      PassesRequest(cfg, run, i, k, Ordinal(p.name));
      MarkingOp(cfg, run, i, p);
    }
  }

  lemma MarkingOp(cfg: Config, run: Run, i: nat, p: Pod)
    requires IsRun(cfg, run) && MarkedAt(run, i, p)
    ensures run.states[i].op.Dying? || Removes(run.states[i], p.name)
  {
    assert StepAt(cfg, run, i);
  }

  // One timestamp, one step

  /** No other step wrote it. */
  lemma MarkedOnce(cfg: Config, run: Run, i: nat, j: nat, p: Pod)
    requires IsRun(cfg, run) && MarkedAt(run, i, p) && MarkedAt(run, j, p)
    ensures i == j
  {
    if i < j { MarkedBefore(cfg, run, i, j, p); }
    if j < i { MarkedBefore(cfg, run, j, i, p); }
  }

  lemma MarkedBefore(cfg: Config, run: Run, i: nat, j: nat, p: Pod)
    requires IsRun(cfg, run) && MarkedAt(run, i, p) && i < j < |run.steps|
    requires exists r :: r in run.states[j + 1].o.pods && r.id == p.id
    ensures exists a :: a in run.states[j].o.pods && a.id == p.id && a.drain.Marked?
  {
    var q :| q in run.states[i + 1].o.pods && q.id == p.id && q.name == p.name && q.drain == p.drain;
    var r :| r in run.states[j + 1].o.pods && r.id == p.id;
    var a := InstanceAt(cfg, run, i + 1, j, j + 1, q, r);
    MarksAreStable(cfg, run, i + 1, j, q, a);
  }

  // Publications

  /** Step `j` is a publication that leaves the stored ring in line with the pods, written or confirmed. */
  predicate PublishesAt(run: Run, j: nat) {
    && j < |run.steps| && j + 1 < |run.states|
    && run.steps[j].Operator? && Publication(run.steps[j].a)
    && run.states[j + 1].o.ring == Decoded(DesiredRing(run.states[j].o))
  }

  /** The pod is up: running, its first Ready condition true, not terminating and without annotation. */
  predicate Up(p: Pod) {
    !p.terminating && p.drain == Unmarked && p.phase == Running && FirstReady(p.conditions, IsTrue)
  }

  /** A published ring holds exactly the pods that were up at its publication, each once. */
  lemma PublishedMembers(cfg: Config, run: Run, j: nat)
    requires IsRun(cfg, run) && PublishesAt(run, j)
    ensures var members := run.states[j + 1].o.ring.ring.members;
            && (forall n :: n in members <==> exists p :: p in run.states[j].o.pods && p.name == n && Up(p))
            && StrictlySortedBy(Ordinal, members)
  {
    RunPods(cfg, run, j);
    var o := run.states[j].o;
    OwnNames(cfg, o);
    MembersUnique(o.pods, Members(o.pods));
    forall p | p in o.pods ensures Eligible(p) <==> Up(p) {
      assert OwnPod(cfg, o, p);
      ReadyIff(p.conditions);
    }
    assert DesiredRing(o).members == Members(o.pods);
  }

  /** The store does not offer `name`. */
  predicate LeavesOut(store: RingStore, name: string) {
    store.Absent? || (store.Decoded? && name !in store.ring.members)
  }

  lemma PublishExcludes(cfg: Config, o: Objects, reply: Reply, p: Pod)
    requires PodsInv(cfg, o) && p in o.pods && !p.drain.Unmarked?
    requires o.ring.Absent? || o.ring.Decoded?
    ensures LeavesOut(Decoded(DesiredRing(o)), p.name)
    ensures LeavesOut(o.ring, p.name) ==> LeavesOut(PublishedStore(cfg, o, reply), p.name)
  {
    AnnotatedNotMember(cfg, o, p);
    assert DesiredRing(o).members == Members(o.pods);
  }

  lemma RunStore(cfg: Config, run: Run, k: nat)
    requires IsRun(cfg, run) && Clean(run, k)
    ensures run.states[k].o.ring.Absent? || run.states[k].o.ring.Decoded?
  {
    RunRing(cfg, run, k);
  }

  /** A publication leaves out every annotated instance, and later steps keep it out. */
  lemma StepExcludes(cfg: Config, run: Run, j: nat, p: Pod)
    requires IsRun(cfg, run) && Clean(run, j + 1)
    requires p in run.states[j].o.pods && !p.drain.Unmarked?
    ensures PublishesAt(run, j) ==> run.states[j + 1].o.ring.Decoded? && LeavesOut(run.states[j + 1].o.ring, p.name)
    ensures LeavesOut(run.states[j].o.ring, p.name) ==> LeavesOut(run.states[j + 1].o.ring, p.name)
  {
    RunPods(cfg, run, j);
    RunStore(cfg, run, j);
    assert StepAt(cfg, run, j);
    var w, s := run.states[j], run.steps[j];
    assert CleanStep(s);
    RingChanges(cfg, w, s);
    if s.Operator? && Publication(s.a) {
      PublishExcludes(cfg, w.o, s.a.reply, p);
    }
  }

  /** The instance at every earlier state since it carried the annotation `q` had. */
  lemma AnnotatedSince(cfg: Config, run: Run, i: nat, k: nat, q: Pod, p: Pod) returns (m: Pod)
    requires IsRun(cfg, run) && i < k < |run.states|
    requires q in run.states[i].o.pods && !q.drain.Unmarked?
    requires p in run.states[k].o.pods && p.id == q.id
    ensures m in run.states[k - 1].o.pods && m.id == q.id && m.name == q.name == p.name && !m.drain.Unmarked?
  {
    KnownId(cfg, run, i, q);
    IdsGrow(cfg, run, i, k - 1);
    assert StepAt(cfg, run, k - 1);
    m := Ancestor(cfg, run.states[k - 1], run.steps[k - 1], p);
    var a := AncestorInRun(cfg, run, i, k - 1, m);
    OneInstance(cfg, run, i, a, q);
  }

  /** A store without the instance's name stays without it for as long as the instance exists. */
  lemma {:induction false} StaysExcluded(cfg: Config, run: Run, i: nat, k: nat, q: Pod, p: Pod)
    requires IsRun(cfg, run) && i <= k && Clean(run, k)
    requires q in run.states[i].o.pods && !q.drain.Unmarked? && LeavesOut(run.states[i].o.ring, q.name)
    requires p in run.states[k].o.pods && p.id == q.id
    ensures p.name == q.name && LeavesOut(run.states[k].o.ring, p.name)
  {
    if i < k {
      var m := AnnotatedSince(cfg, run, i, k, q, p);
      StaysExcluded(cfg, run, i, k - 1, q, m);
      StepExcludes(cfg, run, k - 1, m);
    } else {
      OneInstance(cfg, run, i, p, q);
    }
  }

  /**
   Once a ring has been published after the annotation, every ring up to state `k` leaves the
   instance out for as long as it exists, whatever edits, crashes and re-creations happen.
   */
  lemma ExcludedSince(cfg: Config, run: Run, i: nat, j: nat, k: nat, q: Pod, p: Pod)
    requires IsRun(cfg, run) && i <= j < k && Clean(run, k)
    requires q in run.states[i].o.pods && !q.drain.Unmarked?
    requires PublishesAt(run, j)
    requires p in run.states[k].o.pods && p.id == q.id
    ensures p.name == q.name && LeavesOut(run.states[k].o.ring, p.name)
  {
    var r := InstanceAt(cfg, run, i, j + 1, k, q, p);
    assert Clean(run, j + 1);
    PublishedWithout(cfg, run, i, j, q, r);
    StaysExcluded(cfg, run, j + 1, k, r, p);
  }

  /** The instance at a state in between. */
  lemma InstanceAt(cfg: Config, run: Run, i: nat, m: nat, k: nat, q: Pod, p: Pod) returns (r: Pod)
    requires IsRun(cfg, run) && i <= m <= k < |run.states|
    requires q in run.states[i].o.pods && p in run.states[k].o.pods && p.id == q.id
    ensures r in run.states[m].o.pods && r.id == q.id
  {
    KnownId(cfg, run, i, q);
    IdsGrow(cfg, run, i, m);
    r := AncestorInRun(cfg, run, m, k, p);
  }

  lemma PublishedWithout(cfg: Config, run: Run, i: nat, j: nat, q: Pod, r: Pod)
    requires IsRun(cfg, run) && i <= j && Clean(run, j + 1)
    requires q in run.states[i].o.pods && !q.drain.Unmarked?
    requires PublishesAt(run, j)
    requires r in run.states[j + 1].o.pods && r.id == q.id
    ensures r.name == q.name && !r.drain.Unmarked? && LeavesOut(run.states[j + 1].o.ring, r.name)
  {
    var m := AnnotatedSince(cfg, run, i, j + 1, q, r);
    StepExcludes(cfg, run, j, m);
    MarksAreStable(cfg, run, i, j + 1, q, r);
  }

  // Lowering

  /** Step `k` lowers the StatefulSet. */
  predicate LowersAt(run: Run, k: nat) {
    && k < |run.steps| && k + 1 < |run.states|
    && run.states[k].o.sts.Some? && run.states[k + 1].o.sts.Some?
    && run.states[k + 1].o.sts.value < run.states[k].o.sts.value
  }

  /** `p` is removed by the lowering at step `k`. */
  predicate RemovedBy(run: Run, k: nat, p: Pod)
    requires LowersAt(run, k)
  {
    && p in run.states[k].o.pods
    && run.states[k + 1].o.sts.value <= Ordinal(p.name) < run.states[k].o.sts.value
  }

  /** Only a pass that saw its drain complete lowers the StatefulSet, down to the request it read. */
  lemma LoweringPass(cfg: Config, run: Run, k: nat)
    requires IsRun(cfg, run) && LowersAt(run, k)
    ensures run.steps[k].Operator? && run.steps[k].a.Scale?
    ensures run.states[k].op.Drained? && run.states[k].op.complete
    ensures run.states[k + 1].o.sts.value == run.states[k].op.cr.replicas
    ensures forall p :: RemovedBy(run, k, p) ==> Aged(p, PassGrace(run.states[k].op), run.states[k].o.clock)
  {
    assert StepAt(cfg, run, k);
    RunInv(cfg, run, k);
  }

  /**
   The StatefulSet is lowered only over pods whose timestamp the operator wrote at least a grace
   period ago, and which every ring held after the first publication since leaves out.
   */
  lemma LoweringIsSafe(cfg: Config, run: Run, k: nat, p: Pod)
    requires IsRun(cfg, run) && Clean(run, k)
    requires LowersAt(run, k) && RemovedBy(run, k, p)
    ensures exists i :: 0 <= i < k && MarkedAt(run, i, p)
              && run.states[k].o.clock - run.states[i].o.clock / SECOND * SECOND >= PassGrace(run.states[k].op) * SECOND
              && forall j, m :: i < j < m <= k && PublishesAt(run, j) ==> LeavesOut(run.states[m].o.ring, p.name)
  {
    LoweringPass(cfg, run, k);
    var i := MarkOrigin(cfg, run, k, p);
    forall j, m | i < j < m <= k && PublishesAt(run, j) ensures LeavesOut(run.states[m].o.ring, p.name) {
      ExcludedBetween(cfg, run, i, j, m, k, p);
    }
  }

  /** Every ring after a publication that followed the timestamp leaves the pod out. */
  lemma ExcludedBetween(cfg: Config, run: Run, i: nat, j: nat, m: nat, k: nat, p: Pod)
    requires IsRun(cfg, run) && i < j < m <= k && Clean(run, k)
    requires MarkedAt(run, i, p) && PublishesAt(run, j) && p in run.states[k].o.pods
    ensures LeavesOut(run.states[m].o.ring, p.name)
  {
    var q :| q in run.states[i + 1].o.pods && q.id == p.id && q.name == p.name && q.drain == p.drain;
    var r := InstanceAt(cfg, run, i + 1, m, k, q, p);
    assert Clean(run, m);
    ExcludedSince(cfg, run, i + 1, j, m, q, r);
  }

  // Exactly when a drained pod is still offered

  predicate Offers(store: RingStore, name: string) {
    store.Decoded? && name in store.ring.members
  }

  /** No step from `i` to `k` brings the stored ring in line with the pods. */
  predicate Unpublished(run: Run, i: nat, k: nat) {
    forall j :: i <= j < k ==> !PublishesAt(run, j)
  }

  /** A publication that does not bring the stored ring in line leaves it as it is. */
  lemma UnpublishedStep(cfg: Config, run: Run, k: nat)
    requires IsRun(cfg, run) && k < |run.steps| && CleanStep(run.steps[k]) && !PublishesAt(run, k)
    ensures run.states[k + 1].o.ring == run.states[k].o.ring || run.states[k + 1].o.ring.Absent?
  {
    assert StepAt(cfg, run, k);
    RingChanges(cfg, run.states[k], run.steps[k]);
  }

  lemma {:induction false} UnpublishedKeepsRing(cfg: Config, run: Run, i: nat, k: nat)
    requires IsRun(cfg, run) && i <= k && Clean(run, k) && Unpublished(run, i, k)
    ensures run.states[k].o.ring == run.states[i].o.ring || run.states[k].o.ring.Absent?
  {
    if i < k {
      UnpublishedKeepsRing(cfg, run, i, k - 1);
      assert !PublishesAt(run, k - 1) && CleanStep(run.steps[k - 1]);
      UnpublishedStep(cfg, run, k - 1);
    }
  }

  /**
   Publishing before terminating is not unconditional. While an annotated instance exists, the
   stored ring still offers it exactly when it did at the annotation and no pass has since got as
   far as its publication.
   */
  lemma OfferedIffUnpublished(cfg: Config, run: Run, i: nat, k: nat, q: Pod, p: Pod)
    requires IsRun(cfg, run) && i <= k && Clean(run, k) && !Retired(cfg, run.states[k])
    requires q in run.states[i].o.pods && !q.drain.Unmarked?
    requires p in run.states[k].o.pods && p.id == q.id
    ensures Offers(run.states[k].o.ring, p.name)
       <==> Offers(run.states[i].o.ring, p.name) && Unpublished(run, i, k)
  {
    MarksAreStable(cfg, run, i, k, q, p);
    assert Clean(run, i);
    RunStore(cfg, run, i);
    if !Offers(run.states[i].o.ring, q.name) {
      StaysExcluded(cfg, run, i, k, q, p);
    } else if !Unpublished(run, i, k) {
      var j :| i <= j < k && PublishesAt(run, j);
      ExcludedSince(cfg, run, i, j, k, q, p);
    } else {
      UnpublishedKeepsRing(cfg, run, i, k);
      RingMovesForward(cfg, run, i, k);
    }
  }
}
