/** A scale-down finishes: the StatefulSet is lowered within a bounded number of passes. */
module Progress {
  import opened Basics
  import opened Names
  import opened Pods
  import opened ApiServer
  import opened Protocol
  import opened Invariants
  import opened Versions
  import opened DrainSafety

  /** Step `i` is a scale-down loop that visits every pod, for a request of `lo` replicas. */
  predicate DrainsAt(run: Run, i: nat, lo: Count) {
    && i < |run.steps| && i < |run.states|
    && run.states[i].op.Placed? && run.states[i].op.cr.replicas == lo
    && run.steps[i] == Operator(DrainPods(|run.states[i].o.pods|))
  }

  /** No doomed pod is created in steps `i` to `j`. */
  predicate NoneRecreated(run: Run, i: nat, j: nat, lo: Count, hi: Count) {
    j <= |run.steps| && forall m :: i <= m < j && run.steps[m].Env? && run.steps[m].e.CreatePod? ==>
      !(lo <= run.steps[m].e.ordinal < hi)
  }

  /** No pod carries a timestamp from the future. */
  lemma NoFutureMarks(cfg: Config, run: Run, k: nat, p: Pod)
    requires IsRun(cfg, run) && k < |run.states| && p in run.states[k].o.pods && p.drain.Marked?
    ensures p.drain.ts * SECOND <= run.states[k].o.clock
  {
    var i := MarkOrigin(cfg, run, k, p);
    IdsGrow(cfg, run, i, k);
  }

  /** A pod that step `s` brought in was created under its own ordinal. */
  lemma NewPodCreated(cfg: Config, w: World, s: Step, p: Pod)
    requires PodsInv(cfg, w.o) && Enabled(cfg, w, s) && p in Apply(cfg, w, s).o.pods && p.id >= w.o.nextId
    ensures s.Env? && s.e.CreatePod? && Ordinal(p.name) == s.e.ordinal
  {
    assert p in w.o.pods ==> OwnPod(cfg, w.o, p);
    match s
    case Operator(a) =>
      OperatorKeepsPods(cfg, w, a);
      KeptIds(cfg, w.o, ApplyOperator(cfg, w, a).o.pods);
    case Env(e) =>
      if e.CreatePod? {
        OrdinalRoundTrip(cfg.name, e.ordinal);
      } else {
        NoNewPods(cfg, w, e, p);
      }
    case Poll(_) =>
  }

  /** Without re-creation the doomed pods of a later state were there before. */
  lemma {:induction false} DoomedAreOld(cfg: Config, run: Run, i: nat, j: nat, lo: Count, hi: Count, p: Pod)
    requires IsRun(cfg, run) && i <= j && NoneRecreated(run, i, j, lo, hi)
    requires p in run.states[j].o.pods && lo <= Ordinal(p.name) < hi
    ensures p.id < run.states[i].o.nextId
  {
    if i == j {
      KnownId(cfg, run, i, p);
    } else {
      var w, s := run.states[j - 1], run.steps[j - 1];
      assert StepAt(cfg, run, j - 1);
      RunPods(cfg, run, j - 1);
      if p.id >= w.o.nextId { NewPodCreated(cfg, w, s, p); }
      var q := Ancestor(cfg, w, s, p);
      DoomedAreOld(cfg, run, i, j - 1, lo, hi, q);
    }
  }

  /** A full scale-down loop leaves every doomed pod with a timestamp. */
  lemma DoomedGetMarked(cfg: Config, w: World, q: Pod)
    requires PodsInv(cfg, w.o) && w.op.Placed? && w.o.sts.Some?
    requires q in VisitUpTo(w.o.pods, Doomed(cfg, w.o, w.op.cr), w.o.clock, |w.o.pods|)
    requires w.op.cr.replicas <= Ordinal(q.name) < w.o.sts.value
    ensures q.drain.Marked?
  {
    var r := VisitUpTo(w.o.pods, Doomed(cfg, w.o, w.op.cr), w.o.clock, |w.o.pods|);
    var n :| 0 <= n < |r| && r[n] == q;
    assert w.o.pods[n] in w.o.pods && OwnPod(cfg, w.o, w.o.pods[n]);
    DoomedOwn(cfg, w.o, w.o.pods[n], w.op.cr.replicas, w.o.sts.value);
  }

  /** That timestamp is not in the future. */
  lemma DrainMarks(cfg: Config, run: Run, i: nat, lo: Count, hi: Count, q: Pod)
    requires IsRun(cfg, run) && DrainsAt(run, i, lo) && run.states[i].o.sts == Some(hi) && lo < hi
    requires q in run.states[i + 1].o.pods && lo <= Ordinal(q.name) < hi
    ensures q.drain.Marked? && q.drain.ts * SECOND <= run.states[i].o.clock
  {
    assert StepAt(cfg, run, i);
    RunPods(cfg, run, i);
    DoomedGetMarked(cfg, run.states[i], q);
    NoFutureMarks(cfg, run, i + 1, q);
  }

  /** One grace period after a full scale-down loop, the next full loop finds the drain complete. */
  lemma DrainCompletes(cfg: Config, run: Run, i: nat, j: nat, lo: Count, hi: Count)
    requires IsRun(cfg, run) && i < j && DrainsAt(run, i, lo) && DrainsAt(run, j, lo) && lo < hi
    requires run.states[i].o.sts == run.states[j].o.sts == Some(hi) && NoneRecreated(run, i, j, lo, hi)
    requires run.states[j].o.clock >= run.states[i].o.clock + run.states[j].op.cr.grace * SECOND
    ensures run.states[j + 1].op.Drained? && run.states[j + 1].op.complete && run.states[j + 1].op.cr.replicas == lo
  {
    assert StepAt(cfg, run, j);
    var w := run.states[j];
    var doomed := Doomed(cfg, w.o, w.op.cr);
    assert doomed == DoomedNames(cfg.name, lo, hi);
    forall p | p in w.o.pods && p.name in doomed ensures Aged(p, w.op.cr.grace, w.o.clock) {
      DoomedIffOrdinal(cfg.name, p.name, lo, hi);
      DoomedAged(cfg, run, i, j, lo, hi, p);
    }
  }

  lemma DoomedAged(cfg: Config, run: Run, i: nat, j: nat, lo: Count, hi: Count, p: Pod)
    requires IsRun(cfg, run) && i < j < |run.states| && DrainsAt(run, i, lo) && run.states[i].o.sts == Some(hi) && lo < hi
    requires NoneRecreated(run, i, j, lo, hi)
    requires p in run.states[j].o.pods && lo <= Ordinal(p.name) < hi
    ensures p.drain.Marked? && p.drain.ts * SECOND <= run.states[i].o.clock
  {
    DoomedAreOld(cfg, run, i, j, lo, hi, p);
    IdsGrow(cfg, run, i, i + 1);
    var q := AncestorInRun(cfg, run, i + 1, j, p);
    DrainMarks(cfg, run, i, lo, hi, q);
  }

  // The drain of a deletion

  /** Step `i` is a deletion loop that visits every pod. */
  predicate MarksAllAt(run: Run, i: nat) {
    && i < |run.steps| && i < |run.states|
    && run.states[i].op.Dying? && run.steps[i] == Operator(MarkAll(|run.states[i].o.pods|))
  }

  predicate NoneCreated(run: Run, i: nat, j: nat) {
    j <= |run.steps| && forall m :: i <= m < j && run.steps[m].Env? ==> !run.steps[m].e.CreatePod?
  }

  lemma {:induction false} IdsStay(cfg: Config, run: Run, i: nat, j: nat)
    requires IsRun(cfg, run) && i <= j && NoneCreated(run, i, j)
    ensures run.states[j].o.nextId == run.states[i].o.nextId
  {
    if i < j {
      IdsStay(cfg, run, i, j - 1);
      assert StepAt(cfg, run, j - 1);
      IdStays(cfg, run.states[j - 1], run.steps[j - 1]);
    }
  }

  lemma IdStays(cfg: Config, w: World, s: Step)
    requires Enabled(cfg, w, s) && (s.Env? ==> !s.e.CreatePod?)
    ensures Apply(cfg, w, s).o.nextId == w.o.nextId
  {
    if s.Operator? { OperatorKeepsPods(cfg, w, s.a); }
  }

  /** A full deletion loop that meets no unreadable timestamp leaves a timestamp on every pod. */
  lemma DeletionMarks(cfg: Config, run: Run, i: nat, q: Pod)
    requires IsRun(cfg, run) && MarksAllAt(run, i) && q in run.states[i + 1].o.pods
    requires forall p :: p in run.states[i].o.pods ==> !p.drain.Garbled?
    ensures q.drain.Marked? && q.drain.ts * SECOND <= run.states[i].o.clock
  {
    assert StepAt(cfg, run, i);
    var pods' := run.states[i + 1].o.pods;
    var n :| 0 <= n < |pods'| && pods'[n] == q;
    assert run.states[i].o.pods[n] in run.states[i].o.pods;
    NoFutureMarks(cfg, run, i + 1, q);
  }

  /** One grace period after a full deletion loop, the next full loop finds the drain complete. */
  lemma DeletionCompletes(cfg: Config, run: Run, i: nat, j: nat)
    requires IsRun(cfg, run) && i < j && MarksAllAt(run, i) && MarksAllAt(run, j) && NoneCreated(run, i, j)
    requires forall p :: p in run.states[i].o.pods ==> !p.drain.Garbled?
    requires run.states[j].o.clock >= run.states[i].o.clock + run.states[j].op.cr.grace * SECOND
    ensures run.states[j + 1].op.DyingMarked? && run.states[j + 1].op.complete
  {
    assert StepAt(cfg, run, j);
    var w := run.states[j];
    IdsStay(cfg, run, i, j);
    IdsGrow(cfg, run, i, i + 1);
    forall p | p in w.o.pods ensures Aged(p, w.op.cr.grace, w.o.clock) {
      KnownId(cfg, run, j, p);
      var q := AncestorInRun(cfg, run, i + 1, j, p);
      DeletionMarks(cfg, run, i, q);
    }
  }

  // The count while the request stays

  /** From state `i` to state `k` the request is `lo` replicas. */
  predicate RequestStays(run: Run, i: nat, k: nat, lo: Count) {
    forall m :: i <= m <= k && m < |run.states| && run.states[m].o.cr.Some? ==> run.states[m].o.cr.value.replicas == lo
  }

  /** The pass under way, if any, works for `lo` replicas, and the count is `lo` or `hi`. */
  predicate Scaling(w: World, lo: Count, hi: Count) {
    && (!w.op.Idle? ==> w.op.cr.replicas == lo)
    && (w.o.sts == Some(lo) || w.o.sts == Some(hi))
  }

  lemma ScalingOperator(cfg: Config, w: World, a: OperatorStep, lo: Count, hi: Count)
    requires OperatorEnabled(w, a) && lo < hi && Scaling(w, lo, hi)
    requires w.o.cr.Some? ==> w.o.cr.value.replicas == lo
    ensures Scaling(ApplyOperator(cfg, w, a), lo, hi)
    ensures w.o.sts == Some(lo) ==> ApplyOperator(cfg, w, a).o.sts == Some(lo)
  {
    if !a.Scale? { assert ApplyOperator(cfg, w, a).o.sts == w.o.sts; }
  }

  lemma EnvKeepsCount(cfg: Config, w: World, e: EnvStep)
    requires EnvEnabled(cfg, w, e) && !e.Collect?
    ensures ApplyEnv(cfg, w, e).sts == w.o.sts
  {
  }

  lemma ScalingStep(cfg: Config, w: World, s: Step, lo: Count, hi: Count)
    requires Enabled(cfg, w, s) && lo < hi && Scaling(w, lo, hi) && s != Env(Collect)
    requires w.o.cr.Some? ==> w.o.cr.value.replicas == lo
    ensures Scaling(Apply(cfg, w, s), lo, hi)
    ensures w.o.sts == Some(lo) ==> Apply(cfg, w, s).o.sts == Some(lo)
  {
    match s
    case Operator(a) => ScalingOperator(cfg, w, a, lo, hi);
    case Env(e) => EnvKeepsCount(cfg, w, e);
    case Poll(_) =>
  }

  /** The count stays at `hi` until it becomes `lo`, and then stays there. */
  lemma {:induction false} CountMoves(cfg: Config, run: Run, i: nat, k: nat, lo: Count, hi: Count)
    requires IsRun(cfg, run) && i <= k < |run.states| && lo < hi && !Retired(cfg, run.states[k])
    requires Scaling(run.states[i], lo, hi) && RequestStays(run, i, k, lo)
    ensures Scaling(run.states[k], lo, hi)
    ensures run.states[i].o.sts == Some(lo) ==> run.states[k].o.sts == Some(lo)
  {
    if i < k {
      if Retired(cfg, run.states[k - 1]) { RetiredSince(cfg, run, k - 1, k); }
      CountMoves(cfg, run, i, k - 1, lo, hi);
      RunInv(cfg, run, k - 1);
      assert StepAt(cfg, run, k - 1);
      RetiredForever(cfg, run.states[k - 1], run.steps[k - 1]);
      ScalingStep(cfg, run.states[k - 1], run.steps[k - 1], lo, hi);
    }
  }

  lemma LiveNotRetired(cfg: Config, run: Run, k: nat)
    requires IsRun(cfg, run) && k < |run.states| && LiveOp(run.states[k].op)
    ensures !Retired(cfg, run.states[k])
  {
    RunInv(cfg, run, k);
  }

  // Passes

  /** Only other parties act in steps `i` to `k`. */
  predicate OperatorRests(run: Run, i: nat, k: nat) {
    k <= |run.steps| && forall m :: i <= m < k ==> !run.steps[m].Operator?
  }

  lemma {:induction false} RestKeepsPass(cfg: Config, run: Run, i: nat, k: nat)
    requires IsRun(cfg, run) && i <= k && OperatorRests(run, i, k)
    ensures run.states[k].op == run.states[i].op
  {
    if i < k {
      RestKeepsPass(cfg, run, i, k - 1);
      assert StepAt(cfg, run, k - 1);
    }
  }

  /** The steps of a pass that drains every pod and writes the StatefulSet. */
  datatype Pass = Pass(drain: nat, scale: nat)

  predicate FullPass(run: Run, pass: Pass, lo: Count) {
    && DrainsAt(run, pass.drain, lo)
    && pass.drain < pass.scale < |run.steps| < |run.states| && OperatorRests(run, pass.drain + 1, pass.scale)
    && run.steps[pass.scale].Operator? && run.steps[pass.scale].a.Scale? && Applied(run.steps[pass.scale].a.reply)
  }

  /** What the write of a full pass does to the count. */
  lemma FullPassScales(cfg: Config, run: Run, pass: Pass, lo: Count)
    requires IsRun(cfg, run) && FullPass(run, pass, lo)
    ensures var w := run.states[pass.drain + 1];
            w.op.Drained? && w.op.cr.replicas == lo && LiveOp(run.states[pass.scale].op)
            && run.states[pass.scale + 1].o.sts == Some(ScaleTarget(run.states[pass.scale].o.sts, lo, w.op.complete))
  {
    assert StepAt(cfg, run, pass.drain);
    RestKeepsPass(cfg, run, pass.drain + 1, pass.scale);
    RunInv(cfg, run, pass.scale);
    assert StepAt(cfg, run, pass.scale);
  }

  /** Full passes for `lo` replicas, their drains at least two seconds apart. */
  predicate Passes(run: Run, passes: seq<Pass>, lo: Count) {
    && (forall n :: 0 <= n < |passes| ==> FullPass(run, passes[n], lo))
    && (forall n :: 0 < n < |passes| ==>
          && passes[n - 1].scale < passes[n].drain
          && run.states[passes[n].drain].o.clock >= run.states[passes[n - 1].drain].o.clock + 2 * SECOND)
  }

  lemma {:induction false} PassesTakeTime(run: Run, passes: seq<Pass>, lo: Count, n: nat)
    requires Passes(run, passes, lo) && n < |passes|
    ensures passes[0].drain <= passes[n].drain && (n > 0 ==> passes[0].drain < passes[n].drain)
    ensures run.states[passes[n].drain].o.clock >= run.states[passes[0].drain].o.clock + 2 * n * SECOND
  {
    if n > 0 {
      PassesTakeTime(run, passes, lo, n - 1);
      assert FullPass(run, passes[n - 1], lo) && passes[n - 1].scale < passes[n].drain;
    }
  }

  /** One pass to mark and one for every two seconds of grace, at least one. */
  function PassBound(grace: nat): nat {
    1 + if grace == 0 then 1 else (grace + 1) / 2
  }

  /**
   After that many full passes the StatefulSet is at the request, if the request stays and no
   doomed pod is created anew.
   */
  lemma ScaleDownBounded(cfg: Config, run: Run, passes: seq<Pass>, lo: Count, hi: Count)
    requires IsRun(cfg, run) && lo < hi && passes != [] && Passes(run, passes, lo)
    requires run.states[passes[0].drain].o.sts == Some(hi)
    requires RequestStays(run, passes[0].drain, passes[|passes| - 1].scale, lo)
    requires NoneRecreated(run, passes[0].drain, passes[|passes| - 1].drain, lo, hi)
    requires |passes| >= PassBound(run.states[passes[|passes| - 1].drain].op.cr.grace)
    ensures run.states[passes[|passes| - 1].scale + 1].o.sts == Some(lo)
  {
    var first, last := passes[0], passes[|passes| - 1];
    assert FullPass(run, first, lo) && FullPass(run, last, lo);
    PassesTakeTime(run, passes, lo, |passes| - 1);
    FullPassScales(cfg, run, last, lo);
    LiveNotRetired(cfg, run, last.drain);
    LiveNotRetired(cfg, run, last.scale);
    CountMoves(cfg, run, first.drain, last.drain, lo, hi);
    CountMoves(cfg, run, last.drain, last.scale, lo, hi);
    if run.states[last.drain].o.sts == Some(hi) {
      DrainCompletes(cfg, run, first.drain, last.drain, lo, hi);
    }
  }
}
