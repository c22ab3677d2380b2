/** The deletion state machine: drain, farewell ring, cell teardown, release of the finalizer. */
module Deletion {
  import opened Basics
  import opened Pods
  import opened HashRing
  import opened CacheClient
  import opened ApiServer
  import opened Protocol
  import opened Invariants
  import opened Versions
  import opened DrainSafety
  import opened Contract

  // Nothing escapes the drain

  predicate NoRingBeforeFinalizer(w: World) {
    w.o.cr.Some? && !w.o.cr.value.finalizer ==> w.o.ring.Absent?
  }

  lemma NoRingStep(cfg: Config, w: World, s: Step)
    requires GuardInv(cfg, w) && NoRingBeforeFinalizer(w) && Enabled(cfg, w, s) && CleanStep(s)
    ensures NoRingBeforeFinalizer(Apply(cfg, w, s))
  {
  }

  lemma {:induction false} RunNoRing(cfg: Config, run: Run, k: nat)
    requires IsRun(cfg, run) && Clean(run, k)
    ensures NoRingBeforeFinalizer(run.states[k])
  {
    if k > 0 {
      RunNoRing(cfg, run, k - 1);
      RunInv(cfg, run, k - 1);
      assert StepAt(cfg, run, k - 1);
      NoRingStep(cfg, run.states[k - 1], run.steps[k - 1]);
    }
  }

  /** Whatever the operator has created, the resource carries the drain finalizer. */
  lemma FinalizerGuards(cfg: Config, run: Run, k: nat)
    requires IsRun(cfg, run) && Clean(run, k)
    ensures var o := run.states[k].o;
            o.cr.Some? && (o.sts.Some? || o.pods != [] || o.cell != NoCell || o.ring != Absent) ==> o.cr.value.finalizer
  {
    RunInv(cfg, run, k);
    RunNoRing(cfg, run, k);
  }

  /** Step `k` makes the custom resource disappear. */
  predicate ReleasedAt(run: Run, k: nat) {
    && k < |run.steps| && k + 1 < |run.states|
    && run.states[k].o.cr.Some? && run.states[k + 1].o.cr.None?
  }

  lemma OnlyReleaseRemoves(cfg: Config, w: World, a: OperatorStep)
    requires OperatorEnabled(w, a) && w.o.cr.Some? && ApplyOperator(cfg, w, a).o.cr.None?
    ensures a.Release? && w.op.TornDown?
  {
  }

  lemma OnlyDeleteRemoves(cfg: Config, w: World, e: EnvStep)
    requires EnvEnabled(cfg, w, e) && w.o.cr.Some? && ApplyEnv(cfg, w, e).cr.None?
    ensures e.DeleteCr? && !w.o.cr.value.finalizer
  {
  }

  /**
   The custom resource disappears only before anything was created for it, or by the release that
   ends a deletion pass which found every pod it listed aged by a grace period and, in cell mode,
   the cell gone.
   */
  lemma NoDrainSkipped(cfg: Config, run: Run, k: nat)
    requires IsRun(cfg, run) && Clean(run, k) && ReleasedAt(run, k)
    ensures var w := run.states[k];
            if w.o.cr.value.finalizer
            then run.steps[k].Operator? && run.steps[k].a.Release? && w.op.TornDown? && w.o.cr.value.deleting
                 && FencedAged(w.o, w.op.cr, w.op.fence) && w.o.cell.NoCell?
            else run.steps[k] == Env(DeleteCr) && w.o.sts.None? && w.o.pods == [] && w.o.cell.NoCell? && w.o.ring.Absent?
  {
    assert StepAt(cfg, run, k);
    RunInv(cfg, run, k);
    RunNoRing(cfg, run, k);
    match run.steps[k]
    case Operator(a) => OnlyReleaseRemoves(cfg, run.states[k], a);
    case Env(e) => OnlyDeleteRemoves(cfg, run.states[k], e);
    case Poll(_) =>
  }

  // The farewell ring

  /** A pod that appeared after the deletion pass listed the pods is eligible. */
  predicate LateJoiner(o: Objects, fence: nat) {
    exists p :: p in o.pods && p.id >= fence && Eligible(p)
  }

  /** A deletion pass publishes no pod it listed: its ring is empty exactly when none joined late. */
  lemma FarewellMembers(cfg: Config, w: World)
    requires Inv(cfg, w) && w.op.DyingMarked?
    ensures forall n :: n in Members(w.o.pods) ==> exists p :: p in w.o.pods && p.name == n && p.id >= w.op.fence
    ensures Members(w.o.pods) == [] <==> !LateJoiner(w.o, w.op.fence)
  {
    forall n | n in Members(w.o.pods)
      ensures exists p :: p in w.o.pods && p.name == n && p.id >= w.op.fence && Eligible(p)
    {
      var p :| p in w.o.pods && Eligible(p) && p.name == n;
    }
    if LateJoiner(w.o, w.op.fence) {
      var p :| p in w.o.pods && p.id >= w.op.fence && Eligible(p);
      assert p.name in Members(w.o.pods);
    }
    assert Members(w.o.pods) != [] ==> Members(w.o.pods)[0] in Members(w.o.pods);
  }

  /** No publication happens in steps `j` to `k`. */
  predicate Silent(run: Run, j: nat, k: nat) {
    k <= |run.steps| && forall i :: j <= i < k && run.steps[i].Operator? ==> !run.steps[i].a.Publish? && !run.steps[i].a.Farewell?
  }

  lemma {:induction false} SilentKeepsRing(cfg: Config, run: Run, j: nat, k: nat)
    requires IsRun(cfg, run) && j <= k && Clean(run, k) && Silent(run, j, k)
    ensures run.states[k].o.ring == run.states[j].o.ring || run.states[k].o.ring.Absent?
  {
    if j < k {
      SilentKeepsRing(cfg, run, j, k - 1);
      assert CleanStep(run.steps[k - 1]);
      assert StepAt(cfg, run, k - 1);
      RingChanges(cfg, run.states[k - 1], run.steps[k - 1]);
    }
  }

  // The contract at teardown

  /** Step `k` starts the removal of the pods: it deletes the cell, or releases a cache without one. */
  predicate TearsDownAt(cfg: Config, run: Run, k: nat) {
    && k < |run.steps| && k < |run.states|
    && run.steps[k].Operator?
    && ((run.steps[k].a.Teardown? && run.states[k].op.DyingShown? && run.states[k].o.cell.Live? && CrossNamespace(cfg))
        || (run.steps[k].a.Release? && run.states[k].op.TornDown? && !CrossNamespace(cfg)))
  }

  /** When teardown begins, the pods the pass listed have waited out their grace. */
  lemma TeardownAged(cfg: Config, run: Run, k: nat, p: Pod)
    requires IsRun(cfg, run) && TearsDownAt(cfg, run, k)
    requires p in run.states[k].o.pods && p.id < run.states[k].op.fence
    ensures Aged(p, PassGrace(run.states[k].op), run.states[k].o.clock) && !Retired(cfg, run.states[k])
  {
    RunInv(cfg, run, k);
  }

  lemma NotRetiredAtTeardown(cfg: Config, run: Run, k: nat)
    requires IsRun(cfg, run) && TearsDownAt(cfg, run, k)
    ensures !Retired(cfg, run.states[k])
  {
    RunInv(cfg, run, k);
  }

  /**
   The drain contract for deletion: when teardown begins, and while a pod listed by the pass
   exists, no lookup of any client answers with it.
   */
  lemma DeletionContract(cfg: Config, run: Run, k: nat, m: nat, c: nat, p: Pod, p': Pod, delay: nat, ticking: bool, lost: nat,
                         h: Hash, built: HashRing, key: string, pod: string)
    requires IsRun(cfg, run) && k <= m && Clean(run, m)
    requires TearsDownAt(cfg, run, k) && p in run.states[k].o.pods && p.id < run.states[k].op.fence
    requires p' in run.states[m].o.pods && p'.id == p.id
    requires LosesAtMost(cfg, run, k, c, p, lost) && PromptlyPublished(cfg, run, k, p, delay)
    requires ticking ==> TickingWhenMarked(run, c, p)
    requires Staleness(cfg, ticking) + lost + delay + SECOND <= PassGrace(run.states[k].op) * SECOND
    requires c < |run.states[m].clients| && run.states[m].clients[c].loaded.Some?
    requires Resolves(h, built, run.states[m].clients[c].loaded.value) && Answers(built, h(key), pod)
    ensures pod != p.name
  {
    TeardownAged(cfg, run, k, p);
    UnroutableFrom(cfg, run, k, m, c, p, p', PassGrace(run.states[k].op), delay, ticking, lost);
    ClearMeansUnroutable(run.states[m].clients[c], p.name, h, built, key, pod);
  }

  // The last ring

  /** Step `j` is the farewell of a complete drain behind `fence`, and nothing is published until `k`. */
  predicate LastFarewell(run: Run, j: nat, k: nat, fence: nat) {
    && j < k <= |run.steps| < |run.states|
    && run.steps[j].Operator? && run.steps[j].a.Farewell?
    && run.states[j].op.DyingMarked? && run.states[j].op.complete && run.states[j].op.fence == fence
    && Silent(run, j + 1, k)
  }

  /** A pass on its way to the teardown has said farewell, and nobody has published since. */
  lemma {:induction false} FarewellOf(cfg: Config, run: Run, k: nat) returns (j: nat)
    requires IsRun(cfg, run) && k < |run.states|
    requires run.states[k].op.DyingShown? || run.states[k].op.TornDown?
    ensures LastFarewell(run, j, k, run.states[k].op.fence)
  {
    assert StepAt(cfg, run, k - 1);
    var op := run.states[k - 1].op;
    if op.DyingShown? || op.TornDown? {
      j := FarewellOf(cfg, run, k - 1);
    } else {
      j := k - 1;
    }
  }

  predicate OffersNobody(store: RingStore) {
    store.Absent? || (store.Decoded? && store.ring.members == [])
  }

  /** A farewell on the way to a teardown finds the ConfigMap writable. */
  lemma FarewellPublishes(cfg: Config, run: Run, j: nat, k: nat, fence: nat)
    requires IsRun(cfg, run) && Clean(run, k) && LastFarewell(run, j, k, fence) && !Retired(cfg, run.states[k])
    ensures Applied(run.steps[j].a.reply) ==> PublishesAt(run, j)
    ensures !PublishesAt(run, j) ==> run.states[j + 1].o.ring == run.states[j].o.ring
  {
    assert Clean(run, j) && CleanStep(run.steps[j]);
    RunStore(cfg, run, j);
    RunInv(cfg, run, j);
    if Retired(cfg, run.states[j]) { RetiredSince(cfg, run, j, k); }
    assert StepAt(cfg, run, j);
    RingChanges(cfg, run.states[j], run.steps[j]);
  }

  /** From the farewell to the teardown the stored ring stays. */
  lemma RingUpToTeardown(cfg: Config, run: Run, j: nat, k: nat)
    requires IsRun(cfg, run) && Clean(run, k) && j <= k && Silent(run, j, k) && !Retired(cfg, run.states[k])
    ensures run.states[k].o.ring == run.states[j].o.ring
  {
    SilentKeepsRing(cfg, run, j, k);
    assert Clean(run, j);
    RunStore(cfg, run, j);
    if run.states[j].o.ring.Decoded? { RingMovesForward(cfg, run, j, k); }
  }

  lemma FarewellIsEmpty(cfg: Config, run: Run, j: nat, fence: nat)
    requires IsRun(cfg, run) && PublishesAt(run, j) && run.states[j].op.DyingMarked? && run.states[j].op.fence == fence
    ensures OffersNobody(run.states[j + 1].o.ring) <==> !LateJoiner(run.states[j].o, fence)
  {
    RunInv(cfg, run, j);
    FarewellMembers(cfg, run.states[j]);
    assert DesiredRing(run.states[j].o).members == Members(run.states[j].o.pods);
  }

  /** What the last farewell leaves, and that it is still there at state `k`. */
  lemma FarewellLeaves(cfg: Config, run: Run, j: nat, k: nat, fence: nat)
    requires IsRun(cfg, run) && Clean(run, k) && LastFarewell(run, j, k, fence) && !Retired(cfg, run.states[k])
    ensures run.states[k].o.ring == run.states[j + 1].o.ring
    ensures Applied(run.steps[j].a.reply) ==> PublishesAt(run, j)
    ensures OffersNobody(run.states[j + 1].o.ring) <==>
              if PublishesAt(run, j) then !LateJoiner(run.states[j].o, fence) else OffersNobody(run.states[j].o.ring)
  {
    FarewellPublishes(cfg, run, j, k, fence);
    RingUpToTeardown(cfg, run, j + 1, k);
    if PublishesAt(run, j) { FarewellIsEmpty(cfg, run, j, fence); }
  }

  /**
   When teardown begins, the stored ring is the one its pass's farewell left, at step `j`. If that
   write went through, the ring is empty exactly when no pod that appeared after the pass listed
   the pods was eligible; if not, it is as empty as the ring before.
   */
  lemma LastRing(cfg: Config, run: Run, k: nat) returns (j: nat)
    requires IsRun(cfg, run) && Clean(run, k) && TearsDownAt(cfg, run, k)
    ensures LastFarewell(run, j, k, run.states[k].op.fence)
    ensures run.states[k].o.ring == run.states[j + 1].o.ring
    ensures Applied(run.steps[j].a.reply) ==> PublishesAt(run, j)
    ensures OffersNobody(run.states[k].o.ring) <==>
              if PublishesAt(run, j) then !LateJoiner(run.states[j].o, run.states[k].op.fence)
              else OffersNobody(run.states[j].o.ring)
  {
    NotRetiredAtTeardown(cfg, run, k);
    j := FarewellOf(cfg, run, k);
    FarewellLeaves(cfg, run, j, k, run.states[k].op.fence);
  }

  // Unreadable timestamps

  /** Deletion is under way, and whatever pass is in flight listed the instance `id`. */
  predicate DeletionListed(w: World, id: nat) {
    && w.o.cr.Some? && w.o.cr.value.deleting && w.o.cr.value.finalizer
    && !LiveOp(w.op)
    && id < w.o.nextId
    && (w.op.DyingMarked? || w.op.DyingShown? || w.op.TornDown? ==> id < w.op.fence)
  }

  predicate Unreadable(o: Objects, id: nat) {
    forall p :: p in o.pods && p.id == id ==> p.drain.Garbled?
  }

  /** The resource is still there, and so is the unreadable timestamp. */
  predicate Blocked(w: World, id: nat) {
    DeletionListed(w, id) && Unreadable(w.o, id)
  }

  lemma GarbledStays(cfg: Config, w: World, s: Step, p: Pod)
    requires Enabled(cfg, w, s) && !LiveOp(w.op) && p in Apply(cfg, w, s).o.pods && p.id < w.o.nextId
    requires forall q :: q in w.o.pods && q.id == p.id ==> q.drain.Garbled?
    ensures p.drain.Garbled?
  {
    match s
    case Operator(a) =>
      var pods' := ApplyOperator(cfg, w, a).o.pods;
      var i :| 0 <= i < |pods'| && pods'[i] == p;
      OperatorKeepsPods(cfg, w, a);
      assert w.o.pods[i] in w.o.pods;
    case Env(e) =>
      var q := Ancestor(cfg, w, s, p);
      if p.drain.Marked? { EnvNeverMarks(cfg, w, e, p); }
    case Poll(_) =>
  }

  /** A pass that listed an unreadable timestamp does not get past its drain. */
  lemma NotDrained(w: World, a: Pod)
    requires PassInv(w) && DeletionListed(w, a.id) && a in w.o.pods && a.drain.Garbled?
    ensures !w.op.DyingShown? && !w.op.TornDown? && (w.op.DyingMarked? ==> !w.op.complete)
  {
  }

  lemma ListedStep(cfg: Config, w: World, s: Step, id: nat)
    requires DeletionListed(w, id) && Enabled(cfg, w, s)
    requires !w.op.DyingShown? && !w.op.TornDown? && (w.op.DyingMarked? ==> !w.op.complete)
    ensures DeletionListed(Apply(cfg, w, s), id)
  {
  }

  lemma BlockedStep(cfg: Config, w: World, s: Step, p: Pod)
    requires PassInv(w) && Blocked(w, p.id) && Enabled(cfg, w, s)
    requires p in Apply(cfg, w, s).o.pods
    ensures Blocked(Apply(cfg, w, s), p.id)
  {
    assert Unreadable(Apply(cfg, w, s).o, p.id) by {
      forall q | q in Apply(cfg, w, s).o.pods && q.id == p.id ensures q.drain.Garbled? {
        GarbledStays(cfg, w, s, q);
      }
    }
    var a := Ancestor(cfg, w, s, p);
    NotDrained(w, a);
    ListedStep(cfg, w, s, p.id);
  }

  lemma BlockedAtFirst(cfg: Config, w: World, q: Pod)
    requires Inv(cfg, w) && w.op.Idle? && w.o.cr.Some? && w.o.cr.value.deleting
    requires q in w.o.pods && q.drain.Garbled?
    ensures Blocked(w, q.id)
  {
    assert OwnPod(cfg, w.o, q);
    forall r | r in w.o.pods && r.id == q.id ensures r.drain.Garbled? {
      SameIdSamePod(w.o.pods, r, q);
    }
  }

  /**
   Deletion does not heal an unreadable timestamp: once a deletion finds one, the resource stays
   until that instance is gone.
   */
  lemma {:induction false} DeletionWaitsForUnreadable(cfg: Config, run: Run, i: nat, k: nat, q: Pod, p: Pod)
    requires IsRun(cfg, run) && i <= k < |run.states|
    requires run.states[i].op.Idle? && run.states[i].o.cr.Some? && run.states[i].o.cr.value.deleting
    requires q in run.states[i].o.pods && q.drain.Garbled?
    requires p in run.states[k].o.pods && p.id == q.id
    ensures Blocked(run.states[k], q.id)
  {
    if i < k {
      KnownId(cfg, run, i, q);
      IdsGrow(cfg, run, i, k - 1);
      assert StepAt(cfg, run, k - 1);
      var m := Ancestor(cfg, run.states[k - 1], run.steps[k - 1], p);
      DeletionWaitsForUnreadable(cfg, run, i, k - 1, q, m);
      assert PassInv(run.states[k - 1]) by { RunInv(cfg, run, k - 1); }
      BlockedStep(cfg, run.states[k - 1], run.steps[k - 1], p);
    } else {
      RunInv(cfg, run, i);
      BlockedAtFirst(cfg, run.states[i], q);
    }
  }
}
