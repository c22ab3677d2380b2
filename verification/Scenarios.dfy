/** Runs of the drain protocol built step by step: a cache that comes up, and a scale-down over its one pod. */
module Scenarios {
  import opened Basics
  import opened Names
  import opened Pods
  import opened HashRing
  import opened CacheClient
  import opened ApiServer
  import opened Protocol
  import opened Versions
  import opened DrainSafety

  function Last(run: Run): World
    requires |run.states| == |run.steps| + 1
  {
    run.states[|run.steps|]
  }

  /** A run that is clean up to its end. */
  predicate CleanRun(cfg: Config, run: Run) {
    IsRun(cfg, run) && Clean(run, |run.steps|)
  }

  predicate Extends(longer: Run, run: Run) {
    run.states <= longer.states && run.steps <= longer.steps
  }

  lemma Go(cfg: Config, run: Run, s: Step) returns (longer: Run)
    requires CleanRun(cfg, run) && CanCount(Last(run).o.ring) && Enabled(cfg, Last(run), s) && CleanStep(s)
    ensures CleanRun(cfg, longer) && Extends(longer, run) && longer.steps == run.steps + [s]
    ensures Last(longer) == Apply(cfg, Last(run), s)
  {
    longer := Continue(cfg, run, s);
  }

  /** The cell of a cache that has been placed. */
  function HomeCell(cfg: Config): Cell {
    if CrossNamespace(cfg) then Live else NoCell
  }

  /** A live resource between two passes. */
  predicate AtRest(cfg: Config, w: World) {
    && w.op.Idle? && w.o.cr.Some? && w.o.cr.value.finalizer && !w.o.cr.value.deleting
    && (w.o.cell == NoCell || w.o.cell == HomeCell(cfg)) && CanCount(w.o.ring)
  }

  /** What a full scale-down loop reports. */
  predicate DrainComplete(cfg: Config, o: Objects)
    requires o.cr.Some?
  {
    AllAged(o.pods, Doomed(cfg, o, o.cr.value), o.cr.value.grace, o.clock)
  }

  /** A run continued by a pass up to its drain loop, which is the last step. */
  lemma PassUpToDrain(cfg: Config, run: Run) returns (longer: Run)
    requires CleanRun(cfg, run) && AtRest(cfg, Last(run))
    ensures CleanRun(cfg, longer) && Extends(longer, run) && |longer.steps| == |run.steps| + 3
    ensures longer.states[|run.steps| + 2].o == Last(run).o.(cell := HomeCell(cfg))
    ensures longer.states[|run.steps| + 2].clients == Last(run).clients
    ensures longer.states[|run.steps| + 2].op == Placed(Last(run).o.cr.value)
    ensures longer.steps[|run.steps| + 2] == Operator(DrainPods(|Last(run).o.pods|))
    ensures Last(longer).o == Last(run).o.(cell := HomeCell(cfg), pods := DrainedPods(cfg, Last(run).o, Last(run).o.cr.value))
    ensures Last(longer).op == Drained(Last(run).o.cr.value, DrainComplete(cfg, Last(run).o), Last(run).o.nextId)
    ensures Last(longer).clients == Last(run).clients
    ensures forall i :: |run.steps| <= i < |longer.steps| ==> !longer.steps[i].Poll?
  {
    longer := Go(cfg, run, Operator(Begin(Ok)));
    longer := Go(cfg, longer, Operator(EnsureCell(Ok)));
    longer := Go(cfg, longer, Operator(DrainPods(|Last(run).o.pods|)));
  }

  // One cache, two replicas, and a single ready pod at ordinal one

  const READY := [Condition(POD_READY, IsTrue)]

  function ReadyPod(cfg: Config, id: nat, ordinal: Count): Pod {
    Pod(id, PodName(cfg.name, ordinal), Running, READY, false, Unmarked)
  }

  function MarkedPod(cfg: Config, ts: nat): Pod {
    ReadyPod(cfg, 0, 1).(drain := Marked(ts))
  }

  function Objs(cfg: Config, replicas: Count, grace: nat, sts: Option<Count>, pods: seq<Pod>, ring: RingStore, clock: nat): Objects {
    Objects(Some(Cr(replicas, grace, false, true)), sts, pods, ring, HomeCell(cfg), |pods|, clock)
  }

  function OldRing(cfg: Config): Ring {
    Ring(1, [PodName(cfg.name, 1)])
  }

  const NEW_RING := Ring(2, [])

  const OFF := [ClientState(None, Off)]

  lemma ReadyIsEligible(cfg: Config, id: nat, ordinal: Count)
    ensures Eligible(ReadyPod(cfg, id, ordinal)) && Ordinal(PodName(cfg.name, ordinal)) == ordinal
  {
    OrdinalRoundTrip(cfg.name, ordinal);
    assert IsReady(READY);
  }

  lemma MemberFacts(cfg: Config, ts: nat)
    ensures Members([ReadyPod(cfg, 0, 1)]) == [PodName(cfg.name, 1)]
    ensures Members([MarkedPod(cfg, ts)]) == []
  {
    ReadyIsEligible(cfg, 0, 1);
    var p, q := ReadyPod(cfg, 0, 1), MarkedPod(cfg, ts);
    assert EligibleNames([p][..0]) == [] && EligibleNames([p]) == [p.name];
    assert EligibleNames([q][..0]) == [] && EligibleNames([q]) == [];
  }

  lemma VisitFacts(cfg: Config, ts: nat)
    ensures forall now: nat :: VisitUpTo([ReadyPod(cfg, 0, 1)], {}, now, 1) == [ReadyPod(cfg, 0, 1)]
    ensures forall now: nat :: now / SECOND == ts ==>
              VisitUpTo([ReadyPod(cfg, 0, 1)], DoomedNames(cfg.name, 1, 2), now, 1) == [MarkedPod(cfg, ts)]
    ensures forall now: nat :: VisitUpTo([MarkedPod(cfg, ts)], DoomedNames(cfg.name, 1, 2), now, 1) == [MarkedPod(cfg, ts)]
    ensures PodName(cfg.name, 1) in DoomedNames(cfg.name, 1, 2)
  {
  }

  lemma SetCreated(cfg: Config, grace: nat, clock: nat) returns (run: Run)
    ensures CleanRun(cfg, run) && Last(run) == World(Objs(cfg, 2, grace, Some(2), [], Absent, clock), Idle, OFF)
  {
    var cr := Cr(2, grace, false, false);
    run := Run([World(Objects(Some(cr), None, [], Absent, NoCell, 0, clock), Idle, OFF)], []);
    run := Go(cfg, run, Operator(Begin(Ok)));
    run := PassUpToDrain(cfg, run);
    run := Go(cfg, run, Operator(Scale(Ok)));
    run := Go(cfg, run, Operator(Abort));
  }

  lemma PodReady(cfg: Config, grace: nat, clock: nat) returns (run: Run)
    ensures CleanRun(cfg, run)
    ensures Last(run) == World(Objs(cfg, 2, grace, Some(2), [ReadyPod(cfg, 0, 1)], Absent, clock), Idle, OFF)
  {
    run := SetCreated(cfg, grace, clock);
    run := Go(cfg, run, Env(CreatePod(1)));
    run := Go(cfg, run, Env(ChangeStatus(0, Running, READY)));
  }

  /** The cache comes up, and the ring offers its one pod. */
  lemma ComesUp(cfg: Config, grace: nat, clock: nat) returns (run: Run)
    ensures CleanRun(cfg, run)
    ensures Last(run) ==
            World(Objs(cfg, 2, grace, Some(2), [ReadyPod(cfg, 0, 1)], Decoded(OldRing(cfg)), clock), Idle, OFF)
  {
    run := PodReady(cfg, grace, clock);
    MemberFacts(cfg, 0);
    VisitFacts(cfg, 0);
    run := PassUpToDrain(cfg, run);
    run := Go(cfg, run, Operator(Scale(Ok)));
    assert Last(run).o == Objs(cfg, 2, grace, Some(2), [ReadyPod(cfg, 0, 1)], Absent, clock);
    run := Go(cfg, run, Operator(Publish(Ok)));
  }

  /** The request drops to one replica, and the last step, of a new pass, marks the pod. */
  lemma LoopMarks(cfg: Config, grace: nat, run: Run, ts: nat) returns (longer: Run, i: nat)
    requires CleanRun(cfg, run) && Last(run).op.Idle? && Last(run).o.clock / SECOND == ts
    requires Last(run).o == Objs(cfg, 2, grace, Some(2), [ReadyPod(cfg, 0, 1)], Decoded(OldRing(cfg)), Last(run).o.clock)
    ensures CleanRun(cfg, longer) && Extends(longer, run) && |longer.steps| == i + 1
    ensures MarkedAt(longer, i, MarkedPod(cfg, ts)) && !longer.steps[i].Poll?
    ensures longer.states[i].o.clock == Last(run).o.clock && longer.states[i].clients == Last(run).clients
    ensures Last(longer).o == Objs(cfg, 1, grace, Some(2), [MarkedPod(cfg, ts)], Decoded(OldRing(cfg)), Last(run).o.clock)
    ensures Last(longer).op == Drained(Cr(1, grace, false, true), false, 1) && Last(longer).clients == Last(run).clients
  {
    VisitFacts(cfg, ts);
    ReadyIsEligible(cfg, 0, 1);
    longer := Go(cfg, run, Env(EditSpec(1, grace)));
    longer := PassUpToDrain(cfg, longer);
    i := |longer.steps| - 1;
    assert Last(longer).o.pods[0] == MarkedPod(cfg, ts);
    assert !DrainComplete(cfg, Objs(cfg, 1, grace, Some(2), [ReadyPod(cfg, 0, 1)], Decoded(OldRing(cfg)), Last(run).o.clock)) by {
      assert ReadyPod(cfg, 0, 1) in [ReadyPod(cfg, 0, 1)];
    }
  }

  /** The request drops to one replica, and step `i` of a pass marks the pod; the StatefulSet is held. */
  lemma MarksThePod(cfg: Config, grace: nat, run: Run, ts: nat) returns (longer: Run, i: nat)
    requires CleanRun(cfg, run) && Last(run).op.Idle? && Last(run).o.clock / SECOND == ts
    requires Last(run).o == Objs(cfg, 2, grace, Some(2), [ReadyPod(cfg, 0, 1)], Decoded(OldRing(cfg)), Last(run).o.clock)
    ensures CleanRun(cfg, longer) && Extends(longer, run) && |longer.steps| == i + 2
    ensures MarkedAt(longer, i, MarkedPod(cfg, ts))
    ensures longer.states[i].o.clock == Last(run).o.clock && longer.states[i].clients == Last(run).clients
    ensures Last(longer).o == Objs(cfg, 1, grace, Some(2), [MarkedPod(cfg, ts)], Decoded(OldRing(cfg)), Last(run).o.clock)
    ensures Last(longer).op == Scaled(Cr(1, grace, false, true), false, 1) && Last(longer).clients == Last(run).clients
    ensures !longer.steps[i].Poll? && !longer.steps[i + 1].Poll?
  {
    var shorter;
    shorter, i := LoopMarks(cfg, grace, run, ts);
    longer := Go(cfg, shorter, Operator(Scale(Ok)));
    assert longer.states[i] == shorter.states[i] && longer.states[i + 1] == shorter.states[i + 1] && longer.steps[i] == shorter.steps[i];
  }

  /** Once the grace has passed, the next pass drains completely, and its write lowers the StatefulSet over the pod. */
  lemma DrainsThePod(cfg: Config, grace: nat, run: Run, ts: nat, ring: Ring) returns (longer: Run)
    requires CleanRun(cfg, run) && Last(run).op.Idle? && ring.version < MAX_INT64
    requires Last(run).o == Objs(cfg, 1, grace, Some(2), [MarkedPod(cfg, ts)], Decoded(ring), Last(run).o.clock)
    requires Last(run).o.clock >= (ts + grace) * SECOND
    ensures CleanRun(cfg, longer) && Extends(longer, run)
    ensures Last(longer) == World(Last(run).o, Drained(Cr(1, grace, false, true), true, 1), Last(run).clients)
    ensures forall i :: |run.steps| <= i < |longer.steps| ==> !longer.steps[i].Poll?
  {
    VisitFacts(cfg, ts);
    longer := PassUpToDrain(cfg, run);
  }

  lemma LowersOverPod(cfg: Config, grace: nat, run: Run, ts: nat, ring: Ring) returns (longer: Run)
    requires CleanRun(cfg, run) && Last(run).op == Drained(Cr(1, grace, false, true), true, 1) && ring.version < MAX_INT64
    requires Last(run).o == Objs(cfg, 1, grace, Some(2), [MarkedPod(cfg, ts)], Decoded(ring), Last(run).o.clock)
    ensures CleanRun(cfg, longer) && Extends(longer, run) && |longer.steps| == |run.steps| + 1
    ensures LowersAt(longer, |run.steps|) && RemovedBy(longer, |run.steps|, MarkedPod(cfg, ts))
  {
    ReadyIsEligible(cfg, 0, 1);
    longer := Go(cfg, run, Operator(Scale(Ok)));
    assert Last(longer).o.sts == Some(1);
    assert Last(longer) == longer.states[|run.steps| + 1];
  }
}
