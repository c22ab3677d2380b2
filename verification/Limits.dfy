/**
 Runs that show where promises end: a publication can be skipped, a ring can outgrow the request,
 and the last ring before a teardown need not be empty.
 */
module Limits {
  import opened Basics
  import opened Names
  import opened Sorting
  import opened Pods
  import opened HashRing
  import opened CacheClient
  import opened ApiServer
  import opened Protocol
  import opened Versions
  import opened DrainSafety
  import opened Deletion
  import opened Status
  import opened Scenarios

  // A publication that never happens

  /** The pass that marked the pod is cut before it publishes, and the grace period goes by. */
  lemma CutAfterMark(cfg: Config, grace: nat) returns (run: Run)
    ensures CleanRun(cfg, run) && Last(run).op.Idle?
    ensures Last(run).o == Objs(cfg, 1, grace, Some(2), [MarkedPod(cfg, 0)], Decoded(OldRing(cfg)), grace * SECOND)
  {
    run := ComesUp(cfg, grace, 0);
    var i;
    run, i := MarksThePod(cfg, grace, run, 0);
    run := Go(cfg, run, Operator(Abort));
    run := Go(cfg, run, Env(Tick(grace * SECOND)));
  }

  /**
   Publishing before terminating can fail: there is a run in which every pass that could publish
   is cut short, and which lowers the StatefulSet over a pod that the ring still offers.
   */
  lemma CutPassesSkipPublication(cfg: Config, grace: nat)
    ensures exists run, k: nat, p ::
              CleanRun(cfg, run) && LowersAt(run, k) && RemovedBy(run, k, p) && Offers(run.states[k].o.ring, p.name)
  {
    var run := CutAfterMark(cfg, grace);
    var drained := DrainsThePod(cfg, grace, run, 0, OldRing(cfg));
    var longer := LowersOverPod(cfg, grace, drained, 0, OldRing(cfg));
    var k := |drained.steps|;
    assert longer.states[k] == Last(drained);
    assert LowersAt(longer, k) && RemovedBy(longer, k, MarkedPod(cfg, 0));
  }

  // A ring larger than the request

  lemma TwoNames(a: Pod, b: Pod)
    requires Eligible(a) && Eligible(b)
    ensures |Members([a, b])| == 2
  {
    assert [a, b][..1] == [a] && [a][..0] == [];
    assert EligibleNames([]) == [] && EligibleNames([a]) == [a.name];
    assert EligibleNames([a, b]) == [a.name, b.name];
    SameElements(Members([a, b]), [a.name, b.name]);
  }

  lemma TwoMembers(cfg: Config)
    ensures |Members([ReadyPod(cfg, 1, 1), ReadyPod(cfg, 2, 0)])| == 2
  {
    ReadyIsEligible(cfg, 1, 1);
    ReadyIsEligible(cfg, 2, 0);
    TwoNames(ReadyPod(cfg, 1, 1), ReadyPod(cfg, 2, 0));
  }

  /** While the pass that holds the StatefulSet waits to publish, the marked pod goes. */
  lemma PodGoes(cfg: Config, grace: nat) returns (run: Run)
    ensures CleanRun(cfg, run) && Last(run).op == Scaled(Cr(1, grace, false, true), false, 1)
    ensures Last(run).o == Objs(cfg, 1, grace, Some(2), [], Decoded(OldRing(cfg)), 0).(nextId := 1)
  {
    run := ComesUp(cfg, grace, 0);
    var i;
    run, i := MarksThePod(cfg, grace, run, 0);
    run := Go(cfg, run, Env(RemovePod(0)));
  }

  /** Then both pods are created anew and get ready. */
  lemma Refills(cfg: Config, grace: nat) returns (run: Run)
    ensures CleanRun(cfg, run) && Last(run).op == Scaled(Cr(1, grace, false, true), false, 1)
    ensures Last(run).o ==
            Objs(cfg, 1, grace, Some(2), [ReadyPod(cfg, 1, 1), ReadyPod(cfg, 2, 0)], Decoded(OldRing(cfg)), 0).(nextId := 3)
  {
    run := PodGoes(cfg, grace);
    run := Go(cfg, run, Env(CreatePod(1)));
    run := Go(cfg, run, Env(ChangeStatus(0, Running, READY)));
    run := SecondPod(cfg, grace, run);
  }

  lemma DistinctNames(cfg: Config)
    ensures PodName(cfg.name, 0) != PodName(cfg.name, 1)
  {
    OrdinalRoundTrip(cfg.name, 0);
    OrdinalRoundTrip(cfg.name, 1);
  }

  lemma SecondPod(cfg: Config, grace: nat, run: Run) returns (longer: Run)
    requires CleanRun(cfg, run) && Last(run).op == Scaled(Cr(1, grace, false, true), false, 1)
    requires Last(run).o == Objs(cfg, 1, grace, Some(2), [ReadyPod(cfg, 1, 1)], Decoded(OldRing(cfg)), 0).(nextId := 2)
    ensures CleanRun(cfg, longer) && Last(longer).op == Scaled(Cr(1, grace, false, true), false, 1)
    ensures Last(longer).o ==
            Objs(cfg, 1, grace, Some(2), [ReadyPod(cfg, 1, 1), ReadyPod(cfg, 2, 0)], Decoded(OldRing(cfg)), 0).(nextId := 3)
  {
    DistinctNames(cfg);
    longer := Go(cfg, run, Env(CreatePod(0)));
    longer := Go(cfg, longer, Env(ChangeStatus(1, Running, READY)));
  }

  /**
   Pods created during a pass can make its ring larger than the request. The pass then reports
   Available and Progressing at once.
   */
  lemma RingOutgrowsRequest(cfg: Config, grace: nat)
    ensures exists run, k: nat ::
              && CleanRun(cfg, run) && k < |run.steps| && run.steps[k] == Operator(Publish(Ok)) && run.states[k].op.Scaled?
              && PublishSucceeds(cfg, run.states[k].o, Ok)
              && |DesiredRing(run.states[k].o).members| > run.states[k].op.cr.replicas
              && var conditions := ObservedConditions(run.states[k].op.cr.replicas, DesiredRing(run.states[k].o));
                 conditions.available && conditions.progressing
  {
    var run := Refills(cfg, grace);
    TwoMembers(cfg);
    assert DesiredRing(Last(run).o).version == 2;
    var longer := Go(cfg, run, Operator(Publish(Ok)));
    assert longer.states[|run.steps|] == Last(run) && longer.steps[|run.steps|] == Operator(Publish(Ok));
  }

  // A last ring that is not empty

  /** A deletion that finds no pods. */
  lemma FindsNothing(cfg: Config, grace: nat) returns (run: Run)
    ensures CleanRun(cfg, run) && Last(run).op == DyingMarked(Cr(2, grace, true, true), true, 0)
    ensures Last(run).o == Objs(cfg, 2, grace, Some(2), [], Absent, 0).(cr := Some(Cr(2, grace, true, true)))
  {
    run := SetCreated(cfg, grace, 0);
    run := Go(cfg, run, Env(DeleteCr));
    run := Go(cfg, run, Operator(Begin(Ok)));
    run := Go(cfg, run, Operator(MarkAll(0)));
  }

  /** Then a pod is created and gets ready before the farewell. */
  lemma JoinsLate(cfg: Config, grace: nat) returns (run: Run)
    ensures CleanRun(cfg, run) && Last(run).op == DyingMarked(Cr(2, grace, true, true), true, 0)
    ensures Last(run).o == Objs(cfg, 2, grace, Some(2), [ReadyPod(cfg, 0, 1)], Absent, 0).(cr := Some(Cr(2, grace, true, true)))
  {
    run := FindsNothing(cfg, grace);
    run := Go(cfg, run, Env(CreatePod(1)));
    run := Go(cfg, run, Env(ChangeStatus(0, Running, READY)));
  }

  /** A pod that appears between a deletion pass's listing and its farewell is in the last ring. */
  lemma LastRingCanOffer(cfg: Config, grace: nat)
    ensures exists run, k: nat :: CleanRun(cfg, run) && TearsDownAt(cfg, run, k) && !OffersNobody(run.states[k].o.ring)
  {
    var run := JoinsLate(cfg, grace);
    MemberFacts(cfg, 0);
    run := Go(cfg, run, Operator(Farewell(Ok)));
    assert Last(run).o.ring == Decoded(OldRing(cfg));
    var k := |run.steps|;
    var longer := Go(cfg, run, Operator(Teardown(Ok)));
    if !CrossNamespace(cfg) {
      k, run := |longer.steps|, longer;
      longer := Go(cfg, run, Operator(Release(Ok)));
    }
    assert longer.states[k] == Last(run);
    assert TearsDownAt(cfg, longer, k);
  }
}
