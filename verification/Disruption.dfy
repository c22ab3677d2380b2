/** What a drain does to the keys: only those of the pods that leave change hands. */
module Disruption {
  import opened Basics
  import opened Pods
  import opened HashRing
  import opened ApiServer
  import opened Protocol
  import opened Invariants
  import opened DrainSafety

  /** In steps `i` to `j` pods may be marked, terminate and go, but none is created or changes its status. */
  predicate OnlyLeave(run: Run, i: nat, j: nat) {
    j <= |run.steps| && forall m :: i <= m < j ==> LeavingStep(run.steps[m])
  }

  predicate LeavingStep(s: Step) {
    s.Env? ==> !s.e.CreatePod? && !s.e.ChangeStatus?
  }

  lemma EligibleStep(cfg: Config, w: World, s: Step, p: Pod)
    requires Enabled(cfg, w, s) && LeavingStep(s) && p in Apply(cfg, w, s).o.pods && Eligible(p)
    ensures p in w.o.pods
  {
    var pods' := Apply(cfg, w, s).o.pods;
    var n :| 0 <= n < |pods'| && pods'[n] == p;
    match s
    case Operator(a) =>
      if !a.DrainPods? && !a.MarkAll? { OtherStepsKeepPods(cfg, w, a); }
    case Env(e) =>
    case Poll(_) =>
  }

  /** While pods only leave, whoever is eligible was eligible before. */
  lemma {:induction false} EligibleSince(cfg: Config, run: Run, i: nat, j: nat, p: Pod)
    requires IsRun(cfg, run) && i <= j && OnlyLeave(run, i, j)
    requires p in run.states[j].o.pods && Eligible(p)
    ensures p in run.states[i].o.pods
  {
    if i < j {
      assert StepAt(cfg, run, j - 1) && LeavingStep(run.steps[j - 1]);
      EligibleStep(cfg, run.states[j - 1], run.steps[j - 1], p);
      EligibleSince(cfg, run, i, j - 1, p);
    }
  }

  lemma MembersShrink(cfg: Config, run: Run, i: nat, j: nat)
    requires IsRun(cfg, run) && i <= j && OnlyLeave(run, i, j)
    ensures forall n :: n in Members(run.states[j].o.pods) ==> n in Members(run.states[i].o.pods)
  {
    forall n | n in Members(run.states[j].o.pods) ensures n in Members(run.states[i].o.pods) {
      var p :| p in run.states[j].o.pods && Eligible(p) && p.name == n;
      EligibleSince(cfg, run, i, j, p);
    }
  }

  /**
   Between two publications during which pods only leave, a client that goes from the first ring
   to the second keeps a key exactly when its owner is still eligible: draining moves no other key.
   */
  lemma OnlyLeaversLoseKeys(cfg: Config, run: Run, i: nat, j: nat, k: nat, m: nat, c: nat,
                            h: Hash, was: HashRing, built: HashRing, key: string, p: string, q: string)
    requires IsRun(cfg, run) && i < j && PublishesAt(run, i) && PublishesAt(run, j) && OnlyLeave(run, i, j)
    requires k <= m < |run.states| && c < |run.states[k].clients| && c < |run.states[m].clients|
    requires run.states[k].clients[c].loaded == Some(run.states[i + 1].o.ring.ring)
    requires run.states[m].clients[c].loaded == Some(run.states[j + 1].o.ring.ring)
    requires NoSharedPoints(h, run.states[k].clients[c].loaded.value.members)
    requires Resolves(h, was, run.states[k].clients[c].loaded.value) && Answers(was, h(key), p)
    requires Resolves(h, built, run.states[m].clients[c].loaded.value) && Answers(built, h(key), q)
    ensures q == p <==> exists r :: r in run.states[j].o.pods && r.name == p && Eligible(r)
  {
    var before, after := run.states[k].clients[c].loaded.value, run.states[m].clients[c].loaded.value;
    assert before.members == Members(run.states[i].o.pods) && after.members == Members(run.states[j].o.pods);
    MembersShrink(cfg, run, i, j);
    AnswerOwns(h, built, after, h(key), q);
    RemovalKeepsSurvivors(h, before, after, was, built, h(key), p, q);
  }
}
