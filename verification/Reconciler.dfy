/**
 The reconciler's methods as they run: each updates the API server's objects in place, and any
 request it makes may fail. A whole reconcile pass is shown to be a sequence of protocol steps.
 */
module Reconciler {
  import opened Basics
  import opened Names
  import opened Pods
  import opened HashRing
  import opened CacheClient
  import opened ApiServer
  import opened Protocol
  import opened Invariants
  import opened Status

  /** Which requests of a pass fail; `refused` holds the pods whose update is turned down. */
  datatype Faults = Faults(
    getCr: bool, addFinalizer: Reply, cell: Reply, service: bool, serviceRetry: bool,
    getSts: bool, listPods: bool, refused: set<nat>, scale: Reply,
    listMembers: bool, getRing: bool, publish: Reply, status: bool,
    getCell: bool, deleteCell: Reply, release: Reply)

  /** When the pass asks to be run again. */
  datatype Requeue = Never | Now | Seconds(n: nat)

  /** The visit at a scale-down loop's position has to write. */
  predicate Writes(p: Pod, doomed: set<string>) {
    p.name in doomed && !p.drain.Marked?
  }

  /**
   What a drain makes of pod `p`: one that the scale-down removes may get a timestamp, and has one
   after a full loop; a survivor stays exactly as it was.
   */
  predicate Touched(p': Pod, p: Pod, sts: Option<Count>, desired: Count, now: nat, full: bool) {
    if sts.Some? && desired <= Ordinal(p.name) < sts.value
    then p' == p.(drain := p'.drain) && (p'.drain == p.drain || (!p.drain.Marked? && p'.drain == Marked(now / 1_000_000_000)))
         && (full ==> p'.drain.Marked?)
    else p' == p
  }

  lemma VisitsTouch(cfg: Config, o: Objects, cr: Cr, stop: nat, n: nat)
    requires PodsInv(cfg, o) && n < |o.pods|
    ensures Touched(VisitUpTo(o.pods, Doomed(cfg, o, cr), o.clock, stop)[n], o.pods[n], o.sts, cr.replicas, o.clock, stop >= |o.pods|)
  {
    assert OwnPod(cfg, o, o.pods[n]);
    if o.sts.Some? { DoomedOwn(cfg, o, o.pods[n], cr.replicas, o.sts.value); }
  }

  /** A scale-down drain ends in an error: a failed read, or a refused update that was needed. */
  predicate DrainFails(cfg: Config, o: Objects, snapshot: Cr, f: Faults) {
    || !f.getSts
    || (o.sts.Some? && snapshot.replicas < o.sts.value
        && (!f.listPods || exists p :: p in o.pods && Writes(p, Doomed(cfg, o, snapshot)) && p.id in f.refused))
  }

  /** A live pass ends in an error: some request it needs fails, or its cell is being torn down. */
  predicate LiveFails(cfg: Config, o: Objects, snapshot: Cr, f: Faults) {
    || (cfg.isolate && !f.cell.Ok?)
    || !(f.service || f.serviceRetry)
    || DrainFails(cfg, o, snapshot, f)
    || !f.scale.Ok?
    || (CrossNamespace(cfg) && o.cell.Terminating?)
    || !f.listMembers || !f.getRing || !f.status
    || (!f.publish.Ok? && !UpToDate(o.(pods := DrainedPods(cfg, o, snapshot))))
  }

  /** The part of a live pass that follows the placing of the cell ends in an error. */
  predicate ServeFails(cfg: Config, o: Objects, snapshot: Cr, f: Faults) {
    || DrainFails(cfg, o, snapshot, f)
    || !f.scale.Ok? || !Writable(cfg, o)
    || !f.listMembers || !f.getRing || !f.status
    || (!f.publish.Ok? && !UpToDate(o.(pods := DrainedPods(cfg, o, snapshot))))
  }

  /** The cell has no part in the drain or in what there is to publish. */
  lemma CellIrrelevant(cfg: Config, o: Objects, cell: Cell, snapshot: Cr, f: Faults)
    ensures var o' := o.(cell := cell);
            && DrainFails(cfg, o', snapshot, f) == DrainFails(cfg, o, snapshot, f)
            && DrainedPods(cfg, o', snapshot) == DrainedPods(cfg, o, snapshot)
            && Doomed(cfg, o', snapshot) == Doomed(cfg, o, snapshot)
    ensures UpToDate(o.(cell := cell)) == UpToDate(o) && DesiredRing(o.(cell := cell)) == DesiredRing(o) && Stuck(o.(cell := cell)) == Stuck(o)
  {
  }

  /** A live pass fails in placing the cell and the Service, or after it. */
  lemma LiveFailsIn(cfg: Config, o: Objects, cell: Cell, snapshot: Cr, f: Faults)
    requires cell == if CrossNamespace(cfg) && o.cell.NoCell? then Live else o.cell
    requires (cfg.isolate ==> f.cell.Ok?) && (f.service || f.serviceRetry)
    ensures LiveFails(cfg, o, snapshot, f) <==> ServeFails(cfg, o.(cell := cell), snapshot, f)
  {
    CellIrrelevant(cfg, o, cell, snapshot, f);
    CellIrrelevant(cfg, o.(pods := DrainedPods(cfg, o, snapshot)), cell, snapshot, f);
  }

  /** A teardown and release after a complete drain ends in an error. */
  predicate FinishFails(cfg: Config, o: Objects, f: Faults) {
    if CrossNamespace(cfg)
    then !f.getCell || (o.cell.Live? && !f.deleteCell.Ok?) || (o.cell.NoCell? && !f.release.Ok?)
    else !f.release.Ok?
  }

  /** A deletion pass ends in an error; publishing the farewell ring is best effort and never does. */
  predicate DeletionFails(cfg: Config, o: Objects, snapshot: Cr, f: Faults) {
    || !f.listPods
    || (exists p :: p in o.pods && p.drain.Unmarked? && p.id in f.refused)
    || (EveryAged(o.pods, snapshot.grace, o.clock) && FinishFails(cfg, o, f))
  }

  /** A reconcile pass ends in an error. */
  predicate PassFails(cfg: Config, o: Objects, f: Faults) {
    || !f.getCr
    || (o.cr.Some? &&
        var snapshot := o.cr.value;
        if snapshot.deleting then snapshot.finalizer && DeletionFails(cfg, o, snapshot, f)
        else if !snapshot.finalizer then !f.addFinalizer.Ok?
        else LiveFails(cfg, o, snapshot, f))
  }

  predicate NoFaults(f: Faults) {
    && f.getCr && f.addFinalizer.Ok? && f.cell.Ok? && f.service && f.getSts && f.listPods && f.refused == {} && f.scale.Ok?
    && f.listMembers && f.getRing && f.publish.Ok? && f.status && f.getCell && f.deleteCell.Ok? && f.release.Ok?
  }

  /** Without failing requests a pass fails only on a live resource whose cell is being torn down. */
  lemma HealthyPass(cfg: Config, o: Objects, f: Faults)
    requires NoFaults(f)
    ensures PassFails(cfg, o, f) <==>
              o.cr.Some? && !o.cr.value.deleting && o.cr.value.finalizer && CrossNamespace(cfg) && o.cell.Terminating?
  {
  }

  /** In a run it never fails then: no live pass begins while the cell terminates. */
  lemma HealthyPassInRun(cfg: Config, run: Run, k: nat, f: Faults)
    requires IsRun(cfg, run) && k < |run.states| && NoFaults(f)
    ensures !PassFails(cfg, run.states[k].o, f)
  {
    RunInv(cfg, run, k);
    HealthyPass(cfg, run.states[k].o, f);
  }

  /** The protocol steps of a live pass that meets no fault. */
  ghost function PassTrace(o: Objects, f: Faults): seq<OperatorStep> {
    [Begin(Ok), EnsureCell(f.cell)] + [DrainPods(|o.pods|), Scale(f.scale)] + [Publish(f.publish)]
  }

  /** The stored ring is in line with the pods, unless the payload is stuck. */
  predicate Published(store: RingStore, o: Objects) {
    if Stuck(o) then store == o.ring else store == Decoded(DesiredRing(o))
  }

  /** The objects after a live pass without error. */
  predicate Served(cfg: Config, o: Objects, snapshot: Cr, o': Objects) {
    && o'.pods == DrainedPods(cfg, o, snapshot)
    && Published(o'.ring, o.(pods := o'.pods))
    && o'.sts == (if AllAged(o.pods, Doomed(cfg, o, snapshot), snapshot.grace, o.clock) then Some(snapshot.replicas) else o.sts)
    && o'.cr == o.cr && o'.clock == o.clock && o'.nextId == o.nextId
  }

  /** The protocol steps of a deletion pass whose fatal requests succeed. */
  ghost function DeletionTrace(cfg: Config, o: Objects, snapshot: Cr, f: Faults): seq<OperatorStep> {
    var farewell := Farewell(if f.listMembers && f.getRing then f.publish else Rejected);
    var drain := [Begin(Ok)] + [MarkAll(|o.pods|)] + [farewell];
    if !EveryAged(o.pods, snapshot.grace, o.clock) then drain
    else if CrossNamespace(cfg) && !o.cell.NoCell? then drain + [Teardown(f.deleteCell)]
    else drain + [Teardown(if CrossNamespace(cfg) then f.deleteCell else Ok), Release(f.release)]
  }

  /** The protocol steps of a pass without error. */
  ghost function PlannedTrace(cfg: Config, o: Objects, snapshot: Cr, f: Faults): seq<OperatorStep> {
    if snapshot.deleting then if snapshot.finalizer then DeletionTrace(cfg, o, snapshot, f) else []
    else if !snapshot.finalizer then [Begin(f.addFinalizer)]
    else PassTrace(o, f)
  }

  class Cluster {
    const cfg: Config
    var cr: Option<Cr>
    var sts: Option<Count>
    var pods: seq<Pod>
    var ring: RingStore
    var cell: Cell
    var nextId: nat
    var clock: nat
    var conditions: Option<Conditions>

    function View(): Objects
      reads this
    {
      Objects(cr, sts, pods, ring, cell, nextId, clock)
    }

    /** The pods are those of one StatefulSet, as the API server guarantees. */
    ghost predicate Valid()
      reads this
    {
      PodsInv(cfg, View())
    }

    constructor (cfg: Config, cr: Cr)
      ensures Valid() && this.cfg == cfg
      ensures View() == Objects(Some(cr), None, [], Absent, NoCell, 0, 0) && conditions == None
    {
      this.cfg := cfg;
      this.cr, sts, pods, ring, cell, nextId, clock := Some(cr), None, [], Absent, NoCell, 0, 0;
      conditions := None;
    }

    /**
     The scale-down loop: `stop` pods were visited, and the loop ends early only at a refused
     update. `complete` reports that every doomed pod had waited out the grace period.
     */
    method MarkDoomed(doomed: set<string>, grace: nat, refused: set<nat>) returns (complete: bool, stop: nat)
      requires Valid()
      modifies this`pods
      ensures stop <= |old(pods)| && pods == VisitUpTo(old(pods), doomed, clock, stop)
      ensures forall i :: 0 <= i < stop && Writes(old(pods)[i], doomed) ==> old(pods)[i].id !in refused
      ensures stop < |old(pods)| ==> Writes(old(pods)[stop], doomed) && old(pods)[stop].id in refused
      ensures stop == |old(pods)| ==> (complete <==> AllAged(old(pods), doomed, grace, clock))
      ensures |pods| == |old(pods)|
      ensures forall i :: 0 <= i < |pods| ==>
                pods[i] == if i < stop && old(pods)[i].name in doomed && !old(pods)[i].drain.Marked?
                           then old(pods)[i].(drain := Marked(clock / 1_000_000_000)) else old(pods)[i]
    {
      var now := clock;
      complete := true;
      ghost var was := pods;
      for i := 0 to |pods|
        invariant |pods| == |was| && pods == VisitUpTo(was, doomed, now, i)
        invariant complete <==> forall k :: 0 <= k < i && was[k].name in doomed ==> Aged(was[k], grace, now)
        invariant forall k :: 0 <= k < i && Writes(was[k], doomed) ==> was[k].id !in refused
      {
        var p := pods[i];
        if p.name !in doomed { continue; }
        if p.drain.Unmarked? {
          if p.id in refused { return false, i; }
          pods := pods[i := p.(drain := Marked(now / SECOND))];
          complete := false;
          continue;
        }
        if p.drain.Garbled? {
          if p.id in refused { return false, i; }
          pods := pods[i := p.(drain := Marked(now / SECOND))];
          complete := false;
          continue;
        }
        if now - p.drain.ts * SECOND < grace * SECOND {
          complete := false;
        }
      }
      assert forall p :: p in was <==> exists k :: 0 <= k < |was| && was[k] == p;
      return complete, |pods|;
    }

    /**
     Marks the pods a scale-down removes, and reports whether all of them have waited out the
     grace period.
     */
    method DrainScaleDown(snapshot: Cr, f: Faults) returns (complete: bool, err: bool, stop: nat)
      requires Valid()
      modifies this`pods
      ensures Valid() && stop <= |pods|
      ensures pods == VisitUpTo(old(pods), Doomed(cfg, old(View()), snapshot), clock, stop)
      ensures err <==> DrainFails(cfg, old(View()), snapshot, f)
      ensures err ==> if f.getSts && f.listPods then stop < |pods| else pods == old(pods)
      ensures !err ==> stop == |pods|
      ensures !err ==> complete == AllAged(old(pods), Doomed(cfg, old(View()), snapshot), snapshot.grace, clock)
      ensures |pods| == |old(pods)|
      ensures forall i :: 0 <= i < |pods| ==> Touched(pods[i], old(pods)[i], sts, snapshot.replicas, clock, !err)
    {
      NoVisit(pods, Doomed(cfg, View(), snapshot), clock);
      forall c: nat, n: nat | n < |pods|
        ensures Touched(VisitUpTo(pods, Doomed(cfg, View(), snapshot), clock, c)[n], pods[n], sts, snapshot.replicas, clock, c >= |pods|)
      {
        VisitsTouch(cfg, View(), snapshot, c, n);
      }
      if !f.getSts { return false, true, 0; }
      if sts.None? { return true, false, |pods|; }
      var current, desired := sts.value, snapshot.replicas;
      if desired >= current { return true, false, |pods|; }
      var doomed := CollectDoomed(cfg.name, desired, current);
      if !f.listPods { return false, true, 0; }
      complete, stop := MarkDoomed(doomed, snapshot.grace, f.refused);
      VisitedPods(cfg, old(View()), pods);
      return complete, stop < |pods|, stop;
    }

    /** Writes the replica count, holding the current one while a drain is pending. */
    method ReconcileStatefulSet(snapshot: Cr, canScaleDown: bool, reply: Reply) returns (err: bool)
      modifies this`sts
      ensures err <==> !(reply.Ok? && Writable(cfg, View()))
      ensures sts == if Applied(reply) && Writable(cfg, View())
                     then Some(ScaleTarget(old(sts), snapshot.replicas, canScaleDown)) else old(sts)
    {
      var writable := !CrossNamespace(cfg) || cell.Live?;
      var desired := snapshot.replicas;
      if !canScaleDown && sts.Some? && desired < sts.value {
        desired := sts.value;
      }
      if Applied(reply) && writable { sts := Some(desired); }
      err := !reply.Ok? || !writable;
    }

    /** Publishes the membership the pods call for; `None` reports an error. */
    method ReconcileRing(f: Faults) returns (published: Option<Ring>)
      requires Valid()
      modifies this`ring
      ensures ring == if f.listMembers && f.getRing then PublishedStore(cfg, old(View()), f.publish) else old(ring)
      ensures published == if f.listMembers && f.getRing && PublishSucceeds(cfg, old(View()), f.publish)
                           then Some(DesiredRing(old(View()))) else None
    {
      if !f.listMembers { return None; }
      var members := ComputeMembers(pods);
      OwnNames(cfg, View());
      if !f.getRing { return None; }
      var current := Ring(0, []);
      if ring.Decoded? { current := ring.ring; }
      var desired := Ring(current.version, members);
      if members != current.members {
        desired := Ring(Increment(current.version), members);
      }
      if desired == current && !ring.Absent? && !ring.Empty? {
        return Some(desired);
      }
      var writable := !CrossNamespace(cfg) || cell.Live? || (cell.Terminating? && !ring.Absent?);
      if Applied(f.publish) && writable { ring := Decoded(desired); }
      if f.publish.Ok? && writable { return Some(desired); }
      return None;
    }

    /** The deletion loop: every pod without an annotation gets a timestamp. */
    method MarkEvery(grace: nat, refused: set<nat>) returns (complete: bool, stop: nat)
      requires Valid()
      modifies this`pods
      ensures Valid() && stop <= |old(pods)| && pods == DeletionVisitUpTo(old(pods), clock, stop)
      ensures forall i :: 0 <= i < stop && old(pods)[i].drain.Unmarked? ==> old(pods)[i].id !in refused
      ensures stop < |old(pods)| ==> old(pods)[stop].drain.Unmarked? && old(pods)[stop].id in refused
      ensures stop == |old(pods)| ==> (complete <==> EveryAged(old(pods), grace, clock))
      ensures |pods| == |old(pods)|
      ensures forall i :: 0 <= i < |pods| ==>
                pods[i] == if i < stop && old(pods)[i].drain.Unmarked?
                           then old(pods)[i].(drain := Marked(clock / 1_000_000_000)) else old(pods)[i]
    {
      var now := clock;
      complete := true;
      ghost var was := pods;
      stop := 0;
      while stop < |pods|
        invariant stop <= |pods| == |was| && pods == DeletionVisitUpTo(was, now, stop)
        invariant complete <==> forall k :: 0 <= k < stop ==> Aged(was[k], grace, now)
        invariant forall k :: 0 <= k < stop && was[k].drain.Unmarked? ==> was[k].id !in refused
        decreases |was| - stop
      {
        var p := pods[stop];
        if p.drain.Unmarked? {
          if p.id in refused { break; }
          pods := pods[stop := p.(drain := Marked(now / SECOND))];
          complete := false;
        } else if p.drain.Garbled? {
          complete := false;
        } else if now - p.drain.ts * SECOND < grace * SECOND {
          complete := false;
        }
        stop := stop + 1;
      }
      assert forall p :: p in was <==> exists k :: 0 <= k < |was| && was[k] == p;
      VisitedPods(cfg, old(View()), pods);
    }

    /** Tears the cell down; `done` once it is gone. */
    method DeleteCellNamespace(f: Faults) returns (done: bool, err: bool)
      modifies this`cell
      ensures done <==> f.getCell && old(cell).NoCell?
      ensures cell == if f.getCell && old(cell).Live? && Applied(f.deleteCell) then Terminating else old(cell)
      ensures err <==> !f.getCell || (old(cell).Live? && !f.deleteCell.Ok?)
    {
      if !f.getCell { return false, true; }
      if cell.NoCell? { return true, false; }
      if cell.Live? {
        if Applied(f.deleteCell) { cell := Terminating; }
        return false, !f.deleteCell.Ok?;
      }
      return false, false;
    }

    /** The rest of a deletion pass whose drain is complete: tear the cell down, release the resource. */
    method FinishDeletion(snapshot: Cr, f: Faults, ghost w: World, ghost trace: seq<OperatorStep>, ghost fence: nat)
      returns (requeue: Requeue, err: bool, ghost whole: seq<OperatorStep>)
      requires cr == Some(snapshot)
      requires Perform(cfg, w, trace) == Some(World(View(), DyingShown(snapshot, fence), w.clients))
      modifies this`cr, this`cell
      ensures Perform(cfg, w, whole) == Some(World(View(), Idle, w.clients))
      ensures cr.None? ==> requeue.Never? && (CrossNamespace(cfg) ==> cell.NoCell?)
      ensures requeue == if err || cr.None? then Never else Seconds(2)
      ensures !err ==> (cr.None? <==> (CrossNamespace(cfg) ==> old(cell).NoCell?))
      ensures !err ==> whole == trace + if CrossNamespace(cfg) && !old(cell).NoCell? then [Teardown(f.deleteCell)]
                                        else [Teardown(if CrossNamespace(cfg) then f.deleteCell else Ok), Release(f.release)]
      ensures err <==> FinishFails(cfg, old(View()), f)
    {
      whole := trace;
      if CrossNamespace(cfg) {
        var done, failed := DeleteCellNamespace(f);
        whole := Then(cfg, w, whole, if f.getCell then Teardown(f.deleteCell) else Abort);
        if failed { return Never, true, whole; }
        if !done { return Seconds(2), false, whole; }
      } else {
        whole := Then(cfg, w, whole, Teardown(Ok));
      }
      assert Perform(cfg, w, whole) == Some(World(View(), TornDown(snapshot, fence), w.clients));
      if Applied(f.release) { cr := None; }
      whole := Then(cfg, w, whole, Release(f.release));
      return Never, !f.release.Ok?, whole;
    }

    /** The first part of a deletion pass: mark every pod. */
    method DrainForDeletion(snapshot: Cr, f: Faults, ghost w: World, ghost trace: seq<OperatorStep>)
      returns (complete: bool, err: bool, ghost whole: seq<OperatorStep>)
      requires Valid()
      requires Perform(cfg, w, trace) == Some(World(View(), Dying(snapshot), w.clients))
      modifies this`pods
      ensures Valid()
      ensures Perform(cfg, w, whole) ==
              Some(World(View(), if err then Idle else DyingMarked(snapshot, complete, nextId), w.clients))
      ensures !err ==> complete == EveryAged(old(pods), snapshot.grace, clock) && whole == trace + [MarkAll(|old(pods)|)]
      ensures !err ==> pods == DeletionVisitUpTo(old(pods), clock, |old(pods)|)
      ensures err <==> !f.listPods || exists p :: p in old(pods) && p.drain.Unmarked? && p.id in f.refused
    {
      if !f.listPods {
        whole := Then(cfg, w, trace, Abort);
        return false, true, whole;
      }
      var stop;
      complete, stop := MarkEvery(snapshot.grace, f.refused);
      whole := Then(cfg, w, trace, MarkAll(stop));
      err := stop < |pods|;
    }

    /** The second part: republish the ring as far as that works. */
    method SayFarewell(snapshot: Cr, complete: bool, f: Faults, ghost w: World, ghost trace: seq<OperatorStep>)
      returns (ghost whole: seq<OperatorStep>)
      requires Valid()
      requires Perform(cfg, w, trace) == Some(World(View(), DyingMarked(snapshot, complete, nextId), w.clients))
      modifies this`ring
      ensures Perform(cfg, w, whole) ==
              Some(World(View(), if complete then DyingShown(snapshot, nextId) else Idle, w.clients))
      ensures whole == trace + [Farewell(if f.listMembers && f.getRing then f.publish else Rejected)]
    {
      var _ := ReconcileRing(f);
      whole := Then(cfg, w, trace, Farewell(if f.listMembers && f.getRing then f.publish else Rejected));
    }

    /**
     A deletion pass: drain every pod, say farewell in the ring, tear the cell down, release the
     resource. `trace` are the protocol steps it amounts to.
     */
    method ReconcileDeletion(snapshot: Cr, f: Faults, ghost clients: seq<ClientState>)
      returns (requeue: Requeue, err: bool, ghost trace: seq<OperatorStep>)
      requires Valid() && cr == Some(snapshot) && snapshot.deleting
      modifies this`cr, this`pods, this`ring, this`cell
      ensures Perform(cfg, World(old(View()), Idle, clients), trace) == Some(World(View(), Idle, clients))
      ensures cr.None? ==> requeue.Never? && EveryAged(old(pods), snapshot.grace, clock) && (CrossNamespace(cfg) ==> cell.NoCell?)
      ensures err <==> snapshot.finalizer && DeletionFails(cfg, old(View()), snapshot, f)
      ensures requeue == if !snapshot.finalizer || err || cr.None? then Never else Seconds(2)
      ensures !err && snapshot.finalizer ==> pods == DeletionVisitUpTo(old(pods), clock, |old(pods)|)
      ensures !err && snapshot.finalizer ==>
                (cr.None? <==> EveryAged(old(pods), snapshot.grace, clock) && (CrossNamespace(cfg) ==> old(cell).NoCell?))
      ensures !err && snapshot.finalizer ==> trace == DeletionTrace(cfg, old(View()), snapshot, f)
      ensures !snapshot.finalizer ==> trace == [] && !err
    {
      ghost var w := World(View(), Idle, clients);
      trace := [];
      if !snapshot.finalizer { return Never, false, trace; }
      trace := Then(cfg, w, trace, Begin(Ok));
      var complete;
      complete, err, trace := DrainForDeletion(snapshot, f, w, trace);
      if err { return Never, true, trace; }
      trace := SayFarewell(snapshot, complete, f, w, trace);
      if !complete { return Seconds(2), false, trace; }
      requeue, err, trace := FinishDeletion(snapshot, f, w, trace, nextId);
    }

    // A live pass

    /** The drain phase of a live pass; `complete` is its verdict. */
    method DrainPhase(snapshot: Cr, f: Faults, ghost w: World, ghost trace: seq<OperatorStep>)
      returns (complete: bool, err: bool, ghost whole: seq<OperatorStep>)
      requires Valid()
      requires Perform(cfg, w, trace) == Some(World(View(), Placed(snapshot), w.clients))
      modifies this`pods
      ensures Valid()
      ensures Perform(cfg, w, whole) ==
              Some(World(View(), if err then Idle else Drained(snapshot, complete, nextId), w.clients))
      ensures !err ==> whole == trace + [DrainPods(|old(pods)|)]
      ensures !err && !complete ==> sts.Some? && snapshot.replicas < sts.value
      ensures !err ==> pods == DrainedPods(cfg, old(View()), snapshot)
      ensures !err ==> complete == AllAged(old(pods), Doomed(cfg, old(View()), snapshot), snapshot.grace, clock)
      ensures err <==> DrainFails(cfg, old(View()), snapshot, f)
    {
      var stop;
      complete, err, stop := DrainScaleDown(snapshot, f);
      whole := Then(cfg, w, trace, if err && !(f.getSts && f.listPods) then Abort else DrainPods(stop));
    }

    /** The StatefulSet phase of a live pass. */
    method ScalePhase(snapshot: Cr, complete: bool, f: Faults, ghost w: World, ghost trace: seq<OperatorStep>)
      returns (err: bool, ghost whole: seq<OperatorStep>)
      requires Valid()
      requires Perform(cfg, w, trace) == Some(World(View(), Drained(snapshot, complete, nextId), w.clients))
      modifies this`sts
      ensures Valid()
      ensures Perform(cfg, w, whole) ==
              Some(World(View(), if err then Idle else Scaled(snapshot, complete, nextId), w.clients))
      ensures !err ==> sts == Some(ScaleTarget(old(sts), snapshot.replicas, complete))
      ensures whole == trace + [Scale(f.scale)]
      ensures err <==> !f.scale.Ok? || !Writable(cfg, View())
    {
      err := ReconcileStatefulSet(snapshot, complete, f.scale);
      whole := Then(cfg, w, trace, Scale(f.scale));
    }

    /** Drains and scales: the count ends at the request exactly when the drain was complete. */
    method DrainAndScale(snapshot: Cr, f: Faults, ghost w: World, ghost trace: seq<OperatorStep>)
      returns (complete: bool, err: bool, ghost whole: seq<OperatorStep>)
      requires Valid()
      requires Perform(cfg, w, trace) == Some(World(View(), Placed(snapshot), w.clients))
      modifies this`pods, this`sts
      ensures Valid()
      ensures Perform(cfg, w, whole) ==
              Some(World(View(), if err then Idle else Scaled(snapshot, complete, nextId), w.clients))
      ensures !err ==> sts.Some? && sts.value >= snapshot.replicas && (complete <==> sts.value == snapshot.replicas)
      ensures !err ==> pods == DrainedPods(cfg, old(View()), snapshot)
      ensures !err ==> complete == AllAged(old(pods), Doomed(cfg, old(View()), snapshot), snapshot.grace, clock)
      ensures !err && !complete ==> sts == old(sts)
      ensures !err ==> whole == trace + [DrainPods(|old(pods)|), Scale(f.scale)]
      ensures err <==> DrainFails(cfg, old(View()), snapshot, f) || !f.scale.Ok? || !Writable(cfg, View())
    {
      complete, err, whole := DrainPhase(snapshot, f, w, trace);
      if err { return; }
      err, whole := ScalePhase(snapshot, complete, f, w, whole);
    }

    /** Publishes the ring and reports the conditions. */
    method PublishAndReport(snapshot: Cr, complete: bool, f: Faults, ghost w: World, ghost trace: seq<OperatorStep>)
      returns (err: bool, ghost whole: seq<OperatorStep>)
      requires Valid()
      requires Perform(cfg, w, trace) == Some(World(View(), Scaled(snapshot, complete, nextId), w.clients))
      modifies this`ring, this`conditions
      ensures Perform(cfg, w, whole) == Some(World(View(), Idle, w.clients))
      ensures !err <==> f.listMembers && f.getRing && f.status && PublishSucceeds(cfg, old(View()), f.publish)
      ensures !err ==> whole == trace + [Publish(f.publish)]
      ensures !err ==> Published(ring, old(View()))
      ensures conditions == if err then old(conditions)
                            else Some(ObservedConditions(snapshot.replicas, DesiredRing(old(View()))))
    {
      var published := ReconcileRing(f);
      whole := Then(cfg, w, trace, if f.listMembers && f.getRing then Publish(f.publish) else Abort);
      if published.None? || !f.status { return true, whole; }
      conditions := Some(ObservedConditions(snapshot.replicas, published.value));
      return false, whole;
    }

    /** The first part of a live pass: the cell and the Service, which is tried twice. */
    method Place(snapshot: Cr, f: Faults, ghost w: World) returns (err: bool, ghost trace: seq<OperatorStep>)
      requires w.o == View() && w.op.Idle?
      requires cr == Some(snapshot) && !snapshot.deleting && snapshot.finalizer
      modifies this`cell
      ensures Perform(cfg, w, trace) == Some(World(View(), if err then Idle else Placed(snapshot), w.clients))
      ensures !err ==> trace == [Begin(Ok), EnsureCell(f.cell)]
      ensures cell == if CrossNamespace(cfg) && old(cell).NoCell? && Applied(f.cell) then Live else old(cell)
      ensures err <==> (cfg.isolate && !f.cell.Ok?) || !(f.service || f.serviceRetry)
    {
      trace := Then(cfg, w, [], Begin(Ok));
      if CrossNamespace(cfg) && cell.NoCell? && Applied(f.cell) { cell := Live; }
      trace := Then(cfg, w, trace, EnsureCell(f.cell));
      if cfg.isolate && !f.cell.Ok? { return true, trace; }
      if !f.service && !f.serviceRetry {
        trace := Then(cfg, w, trace, Abort);
        return true, trace;
      }
      return false, trace;
    }

    /** The rest of a live pass: drain, scale, publish. */
    method Serve(snapshot: Cr, f: Faults, ghost w: World, ghost trace: seq<OperatorStep>)
      returns (complete: bool, err: bool, ghost whole: seq<OperatorStep>)
      requires Valid()
      requires Perform(cfg, w, trace) == Some(World(View(), Placed(snapshot), w.clients))
      modifies this`pods, this`sts, this`ring, this`conditions
      ensures Perform(cfg, w, whole) == Some(World(View(), Idle, w.clients))
      ensures err <==> ServeFails(cfg, old(View()), snapshot, f)
      ensures !err ==> whole == trace + [DrainPods(|old(pods)|), Scale(f.scale)] + [Publish(f.publish)]
      ensures !err ==> complete == AllAged(old(pods), Doomed(cfg, old(View()), snapshot), snapshot.grace, clock)
      ensures !err ==> sts.Some? && sts.value >= snapshot.replicas && (complete <==> sts.value == snapshot.replicas)
      ensures !err && !complete ==> sts == old(sts)
      ensures !err ==> pods == DrainedPods(cfg, old(View()), snapshot) && Published(ring, old(View()).(pods := pods))
      ensures conditions == if err then old(conditions)
                            else Some(ObservedConditions(snapshot.replicas, DesiredRing(old(View()).(pods := pods))))
    {
      complete, err, whole := DrainAndScale(snapshot, f, w, trace);
      if err { return; }
      err, whole := PublishAndReport(snapshot, complete, f, w, whole);
    }

    /** A pass over a live resource that carries the finalizer: cell, service, drain, scale, publish. */
    method ReconcileLive(snapshot: Cr, f: Faults, ghost clients: seq<ClientState>)
      returns (requeue: Requeue, err: bool, ghost trace: seq<OperatorStep>)
      requires Valid() && cr == Some(snapshot) && !snapshot.deleting && snapshot.finalizer
      modifies this`cell, this`pods, this`sts, this`ring, this`conditions
      ensures Perform(cfg, World(old(View()), Idle, clients), trace) == Some(World(View(), Idle, clients))
      ensures err <==> LiveFails(cfg, old(View()), snapshot, f)
      ensures !err ==> Served(cfg, old(View()), snapshot, View())
      ensures conditions == if err then old(conditions)
                            else Some(ObservedConditions(snapshot.replicas, DesiredRing(old(View()).(pods := pods))))
      ensures !err ==> trace == PassTrace(old(View()), f) && sts.Some? && sts.value >= snapshot.replicas
      ensures requeue == if err then Never
                         else if sts.value > snapshot.replicas then Seconds(2)
                         else if CrossNamespace(cfg) then Seconds(10) else Never
    {
      ghost var w := World(View(), Idle, clients);
      err, trace := Place(snapshot, f, w);
      if err { return Never, true, trace; }
      LiveFailsIn(cfg, old(View()), cell, snapshot, f);
      CellIrrelevant(cfg, old(View()), cell, snapshot, f);
      var complete;
      complete, err, trace := Serve(snapshot, f, w, trace);
      if err { return Never, true, trace; }
      CellIrrelevant(cfg, old(View()).(pods := pods), cell, snapshot, f);
      requeue := if !complete then Seconds(2) else if CrossNamespace(cfg) then Seconds(10) else Never;
    }

    /**
     One reconcile pass, in its coded order. Whatever fails, it amounts to a sequence of protocol
     steps that ends with the operator idle; a pass without error takes exactly the planned ones.
     */
    method Reconcile(f: Faults, ghost clients: seq<ClientState>)
      returns (requeue: Requeue, err: bool, ghost trace: seq<OperatorStep>)
      requires Valid()
      modifies this
      ensures Perform(cfg, World(old(View()), Idle, clients), trace) == Some(World(View(), Idle, clients))
      ensures !err && old(cr).Some? ==> trace == PlannedTrace(cfg, old(View()), old(cr).value, f)
      ensures old(cr).None? ==> trace == []
      ensures err <==> PassFails(cfg, old(View()), f)
      ensures !err && old(cr).Some? && !old(cr).value.deleting ==>
                if !old(cr).value.finalizer then View() == old(View()).(cr := Some(old(cr).value.(finalizer := true)))
                else Served(cfg, old(View()), old(cr).value, View())
      ensures !err && old(cr).Some? && old(cr).value.deleting && old(cr).value.finalizer ==>
                && pods == DeletionVisitUpTo(old(pods), clock, |old(pods)|) && sts == old(sts)
                && (cr.None? <==> EveryAged(old(pods), old(cr).value.grace, clock) && (CrossNamespace(cfg) ==> old(cell).NoCell?))
      ensures err || old(cr).None? ==> requeue.Never? && conditions == old(conditions)
      ensures !err && old(cr).Some? && old(cr).value.deleting ==>
                requeue == if !old(cr).value.finalizer || cr.None? then Never else Seconds(2)
      ensures !err && old(cr).Some? && !old(cr).value.deleting ==>
                if !old(cr).value.finalizer then requeue.Now?
                else sts.Some? && requeue == (if sts.value > old(cr).value.replicas then Seconds(2)
                                              else if CrossNamespace(cfg) then Seconds(10) else Never)
    {
      ghost var w := World(View(), Idle, clients);
      trace := [];
      if !f.getCr { return Never, true, trace; }
      if cr.None? { return Never, false, trace; }
      var snapshot := cr.value;
      if snapshot.deleting {
        requeue, err, trace := ReconcileDeletion(snapshot, f, clients);
      } else if !snapshot.finalizer {
        if Applied(f.addFinalizer) { cr := Some(snapshot.(finalizer := true)); }
        trace := Then(cfg, w, trace, Begin(f.addFinalizer));
        return if f.addFinalizer.Ok? then Now else Never, !f.addFinalizer.Ok?, trace;
      } else {
        requeue, err, trace := ReconcileLive(snapshot, f, clients);
      }
    }
  }

  /** Appends a step to what has been performed so far. */
  ghost method Then(cfg: Config, w: World, trace: seq<OperatorStep>, last: OperatorStep) returns (longer: seq<OperatorStep>)
    requires Perform(cfg, w, trace).Some? && OperatorEnabled(Perform(cfg, w, trace).value, last)
    ensures longer == trace + [last]
    ensures Perform(cfg, w, longer) == Some(ApplyOperator(cfg, Perform(cfg, w, trace).value, last))
  {
    PerformNext(cfg, w, trace, last);
    longer := trace + [last];
  }

  lemma NoVisit(pods: seq<Pod>, doomed: set<string>, now: nat)
    ensures VisitUpTo(pods, doomed, now, 0) == pods
    ensures doomed == {} ==> VisitUpTo(pods, doomed, now, |pods|) == pods
  {
  }

  /** Visits keep the list well formed. */
  lemma VisitedPods(cfg: Config, o: Objects, pods: seq<Pod>)
    requires PodsInv(cfg, o) && |pods| == |o.pods|
    requires forall i :: 0 <= i < |pods| ==> pods[i].id == o.pods[i].id && pods[i].name == o.pods[i].name
    ensures PodsInv(cfg, o.(pods := pods))
  {
    forall p | p in pods ensures OwnPod(cfg, o, p) {
      var i :| 0 <= i < |pods| && pods[i] == p;
      assert OwnPod(cfg, o, o.pods[i]);
    }
  }
}
