/**
 The drain protocol as a state machine: one operator working through reconcile passes, polling
 clients, and an environment that edits specs, creates, changes and removes pods, and lets time
 pass. Every reconcile method is one step; the others may act between any two steps of a pass,
 and a pass may be cut short at any point.
 */
module Protocol {
  import opened Basics
  import opened Names
  import opened Pods
  import opened HashRing
  import opened CacheClient
  import opened ApiServer

  /**
   Where the operator is in its pass. `cr` is the custom resource as read when the pass began,
   and `fence` the next pod id when the pass listed pods to drain.
   */
  datatype Op =
    | Idle
    | Began(cr: Cr)
    | Placed(cr: Cr)
    | Drained(cr: Cr, complete: bool, fence: nat)
    | Scaled(cr: Cr, complete: bool, fence: nat)
    | Dying(cr: Cr)
    | DyingMarked(cr: Cr, complete: bool, fence: nat)
    | DyingShown(cr: Cr, fence: nat)
    | TornDown(cr: Cr, fence: nat)

  /**
   Where a client is in its poll loop. A poll notes when it started and what it has read so far;
   `first` is the synchronous poll before the ticker exists.
   */
  datatype Loop =
    | Off
    | Polling(first: bool, start: nat, got: Option<RingStore>)
    | Waiting(next: nat)

  datatype ClientState = ClientState(loaded: Option<Ring>, loop: Loop)

  datatype World = World(o: Objects, op: Op, clients: seq<ClientState>)

  /** The grace period of the pass under way. */
  function PassGrace(op: Op): nat {
    if op.Idle? then 0 else op.cr.grace
  }

  datatype OperatorStep =
    | Begin(reply: Reply)
    | EnsureCell(reply: Reply)
    | DrainPods(cut: nat)
    | Scale(reply: Reply)
    | Publish(reply: Reply)
    | MarkAll(cut: nat)
    | Farewell(reply: Reply)
    | Teardown(reply: Reply)
    | Release(reply: Reply)
    | Abort

  datatype EnvStep =
    | EditSpec(replicas: Count, grace: nat)
    | DeleteCr
    | CreatePod(ordinal: Count)
    | ChangeStatus(i: nat, phase: Phase, conditions: seq<Condition>)
    | TerminatePod(i: nat)
    | RemovePod(i: nat)
    | Scribble(i: nat)
    | Reorder(pods: seq<Pod>)
    | EditRing(store: RingStore)
    | Collect
    | CellGone
    | Tick(dt: nat)

  datatype ClientStep =
    | Start(c: nat)
    | Read(c: nat)
    | End(c: nat, ok: bool)
    | Fire(c: nat)

  datatype Step = Operator(a: OperatorStep) | Env(e: EnvStep) | Poll(k: ClientStep)

  // The operator

  predicate OperatorEnabled(w: World, a: OperatorStep) {
    match a
    case Begin(_) => w.op.Idle? && w.o.cr.Some?
    case EnsureCell(_) => w.op.Began?
    case DrainPods(cut) => w.op.Placed? && cut <= |w.o.pods|
    case Scale(_) => w.op.Drained?
    case Publish(_) => w.op.Scaled?
    case MarkAll(cut) => w.op.Dying? && cut <= |w.o.pods|
    case Farewell(_) => w.op.DyingMarked?
    case Teardown(_) => w.op.DyingShown?
    case Release(_) => w.op.TornDown?
    case Abort => true
  }

  function BeginPass(w: World, reply: Reply): World
    requires w.o.cr.Some?
  {
    var cr := w.o.cr.value;
    if cr.deleting then
      if cr.finalizer then w.(op := Dying(cr)) else w
    else if !cr.finalizer then
      if Applied(reply) then w.(o := w.o.(cr := Some(cr.(finalizer := true)))) else w
    else w.(op := Began(cr))
  }

  function DrainPass(cfg: Config, w: World, cut: nat): World
    requires w.op.Placed?
  {
    var doomed := Doomed(cfg, w.o, w.op.cr);
    w.(o := w.o.(pods := VisitUpTo(w.o.pods, doomed, w.o.clock, cut)),
       op := if cut < |w.o.pods| then Idle
             else Drained(w.op.cr, AllAged(w.o.pods, doomed, w.op.cr.grace, w.o.clock), w.o.nextId))
  }

  function ScalePass(cfg: Config, w: World, reply: Reply): World
    requires w.op.Drained?
  {
    w.(o := if Applied(reply) && Writable(cfg, w.o)
            then w.o.(sts := Some(ScaleTarget(w.o.sts, w.op.cr.replicas, w.op.complete))) else w.o,
       op := if reply.Ok? && Writable(cfg, w.o) then Scaled(w.op.cr, w.op.complete, w.op.fence) else Idle)
  }

  function MarkPass(w: World, cut: nat): World
    requires w.op.Dying?
  {
    w.(o := w.o.(pods := DeletionVisitUpTo(w.o.pods, w.o.clock, cut)),
       op := if cut < |w.o.pods| then Idle
             else DyingMarked(w.op.cr, EveryAged(w.o.pods, w.op.cr.grace, w.o.clock), w.o.nextId))
  }

  function TeardownPass(cfg: Config, w: World, reply: Reply): World
    requires w.op.DyingShown?
  {
    if !CrossNamespace(cfg) || w.o.cell.NoCell? then w.(op := TornDown(w.op.cr, w.op.fence))
    else if w.o.cell.Live? && Applied(reply) then w.(o := w.o.(cell := Terminating), op := Idle)
    else w.(op := Idle)
  }

  function ApplyOperator(cfg: Config, w: World, a: OperatorStep): World
    requires OperatorEnabled(w, a)
  {
    match a
    case Begin(reply) => BeginPass(w, reply)
    case EnsureCell(reply) =>
      w.(o := if CrossNamespace(cfg) && w.o.cell.NoCell? && Applied(reply) then w.o.(cell := Live) else w.o,
         op := if reply.Ok? || !cfg.isolate then Placed(w.op.cr) else Idle)
    case DrainPods(cut) => DrainPass(cfg, w, cut)
    case Scale(reply) => ScalePass(cfg, w, reply)
    case Publish(reply) => w.(o := w.o.(ring := PublishedStore(cfg, w.o, reply)), op := Idle)
    case MarkAll(cut) => MarkPass(w, cut)
    case Farewell(reply) =>
      w.(o := w.o.(ring := PublishedStore(cfg, w.o, reply)),
         op := if w.op.complete then DyingShown(w.op.cr, w.op.fence) else Idle)
    case Teardown(reply) => TeardownPass(cfg, w, reply)
    case Release(reply) => w.(o := if Applied(reply) then w.o.(cr := None) else w.o, op := Idle)
    case Abort => w.(op := Idle)
  }

  // The environment

  predicate UniqueNames(pods: seq<Pod>) {
    forall i, j :: 0 <= i < j < |pods| ==> pods[i].name != pods[j].name
  }

  predicate SamePods(a: seq<Pod>, b: seq<Pod>) {
    |a| == |b| && (forall p :: p in a ==> p in b) && (forall p :: p in b ==> p in a)
  }

  /** Time may not pass a tick that is due or a poll that has run for a whole interval. */
  predicate MayWait(cfg: Config, clients: seq<ClientState>, until: nat) {
    forall c :: 0 <= c < |clients| ==>
      match clients[c].loop
      case Off => true
      case Polling(_, start, _) => until <= start + cfg.poll
      case Waiting(next) => until <= next
  }

  /**
   No pod appears between the pass's list of pods to drain and its StatefulSet write; pods are
   created only below the StatefulSet's count, under names not in use.
   */
  predicate MayCreate(cfg: Config, w: World, ordinal: Count) {
    && !w.op.Drained?
    && w.o.sts.Some? && ordinal < w.o.sts.value
    && Writable(cfg, w.o)
    && forall p :: p in w.o.pods ==> p.name != PodName(cfg.name, ordinal)
  }

  predicate EnvEnabled(cfg: Config, w: World, e: EnvStep) {
    match e
    case EditSpec(replicas, _) => w.o.cr.Some? && replicas >= 1
    case DeleteCr => w.o.cr.Some?
    case CreatePod(ordinal) => MayCreate(cfg, w, ordinal)
    case ChangeStatus(i, _, _) => i < |w.o.pods|
    case TerminatePod(i) => i < |w.o.pods|
    case RemovePod(i) => i < |w.o.pods|
    case Scribble(i) => i < |w.o.pods| && w.o.pods[i].drain.Unmarked?
    case Reorder(pods) => UniqueNames(pods) && SamePods(pods, w.o.pods)
    case EditRing(_) => true
    case Collect => w.o.cr.None? || w.o.cell.Terminating?
    case CellGone => w.o.cell.Terminating? && w.o.sts.None? && w.o.ring.Absent? && w.o.pods == []
    case Tick(dt) => MayWait(cfg, w.clients, w.o.clock + dt)
  }

  function NewPod(cfg: Config, o: Objects, ordinal: Count): Pod {
    Pod(o.nextId, PodName(cfg.name, ordinal), Pending, [], false, Unmarked)
  }

  function RequestDeletion(o: Objects): Objects
    requires o.cr.Some?
  {
    if o.cr.value.finalizer then o.(cr := Some(o.cr.value.(deleting := true))) else o.(cr := None)
  }

  function ApplyEnv(cfg: Config, w: World, e: EnvStep): (o: Objects)
    requires EnvEnabled(cfg, w, e)
  {
    match e
    case EditSpec(replicas, grace) => w.o.(cr := Some(w.o.cr.value.(replicas := replicas, grace := grace)))
    case DeleteCr => RequestDeletion(w.o)
    case CreatePod(ordinal) => w.o.(pods := w.o.pods + [NewPod(cfg, w.o, ordinal)], nextId := w.o.nextId + 1)
    case ChangeStatus(i, phase, conditions) =>
      w.o.(pods := w.o.pods[i := w.o.pods[i].(phase := phase, conditions := conditions)])
    case TerminatePod(i) => w.o.(pods := w.o.pods[i := w.o.pods[i].(terminating := true)])
    case RemovePod(i) => w.o.(pods := w.o.pods[..i] + w.o.pods[i + 1..])
    case Scribble(i) => w.o.(pods := w.o.pods[i := w.o.pods[i].(drain := Garbled)])
    case Reorder(pods) => w.o.(pods := pods)
    case EditRing(store) => w.o.(ring := store)
    case Collect => w.o.(sts := None, ring := Absent)
    case CellGone => w.o.(cell := NoCell)
    case Tick(dt) => w.o.(clock := w.o.clock + dt)
  }

  // The clients

  predicate ClientEnabled(w: World, k: ClientStep) {
    k.c < |w.clients| &&
    var loop := w.clients[k.c].loop;
    match k
    case Start(_) => loop.Off?
    case Read(_) => loop.Polling? && loop.got.None?
    case End(_, ok) => loop.Polling? && (ok ==> loop.got.Some?)
    case Fire(_) => loop.Waiting? && loop.next == w.o.clock
  }

  /** The ticker starts when the first poll ends, and then keeps its period. */
  function NextTick(cfg: Config, loop: Loop, now: nat): nat
    requires loop.Polling?
  {
    (if loop.first then now else loop.start) + cfg.poll
  }

  function ApplyClient(cfg: Config, w: World, k: ClientStep): ClientState
    requires ClientEnabled(w, k)
  {
    var c := w.clients[k.c];
    match k
    case Start(_) => c.(loop := Polling(true, w.o.clock, None))
    case Read(_) => c.(loop := c.loop.(got := Some(w.o.ring)))
    case End(_, ok) =>
      ClientState(if ok then Load(c.loaded, c.loop.got.value) else c.loaded,
                  Waiting(NextTick(cfg, c.loop, w.o.clock)))
    case Fire(_) => c.(loop := Polling(false, w.o.clock, None))
  }

  // Runs

  predicate Enabled(cfg: Config, w: World, s: Step) {
    match s
    case Operator(a) => OperatorEnabled(w, a)
    case Env(e) => EnvEnabled(cfg, w, e)
    case Poll(k) => ClientEnabled(w, k)
  }

  function Apply(cfg: Config, w: World, s: Step): World
    requires Enabled(cfg, w, s)
  {
    match s
    case Operator(a) => ApplyOperator(cfg, w, a)
    case Env(e) => w.(o := ApplyEnv(cfg, w, e))
    case Poll(k) => w.(clients := w.clients[k.c := ApplyClient(cfg, w, k)])
  }

  /** A freshly created custom resource, before the operator has seen it. */
  predicate Init(w: World) {
    && w.o.cr.Some? && !w.o.cr.value.deleting && !w.o.cr.value.finalizer && w.o.cr.value.replicas >= 1
    && w.o.sts == None && w.o.pods == [] && w.o.ring == Absent && w.o.cell == NoCell
    && w.op == Idle
    && forall c :: 0 <= c < |w.clients| ==> w.clients[c] == ClientState(None, Off)
  }

  datatype Run = Run(states: seq<World>, steps: seq<Step>)

  /** Step `i` leads from state `i` to the next. */
  predicate StepAt(cfg: Config, run: Run, i: nat) {
    && i < |run.steps| && i + 1 < |run.states|
    && Enabled(cfg, run.states[i], run.steps[i])
    && run.states[i + 1] == Apply(cfg, run.states[i], run.steps[i])
  }

  predicate IsRun(cfg: Config, run: Run) {
    && |run.states| == |run.steps| + 1
    && Init(run.states[0])
    && forall i :: 0 <= i < |run.steps| ==> StepAt(cfg, run, i)
  }

  // The operator on its own

  /** The world after a sequence of operator steps, if every one of them is enabled in turn. */
  function Perform(cfg: Config, w: World, trace: seq<OperatorStep>): Option<World> {
    if trace == [] then Some(w)
    else
      var before := Perform(cfg, w, trace[..|trace| - 1]);
      var last := trace[|trace| - 1];
      if before.Some? && OperatorEnabled(before.value, last)
      then Some(ApplyOperator(cfg, before.value, last)) else None
  }

  lemma PerformNext(cfg: Config, w: World, trace: seq<OperatorStep>, last: OperatorStep)
    requires Perform(cfg, w, trace).Some? && OperatorEnabled(Perform(cfg, w, trace).value, last)
    ensures Perform(cfg, w, trace + [last]) == Some(ApplyOperator(cfg, Perform(cfg, w, trace).value, last))
  {
    assert (trace + [last])[..|trace|] == trace;
  }

  /** Operator steps that can be performed at the end of a run continue it. */
  lemma {:induction false} PerformContinuesRun(cfg: Config, run: Run, trace: seq<OperatorStep>) returns (longer: Run)
    requires IsRun(cfg, run) && Perform(cfg, run.states[|run.steps|], trace).Some?
    ensures IsRun(cfg, longer) && |longer.steps| == |run.steps| + |trace|
    ensures run.states <= longer.states && run.steps <= longer.steps
    ensures longer.states[|longer.steps|] == Perform(cfg, run.states[|run.steps|], trace).value
  {
    if trace == [] {
      longer := run;
    } else {
      var last := trace[|trace| - 1];
      var prefix := PerformContinuesRun(cfg, run, trace[..|trace| - 1]);
      longer := Continue(cfg, prefix, Operator(last));
    }
  }

  /** A run continued by one enabled step. */
  lemma Continue(cfg: Config, run: Run, s: Step) returns (longer: Run)
    requires IsRun(cfg, run) && Enabled(cfg, run.states[|run.steps|], s)
    ensures IsRun(cfg, longer) && |longer.steps| == |run.steps| + 1
    ensures run.states <= longer.states && longer.steps == run.steps + [s]
    ensures longer.states[|longer.steps|] == Apply(cfg, run.states[|run.steps|], s)
  {
    longer := Run(run.states + [Apply(cfg, run.states[|run.steps|], s)], run.steps + [s]);
    forall i | 0 <= i < |longer.steps| ensures StepAt(cfg, longer, i) {
      if i < |run.steps| { assert StepAt(cfg, run, i); }
    }
  }
}
