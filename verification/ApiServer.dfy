/**
 The objects the operator keeps on the API server, and what each reconcile method does to them,
 as functions from the objects before to the objects after.
 */
module ApiServer {
  import opened Basics
  import opened Names
  import opened Pods
  import opened HashRing
  import opened CacheClient

  /** How a write ends: done, refused, or done although the operator sees an error. */
  datatype Reply = Ok | Rejected | Lost

  predicate Applied(reply: Reply) {
    !reply.Rejected?
  }

  /** What is fixed for the life of one DistributedCache; `poll` is its clients' poll interval. */
  datatype Config = Config(name: string, namespace: string, isolate: bool, poll: nat)

  /** The namespace that holds the owned objects. */
  function TargetNamespace(cfg: Config): string {
    if cfg.isolate then "cache-" + cfg.name else cfg.namespace
  }

  predicate CrossNamespace(cfg: Config) {
    TargetNamespace(cfg) != cfg.namespace
  }

  /** Owned objects live elsewhere exactly for an isolated cache outside its own cell. */
  lemma CrossNamespaceIff(cfg: Config)
    ensures CrossNamespace(cfg) <==> cfg.isolate && cfg.namespace != "cache-" + cfg.name
  {
  }

  /** Isolated caches share a cell exactly when they share a name, whatever their namespaces. */
  lemma CellsCollideByName(a: Config, b: Config)
    requires a.isolate && b.isolate
    ensures TargetNamespace(a) == TargetNamespace(b) <==> a.name == b.name
  {
    assert TargetNamespace(a)[6..] == a.name;
    assert TargetNamespace(b)[6..] == b.name;
  }

  /** The custom resource: `grace` is in seconds. */
  datatype Cr = Cr(replicas: Count, grace: nat, deleting: bool, finalizer: bool)

  /** The dedicated namespace of an isolated cache. */
  datatype Cell = NoCell | Live | Terminating

  datatype Objects = Objects(
    cr: Option<Cr>,
    sts: Option<Count>,
    pods: seq<Pod>,
    ring: RingStore,
    cell: Cell,
    nextId: nat,
    clock: nat)

  /** Objects can be created in the target namespace. */
  predicate Writable(cfg: Config, o: Objects) {
    CrossNamespace(cfg) ==> o.cell.Live?
  }

  // Draining

  /** The names the pass has to drain before it may lower the StatefulSet. */
  function Doomed(cfg: Config, o: Objects, cr: Cr): set<string> {
    if o.sts.Some? && cr.replicas < o.sts.value then DoomedNames(cfg.name, cr.replicas, o.sts.value) else {}
  }

  /** A scale-down visit: a doomed pod without a well-formed timestamp gets one. */
  function Visit(p: Pod, doomed: set<string>, now: nat): Pod {
    if p.name !in doomed || p.drain.Marked? then p else p.(drain := Marked(now / SECOND))
  }

  /** A deletion visit: a pod without any annotation gets a timestamp. */
  function DeletionVisit(p: Pod, now: nat): Pod {
    if p.drain.Unmarked? then p.(drain := Marked(now / SECOND)) else p
  }

  /** The timestamp is well formed and at least `grace` seconds old. */
  predicate Aged(p: Pod, grace: nat, now: nat) {
    p.drain.Marked? && now - p.drain.ts * SECOND >= grace * SECOND
  }

  /** The pod list after a scale-down loop that visited the first `cut` pods. */
  function VisitUpTo(pods: seq<Pod>, doomed: set<string>, now: nat, cut: nat): (r: seq<Pod>)
    ensures |r| == |pods|
    ensures forall i :: 0 <= i < |r| ==> r[i].id == pods[i].id && r[i].name == pods[i].name
  {
    seq(|pods|, i requires 0 <= i < |pods| => if i < cut then Visit(pods[i], doomed, now) else pods[i])
  }

  /** The pods after a scale-down loop that visited all of them. */
  function DrainedPods(cfg: Config, o: Objects, cr: Cr): seq<Pod> {
    VisitUpTo(o.pods, Doomed(cfg, o, cr), o.clock, |o.pods|)
  }

  /** The pod list after a deletion loop that visited the first `cut` pods. */
  function DeletionVisitUpTo(pods: seq<Pod>, now: nat, cut: nat): (r: seq<Pod>)
    ensures |r| == |pods|
    ensures forall i :: 0 <= i < |r| ==> r[i].id == pods[i].id && r[i].name == pods[i].name
  {
    seq(|pods|, i requires 0 <= i < |pods| => if i < cut then DeletionVisit(pods[i], now) else pods[i])
  }

  predicate AllAged(pods: seq<Pod>, doomed: set<string>, grace: nat, now: nat) {
    forall p :: p in pods && p.name in doomed ==> Aged(p, grace, now)
  }

  predicate EveryAged(pods: seq<Pod>, grace: nat, now: nat) {
    forall p :: p in pods ==> Aged(p, grace, now)
  }

  // Scaling

  /** The replica count written: the request, or the current count while a drain is pending. */
  function ScaleTarget(sts: Option<Count>, desired: Count, canScaleDown: bool): Count {
    if !canScaleDown && sts.Some? && desired < sts.value then sts.value else desired
  }

  // Publishing

  /** What the operator takes as the current ring. */
  function CurrentRing(store: RingStore): Ring {
    if store.Decoded? then store.ring else Ring(0, [])
  }

  predicate HasData(store: RingStore) {
    !store.Absent? && !store.Empty?
  }

  /** The version moves exactly when the membership does. */
  function NextRing(current: Ring, members: seq<string>): Ring {
    if members == current.members then Ring(current.version, members)
    else Ring(Increment(current.version), members)
  }

  function DesiredRing(o: Objects): Ring {
    NextRing(CurrentRing(o.ring), Members(o.pods))
  }

  /** The write is skipped. */
  predicate UpToDate(o: Objects) {
    DesiredRing(o) == CurrentRing(o.ring) && HasData(o.ring)
  }

  /** The ConfigMap can be written: a terminating namespace refuses creations, not updates. */
  predicate RingWritable(cfg: Config, o: Objects) {
    Writable(cfg, o) || (o.cell.Terminating? && !o.ring.Absent?)
  }

  /** The ring ConfigMap after a publication whose write ends with `reply`. */
  function PublishedStore(cfg: Config, o: Objects, reply: Reply): RingStore {
    if !UpToDate(o) && Applied(reply) && RingWritable(cfg, o) then Decoded(DesiredRing(o)) else o.ring
  }

  /** The publication reports success. */
  predicate PublishSucceeds(cfg: Config, o: Objects, reply: Reply) {
    UpToDate(o) || (reply.Ok? && RingWritable(cfg, o))
  }

  /** Payloads that a skipped write leaves in place although they do not decode. */
  predicate Stuck(o: Objects) {
    (o.ring.NoRingKey? || o.ring.Undecodable?) && Members(o.pods) == []
  }

  /**
   Write-through: a successful publication leaves a payload that decodes to the ring it returns,
   except exactly when the old payload was unreadable and no pod is eligible.
   */
  lemma WriteThrough(cfg: Config, o: Objects, reply: Reply)
    requires PublishSucceeds(cfg, o, reply)
    ensures PublishedStore(cfg, o, reply) == Decoded(DesiredRing(o)) <==> !Stuck(o)
    ensures Stuck(o) ==> PublishedStore(cfg, o, reply) == o.ring
  {
  }

  /** A second publication right after a successful one writes nothing and returns the same ring. */
  lemma PublishIdempotent(cfg: Config, o: Objects, reply: Reply, again: Reply)
    requires PublishSucceeds(cfg, o, reply)
    ensures var o' := o.(ring := PublishedStore(cfg, o, reply));
            UpToDate(o') && DesiredRing(o') == DesiredRing(o) && PublishedStore(cfg, o', again) == o'.ring
  {
  }
}
