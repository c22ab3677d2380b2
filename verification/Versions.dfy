/**
 Ring versions over whole runs: they never decrease, they determine the membership, and so the
 client's habit of skipping an equal version never leaves it with a different ring.
 */
module Versions {
  import opened Basics
  import opened HashRing
  import opened CacheClient
  import opened ApiServer
  import opened Protocol
  import opened Invariants

  /** In the first `k` steps nobody edits the ring ConfigMap by hand, and no version is left to wrap. */
  predicate Clean(run: Run, k: nat) {
    k <= |run.steps| && k <= |run.states|
    && forall i :: 0 <= i < k ==> CleanStep(run.steps[i]) && CanCount(run.states[i].o.ring)
  }

  /** The next version is larger. */
  predicate CanCount(store: RingStore) {
    store.Decoded? ==> store.ring.version < MAX_INT64
  }

  predicate CleanStep(s: Step) {
    s.Env? ==> !s.e.EditRing?
  }

  /** The resource is gone or its cell is being torn down: no ring will be created any more. */
  predicate Retired(cfg: Config, w: World) {
    || w.o.cr.None?
    || w.o.cell.Terminating?
    || (CrossNamespace(cfg) && w.o.cell.NoCell? && w.o.cr.value.deleting && !LiveOp(w.op))
  }

  lemma RetiredForever(cfg: Config, w: World, s: Step)
    requires GuardInv(cfg, w) && Enabled(cfg, w, s)
    ensures Retired(cfg, w) ==> Retired(cfg, Apply(cfg, w, s))
    ensures Retired(cfg, w) && w.o.ring.Absent? && CleanStep(s) ==> Apply(cfg, w, s).o.ring.Absent?
    ensures s == Env(Collect) ==> Retired(cfg, w)
  {
  }

  lemma {:induction false} RetiredSince(cfg: Config, run: Run, i: nat, j: nat)
    requires IsRun(cfg, run) && i <= j < |run.states| && Retired(cfg, run.states[i])
    ensures Retired(cfg, run.states[j])
  {
    if i < j {
      RetiredSince(cfg, run, i, j - 1);
      RunInv(cfg, run, j - 1);
      assert StepAt(cfg, run, j - 1);
      RetiredForever(cfg, run.states[j - 1], run.steps[j - 1]);
    }
  }

  // How the stored ring changes

  predicate Publication(a: OperatorStep) {
    a.Publish? || a.Farewell?
  }

  lemma OperatorRingChanges(cfg: Config, w: World, a: OperatorStep)
    requires OperatorEnabled(w, a)
    ensures Publication(a) ==> ApplyOperator(cfg, w, a).o.ring == PublishedStore(cfg, w.o, a.reply)
    ensures !Publication(a) ==> ApplyOperator(cfg, w, a).o.ring == w.o.ring
  {
  }

  lemma EnvRingChanges(cfg: Config, w: World, e: EnvStep)
    requires EnvEnabled(cfg, w, e) && !e.EditRing?
    ensures ApplyEnv(cfg, w, e).ring == w.o.ring || ApplyEnv(cfg, w, e).ring.Absent?
  {
  }

  /** The store changes only by publication, by hand, or when it is collected. */
  lemma RingChanges(cfg: Config, w: World, s: Step)
    requires Enabled(cfg, w, s) && CleanStep(s)
    ensures if s.Operator? && Publication(s.a)
            then Apply(cfg, w, s).o.ring == PublishedStore(cfg, w.o, s.a.reply)
            else Apply(cfg, w, s).o.ring == w.o.ring || Apply(cfg, w, s).o.ring.Absent?
  {
    match s
    case Operator(a) => OperatorRingChanges(cfg, w, a);
    case Env(e) => EnvRingChanges(cfg, w, e);
    case Poll(_) =>
  }

  // Order

  /** `a` is `b`, or was published under an earlier version. */
  predicate Behind(a: Ring, b: Ring) {
    a.version < b.version || a == b
  }

  /** What a client holds is not ahead of what its poll has read. */
  predicate InOrder(c: ClientState) {
    c.loop.Polling? && c.loop.got.Some? ==>
      match c.loop.got.value
      case Absent => true
      case Decoded(g) => c.loaded.Some? ==> Behind(c.loaded.value, g)
      case _ => false
  }

  /** Nothing a client holds or has read is ahead of the published ring `r`. */
  predicate ClientBehind(c: ClientState, r: Ring) {
    && InOrder(c)
    && (c.loaded.Some? ==> Behind(c.loaded.value, r))
    && (c.loop.Polling? && c.loop.got.Some? && c.loop.got.value.Decoded? ==> Behind(c.loop.got.value.ring, r))
  }

  predicate ClientBlank(c: ClientState) {
    c.loaded.None? && (c.loop.Polling? ==> c.loop.got == None || c.loop.got == Some(Absent))
  }

  /** The published ring, and every client behind it. */
  predicate RingInv(cfg: Config, w: World) {
    && (forall c :: 0 <= c < |w.clients| ==> InOrder(w.clients[c]))
    && match w.o.ring
       case Absent => Retired(cfg, w) || forall c :: 0 <= c < |w.clients| ==> ClientBlank(w.clients[c])
       case Decoded(r) =>
         && 0 <= r.version
         && (r.members != [] ==> r.version >= 1)
         && forall c :: 0 <= c < |w.clients| ==> ClientBehind(w.clients[c], r)
       case _ => false
  }

  lemma PublishMovesForward(cfg: Config, o: Objects, reply: Reply)
    requires o.ring.Absent? || (o.ring.Decoded? && 0 <= o.ring.ring.version < MAX_INT64
                                && (o.ring.ring.members != [] ==> o.ring.ring.version >= 1))
    ensures var s' := PublishedStore(cfg, o, reply);
            s' == o.ring
            || (s'.Decoded? && 0 <= s'.ring.version && (s'.ring.members != [] ==> s'.ring.version >= 1)
                && (o.ring.Decoded? ==> Behind(o.ring.ring, s'.ring)))
  {
  }

  /** Every client stays behind when the ring moves forward. */
  lemma ClientsStayBehind(w: World, r': Ring)
    requires w.o.ring.Absent? ==> forall c :: 0 <= c < |w.clients| ==> ClientBlank(w.clients[c])
    requires w.o.ring.Absent? || w.o.ring.Decoded?
    requires w.o.ring.Decoded? ==> Behind(w.o.ring.ring, r')
    requires w.o.ring.Decoded? ==> forall c :: 0 <= c < |w.clients| ==> ClientBehind(w.clients[c], w.o.ring.ring)
    ensures forall c :: 0 <= c < |w.clients| ==> ClientBehind(w.clients[c], r')
  {
  }

  lemma OperatorRing(cfg: Config, w: World, a: OperatorStep)
    requires GuardInv(cfg, w) && RingInv(cfg, w) && CanCount(w.o.ring) && OperatorEnabled(w, a)
    ensures RingInv(cfg, ApplyOperator(cfg, w, a))
    ensures w.o.ring.Decoded? ==>
              var s' := ApplyOperator(cfg, w, a).o.ring;
              s'.Decoded? && Behind(w.o.ring.ring, s'.ring)
  {
    RetiredForever(cfg, w, Operator(a));
    if a.Publish? || a.Farewell? {
      PublishMovesForward(cfg, w.o, a.reply);
      var s' := PublishedStore(cfg, w.o, a.reply);
      if s' != w.o.ring { ClientsStayBehind(w, s'.ring); }
    }
  }

  lemma ClientRing(cfg: Config, w: World, k: ClientStep)
    requires RingInv(cfg, w) && ClientEnabled(w, k)
    ensures RingInv(cfg, Apply(cfg, w, Poll(k)))
  {
    var c, c' := w.clients[k.c], ApplyClient(cfg, w, k);
    assert InOrder(c);
    if w.o.ring.Decoded? {
      assert ClientBehind(c, w.o.ring.ring) && ClientBehind(c', w.o.ring.ring);
    } else {
      assert ClientBlank(c) ==> ClientBlank(c');
    }
    assert InOrder(c');
  }

  lemma RingStep(cfg: Config, w: World, s: Step)
    requires GuardInv(cfg, w) && RingInv(cfg, w) && CanCount(w.o.ring) && Enabled(cfg, w, s) && CleanStep(s)
    ensures RingInv(cfg, Apply(cfg, w, s))
    ensures w.o.ring.Decoded? ==>
              var s' := Apply(cfg, w, s).o.ring;
              (s'.Decoded? && Behind(w.o.ring.ring, s'.ring)) || (s'.Absent? && Retired(cfg, Apply(cfg, w, s)))
  {
    match s
    case Operator(a) => OperatorRing(cfg, w, a);
    case Env(e) => RetiredForever(cfg, w, s);
    case Poll(k) => ClientRing(cfg, w, k);
  }

  lemma {:induction false} RunRing(cfg: Config, run: Run, k: nat)
    requires IsRun(cfg, run) && Clean(run, k)
    ensures RingInv(cfg, run.states[k])
  {
    if k > 0 {
      RunRing(cfg, run, k - 1);
      RunInv(cfg, run, k - 1);
      assert StepAt(cfg, run, k - 1);
      RingStep(cfg, run.states[k - 1], run.steps[k - 1]);
    }
  }

  /** Versions count publications, so within 2^63 - 1 steps none is left to wrap. */
  lemma {:induction false} ShortRunsCount(cfg: Config, run: Run, k: nat)
    requires IsRun(cfg, run) && k <= |run.steps| && k <= MAX_INT64
    requires forall i :: 0 <= i < k ==> CleanStep(run.steps[i])
    ensures Clean(run, k)
    ensures run.states[k].o.ring.Decoded? ==> run.states[k].o.ring.ring.version <= k
  {
    if k > 0 {
      ShortRunsCount(cfg, run, k - 1);
      RunRing(cfg, run, k - 1);
      assert StepAt(cfg, run, k - 1) && CleanStep(run.steps[k - 1]);
      VersionStep(cfg, run.states[k - 1], run.steps[k - 1], k - 1);
    }
  }

  lemma VersionStep(cfg: Config, w: World, s: Step, n: nat)
    requires Enabled(cfg, w, s) && CleanStep(s) && n < MAX_INT64
    requires w.o.ring.Decoded? ==> w.o.ring.ring.version <= n
    ensures var store := Apply(cfg, w, s).o.ring; store.Decoded? ==> store.ring.version <= n + 1
  {
    RingChanges(cfg, w, s);
  }

  /** A published ring is only ever replaced by a later one, or collected for good. */
  lemma {:induction false} RingMovesForward(cfg: Config, run: Run, i: nat, j: nat)
    requires IsRun(cfg, run) && i <= j && Clean(run, j)
    requires run.states[i].o.ring.Decoded?
    ensures var s' := run.states[j].o.ring;
            (s'.Decoded? && Behind(run.states[i].o.ring.ring, s'.ring)) || (s'.Absent? && Retired(cfg, run.states[j]))
  {
    if i < j {
      RingMovesForward(cfg, run, i, j - 1);
      RunRing(cfg, run, j - 1);
      RunInv(cfg, run, j - 1);
      assert StepAt(cfg, run, j - 1);
      RetiredForever(cfg, run.states[j - 1], run.steps[j - 1]);
      RingStep(cfg, run.states[j - 1], run.steps[j - 1]);
    }
  }

  /** Versions never decrease, and rings published under one version have one membership. */
  lemma VersionDeterminesMembers(cfg: Config, run: Run, i: nat, j: nat)
    requires IsRun(cfg, run) && i <= j && Clean(run, j)
    requires run.states[i].o.ring.Decoded? && run.states[j].o.ring.Decoded?
    ensures run.states[i].o.ring.ring.version <= run.states[j].o.ring.ring.version
    ensures run.states[i].o.ring.ring.version == run.states[j].o.ring.ring.version ==>
              run.states[i].o.ring.ring.members == run.states[j].o.ring.ring.members
  {
    RingMovesForward(cfg, run, i, j);
  }

  /** After a successful poll the client holds exactly the ring it read, skipped or not. */
  lemma SkipIsSound(cfg: Config, run: Run, k: nat, c: nat)
    requires IsRun(cfg, run) && Clean(run, k)
    requires StepAt(cfg, run, k) && run.steps[k] == Poll(End(c, true))
    requires run.states[k].clients[c].loop.got.value.Decoded?
    ensures run.states[k + 1].clients[c].loaded == Some(run.states[k].clients[c].loop.got.value.ring)
  {
    RunRing(cfg, run, k);
    assert InOrder(run.states[k].clients[c]);
  }

  lemma ClientsSameLength(cfg: Config, w: World, s: Step)
    requires Enabled(cfg, w, s)
    ensures |Apply(cfg, w, s).clients| == |w.clients|
  {
  }

  lemma LoadedStep(cfg: Config, w: World, s: Step, c: nat)
    requires RingInv(cfg, w) && Enabled(cfg, w, s) && c < |w.clients| && w.clients[c].loaded.Some?
    ensures c < |Apply(cfg, w, s).clients|
    ensures Apply(cfg, w, s).clients[c].loaded.Some?
    ensures Behind(w.clients[c].loaded.value, Apply(cfg, w, s).clients[c].loaded.value)
  {
    assert InOrder(w.clients[c]);
  }

  /** A snapshot a lookup takes later is never older than one taken earlier. */
  lemma {:induction false} SnapshotsNeverRegress(cfg: Config, run: Run, c: nat, i: nat, j: nat)
    requires IsRun(cfg, run) && i <= j && Clean(run, j)
    requires c < |run.states[i].clients| && run.states[i].clients[c].loaded.Some?
    ensures c < |run.states[j].clients| && run.states[j].clients[c].loaded.Some?
    ensures Behind(run.states[i].clients[c].loaded.value, run.states[j].clients[c].loaded.value)
  {
    if i < j {
      SnapshotsNeverRegress(cfg, run, c, i, j - 1);
      RunRing(cfg, run, j - 1);
      assert StepAt(cfg, run, j - 1);
      LoadedStep(cfg, run.states[j - 1], run.steps[j - 1], c);
    }
  }

  /** Somewhere up to state `k` the ConfigMap held `store`. */
  ghost predicate Held(run: Run, k: nat, store: RingStore) {
    exists i :: 0 <= i <= k < |run.states| && run.states[i].o.ring == store
  }

  /** Every snapshot is one ring that the ConfigMap held, and so is what a poll has read. */
  lemma {:induction false} SnapshotsWereHeld(cfg: Config, run: Run, c: nat, k: nat)
    requires IsRun(cfg, run) && k < |run.states| && c < |run.states[k].clients|
    ensures run.states[k].clients[c].loaded.Some? ==>
              Held(run, k, Decoded(run.states[k].clients[c].loaded.value))
    ensures run.states[k].clients[c].loop.Polling? && run.states[k].clients[c].loop.got.Some? ==>
              Held(run, k, run.states[k].clients[c].loop.got.value)
  {
    if k > 0 {
      assert StepAt(cfg, run, k - 1);
      var w, s := run.states[k - 1], run.steps[k - 1];
      ClientsSameLength(cfg, w, s);
      SnapshotsWereHeld(cfg, run, c, k - 1);
      assert forall store :: Held(run, k - 1, store) ==> Held(run, k, store);
      assert Held(run, k, w.o.ring);
    }
  }
}
