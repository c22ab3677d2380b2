/**
 The end-to-end drain contract: by the time a drained pod may be terminated, no client routes a
 key to it, and none does again while that instance exists.
 */
module Contract {
  import opened Basics
  import opened Pods
  import opened HashRing
  import opened CacheClient
  import opened ApiServer
  import opened Protocol
  import opened Invariants
  import opened Versions
  import opened DrainSafety

  // The poll loop's timing

  /** Polls and waits lie within one interval of now, and an unstarted client holds nothing. */
  predicate OnTime(cfg: Config, c: ClientState, now: nat) {
    match c.loop
    case Off => c.loaded.None?
    case Polling(_, start, _) => start <= now <= start + cfg.poll
    case Waiting(next) => now <= next <= now + cfg.poll
  }

  predicate TimeInv(cfg: Config, w: World) {
    forall c :: 0 <= c < |w.clients| ==> OnTime(cfg, w.clients[c], w.o.clock)
  }

  lemma ClockMoves(cfg: Config, w: World, s: Step)
    requires Enabled(cfg, w, s)
    ensures Apply(cfg, w, s).o.clock == if s.Env? && s.e.Tick? then w.o.clock + s.e.dt else w.o.clock
    ensures !s.Poll? ==> Apply(cfg, w, s).clients == w.clients
  {
  }

  lemma TimeStep(cfg: Config, w: World, s: Step)
    requires TimeInv(cfg, w) && Enabled(cfg, w, s)
    ensures TimeInv(cfg, Apply(cfg, w, s))
  {
    ClockMoves(cfg, w, s);
    if s.Poll? {
      assert OnTime(cfg, w.clients[s.k.c], w.o.clock);
    } else if s.Env? && s.e.Tick? {
      forall c | 0 <= c < |w.clients| ensures OnTime(cfg, w.clients[c], w.o.clock + s.e.dt) {
        assert OnTime(cfg, w.clients[c], w.o.clock);
      }
    }
  }

  lemma {:induction false} RunTime(cfg: Config, run: Run, k: nat)
    requires IsRun(cfg, run) && k < |run.states|
    ensures TimeInv(cfg, run.states[k])
  {
    if k > 0 {
      RunTime(cfg, run, k - 1);
      assert StepAt(cfg, run, k - 1);
      TimeStep(cfg, run.states[k - 1], run.steps[k - 1]);
    }
  }

  // Convergence of one client

  /** Lookups of this client cannot answer `name`. */
  predicate Clear(c: ClientState, name: string) {
    c.loaded.Some? ==> name !in c.loaded.value.members
  }

  /** Loading `got` cannot make the client answer `name`. */
  predicate Harmless(got: RingStore, name: string) {
    got.Decoded? ==> name !in got.ring.members
  }

  /** The client is clear, and nothing it has read so far changes that. */
  predicate ClearForGood(c: ClientState, name: string) {
    Clear(c, name) && (c.loop.Polling? && c.loop.got.Some? ==> Harmless(c.loop.got.value, name))
  }

  /** The client is clear for good, or starts a poll that clears it by `due`. */
  predicate ClearsBy(cfg: Config, c: ClientState, name: string, due: nat) {
    || ClearForGood(c, name)
    || match c.loop
       case Off => false
       case Waiting(next) => next <= due
       case Polling(first, start, got) =>
         var current := got.None? || (got.value.Decoded? && Harmless(got.value, name));
         start + (if first then cfg.poll else 0) + (if current then 0 else cfg.poll) <= due
  }

  /** At a publication every client is at most two intervals from a clearing poll, one if it ticks. */
  lemma StartsToClear(cfg: Config, c: ClientState, name: string, now: nat)
    requires OnTime(cfg, c, now)
    ensures ClearsBy(cfg, c, name, now + 2 * cfg.poll)
    ensures Ticking(c) || c.loop.Off? ==> ClearsBy(cfg, c, name, now + cfg.poll)
  {
  }

  /** The client's first poll is over. */
  predicate Ticking(c: ClientState) {
    c.loop.Waiting? || (c.loop.Polling? && !c.loop.first)
  }

  /** Every step keeps the client's deadline, except that a failed poll costs an interval. */
  lemma KeepsClearing(cfg: Config, w: World, k: ClientStep, name: string, due: nat)
    requires ClientEnabled(w, k) && OnTime(cfg, w.clients[k.c], w.o.clock) && InOrder(w.clients[k.c])
    requires w.o.ring.Decoded? && Harmless(w.o.ring, name)
    requires ClearsBy(cfg, w.clients[k.c], name, due)
    ensures ClearsBy(cfg, ApplyClient(cfg, w, k), name, due + if k.End? && !k.ok then cfg.poll else 0)
  {
  }

  lemma KeepsClear(cfg: Config, w: World, k: ClientStep, name: string)
    requires ClientEnabled(w, k) && Harmless(w.o.ring, name) && ClearForGood(w.clients[k.c], name)
    ensures ClearForGood(ApplyClient(cfg, w, k), name)
  {
  }

  /** Past the deadline the client must have cleared. */
  lemma ClearPastDeadline(cfg: Config, c: ClientState, name: string, due: nat, now: nat)
    requires OnTime(cfg, c, now) && ClearsBy(cfg, c, name, due) && now > due + cfg.poll
    ensures ClearForGood(c, name)
  {
  }

  // Convergence over a run

  /** The time client `c` loses to polls that fail in steps `j` to `k`: an interval each. */
  function MissedTime(cfg: Config, run: Run, c: nat, j: nat, k: nat): nat
    requires k <= |run.steps|
  {
    if k <= j then 0
    else MissedTime(cfg, run, c, j, k - 1) + if run.steps[k - 1] == Poll(End(c, false)) then cfg.poll else 0
  }

  lemma {:induction false} MissedShrinks(cfg: Config, run: Run, c: nat, i: nat, j: nat, k: nat)
    requires i <= j && k <= |run.steps|
    ensures MissedTime(cfg, run, c, j, k) <= MissedTime(cfg, run, c, i, k)
    decreases k
  {
    if k > j { MissedShrinks(cfg, run, c, i, j, k - 1); }
  }

  lemma ClientCount(cfg: Config, run: Run, i: nat, j: nat)
    requires IsRun(cfg, run) && i <= j < |run.states|
    ensures |run.states[i].clients| == |run.states[j].clients|
  {
    if i < j {
      ClientCount(cfg, run, i, j - 1);
      assert StepAt(cfg, run, j - 1);
      ClientsSameLength(cfg, run.states[j - 1], run.steps[j - 1]);
    }
  }

  lemma StepOfClient(cfg: Config, w: World, s: Step, c: nat)
    requires Enabled(cfg, w, s) && c < |w.clients|
    ensures c < |Apply(cfg, w, s).clients|
    ensures s.Poll? && s.k.c == c ==> Apply(cfg, w, s).clients[c] == ApplyClient(cfg, w, s.k)
    ensures !(s.Poll? && s.k.c == c) ==> Apply(cfg, w, s).clients[c] == w.clients[c]
  {
  }

  /** One step of a client towards clearing `name`, from state `k` to the next. */
  lemma ClearingStep(cfg: Config, run: Run, k: nat, c: nat, name: string, due: nat)
    requires IsRun(cfg, run) && Clean(run, k + 1) && c < |run.states[k].clients|
    requires run.states[k].o.ring.Decoded? && Harmless(run.states[k].o.ring, name)
    requires ClearsBy(cfg, run.states[k].clients[c], name, due)
    ensures c < |run.states[k + 1].clients|
    ensures ClearsBy(cfg, run.states[k + 1].clients[c], name,
                     due + if run.steps[k] == Poll(End(c, false)) then cfg.poll else 0)
  {
    assert StepAt(cfg, run, k);
    var w, s := run.states[k], run.steps[k];
    StepOfClient(cfg, w, s, c);
    if s.Poll? && s.k.c == c {
      RunTime(cfg, run, k);
      assert Clean(run, k);
      RunRing(cfg, run, k);
      assert InOrder(w.clients[c]);
      KeepsClearing(cfg, w, s.k, name, due);
    }
  }

  /** The store at every state between a publication and a state that is not retired. */
  lemma StoreBetween(cfg: Config, run: Run, j: nat, m: nat, k: nat)
    requires IsRun(cfg, run) && j <= m <= k && Clean(run, k)
    requires run.states[j].o.ring.Decoded? && !Retired(cfg, run.states[k])
    ensures run.states[m].o.ring.Decoded?
  {
    assert Clean(run, m);
    RingMovesForward(cfg, run, j, m);
    if Retired(cfg, run.states[m]) { RetiredSince(cfg, run, m, k); }
  }

  /** Between a ring without the drained instance and state `k`, all rings are without it. */
  lemma RingBetween(cfg: Config, run: Run, j: nat, m: nat, k: nat, q: Pod, p: Pod)
    requires IsRun(cfg, run) && j <= m <= k && Clean(run, k)
    requires q in run.states[j].o.pods && !q.drain.Unmarked?
    requires run.states[j].o.ring.Decoded? && LeavesOut(run.states[j].o.ring, q.name)
    requires p in run.states[k].o.pods && p.id == q.id && !Retired(cfg, run.states[k])
    ensures run.states[m].o.ring.Decoded? && Harmless(run.states[m].o.ring, q.name)
  {
    var r := InstanceAt(cfg, run, j, m, k, q, p);
    assert Clean(run, m);
    StaysExcluded(cfg, run, j, m, q, r);
    StoreBetween(cfg, run, j, m, k);
  }

  /** From a ring without the drained instance on, every client keeps heading to be clear. */
  lemma {:induction false} KeepsHeading(cfg: Config, run: Run, j: nat, m: nat, k: nat, c: nat, q: Pod, p: Pod, due: nat)
    requires IsRun(cfg, run) && j <= m <= k && Clean(run, k)
    requires c < |run.states[j].clients|
    requires q in run.states[j].o.pods && !q.drain.Unmarked?
    requires run.states[j].o.ring.Decoded? && LeavesOut(run.states[j].o.ring, q.name)
    requires p in run.states[k].o.pods && p.id == q.id && !Retired(cfg, run.states[k])
    requires ClearsBy(cfg, run.states[j].clients[c], q.name, due)
    ensures c < |run.states[m].clients|
    ensures ClearsBy(cfg, run.states[m].clients[c], q.name, due + MissedTime(cfg, run, c, j, m))
  {
    if j < m {
      KeepsHeading(cfg, run, j, m - 1, k, c, q, p, due);
      RingBetween(cfg, run, j, m - 1, k, q, p);
      ClearingStep(cfg, run, m - 1, c, q.name, due + MissedTime(cfg, run, c, j, m - 1));
    }
  }

  /** Once clear for good, a client stays clear while the instance exists. */
  lemma {:induction false} StaysClear(cfg: Config, run: Run, j: nat, k: nat, c: nat, q: Pod, p: Pod)
    requires IsRun(cfg, run) && j <= k && Clean(run, k)
    requires c < |run.states[j].clients|
    requires q in run.states[j].o.pods && !q.drain.Unmarked? && LeavesOut(run.states[j].o.ring, q.name)
    requires p in run.states[k].o.pods && p.id == q.id
    requires ClearForGood(run.states[j].clients[c], q.name)
    ensures c < |run.states[k].clients| && ClearForGood(run.states[k].clients[c], q.name)
  {
    if j < k {
      var m := AnnotatedSince(cfg, run, j, k, q, p);
      StaysClear(cfg, run, j, k - 1, c, q, m);
      StaysExcluded(cfg, run, j, k - 1, q, m);
      assert StepAt(cfg, run, k - 1);
      var w, s := run.states[k - 1], run.steps[k - 1];
      StepOfClient(cfg, w, s, c);
      if s.Poll? && s.k.c == c { KeepsClear(cfg, w, s.k, q.name); }
    }
  }

  // The contract

  /**
   Whenever the timestamp on `p` is more than `delay` old at state `k`, a ring was published
   within `delay` of its writing.
   */
  ghost predicate PromptlyPublished(cfg: Config, run: Run, k: nat, p: Pod, delay: nat) {
    forall i {:trigger MarkedAt(run, i, p)} ::
      (0 <= i < k < |run.states| && MarkedAt(run, i, p) && run.states[i].o.clock + delay < run.states[k].o.clock) ==>
      exists j :: i < j < k && PublishesAt(run, j) && run.states[j].o.clock <= run.states[i].o.clock + delay
  }

  /** From the writing of the timestamp on `p` to state `k`, client `c` loses at most `lost` to missed polls. */
  ghost predicate LosesAtMost(cfg: Config, run: Run, k: nat, c: nat, p: Pod, lost: nat) {
    k <= |run.steps|
    && forall i {:trigger MarkedAt(run, i, p)} :: 0 <= i < k && MarkedAt(run, i, p) ==> MissedTime(cfg, run, c, i, k) <= lost
  }

  /** The client was past its first poll whenever the timestamp on `p` was written. */
  ghost predicate TickingWhenMarked(run: Run, c: nat, p: Pod) {
    forall i {:trigger MarkedAt(run, i, p)} :: 0 <= i < |run.states| && MarkedAt(run, i, p) ==>
      c < |run.states[i].clients| && Ticking(run.states[i].clients[c])
  }

  /** How long a ring can outlive its replacement in a client whose polls succeed. */
  function Staleness(cfg: Config, ticking: bool): nat {
    if ticking then 2 * cfg.poll else 3 * cfg.poll
  }

  lemma {:induction false} TickingForever(cfg: Config, run: Run, i: nat, j: nat, c: nat)
    requires IsRun(cfg, run) && i <= j < |run.states|
    requires c < |run.states[i].clients| && Ticking(run.states[i].clients[c])
    ensures c < |run.states[j].clients| && Ticking(run.states[j].clients[c])
  {
    if i < j {
      TickingForever(cfg, run, i, j - 1, c);
      assert StepAt(cfg, run, j - 1);
      StepOfClient(cfg, run.states[j - 1], run.steps[j - 1], c);
    }
  }

  /** How far a client's next clearing poll can be from a publication: two intervals, one if it ticks. */
  predicate Leads(cfg: Config, c: ClientState, lead: nat) {
    lead == 2 * cfg.poll || (lead == cfg.poll && Ticking(c))
  }

  /** Right after a publication the ring is without the drained pod. */
  lemma InstanceLeftOut(cfg: Config, run: Run, j: nat, k: nat, q: Pod, p: Pod) returns (r: Pod)
    requires IsRun(cfg, run) && j < k && Clean(run, k) && PublishesAt(run, j)
    requires q in run.states[j].o.pods && !q.drain.Unmarked? && p in run.states[k].o.pods && p.id == q.id
    ensures r in run.states[j + 1].o.pods && r.id == p.id && r.name == p.name && !r.drain.Unmarked?
    ensures run.states[j + 1].o.ring.Decoded? && LeavesOut(run.states[j + 1].o.ring, r.name)
  {
    assert Clean(run, j + 1);
    StepExcludes(cfg, run, j, q);
    r := InstanceAt(cfg, run, j, j + 1, k, q, p);
    MarksAreStable(cfg, run, j, j + 1, q, r);
    MarksAreStable(cfg, run, j, k, q, p);
  }

  /** An operator step leaves the clients alone, so each of them now heads to be clear. */
  lemma HeadsOff(cfg: Config, run: Run, j: nat, c: nat, name: string, lead: nat)
    requires IsRun(cfg, run) && j < |run.steps| && run.steps[j].Operator?
    requires c < |run.states[j].clients| && Leads(cfg, run.states[j].clients[c], lead)
    ensures c < |run.states[j + 1].clients|
    ensures ClearsBy(cfg, run.states[j + 1].clients[c], name, run.states[j].o.clock + lead)
  {
    assert StepAt(cfg, run, j);
    ClockMoves(cfg, run.states[j], run.steps[j]);
    RunTime(cfg, run, j + 1);
    StartsToClear(cfg, run.states[j + 1].clients[c], name, run.states[j + 1].o.clock);
  }

  /** The lead, one interval for the poll itself and the missed polls after a publication, the client is clear. */
  lemma ClearAfter(cfg: Config, run: Run, j: nat, k: nat, c: nat, q: Pod, p: Pod, lead: nat)
    requires IsRun(cfg, run) && j < k && Clean(run, k)
    requires PublishesAt(run, j)
    requires c < |run.states[j].clients| && Leads(cfg, run.states[j].clients[c], lead)
    requires q in run.states[j].o.pods && !q.drain.Unmarked?
    requires p in run.states[k].o.pods && p.id == q.id && !Retired(cfg, run.states[k])
    requires run.states[k].o.clock > run.states[j].o.clock + lead + MissedTime(cfg, run, c, j + 1, k) + cfg.poll
    ensures c < |run.states[k].clients| && ClearForGood(run.states[k].clients[c], p.name)
  {
    var r := InstanceLeftOut(cfg, run, j, k, q, p);
    HeadsOff(cfg, run, j, c, r.name, lead);
    ClearOnceDue(cfg, run, j + 1, k, c, r, p, run.states[j].o.clock + lead);
  }

  /** A client heading to be clear is clear at state `k`, if that is past its deadline. */
  lemma ClearOnceDue(cfg: Config, run: Run, j: nat, k: nat, c: nat, r: Pod, p: Pod, due: nat)
    requires IsRun(cfg, run) && j <= k && Clean(run, k)
    requires c < |run.states[j].clients|
    requires r in run.states[j].o.pods && !r.drain.Unmarked?
    requires run.states[j].o.ring.Decoded? && LeavesOut(run.states[j].o.ring, r.name)
    requires p in run.states[k].o.pods && p.id == r.id && !Retired(cfg, run.states[k])
    requires ClearsBy(cfg, run.states[j].clients[c], r.name, due)
    requires run.states[k].o.clock > due + MissedTime(cfg, run, c, j, k) + cfg.poll
    ensures c < |run.states[k].clients| && ClearForGood(run.states[k].clients[c], r.name)
  {
    KeepsHeading(cfg, run, j, k, k, c, r, p, due);
    RunTime(cfg, run, k);
    ClearPastDeadline(cfg, run.states[k].clients[c], r.name, due + MissedTime(cfg, run, c, j, k), run.states[k].o.clock);
  }

  /** An aged timestamp was written more than `delay + span` ago, if the grace covers that and a second. */
  lemma GraceCovers(now: nat, marked: nat, grace: nat, delay: nat, span: nat)
    requires now - marked / SECOND * SECOND >= grace * SECOND
    requires span + delay + SECOND <= grace * SECOND
    ensures now > marked + delay + span
  {
    assert marked / SECOND * SECOND > marked - SECOND;
  }

  /** The publication that followed the timestamp on an aged pod, and the pod as it was then. */
  lemma PublicationOf(cfg: Config, run: Run, k: nat, p: Pod, grace: nat, delay: nat, span: nat)
    returns (i: nat, j: nat, r: Pod)
    requires IsRun(cfg, run) && k < |run.states|
    requires p in run.states[k].o.pods && Aged(p, grace, run.states[k].o.clock)
    requires PromptlyPublished(cfg, run, k, p, delay)
    requires span + delay + SECOND <= grace * SECOND
    ensures i < j < k && MarkedAt(run, i, p) && PublishesAt(run, j)
    ensures run.states[k].o.clock > run.states[j].o.clock + span
    ensures r in run.states[j].o.pods && r.id == p.id && !r.drain.Unmarked?
  {
    i := MarkOrigin(cfg, run, k, p);
    GraceCovers(run.states[k].o.clock, run.states[i].o.clock, grace, delay, span);
    j :| i < j < k && PublishesAt(run, j) && run.states[j].o.clock <= run.states[i].o.clock + delay;
    r := MarkedInstance(cfg, run, i, j, k, p);
  }

  lemma MarkedInstance(cfg: Config, run: Run, i: nat, j: nat, k: nat, p: Pod) returns (r: Pod)
    requires IsRun(cfg, run) && i < j <= k < |run.states| && MarkedAt(run, i, p) && p in run.states[k].o.pods
    ensures r in run.states[j].o.pods && r.id == p.id && !r.drain.Unmarked?
  {
    var q :| q in run.states[i + 1].o.pods && q.id == p.id && q.name == p.name && q.drain == p.drain;
    r := InstanceAt(cfg, run, i + 1, j, k, q, p);
    MarksAreStable(cfg, run, i + 1, j, q, r);
  }

  /**
   A pod that has waited out its grace is unknown to every client, if the grace covers the
   publication delay, the second lost in the timestamp, three poll intervals -- two for a client
   that was past its first poll when the pod was marked -- and one more for each missed poll.
   */
  lemma AgedPodIsClear(cfg: Config, run: Run, k: nat, c: nat, p: Pod, grace: nat, delay: nat, ticking: bool, lost: nat)
    requires IsRun(cfg, run) && Clean(run, k) && c < |run.states[k].clients|
    requires p in run.states[k].o.pods && Aged(p, grace, run.states[k].o.clock)
    requires !Retired(cfg, run.states[k])
    requires LosesAtMost(cfg, run, k, c, p, lost) && PromptlyPublished(cfg, run, k, p, delay)
    requires ticking ==> TickingWhenMarked(run, c, p)
    requires Staleness(cfg, ticking) + lost + delay + SECOND <= grace * SECOND
    ensures ClearForGood(run.states[k].clients[c], p.name)
  {
    ClearWithLead(cfg, run, k, c, p, grace, delay, Staleness(cfg, ticking) - cfg.poll, lost);
  }

  /** At the timestamp on `p` the client is at most `lead` from a poll that can clear it. */
  ghost predicate LeadsWhenMarked(cfg: Config, run: Run, c: nat, p: Pod, lead: nat) {
    forall i {:trigger MarkedAt(run, i, p)} :: 0 <= i < |run.states| && MarkedAt(run, i, p) ==>
      c < |run.states[i].clients| ==> Leads(cfg, run.states[i].clients[c], lead)
  }

  lemma ClearWithLead(cfg: Config, run: Run, k: nat, c: nat, p: Pod, grace: nat, delay: nat, lead: nat, lost: nat)
    requires IsRun(cfg, run) && Clean(run, k) && c < |run.states[k].clients|
    requires p in run.states[k].o.pods && Aged(p, grace, run.states[k].o.clock)
    requires !Retired(cfg, run.states[k])
    requires LosesAtMost(cfg, run, k, c, p, lost) && PromptlyPublished(cfg, run, k, p, delay)
    requires LeadsWhenMarked(cfg, run, c, p, lead)
    requires lead + lost + cfg.poll + delay + SECOND <= grace * SECOND
    ensures ClearForGood(run.states[k].clients[c], p.name)
  {
    var i, j, r := PublicationOf(cfg, run, k, p, grace, delay, lead + lost + cfg.poll);
    MissedSince(cfg, run, i, j + 1, k, c, p, lost);
    ClientCount(cfg, run, i, k);
    ClearSince(cfg, run, i, j, k, c, r, p, lead, lost);
  }

  lemma MissedSince(cfg: Config, run: Run, i: nat, j: nat, k: nat, c: nat, p: Pod, lost: nat)
    requires LosesAtMost(cfg, run, k, c, p, lost) && i < k && MarkedAt(run, i, p) && i <= j
    ensures MissedTime(cfg, run, c, j, k) <= lost
  {
    MissedShrinks(cfg, run, c, i, j, k);
  }

  lemma ClearSince(cfg: Config, run: Run, i: nat, j: nat, k: nat, c: nat, r: Pod, p: Pod, lead: nat, lost: nat)
    requires IsRun(cfg, run) && i <= j < k && Clean(run, k) && PublishesAt(run, j)
    requires c < |run.states[i].clients| && Leads(cfg, run.states[i].clients[c], lead)
    requires r in run.states[j].o.pods && !r.drain.Unmarked?
    requires p in run.states[k].o.pods && p.id == r.id && !Retired(cfg, run.states[k])
    requires MissedTime(cfg, run, c, j + 1, k) <= lost
    requires run.states[k].o.clock > run.states[j].o.clock + (lead + lost + cfg.poll)
    ensures c < |run.states[k].clients| && ClearForGood(run.states[k].clients[c], p.name)
  {
    ClientCount(cfg, run, i, j);
    if Ticking(run.states[i].clients[c]) { TickingForever(cfg, run, i, j, c); }
    ClearAfter(cfg, run, j, k, c, r, p, lead);
  }

  /** Such a pod is in no ring either. */
  lemma AgedPodIsOut(cfg: Config, run: Run, k: nat, p: Pod, grace: nat, delay: nat)
    requires IsRun(cfg, run) && Clean(run, k)
    requires p in run.states[k].o.pods && Aged(p, grace, run.states[k].o.clock)
    requires PromptlyPublished(cfg, run, k, p, delay) && delay + SECOND <= grace * SECOND
    ensures LeavesOut(run.states[k].o.ring, p.name)
  {
    var i, j, r := PublicationOf(cfg, run, k, p, grace, delay, 0);
    ExcludedSince(cfg, run, j, j, k, r, p);
  }

  /** For some hash and key, some resolved form of the loaded ring answers with `name`. */
  ghost predicate Routes(c: ClientState, name: string) {
    c.loaded.Some? && exists h: Hash, built: HashRing, key: string :: Resolves(h, built, c.loaded.value) && Answers(built, h(key), name)
  }

  lemma RoutesUnlessClear(c: ClientState, name: string)
    ensures Routes(c, name) <==> !Clear(c, name)
  {
    if c.loaded.Some? && name in c.loaded.value.members {
      var h, built := MembersAnswer(c.loaded.value, name);
      assert Answers(built, h(""), name);
    }
    if Routes(c, name) {
      var h: Hash, built: HashRing, key :| Resolves(h, built, c.loaded.value) && Answers(built, h(key), name);
      AnswerOwns(h, built, c.loaded.value, h(key), name);
    }
  }

  lemma ClearMeansUnroutable(c: ClientState, name: string, h: Hash, built: HashRing, key: string, pod: string)
    requires Clear(c, name) && c.loaded.Some? && Resolves(h, built, c.loaded.value) && Answers(built, h(key), pod)
    ensures pod != name
  {
    AnswerOwns(h, built, c.loaded.value, h(key), pod);
  }

  /** The lowering at step `k` happens in a live pass. */
  lemma LoweringNotRetired(cfg: Config, run: Run, k: nat)
    requires IsRun(cfg, run) && LowersAt(run, k)
    ensures !Retired(cfg, run.states[k])
  {
    LoweringPass(cfg, run, k);
    RunInv(cfg, run, k);
  }

  /**
   The drain contract. When the StatefulSet is lowered over a pod, and from then on for as long
   as that instance exists, no lookup of any client answers with the pod, for any key.
   */
  lemma DrainContract(cfg: Config, run: Run, k: nat, m: nat, c: nat, p: Pod, p': Pod, delay: nat, ticking: bool, lost: nat,
                      h: Hash, built: HashRing, key: string, pod: string)
    requires IsRun(cfg, run) && k <= m && Clean(run, m)
    requires LowersAt(run, k) && RemovedBy(run, k, p)
    requires p' in run.states[m].o.pods && p'.id == p.id
    requires LosesAtMost(cfg, run, k, c, p, lost) && PromptlyPublished(cfg, run, k, p, delay)
    requires ticking ==> TickingWhenMarked(run, c, p)
    requires Staleness(cfg, ticking) + lost + delay + SECOND <= PassGrace(run.states[k].op) * SECOND
    requires c < |run.states[m].clients| && run.states[m].clients[c].loaded.Some?
    requires Resolves(h, built, run.states[m].clients[c].loaded.value) && Answers(built, h(key), pod)
    ensures pod != p.name
  {
    LoweringPass(cfg, run, k);
    LoweringNotRetired(cfg, run, k);
    UnroutableFrom(cfg, run, k, m, c, p, p', PassGrace(run.states[k].op), delay, ticking, lost);
    ClearMeansUnroutable(run.states[m].clients[c], p.name, h, built, key, pod);
  }

  lemma UnroutableFrom(cfg: Config, run: Run, k: nat, m: nat, c: nat, p: Pod, p': Pod, grace: nat, delay: nat, ticking: bool, lost: nat)
    requires IsRun(cfg, run) && k <= m && Clean(run, m) && c < |run.states[m].clients|
    requires p in run.states[k].o.pods && Aged(p, grace, run.states[k].o.clock) && !Retired(cfg, run.states[k])
    requires p' in run.states[m].o.pods && p'.id == p.id
    requires LosesAtMost(cfg, run, k, c, p, lost) && PromptlyPublished(cfg, run, k, p, delay)
    requires ticking ==> TickingWhenMarked(run, c, p)
    requires Staleness(cfg, ticking) + lost + delay + SECOND <= grace * SECOND
    ensures Clear(run.states[m].clients[c], p.name)
  {
    assert Clean(run, k);
    ClientCount(cfg, run, k, m);
    AgedPodIsClear(cfg, run, k, c, p, grace, delay, ticking, lost);
    AgedPodIsOut(cfg, run, k, p, grace, delay);
    StaysClear(cfg, run, k, m, c, p, p');
  }
}
