/**
 The grace period that the drain contract asks for is exact: below it some run lowers the
 StatefulSet over a pod that a client still routes to.
 */
module GraceBound {
  import opened Basics
  import opened Pods
  import opened HashRing
  import opened CacheClient
  import opened ApiServer
  import opened Protocol
  import opened Versions
  import opened DrainSafety
  import opened Contract
  import opened Scenarios

  // Time lost by the client to failed polls

  lemma {:induction false} MissedOnPrefix(cfg: Config, run: Run, longer: Run, i: nat, k: nat)
    requires i <= k <= |run.steps| && run.steps <= longer.steps
    ensures MissedTime(cfg, longer, 0, i, k) == MissedTime(cfg, run, 0, i, k)
  {
    if k > i { MissedOnPrefix(cfg, run, longer, i, k - 1); }
  }

  lemma {:induction false} NothingMissed(cfg: Config, run: Run, longer: Run, i: nat, k: nat)
    requires i <= |run.steps| <= k <= |longer.steps| && run.steps <= longer.steps
    requires forall m :: |run.steps| <= m < k ==> !longer.steps[m].Poll?
    ensures MissedTime(cfg, longer, 0, i, k) == MissedTime(cfg, run, 0, i, |run.steps|)
  {
    if k == |run.steps| {
      MissedOnPrefix(cfg, run, longer, i, k);
    } else {
      NothingMissed(cfg, run, longer, i, k - 1);
    }
  }

  // The slowest scale-down

  /** The pod is marked at the very end of a second, far enough from zero for the client to have polled before. */
  function MarkTime(cfg: Config): nat {
    cfg.poll * SECOND + SECOND - 1
  }

  /** The pod as marked then. */
  function Victim(cfg: Config): Pod {
    MarkedPod(cfg, cfg.poll)
  }

  /** The client has lost `missed` since step `i`. */
  predicate Counted(cfg: Config, run: Run, i: nat, missed: nat) {
    CleanRun(cfg, run) && i <= |run.steps| && MissedTime(cfg, run, 0, i, |run.steps|) == missed
  }

  /** Step `i` marked the pod, with the one client past its first poll if `ticking`. */
  ghost predicate Marks(cfg: Config, run: Run, i: nat, ticking: bool) {
    && MarkedAt(run, i, Victim(cfg)) && run.states[i].o.clock == MarkTime(cfg)
    && |run.states[i].clients| == 1 && (ticking ==> Ticking(run.states[i].clients[0]))
  }

  lemma MarksInLonger(cfg: Config, run: Run, longer: Run, i: nat, ticking: bool)
    requires Marks(cfg, run, i, ticking) && Extends(longer, run)
    ensures Marks(cfg, longer, i, ticking)
  {
    assert longer.states[i] == run.states[i] && longer.states[i + 1] == run.states[i + 1] && longer.steps[i] == run.steps[i];
  }

  lemma GoOn(cfg: Config, run: Run, i: nat, missed: nat, s: Step) returns (longer: Run)
    requires Counted(cfg, run, i, missed)
    requires CanCount(Last(run).o.ring) && Enabled(cfg, Last(run), s) && CleanStep(s)
    ensures Counted(cfg, longer, i, missed + if s == Poll(End(0, false)) then cfg.poll else 0)
    ensures Extends(longer, run) && longer.steps == run.steps + [s] && Last(longer) == Apply(cfg, Last(run), s)
  {
    longer := Go(cfg, run, s);
    MissedOnPrefix(cfg, run, longer, i, |run.steps|);
  }

  /** The objects between the mark and the lowering. */
  function Draining(cfg: Config, grace: nat, ring: Ring, clock: nat): Objects {
    Objs(cfg, 1, grace, Some(2), [Victim(cfg)], Decoded(ring), clock)
  }

  /** The pass that marked the pod, before it publishes. */
  function Holding(grace: nat): Op {
    Scaled(Cr(1, grace, false, true), false, 1)
  }

  function Holds(cfg: Config, loop: Loop): seq<ClientState> {
    [ClientState(Some(OldRing(cfg)), loop)]
  }

  lemma Waits(cfg: Config, run: Run, i: nat, missed: nat, dt: nat) returns (longer: Run)
    requires Counted(cfg, run, i, missed) && CanCount(Last(run).o.ring)
    requires MayWait(cfg, Last(run).clients, Last(run).o.clock + dt)
    ensures Counted(cfg, longer, i, missed) && Extends(longer, run)
    ensures Last(longer) == Last(run).(o := Last(run).o.(clock := Last(run).o.clock + dt))
  {
    longer := GoOn(cfg, run, i, missed, Env(Tick(dt)));
  }

  lemma Fires(cfg: Config, run: Run, i: nat, missed: nat) returns (longer: Run)
    requires Counted(cfg, run, i, missed) && CanCount(Last(run).o.ring)
    requires Last(run).clients == Holds(cfg, Waiting(Last(run).o.clock))
    ensures Counted(cfg, longer, i, missed) && Extends(longer, run)
    ensures Last(longer) == Last(run).(clients := Holds(cfg, Polling(false, Last(run).o.clock, None)))
  {
    longer := GoOn(cfg, run, i, missed, Poll(Fire(0)));
  }

  lemma Reads(cfg: Config, run: Run, i: nat, missed: nat, c: ClientState) returns (longer: Run)
    requires Counted(cfg, run, i, missed) && CanCount(Last(run).o.ring)
    requires Last(run).clients == [c] && c.loop.Polling? && c.loop.got.None?
    ensures Counted(cfg, longer, i, missed) && Extends(longer, run)
    ensures Last(longer) == Last(run).(clients := [c.(loop := c.loop.(got := Some(Last(run).o.ring)))])
  {
    longer := GoOn(cfg, run, i, missed, Poll(Read(0)));
  }

  /** The poll under way ends with the old ring. */
  lemma Loads(cfg: Config, run: Run, i: nat, missed: nat, c: ClientState) returns (longer: Run)
    requires Counted(cfg, run, i, missed) && CanCount(Last(run).o.ring)
    requires Last(run).clients == [c] && c.loop.Polling? && c.loop.got == Some(Decoded(OldRing(cfg)))
    requires c.loaded == None || c.loaded == Some(OldRing(cfg))
    ensures Counted(cfg, longer, i, missed) && Extends(longer, run)
    ensures Last(longer) == Last(run).(clients := Holds(cfg, Waiting(NextTick(cfg, c.loop, Last(run).o.clock))))
  {
    longer := GoOn(cfg, run, i, missed, Poll(End(0, true)));
  }

  /** The poll under way fails. */
  lemma Fails(cfg: Config, run: Run, i: nat, missed: nat, start: nat) returns (longer: Run)
    requires Counted(cfg, run, i, missed) && CanCount(Last(run).o.ring)
    requires Last(run).clients == Holds(cfg, Polling(false, start, None))
    ensures Counted(cfg, longer, i, missed + cfg.poll) && Extends(longer, run)
    ensures Last(longer) == Last(run).(clients := Holds(cfg, Waiting(start + cfg.poll)))
  {
    longer := GoOn(cfg, run, i, missed, Poll(End(0, false)));
  }

  /** The client in its poll, at the moment of the publication. */
  function Reader(cfg: Config, ticking: bool, now: nat): ClientState {
    ClientState(if ticking then Some(OldRing(cfg)) else None, Polling(!ticking, now, Some(Decoded(OldRing(cfg)))))
  }

  lemma MarksInTime(cfg: Config, grace: nat, run: Run, ticking: bool) returns (longer: Run, i: nat)
    requires CleanRun(cfg, run) && Last(run).op.Idle? && |Last(run).clients| == 1
    requires ticking ==> Ticking(Last(run).clients[0])
    requires Last(run).o == Objs(cfg, 2, grace, Some(2), [ReadyPod(cfg, 0, 1)], Decoded(OldRing(cfg)), MarkTime(cfg))
    ensures Counted(cfg, longer, i, 0) && Marks(cfg, longer, i, ticking)
    ensures Last(longer) == World(Draining(cfg, grace, OldRing(cfg), MarkTime(cfg)), Holding(grace), Last(run).clients)
  {
    assert MarkTime(cfg) / SECOND == cfg.poll;
    longer, i := MarksThePod(cfg, grace, run, cfg.poll);
    assert MissedTime(cfg, longer, 0, i, i) == 0;
    assert MissedTime(cfg, longer, 0, i, i + 1) == 0;
  }

  /** A client that starts only now reads the old ring in its first poll. */
  lemma StartsAndReads(cfg: Config, grace: nat, run: Run, i: nat, now: nat) returns (longer: Run)
    requires Counted(cfg, run, i, 0) && Last(run) == World(Draining(cfg, grace, OldRing(cfg), now), Holding(grace), OFF)
    ensures Counted(cfg, longer, i, 0) && Extends(longer, run)
    ensures Last(longer) == World(Draining(cfg, grace, OldRing(cfg), now), Holding(grace), [Reader(cfg, false, now)])
  {
    longer := GoOn(cfg, run, i, 0, Poll(Start(0)));
    longer := Reads(cfg, longer, i, 0, ClientState(None, Polling(true, now, None)));
  }

  /** It does so `delay` after the mark. */
  lemma StartsLate(cfg: Config, grace: nat, delay: nat) returns (run: Run, i: nat)
    ensures Counted(cfg, run, i, 0) && Marks(cfg, run, i, false)
    ensures Last(run) == World(Draining(cfg, grace, OldRing(cfg), MarkTime(cfg) + delay), Holding(grace),
                               [Reader(cfg, false, MarkTime(cfg) + delay)])
  {
    run := ComesUp(cfg, grace, MarkTime(cfg));
    var early;
    early, i := MarksInTime(cfg, grace, run, false);
    run := Waits(cfg, early, i, 0, delay);
    run := StartsAndReads(cfg, grace, run, i, MarkTime(cfg) + delay);
    MarksInLonger(cfg, early, run, i, false);
  }

  /** A client's first poll at `clock`, before the pod is marked. */
  lemma Watches(cfg: Config, grace: nat, clock: nat) returns (run: Run)
    ensures CleanRun(cfg, run)
    ensures Last(run) == World(Objs(cfg, 2, grace, Some(2), [ReadyPod(cfg, 0, 1)], Decoded(OldRing(cfg)), clock), Idle,
                               Holds(cfg, Waiting(clock + cfg.poll)))
  {
    run := ComesUp(cfg, grace, clock);
    run := Go(cfg, run, Poll(Start(0)));
    run := Go(cfg, run, Poll(Read(0)));
    run := Go(cfg, run, Poll(End(0, true)));
  }

  /** A tick, and a poll that has read the old ring. */
  lemma FiresAndReads(cfg: Config, grace: nat, run: Run, i: nat, now: nat) returns (longer: Run)
    requires Counted(cfg, run, i, 0)
    requires Last(run) == World(Draining(cfg, grace, OldRing(cfg), now), Holding(grace), Holds(cfg, Waiting(now)))
    ensures Counted(cfg, longer, i, 0) && Extends(longer, run)
    ensures Last(longer) == World(Draining(cfg, grace, OldRing(cfg), now), Holding(grace), [Reader(cfg, true, now)])
  {
    longer := Fires(cfg, run, i, 0);
    longer := Reads(cfg, longer, i, 0, Holds(cfg, Polling(false, now, None))[0]);
  }

  lemma ReadsAndLoads(cfg: Config, grace: nat, run: Run, i: nat, now: nat) returns (longer: Run)
    requires Counted(cfg, run, i, 0)
    requires Last(run) == World(Draining(cfg, grace, OldRing(cfg), now), Holding(grace), Holds(cfg, Waiting(now)))
    ensures Counted(cfg, longer, i, 0) && Extends(longer, run)
    ensures Last(longer) == World(Draining(cfg, grace, OldRing(cfg), now), Holding(grace), Holds(cfg, Waiting(now + cfg.poll)))
  {
    longer := FiresAndReads(cfg, grace, run, i, now);
    longer := Loads(cfg, longer, i, 0, Reader(cfg, true, now));
  }

  lemma PollsOnce(cfg: Config, grace: nat, run: Run, i: nat, now: nat) returns (longer: Run)
    requires Counted(cfg, run, i, 0)
    requires Last(run) == World(Draining(cfg, grace, OldRing(cfg), now), Holding(grace), Holds(cfg, Waiting(now)))
    ensures Counted(cfg, longer, i, 0) && Extends(longer, run)
    ensures Last(longer) == World(Draining(cfg, grace, OldRing(cfg), now + cfg.poll), Holding(grace), Holds(cfg, Waiting(now + cfg.poll)))
  {
    longer := ReadsAndLoads(cfg, grace, run, i, now);
    longer := Waits(cfg, longer, i, 0, cfg.poll);
  }

  /** While the pass waits, the client polls the old ring `n` times. */
  lemma {:induction false} PollsOn(cfg: Config, grace: nat, run: Run, i: nat, now: nat, n: nat) returns (longer: Run)
    requires Counted(cfg, run, i, 0)
    requires Last(run) == World(Draining(cfg, grace, OldRing(cfg), now), Holding(grace), Holds(cfg, Waiting(now)))
    ensures Counted(cfg, longer, i, 0) && Extends(longer, run)
    ensures var later := now + n * cfg.poll;
            Last(longer) == World(Draining(cfg, grace, OldRing(cfg), later), Holding(grace), Holds(cfg, Waiting(later)))
    decreases n
  {
    if n == 0 {
      longer := run;
    } else {
      longer := PollsOn(cfg, grace, run, i, now, n - 1);
      assert n * cfg.poll == (n - 1) * cfg.poll + cfg.poll;
      longer := PollsOnce(cfg, grace, longer, i, now + (n - 1) * cfg.poll);
    }
  }

  /** A client that will tick `rest` after the mark is past its first poll. */
  lemma WatchesAndWaits(cfg: Config, grace: nat, rest: nat) returns (run: Run, i: nat)
    requires rest < cfg.poll
    ensures Counted(cfg, run, i, 0) && Marks(cfg, run, i, true)
    ensures Last(run) == World(Draining(cfg, grace, OldRing(cfg), MarkTime(cfg) + rest), Holding(grace),
                               Holds(cfg, Waiting(MarkTime(cfg) + rest)))
  {
    run := Watches(cfg, grace, MarkTime(cfg) - (cfg.poll - rest));
    run := Go(cfg, run, Env(Tick(cfg.poll - rest)));
    var early;
    early, i := MarksInTime(cfg, grace, run, true);
    run := Waits(cfg, early, i, 0, rest);
    MarksInLonger(cfg, early, run, i, true);
  }

  /** A client that ticks in step with the publication reads the old ring, `delay` after the mark. */
  lemma TicksInStep(cfg: Config, grace: nat, delay: nat) returns (run: Run, i: nat)
    requires cfg.poll > 0
    ensures Counted(cfg, run, i, 0) && Marks(cfg, run, i, true)
    ensures Last(run) == World(Draining(cfg, grace, OldRing(cfg), MarkTime(cfg) + delay), Holding(grace),
                               [Reader(cfg, true, MarkTime(cfg) + delay)])
  {
    var rest := delay % cfg.poll;
    var early;
    assert delay == delay / cfg.poll * cfg.poll + rest;
    early, i := WatchesAndWaits(cfg, grace, rest);
    run := PollsOn(cfg, grace, early, i, MarkTime(cfg) + rest, delay / cfg.poll);
    run := FiresAndReads(cfg, grace, run, i, MarkTime(cfg) + delay);
    MarksInLonger(cfg, early, run, i, true);
  }

  /** The pod was marked at step `i`, and step `j` published, `delay` later. */
  ghost predicate PublishedLate(cfg: Config, run: Run, i: nat, j: nat, delay: nat, ticking: bool) {
    Marks(cfg, run, i, ticking) && i < j && PublishesAt(run, j) && run.states[j].o.clock == MarkTime(cfg) + delay
  }

  lemma PublishedInLonger(cfg: Config, run: Run, longer: Run, i: nat, j: nat, delay: nat, ticking: bool)
    requires PublishedLate(cfg, run, i, j, delay, ticking) && Extends(longer, run)
    ensures PublishedLate(cfg, longer, i, j, delay, ticking)
  {
    MarksInLonger(cfg, run, longer, i, ticking);
    assert longer.states[j] == run.states[j] && longer.states[j + 1] == run.states[j + 1] && longer.steps[j] == run.steps[j];
  }

  /** The publication of a ring without the pod. */
  lemma PublishesNew(cfg: Config, grace: nat, run: Run, i: nat, now: nat) returns (longer: Run)
    requires Counted(cfg, run, i, 0) && Last(run).op == Holding(grace) && Last(run).o == Draining(cfg, grace, OldRing(cfg), now)
    ensures Counted(cfg, longer, i, 0) && Extends(longer, run) && PublishesAt(longer, |run.steps|)
    ensures Last(longer) == World(Draining(cfg, grace, NEW_RING, now), Idle, Last(run).clients)
  {
    NewRing(cfg, grace, now);
    longer := GoOn(cfg, run, i, 0, Operator(Publish(Ok)));
    assert longer.states[|run.steps| + 1] == Last(longer) && longer.states[|run.steps|] == Last(run);
  }

  lemma NewRing(cfg: Config, grace: nat, now: nat)
    ensures var o := Draining(cfg, grace, OldRing(cfg), now);
            DesiredRing(o) == NEW_RING && PublishedStore(cfg, o, Ok) == Decoded(NEW_RING)
  {
    MemberFacts(cfg, cfg.poll);
  }

  /** The client reads the old ring, and only then does the pass publish. */
  lemma ReadsJustBefore(cfg: Config, grace: nat, delay: nat, ticking: bool) returns (run: Run, i: nat, j: nat)
    requires cfg.poll > 0
    ensures Counted(cfg, run, i, 0) && PublishedLate(cfg, run, i, j, delay, ticking)
    ensures Last(run) == World(Draining(cfg, grace, NEW_RING, MarkTime(cfg) + delay), Idle,
                               [Reader(cfg, ticking, MarkTime(cfg) + delay)])
  {
    var early;
    if ticking { early, i := TicksInStep(cfg, grace, delay); } else { early, i := StartsLate(cfg, grace, delay); }
    j := |early.steps|;
    run := PublishesNew(cfg, grace, early, i, MarkTime(cfg) + delay);
    MarksInLonger(cfg, early, run, i, ticking);
  }

  /** The poll takes a whole interval and loads the old ring. */
  lemma LoadsAfterInterval(cfg: Config, grace: nat, run: Run, i: nat, ticking: bool, now: nat) returns (longer: Run)
    requires Counted(cfg, run, i, 0)
    requires Last(run) == World(Draining(cfg, grace, NEW_RING, now), Idle, [Reader(cfg, ticking, now)])
    ensures Counted(cfg, longer, i, 0) && Extends(longer, run)
    ensures Last(longer) == World(Draining(cfg, grace, NEW_RING, now + cfg.poll), Idle,
                                  Holds(cfg, Waiting(now + Staleness(cfg, ticking) - cfg.poll)))
  {
    longer := Waits(cfg, run, i, 0, cfg.poll);
    longer := Loads(cfg, longer, i, 0, Reader(cfg, ticking, now));
  }

  /** Then the client waits for its next tick. */
  lemma LoadsSlowly(cfg: Config, grace: nat, run: Run, i: nat, ticking: bool, now: nat) returns (longer: Run)
    requires Counted(cfg, run, i, 0)
    requires Last(run) == World(Draining(cfg, grace, NEW_RING, now), Idle, [Reader(cfg, ticking, now)])
    ensures Counted(cfg, longer, i, 0) && Extends(longer, run)
    ensures var next := now + Staleness(cfg, ticking) - cfg.poll;
            Last(longer) == World(Draining(cfg, grace, NEW_RING, next), Idle, Holds(cfg, Waiting(next)))
  {
    longer := LoadsAfterInterval(cfg, grace, run, i, ticking, now);
    longer := Waits(cfg, longer, i, 0, if ticking then 0 else cfg.poll);
  }

  /** The ticker fires, the poll fails, and the client waits for the next tick. */
  lemma MissesPoll(cfg: Config, grace: nat, run: Run, i: nat, missed: nat, now: nat) returns (longer: Run)
    requires Counted(cfg, run, i, missed)
    requires Last(run) == World(Draining(cfg, grace, NEW_RING, now), Idle, Holds(cfg, Waiting(now)))
    ensures Counted(cfg, longer, i, missed + cfg.poll) && Extends(longer, run)
    ensures var next := now + cfg.poll;
            Last(longer) == World(Draining(cfg, grace, NEW_RING, next), Idle, Holds(cfg, Waiting(next)))
  {
    longer := Fires(cfg, run, i, missed);
    longer := Fails(cfg, longer, i, missed, now);
    longer := Waits(cfg, longer, i, missed + cfg.poll, cfg.poll);
  }

  /** So do the next `n` polls. */
  lemma {:induction false} MissesPolls(cfg: Config, grace: nat, run: Run, i: nat, now: nat, n: nat) returns (longer: Run)
    requires Counted(cfg, run, i, 0)
    requires Last(run) == World(Draining(cfg, grace, NEW_RING, now), Idle, Holds(cfg, Waiting(now)))
    ensures Counted(cfg, longer, i, n * cfg.poll) && Extends(longer, run)
    ensures var next := now + n * cfg.poll;
            Last(longer) == World(Draining(cfg, grace, NEW_RING, next), Idle, Holds(cfg, Waiting(next)))
    decreases n
  {
    if n == 0 {
      longer := run;
    } else {
      longer := MissesPolls(cfg, grace, run, i, now, n - 1);
      assert n * cfg.poll == (n - 1) * cfg.poll + cfg.poll;
      longer := MissesPoll(cfg, grace, longer, i, (n - 1) * cfg.poll, now + (n - 1) * cfg.poll);
    }
  }

  /** The next poll has not read the ring after a whole interval. */
  lemma PollsSlowly(cfg: Config, grace: nat, run: Run, i: nat, missed: nat, now: nat) returns (longer: Run)
    requires Counted(cfg, run, i, missed)
    requires Last(run) == World(Draining(cfg, grace, NEW_RING, now), Idle, Holds(cfg, Waiting(now)))
    ensures Counted(cfg, longer, i, missed) && Extends(longer, run)
    ensures Last(longer) == World(Draining(cfg, grace, NEW_RING, now + cfg.poll), Idle, Holds(cfg, Polling(false, now, None)))
  {
    longer := Fires(cfg, run, i, missed);
    longer := Waits(cfg, longer, i, missed, cfg.poll);
  }

  /** From the publication on, the client holds the old ring for as long as its kind and its missed polls allow. */
  lemma HoldsOn(cfg: Config, grace: nat, run: Run, i: nat, ticking: bool, missed: nat, now: nat) returns (longer: Run)
    requires Counted(cfg, run, i, 0)
    requires Last(run) == World(Draining(cfg, grace, NEW_RING, now), Idle, [Reader(cfg, ticking, now)])
    ensures Counted(cfg, longer, i, missed * cfg.poll) && Extends(longer, run)
    ensures var end := now + Staleness(cfg, ticking) + missed * cfg.poll;
            Last(longer) == World(Draining(cfg, grace, NEW_RING, end), Idle, Holds(cfg, Polling(false, end - cfg.poll, None)))
  {
    var tick := now + Staleness(cfg, ticking) - cfg.poll;
    longer := LoadsSlowly(cfg, grace, run, i, ticking, now);
    longer := MissesPolls(cfg, grace, longer, i, tick, missed);
    longer := PollsSlowly(cfg, grace, longer, i, missed * cfg.poll, tick + missed * cfg.poll);
  }

  /** The next pass drains completely, with the client still holding the old ring. */
  lemma DrainsTooEarly(cfg: Config, grace: nat, delay: nat, ticking: bool, missed: nat) returns (run: Run, i: nat, j: nat)
    requires cfg.poll > 0
    requires grace * SECOND < Staleness(cfg, ticking) + missed * cfg.poll + delay + SECOND
    ensures Counted(cfg, run, i, missed * cfg.poll) && PublishedLate(cfg, run, i, j, delay, ticking) && j < |run.steps|
    ensures Last(run).op == Drained(Cr(1, grace, false, true), true, 1)
    ensures Last(run).o == Draining(cfg, grace, NEW_RING, Last(run).o.clock)
    ensures |Last(run).clients| == 1 && Last(run).clients[0].loaded == Some(OldRing(cfg))
  {
    var early, late;
    early, i, j := ReadsJustBefore(cfg, grace, delay, ticking);
    late := HoldsOn(cfg, grace, early, i, ticking, missed, MarkTime(cfg) + delay);
    run := DrainsThePod(cfg, grace, late, cfg.poll, NEW_RING);
    NothingMissed(cfg, late, run, i, |run.steps|);
    PublishedInLonger(cfg, early, run, i, j, delay, ticking);
  }

  // The exact grace period

  /**
   A pass with grace period `grace` lowers the StatefulSet at step `k` over a pod that client `c`
   still routes to, although a ring was published within `delay` of the pod's timestamp and the
   client, past its first poll by then if `ticking`, has lost no more than `lost` to missed polls.
   */
  ghost predicate RoutedWhenLowered(cfg: Config, run: Run, k: nat, c: nat, p: Pod, grace: nat, delay: nat, ticking: bool, lost: nat) {
    && IsRun(cfg, run) && Clean(run, k) && LowersAt(run, k) && RemovedBy(run, k, p)
    && PassGrace(run.states[k].op) == grace
    && PromptlyPublished(cfg, run, k, p, delay) && LosesAtMost(cfg, run, k, c, p, lost)
    && (ticking ==> TickingWhenMarked(run, c, p))
    && c < |run.states[k].clients| && Routes(run.states[k].clients[c], p.name)
  }

  /** Some run does that, with at most `missed` polls missed. */
  ghost predicate CanBeRouted(cfg: Config, grace: nat, delay: nat, ticking: bool, missed: nat) {
    exists run, k: nat, c: nat, p :: RoutedWhenLowered(cfg, run, k, c, p, grace, delay, ticking, missed * cfg.poll)
  }

  /** What holds of the one step that marked the pod holds of every such step. */
  lemma OneMark(cfg: Config, run: Run, k: nat, i: nat, j: nat, delay: nat, ticking: bool, lost: nat)
    requires IsRun(cfg, run) && i < k <= |run.steps| && MissedTime(cfg, run, 0, i, k) == lost
    requires PublishedLate(cfg, run, i, j, delay, ticking) && j < k
    ensures PromptlyPublished(cfg, run, k, Victim(cfg), delay) && LosesAtMost(cfg, run, k, 0, Victim(cfg), lost)
    ensures ticking ==> TickingWhenMarked(run, 0, Victim(cfg))
  {
    forall m | 0 <= m < |run.states| && MarkedAt(run, m, Victim(cfg)) ensures m == i {
      MarkedOnce(cfg, run, i, m, Victim(cfg));
    }
  }

  /** Below the bound there is such a run. */
  lemma TooShort(cfg: Config, grace: nat, delay: nat, ticking: bool, missed: nat) returns (run: Run, k: nat)
    requires cfg.poll > 0
    requires grace * SECOND < Staleness(cfg, ticking) + missed * cfg.poll + delay + SECOND
    ensures RoutedWhenLowered(cfg, run, k, 0, Victim(cfg), grace, delay, ticking, missed * cfg.poll)
  {
    var drained, i, j := DrainsTooEarly(cfg, grace, delay, ticking, missed);
    k := |drained.steps|;
    run := LowersOverPod(cfg, grace, drained, cfg.poll, NEW_RING);
    assert run.states[k] == Last(drained);
    PublishedInLonger(cfg, drained, run, i, j, delay, ticking);
    MissedOnPrefix(cfg, drained, run, i, k);
    OneMark(cfg, run, k, i, j, delay, ticking, missed * cfg.poll);
    RoutesUnlessClear(run.states[k].clients[0], Victim(cfg).name);
  }

  /** From the bound on there is none. */
  lemma LongEnough(cfg: Config, run: Run, k: nat, c: nat, p: Pod, grace: nat, delay: nat, ticking: bool, lost: nat)
    requires RoutedWhenLowered(cfg, run, k, c, p, grace, delay, ticking, lost)
    ensures grace * SECOND < Staleness(cfg, ticking) + lost + delay + SECOND
  {
    LoweringPass(cfg, run, k);
    LoweringNotRetired(cfg, run, k);
    RoutesUnlessClear(run.states[k].clients[c], p.name);
    if Staleness(cfg, ticking) + lost + delay + SECOND <= grace * SECOND {
      AgedPodIsClear(cfg, run, k, c, p, grace, delay, ticking, lost);
    }
  }

  /**
   The grace period of the drain contract is exact. For every poll interval, publication delay,
   kind of client and number of missed polls, some run lowers the StatefulSet over a pod that a
   client still routes to exactly when the grace is below three intervals -- two for a client past
   its first poll -- plus one for each missed poll, the delay and a second.
   */
  lemma GraceIsExact(cfg: Config, grace: nat, delay: nat, ticking: bool, missed: nat)
    requires cfg.poll > 0
    ensures CanBeRouted(cfg, grace, delay, ticking, missed)
       <==> grace * SECOND < Staleness(cfg, ticking) + missed * cfg.poll + delay + SECOND
  {
    if grace * SECOND < Staleness(cfg, ticking) + missed * cfg.poll + delay + SECOND {
      var run, k := TooShort(cfg, grace, delay, ticking, missed);
    } else {
      forall run, k: nat, c: nat, p | RoutedWhenLowered(cfg, run, k, c, p, grace, delay, ticking, missed * cfg.poll) ensures false {
        LongEnough(cfg, run, k, c, p, grace, delay, ticking, missed * cfg.poll);
      }
    }
  }

  /**
   The defaults, a poll every ten seconds and thirty seconds of grace, cover exactly the clients
   past their first poll that miss none, with a publication within nine seconds.
   */
  lemma DefaultGraceCovers(cfg: Config, delay: nat, ticking: bool, missed: nat)
    requires cfg.poll == 10 * SECOND
    ensures !CanBeRouted(cfg, 30, delay, ticking, missed) <==> ticking && missed == 0 && delay <= 9 * SECOND
  {
    GraceIsExact(cfg, 30, delay, ticking, missed);
  }
}
