/** Safety over whole runs: the seat ledger, the queues, the seat bound, and who may be lost. */
module PriorityLevelSafety {
  import opened Common
  import opened PriorityLevelSpec
  import opened PriorityLevelLaws
  import opened PriorityLevelProgress
  import opened PriorityLevelRing
  import opened PriorityLevelRuns

  // ---------------------------------------------------------------- in every reachable state

  /**
     In every interleaving the executing count is exactly the live permits, plus the admitted
     waiters that have yet to take their seat, plus the admitted waiters that were dropped
     before they did; so dropping a permit always finds a seat to give back.
   */
  lemma SeatLedger(config: Config, steps: seq<Step>)
    requires CanRun(Start(config), steps)
    ensures var s := Run(Start(config), steps);
            && s.level.executing == s.permits + |Promised(s.tickets)| + |Leaked(s.tickets)|
            && (Enabled(s, DropPermit) ==> s.level.executing >= 1)
            && (Leaked(s.tickets) == {} ==> s.level.executing == s.permits + |Promised(s.tickets)|)
  {
    StartInvariant(config);
    RunKeepsInvariant(Start(config), steps);
  }

  /** A queued request points back at its queue, is not admitted, and is counted. */
  predicate PlacedRight(s: State, i: nat, t: nat) {
    t < |s.tickets| && s.tickets[t].index == i && !s.tickets[t].admitted && s.level.queuedCount > 0
  }

  /** In every interleaving the queues, the cached count, the cursor and the back-pointers agree. */
  lemma QueueWellFormedness(config: Config, steps: seq<Step>)
    requires CanRun(Start(config), steps)
    ensures var s := Run(Start(config), steps);
            && s.level.queuedCount == Total(s.level.queues)
            && (s.level.limit.Queue? ==> |s.level.queues| == Max(s.level.limit.queues, 1))
            && (s.level.limit.Reject? ==> AllEmpty(s.level.queues))
            && (s.level.queues != [] ==> s.level.cursor < |s.level.queues|)
            && NoDuplicates(Concat(s.level.queues))
            && (forall i: nat, t: nat :: i < |s.level.queues| && t in s.level.queues[i] ==> PlacedRight(s, i, t))
  {
    var s := Run(Start(config), steps);
    StartInvariant(config);
    RunKeepsInvariant(Start(config), steps);
    ConcatNoDuplicates(s.level.queues, Indices(s.tickets));
    TotalZero(s.level.queues);
    forall i: nat, t: nat | i < |s.level.queues| && t in s.level.queues[i] ensures PlacedRight(s, i, t) {
      assert Queued(s.level.queues, t);
      assert Indices(s.tickets)[t] == i;
      assert s.level.queues[i] != [];
    }
  }

  /**
     A woken waiter always finds itself admitted, so `acquire` never goes around its loop again;
     and every admitted waiter either has its wake or has one coming.
   */
  lemma WokenMeansAdmitted(config: Config, steps: seq<Step>, t: nat)
    requires CanRun(Start(config), steps) && t < |Run(Start(config), steps).tickets|
    ensures var s := Run(Start(config), steps);
            && (s.tickets[t].notified ==> s.tickets[t].admitted)
            && s.tickets[t].phase != Retrying
            && (s.tickets[t].admitted ==> s.tickets[t].notified || t in s.pending)
  {
    var s := Run(Start(config), steps);
    StartInvariant(config);
    RunKeepsInvariant(Start(config), steps);
    assert TicketOk(s.tickets[t]);
  }

  // ---------------------------------------------------------------- the seat bound

  /** A release admits only while below the seats, and admits nobody while the level is over them. */
  lemma ReleaseShape(s: State)
    requires Invariant(s) && s.permits > 0
    ensures var f := Release(s.level, Cancelled(s.tickets));
            && f.level.executing == s.level.executing - 1 + |f.admitted|
            && (f.admitted != [] ==> f.level.executing <= s.level.seats)
            && (s.level.executing > s.level.seats ==> f.admitted == [])
            && f.level.seats == s.level.seats
  {
  }

  /** A step that raises the executing count ends within the seats configured at that moment. */
  lemma SeatingStaysWithinSeats(s: State, step: Step)
    requires Invariant(s) && Enabled(s, step) && Next(s, step).level.executing > s.level.executing
    ensures Next(s, step).level.seats == s.level.seats
    ensures 1 <= Next(s, step).level.executing <= s.level.seats
  {
    if step.DropPermit? { ReleaseShape(s); } else { ExecutingAfter(s, step); }
  }

  /** Seats change only by reconfiguration. */
  lemma SeatsAfter(s: State, step: Step)
    requires Invariant(s) && Enabled(s, step)
    ensures Next(s, step).level.seats == if step.Reconfigure? then step.config.seats else s.level.seats
  {
    if step.DropPermit? { ReleaseShape(s); }
  }

  predicate SeatsWithin(steps: seq<Step>, bound: nat) {
    forall k :: 0 <= k < |steps| && steps[k].Reconfigure? ==> steps[k].config.seats <= bound
  }

  lemma {:induction false} RunSeatBound(s: State, steps: seq<Step>, bound: nat)
    requires Invariant(s) && CanRun(s, steps)
    requires s.level.executing <= bound && s.level.seats <= bound && SeatsWithin(steps, bound)
    ensures Run(s, steps).level.executing <= bound
    decreases |steps|
  {
    if steps != [] {
      var s' := Next(s, steps[0]);
      NextKeepsInvariant(s, steps[0]);
      SeatsAfter(s, steps[0]);
      if s'.level.executing > s.level.executing { SeatingStaysWithinSeats(s, steps[0]); }
      RunSeatBound(s', steps[1..], bound);
    }
  }

  /** The executing count never exceeds the largest seat count configured so far. */
  lemma SeatBound(config: Config, steps: seq<Step>, bound: nat)
    requires CanRun(Start(config), steps)
    requires config.seats <= bound && SeatsWithin(steps, bound)
    ensures Run(Start(config), steps).level.executing <= bound
  {
    StartInvariant(config);
    RunSeatBound(Start(config), steps, bound);
  }

  /** While the level is over its seats, as it may be after a shrink, no step seats or admits anybody. */
  lemma NobodyAdmittedOverSeats(s: State, step: Step, t: nat)
    requires Invariant(s) && Enabled(s, step) && s.level.executing > s.level.seats && t < |s.tickets|
    ensures Next(s, step).level.executing <= s.level.executing
    ensures t < |Next(s, step).tickets| && Next(s, step).tickets[t].admitted == s.tickets[t].admitted
  {
    if step.DropPermit? { ReleaseShape(s); } else { ExecutingAfter(s, step); }
  }

  // ---------------------------------------------------------------- the queue-length bound

  /** The step neither re-deals nor clears the queues. */
  predicate LeavesQueues(s: State, step: Step) {
    step.Reconfigure? ==> !Redeals(s.level, step.config.limit) && !Clears(s.level, step.config.limit)
  }

  predicate Undisturbed(s: State, steps: seq<Step>)
    requires CanRun(s, steps)
    decreases |steps|
  {
    steps == [] || (LeavesQueues(s, steps[0]) && Undisturbed(Next(s, steps[0]), steps[1..]))
  }

  /** Every configured queue-length limit is at most `m`. */
  predicate LimitsWithin(steps: seq<Step>, m: nat) {
    forall k :: 0 <= k < |steps| && steps[k].Reconfigure? && steps[k].config.limit.Queue? ==>
      steps[k].config.limit.lengthLimit <= m
  }

  /** Each queue is at most as long as its own bound, which is at least `m`. */
  ghost predicate LengthsWithin(qs: seq<seq<nat>>, bounds: seq<nat>, m: nat) {
    |qs| == |bounds| && forall i :: 0 <= i < |qs| ==> |qs[i]| <= bounds[i] && m <= bounds[i]
  }

  lemma NextKeepsLengths(s: State, step: Step, bounds: seq<nat>, m: nat)
    requires Invariant(s) && Enabled(s, step) && LeavesQueues(s, step)
    requires LengthsWithin(s.level.queues, bounds, m) && s.level.limit.Queue? && s.level.limit.lengthLimit <= m
    ensures LengthsWithin(Next(s, step).level.queues, bounds, m) && Next(s, step).level.limit.Queue?
    ensures Next(s, step).level.limit == if step.Reconfigure? then step.config.limit else s.level.limit
  {
    match step
    case Enqueue(seed) =>
      if EnqueueVerdict(s.level, seed).Accepted? { EnqueuePlaces(s.level, Indices(s.tickets), |s.tickets|, seed); }
    case DropPermit =>
      var f := Release(s.level, Cancelled(s.tickets));
      ReleaseKeeps(s.level, Indices(s.tickets), Cancelled(s.tickets));
      forall i | 0 <= i < |bounds| ensures |f.level.queues[i]| <= bounds[i] {
        assert IsSuffix(f.level.queues[i], s.level.queues[i]);
      }
    case RemoveDrop(t) =>
    case _ =>
  }

  lemma {:induction false} RunKeepsLengths(s: State, steps: seq<Step>, bounds: seq<nat>, m: nat)
    requires Invariant(s) && CanRun(s, steps) && Undisturbed(s, steps) && LimitsWithin(steps, m)
    requires LengthsWithin(s.level.queues, bounds, m) && s.level.limit.Queue? && s.level.limit.lengthLimit <= m
    ensures LengthsWithin(Run(s, steps).level.queues, bounds, m)
    decreases |steps|
  {
    if steps != [] {
      NextKeepsInvariant(s, steps[0]);
      NextKeepsLengths(s, steps[0], bounds, m);
      RunKeepsLengths(Next(s, steps[0]), steps[1..], bounds, m);
    }
  }

  /**
     Until the queues are re-dealt or cleared, whatever else is reconfigured, every queue stays
     within the larger of the largest length limit configured and its length at the start.
   */
  lemma QueueLengthBound(s: State, steps: seq<Step>, m: nat)
    requires Invariant(s) && CanRun(s, steps) && Undisturbed(s, steps) && LimitsWithin(steps, m)
    requires s.level.limit.Queue? && s.level.limit.lengthLimit <= m
    ensures var qs := Run(s, steps).level.queues;
            |qs| == |s.level.queues| && forall i :: 0 <= i < |qs| ==> |qs[i]| <= Max(m, |s.level.queues[i]|)
  {
    var bounds := seq(|s.level.queues|,
                      i requires 0 <= i < |s.level.queues| => Max(m, |s.level.queues[i]|) as nat);
    RunKeepsLengths(s, steps, bounds, m);
  }

  /** So from an empty level the total queued stays within its queue count times the largest length limit. */
  lemma TotalQueuedBound(s: State, steps: seq<Step>, m: nat)
    requires Invariant(s) && CanRun(s, steps) && Undisturbed(s, steps) && LimitsWithin(steps, m)
    requires s.level.limit.Queue? && s.level.limit.lengthLimit <= m && s.level.queuedCount == 0
    ensures Run(s, steps).level.queuedCount <= Max(s.level.limit.queues, 1) * m
  {
    TotalZero(s.level.queues);
    RunKeepsInvariant(s, steps);
    QueueLengthBound(s, steps, m);
    TotalBound(Run(s, steps).level.queues, m);
  }

  // ---------------------------------------------------------------- who may be lost

  /** Waiting for a wake, but neither admitted nor in any queue. */
  ghost predicate Lost(s: State, t: nat) {
    t < |s.tickets| && !s.tickets[t].admitted && s.tickets[t].phase in {Waiting, Checked}
    && !Queued(s.level.queues, t)
  }

  /** A request that has left the queues never comes back to them. */
  lemma NextNeverRequeues(s: State, step: Step, t: nat)
    requires Invariant(s) && Enabled(s, step) && t < |s.tickets| && Queued(Next(s, step).level.queues, t)
    ensures Queued(s.level.queues, t)
  {
    var i :| 0 <= i < |Next(s, step).level.queues| && t in Next(s, step).level.queues[i];
    match step
    case Enqueue(seed) =>
      assert t in s.level.queues[i];
    case DropPermit => ReleaseKeeps(s.level, Indices(s.tickets), Cancelled(s.tickets));
    case RemoveDrop(u) => RemoveKeeps(s.level, Indices(s.tickets), u);
    case Reconfigure(config) => ReconfigureKeeps(s.level, Indices(s.tickets), config, Seeds(s.tickets));
    case _ =>
  }

  /** A lost waiter is lost for good: no continuation admits it, wakes it or queues it again. */
  lemma {:induction false} LostForever(s: State, steps: seq<Step>, t: nat)
    requires Invariant(s) && CanRun(s, steps) && t < |s.tickets|
    requires !s.tickets[t].admitted && s.tickets[t].phase != Resumed && !Queued(s.level.queues, t)
    ensures var s' := Run(s, steps);
            t < |s'.tickets| && !s'.tickets[t].admitted && s'.tickets[t].phase != Resumed && !Queued(s'.level.queues, t)
    decreases |steps|
  {
    if steps != [] {
      var s' := Next(s, steps[0]);
      NextKeepsInvariant(s, steps[0]);
      if Queued(s'.level.queues, t) { NextNeverRequeues(s, steps[0], t); }
      if steps[0].DropPermit? { ReleaseKeeps(s.level, Indices(s.tickets), Cancelled(s.tickets)); }
      assert TicketOk(s.tickets[t]);
      LostForever(s', steps[1..], t);
    }
  }

  /** The one way to lose a waiter: turn queueing off while it is queued. */
  predicate TurnsQueueingOff(s: State, step: Step) {
    step.Reconfigure? && step.config.limit.Reject? && s.level.limit.Queue?
  }

  lemma EnqueueKeepsQueued(s: State, seed: nat, t: nat)
    requires Invariant(s) && Enabled(s, Enqueue(seed)) && Queued(s.level.queues, t)
    ensures Queued(Next(s, Enqueue(seed)).level.queues, t)
  {
    var i :| 0 <= i < |s.level.queues| && t in s.level.queues[i];
    assert t in Next(s, Enqueue(seed)).level.queues[i];
  }

  lemma NextLoses(s: State, step: Step, t: nat)
    requires Invariant(s) && Enabled(s, step) && !Lost(s, t) && t < |s.tickets|
    ensures Lost(Next(s, step), t) <==>
            && TurnsQueueingOff(s, step) && Queued(s.level.queues, t) && s.tickets[t].phase in {Waiting, Checked}
  {
    match step
    case DropPermit => ReleaseKeeps(s.level, Indices(s.tickets), Cancelled(s.tickets));
    case RemoveDrop(u) => RemoveKeeps(s.level, Indices(s.tickets), u);
    case Reconfigure(config) => ReconfigureKeeps(s.level, Indices(s.tickets), config, Seeds(s.tickets));
    case Enqueue(seed) => if Queued(s.level.queues, t) { EnqueueKeepsQueued(s, seed, t); }
    case _ =>
  }

  ghost predicate NobodyLost(s: State) {
    forall t: nat :: t < |s.tickets| ==> !Lost(s, t)
  }

  /** The step does not turn queueing off over somebody waiting. */
  ghost predicate LosesNobody(s: State, step: Step) {
    TurnsQueueingOff(s, step) ==>
      forall t: nat :: t < |s.tickets| && Queued(s.level.queues, t) ==> s.tickets[t].phase !in {Waiting, Checked}
  }

  lemma NewcomerIsQueued(s: State, step: Step, t: nat)
    requires Invariant(s) && Enabled(s, step) && |s.tickets| <= t < |Next(s, step).tickets|
    ensures Queued(Next(s, step).level.queues, t)
  {
    assert step.Enqueue? && EnqueueVerdict(s.level, step.seed).Accepted?;
    var i := EnqueueVerdict(s.level, step.seed).index;
    assert t in Next(s, step).level.queues[i];
  }

  lemma NextLosesNobody(s: State, step: Step)
    requires Invariant(s) && Enabled(s, step) && NobodyLost(s)
    ensures NobodyLost(Next(s, step)) <==> LosesNobody(s, step)
  {
    var s' := Next(s, step);
    forall t: nat | |s.tickets| <= t < |s'.tickets| ensures !Lost(s', t) { NewcomerIsQueued(s, step, t); }
    forall t: nat | t < |s.tickets|
      ensures Lost(s', t) <==>
              && TurnsQueueingOff(s, step) && Queued(s.level.queues, t) && s.tickets[t].phase in {Waiting, Checked}
    {
      NextLoses(s, step, t);
    }
    assert |s'.tickets| >= |s.tickets|;
  }

  ghost predicate NobodyLostThroughout(s: State, steps: seq<Step>)
    requires CanRun(s, steps)
    decreases |steps|
  {
    NobodyLost(s) && (steps == [] || NobodyLostThroughout(Next(s, steps[0]), steps[1..]))
  }

  ghost predicate LosesNobodyThroughout(s: State, steps: seq<Step>)
    requires CanRun(s, steps)
    decreases |steps|
  {
    steps == [] || (LosesNobody(s, steps[0]) && LosesNobodyThroughout(Next(s, steps[0]), steps[1..]))
  }

  /** No waiter is ever lost in a run exactly when none of its steps turns queueing off over one. */
  lemma {:induction false} NoLosses(s: State, steps: seq<Step>)
    requires Invariant(s) && NobodyLost(s) && CanRun(s, steps)
    ensures NobodyLostThroughout(s, steps) <==> LosesNobodyThroughout(s, steps)
    decreases |steps|
  {
    if steps != [] {
      NextLosesNobody(s, steps[0]);
      NextKeepsInvariant(s, steps[0]);
      if LosesNobody(s, steps[0]) { NoLosses(Next(s, steps[0]), steps[1..]); }
    }
  }

  // ---------------------------------------------------------------- leaked seats

  /** A release now would admit `t`: it is live, near enough in turn order, and no lap before its turn is idle. */
  ghost predicate NextInTurn(s: State, t: nat) {
    exists i: nat, p: nat ::
      && i < |s.level.queues| && p < |s.level.queues[i]| && s.level.queues[i][p] == t
      && s.level.cursor < |s.level.queues|
      && Admits(Freed(s.level), Cancelled(s.tickets), i, p)
  }

  lemma ReleaseAdmits(s: State, t: nat)
    requires Invariant(s) && s.permits > 0
    ensures t in Release(s.level, Cancelled(s.tickets)).admitted <==> NextInTurn(s, t)
  {
    var l, cancelled, index := Freed(s.level), Cancelled(s.tickets), Indices(s.tickets);
    assert WellFormed(l, index);
    if t in Release(s.level, cancelled).admitted {
      ReleaseKeeps(s.level, index, cancelled);
      var i, p := Place(l.queues, t);
      RefillAdmits(l, index, cancelled, i, p);
    }
    if NextInTurn(s, t) {
      var i: nat, p: nat :| i < |l.queues| && p < |l.queues[i]| && l.queues[i][p] == t && Admits(l, cancelled, i, p);
      RefillAdmits(l, index, cancelled, i, p);
    }
  }

  /** What a caller can see before a step that will leak the seat of `t`. */
  ghost predicate LeaksSeat(s: State, step: Step, t: nat)
    requires t < |s.tickets|
  {
    || (step == CheckDrop(t) && s.tickets[t].admitted)
    || (step == DropPermit && s.tickets[t].phase == Checked && NextInTurn(s, t))
  }

  lemma ReleaseLeaks(s: State, t: nat)
    requires Invariant(s) && Enabled(s, DropPermit) && t < |s.tickets|
    ensures t in Leaked(Next(s, DropPermit).tickets) && t !in Leaked(s.tickets) <==> LeaksSeat(s, DropPermit, t)
  {
    assert TicketOk(s.tickets[t]);
    ReleaseKeeps(s.level, Indices(s.tickets), Cancelled(s.tickets));
    ReleaseAdmits(s, t);
  }

  /**
     A seat leaks exactly when a waiter is dropped after its admission, or when a release whose turn
     it is comes between the waiter's finding itself unadmitted and its flagging itself cancelled.
   */
  lemma NextLeaks(s: State, step: Step, t: nat)
    requires Invariant(s) && Enabled(s, step) && t < |s.tickets|
    ensures t in Leaked(Next(s, step).tickets) && t !in Leaked(s.tickets) <==> LeaksSeat(s, step, t)
  {
    if step.DropPermit? {
      ReleaseLeaks(s, t);
    } else {
      assert TicketOk(s.tickets[t]);
    }
  }

  lemma NextKeepsLeaked(s: State, step: Step)
    requires Invariant(s) && Enabled(s, step)
    ensures Leaked(s.tickets) <= Leaked(Next(s, step).tickets)
  {
  }

  ghost predicate LeaksNoSeat(s: State, step: Step) {
    forall t: nat :: t < |s.tickets| ==> !LeaksSeat(s, step, t)
  }

  lemma NewcomersLeakNothing(s: State, step: Step)
    requires Enabled(s, step)
    ensures forall t :: t in Leaked(Next(s, step).tickets) ==> t < |s.tickets|
  {
  }

  lemma NextLeaksNoSeat(s: State, step: Step)
    requires Invariant(s) && Enabled(s, step)
    ensures Leaked(Next(s, step).tickets) == Leaked(s.tickets) <==> LeaksNoSeat(s, step)
  {
    NextKeepsLeaked(s, step);
    NewcomersLeakNothing(s, step);
    var before, after := Leaked(s.tickets), Leaked(Next(s, step).tickets);
    forall t: nat | t < |s.tickets| ensures t in after && t !in before <==> LeaksSeat(s, step, t) {
      NextLeaks(s, step, t);
    }
  }

  ghost predicate LeaksNoSeatThroughout(s: State, steps: seq<Step>)
    requires CanRun(s, steps)
    decreases |steps|
  {
    steps == [] || (LeaksNoSeat(s, steps[0]) && LeaksNoSeatThroughout(Next(s, steps[0]), steps[1..]))
  }

  lemma {:induction false} RunKeepsLeaked(s: State, steps: seq<Step>)
    requires Invariant(s) && CanRun(s, steps)
    ensures Leaked(s.tickets) <= Leaked(Run(s, steps).tickets)
    decreases |steps|
  {
    if steps != [] {
      NextKeepsInvariant(s, steps[0]);
      NextKeepsLeaked(s, steps[0]);
      RunKeepsLeaked(Next(s, steps[0]), steps[1..]);
    }
  }

  /** A run leaks no seat exactly when none of its steps does. */
  lemma {:induction false} NoLeaks(s: State, steps: seq<Step>)
    requires Invariant(s) && CanRun(s, steps)
    ensures Leaked(Run(s, steps).tickets) == Leaked(s.tickets) <==> LeaksNoSeatThroughout(s, steps)
    decreases |steps|
  {
    if steps != [] {
      var s' := Next(s, steps[0]);
      NextKeepsInvariant(s, steps[0]);
      NextKeepsLeaked(s, steps[0]);
      NextLeaksNoSeat(s, steps[0]);
      RunKeepsLeaked(s', steps[1..]);
      NoLeaks(s', steps[1..]);
    }
  }

  /** So the executing count is exactly the seats held or promised in exactly the runs that leak none. */
  lemma LedgerWithoutLeaks(config: Config, steps: seq<Step>)
    requires CanRun(Start(config), steps)
    ensures var s := Run(Start(config), steps);
            s.level.executing == s.permits + |Promised(s.tickets)| <==> LeaksNoSeatThroughout(Start(config), steps)
  {
    StartInvariant(config);
    RunKeepsInvariant(Start(config), steps);
    NoLeaks(Start(config), steps);
    assert Leaked(Start(config).tickets) == {};
    var leaked := Leaked(Run(Start(config), steps).tickets);
    assert |leaked| == 0 <==> leaked == {};
  }

  /** A leaked seat is never given back, so the executing count never falls below the leaked seats again. */
  lemma LeakedForever(s: State, steps: seq<Step>)
    requires Invariant(s) && CanRun(s, steps)
    ensures Leaked(s.tickets) <= Leaked(Run(s, steps).tickets)
    ensures Run(s, steps).level.executing >= Run(s, steps).permits + |Leaked(s.tickets)|
  {
    RunKeepsLeaked(s, steps);
    RunKeepsInvariant(s, steps);
    SubsetCardinality(Leaked(s.tickets), Leaked(Run(s, steps).tickets));
  }

  lemma {:induction false} SubsetCardinality(a: set<nat>, b: set<nat>)
    requires a <= b
    ensures |a| <= |b|
  {
    assert b == a + (b - a);
  }

  /** Once every seat has leaked, no continuation that keeps the seats within them seats or admits anybody. */
  lemma DeadOnceAllLeaked(s: State, steps: seq<Step>, step: Step, t: nat)
    requires Invariant(s) && CanRun(s, steps) && Enabled(Run(s, steps), step)
    requires Run(s, steps).level.seats <= |Leaked(s.tickets)| && t < |Run(s, steps).tickets|
    ensures var s' := Run(s, steps);
            && Next(s', step).level.executing <= s'.level.executing
            && t < |Next(s', step).tickets| && Next(s', step).tickets[t].admitted == s'.tickets[t].admitted
  {
    RunKeepsInvariant(s, steps);
    LeakedForever(s, steps);
    var s' := Run(s, steps);
    if step.DropPermit? { ReleaseShape(s'); } else { ExecutingAfter(s', step); }
  }
}
