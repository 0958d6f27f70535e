/** Service over whole runs: how soon a queued request is taken, and that taking a live one means admitting it. */
module PriorityLevelService {
  import opened Common
  import opened PriorityLevelSpec
  import opened PriorityLevelLaws
  import opened PriorityLevelProgress
  import opened PriorityLevelRuns
  import opened PriorityLevelSafety

  // ---------------------------------------------------------------- no starvation

  /** How often a step calls the wakeup pop. */
  function PopsAt(s: State, step: Step): nat {
    if step.DropPermit? then Release(s.level, Cancelled(s.tickets)).pops else 0
  }

  function PopsIn(s: State, steps: seq<Step>): nat
    requires CanRun(s, steps)
    decreases |steps|
  {
    if steps == [] then 0 else PopsAt(s, steps[0]) + PopsIn(Next(s, steps[0]), steps[1..])
  }

  lemma TurnsMonotone(l: Level<nat>, l': Level<nat>, i: nat, p: nat, p': nat)
    requires l.cursor < |l.queues| && i < |l.queues| && |l'.queues| == |l.queues| && l'.cursor == l.cursor && p' <= p
    ensures Turns(l', i, p') <= Turns(l, i, p)
  {
    assert p * |l.queues| == p' * |l.queues| + (p - p') * |l.queues|;
    assert (p - p') * |l.queues| >= 0;
  }

  lemma WithoutPlace(q: seq<nat>, u: nat, p: nat, p': nat)
    requires NoDuplicates(q) && p < |q| && p' < |Without(q, u)| && Without(q, u)[p'] == q[p]
    ensures p' <= p
  {
    if u in q {
      var x := IndexOf(q, u);
      assert Without(q, u)[p'] == q[if p' < x then p' else p' + 1];
    }
  }

  /** Outside a release a request never moves back in its queue, and the cursor stands still. */
  lemma PlaceNeverGrows(s: State, step: Step, i: nat, p: nat, p': nat)
    requires Invariant(s) && Enabled(s, step) && LeavesQueues(s, step) && !step.DropPermit?
    requires i < |s.level.queues| && p < |s.level.queues[i]|
    requires var qs := Next(s, step).level.queues;
             i < |qs| && p' < |qs[i]| && qs[i][p'] == s.level.queues[i][p]
    ensures |Next(s, step).level.queues| == |s.level.queues| && Next(s, step).level.cursor == s.level.cursor
    ensures p' <= p
  {
    var t := s.level.queues[i][p];
    assert NoDuplicates(s.level.queues[i]);
    match step
    case Enqueue(seed) =>
      assert t in s.level.queues[i];
      assert Queued(s.level.queues, t);
    case RemoveDrop(u) =>
      if s.tickets[u].index == i && u in s.level.queues[i] {
        WithoutPlace(s.level.queues[i], u, p, p');
      }
    case _ =>
  }

  /** One step brings a request that stays queued closer by at least the pops it made. */
  lemma NextCountsDown(s: State, step: Step, i: nat, p: nat, p': nat)
    requires Invariant(s) && Enabled(s, step) && LeavesQueues(s, step)
    requires i < |s.level.queues| && p < |s.level.queues[i]|
    requires var qs := Next(s, step).level.queues;
             i < |qs| && p' < |qs[i]| && qs[i][p'] == s.level.queues[i][p]
    ensures |Next(s, step).level.queues| == |s.level.queues|
    ensures s.level.cursor < |s.level.queues| && Next(s, step).level.cursor < |s.level.queues|
    ensures Turns(Next(s, step).level, i, p') + PopsAt(s, step) <= Turns(s.level, i, p)
  {
    if step.DropPermit? {
      assert WellFormed(Freed(s.level), Indices(s.tickets));
      RefillCountsDown(Freed(s.level), Indices(s.tickets), Cancelled(s.tickets), i, p, p');
    } else {
      PlaceNeverGrows(s, step, i, p, p');
      TurnsMonotone(s.level, Next(s, step).level, i, p, p');
    }
  }

  lemma {:induction false} RunNeverRequeues(s: State, steps: seq<Step>, t: nat)
    requires Invariant(s) && CanRun(s, steps) && t < |s.tickets| && Queued(Run(s, steps).level.queues, t)
    ensures Queued(s.level.queues, t)
    decreases |steps|
  {
    if steps != [] {
      NextKeepsInvariant(s, steps[0]);
      RunNeverRequeues(Next(s, steps[0]), steps[1..], t);
      NextNeverRequeues(s, steps[0], t);
    }
  }

  /**
     No starvation: with n queues, a request at place p of queue i that is still queued after a
     run has seen at most p * n + ((i - cursor) mod n) pops, whatever the other callers did, as
     long as no reconfiguration re-dealt or cleared the queues.
   */
  lemma {:induction false} NoStarvation(s: State, steps: seq<Step>, i: nat, p: nat)
    requires Invariant(s) && CanRun(s, steps) && Undisturbed(s, steps)
    requires i < |s.level.queues| && p < |s.level.queues[i]|
    requires Queued(Run(s, steps).level.queues, s.level.queues[i][p])
    ensures s.level.cursor < |s.level.queues|
    ensures PopsIn(s, steps) <= Turns(s.level, i, p)
    decreases |steps|
  {
    if steps != [] {
      var s', t := Next(s, steps[0]), s.level.queues[i][p];
      assert t in s.level.queues[i];
      assert Queued(s.level.queues, t);
      assert Indices(s.tickets)[t] == i;
      NextKeepsInvariant(s, steps[0]);
      RunNeverRequeues(s', steps[1..], t);
      var i', p' := Place(s'.level.queues, t);
      IndexStays(s, steps[0], t);
      assert Indices(s'.tickets)[t] == i';
      NextCountsDown(s, steps[0], i, p, p');
      NoStarvation(s', steps[1..], i, p');
    }
  }

  lemma IndexStays(s: State, step: Step, t: nat)
    requires Invariant(s) && Enabled(s, step) && LeavesQueues(s, step) && t < |s.tickets|
    ensures t < |Next(s, step).tickets| && Next(s, step).tickets[t].index == s.tickets[t].index
  {
  }

  /** An undisturbed step takes a live request out of the queues only by admitting it. */
  lemma LeavesOnlyAdmitted(s: State, step: Step, t: nat)
    requires Invariant(s) && Enabled(s, step) && LeavesQueues(s, step)
    requires Queued(s.level.queues, t) && !s.tickets[t].cancelled
    ensures Queued(Next(s, step).level.queues, t) || (step == DropPermit && Next(s, step).tickets[t].admitted)
  {
    match step
    case DropPermit => ReleaseKeeps(s.level, Indices(s.tickets), Cancelled(s.tickets));
    case RemoveDrop(u) =>
      RemoveKeeps(s.level, Indices(s.tickets), u);
      assert TicketOk(s.tickets[u]);
    case Enqueue(seed) =>
      var i :| 0 <= i < |s.level.queues| && t in s.level.queues[i];
      assert t in Next(s, step).level.queues[i];
    case _ =>
  }

  lemma {:induction false} AdmittedStays(s: State, steps: seq<Step>, t: nat)
    requires CanRun(s, steps) && t < |s.tickets| && s.tickets[t].admitted
    ensures t < |Run(s, steps).tickets| && Run(s, steps).tickets[t].admitted
    decreases |steps|
  {
    if steps != [] { AdmittedStays(Next(s, steps[0]), steps[1..], t); }
  }

  lemma FlagStays(s: State, step: Step, t: nat)
    requires Enabled(s, step) && t < |s.tickets| && step != FlagDrop(t)
    ensures t < |Next(s, step).tickets| && Next(s, step).tickets[t].cancelled == s.tickets[t].cancelled
  {
  }

  lemma {:induction false} QueuedOrAdmitted(s: State, steps: seq<Step>, t: nat)
    requires Invariant(s) && CanRun(s, steps) && Undisturbed(s, steps) && FlagDrop(t) !in steps
    requires Queued(s.level.queues, t) && !s.tickets[t].cancelled
    ensures t < |Run(s, steps).tickets|
    ensures Queued(Run(s, steps).level.queues, t) || Run(s, steps).tickets[t].admitted
    decreases |steps|
  {
    if steps != [] {
      var s' := Next(s, steps[0]);
      NextKeepsInvariant(s, steps[0]);
      LeavesOnlyAdmitted(s, steps[0], t);
      FlagStays(s, steps[0], t);
      if Queued(s'.level.queues, t) {
        QueuedOrAdmitted(s', steps[1..], t);
      } else {
        AdmittedStays(s', steps[1..], t);
      }
    }
  }

  /**
     Bounded waiting: a live request at place p of queue i whose caller does not give up is
     admitted by the time the pop has been called p * n + ((i - cursor) mod n) + 1 times.
   */
  lemma ServedInTime(s: State, steps: seq<Step>, i: nat, p: nat)
    requires Invariant(s) && CanRun(s, steps) && Undisturbed(s, steps)
    requires i < |s.level.queues| && p < |s.level.queues[i]|
    requires var t := s.level.queues[i][p]; t < |s.tickets| && !s.tickets[t].cancelled && FlagDrop(t) !in steps
    requires s.level.cursor < |s.level.queues| && PopsIn(s, steps) >= Turns(s.level, i, p) + 1
    ensures s.level.queues[i][p] < |Run(s, steps).tickets| && Run(s, steps).tickets[s.level.queues[i][p]].admitted
  {
    var t := s.level.queues[i][p];
    assert t in s.level.queues[i];
    QueuedOrAdmitted(s, steps, t);
    if Queued(Run(s, steps).level.queues, t) { NoStarvation(s, steps, i, p); }
  }

  /** A release calls the pop exactly when it finds the executing count within the seats. */
  lemma ReleasePops(s: State)
    requires Invariant(s) && s.permits > 0
    ensures PopsAt(s, DropPermit) >= 1 <==> s.level.executing <= s.level.seats
  {
    assert LedgerOk(s);
  }

  /** How many releases of the run find the executing count within the seats. */
  function ReleasesIn(s: State, steps: seq<Step>): nat
    requires CanRun(s, steps)
    decreases |steps|
  {
    if steps == [] then 0
    else (if steps[0].DropPermit? && s.level.executing <= s.level.seats then 1 else 0)
         + ReleasesIn(Next(s, steps[0]), steps[1..])
  }

  lemma {:induction false} ReleasesPop(s: State, steps: seq<Step>)
    requires Invariant(s) && CanRun(s, steps)
    ensures ReleasesIn(s, steps) <= PopsIn(s, steps)
    decreases |steps|
  {
    if steps != [] {
      if steps[0].DropPermit? { ReleasePops(s); }
      NextKeepsInvariant(s, steps[0]);
      ReleasesPop(Next(s, steps[0]), steps[1..]);
    }
  }

  /** The same bound in releases: those that find the executing count within the seats. */
  lemma ServedInReleases(s: State, steps: seq<Step>, i: nat, p: nat)
    requires Invariant(s) && CanRun(s, steps) && Undisturbed(s, steps)
    requires i < |s.level.queues| && p < |s.level.queues[i]|
    requires var t := s.level.queues[i][p]; t < |s.tickets| && !s.tickets[t].cancelled && FlagDrop(t) !in steps
    requires s.level.cursor < |s.level.queues| && ReleasesIn(s, steps) >= Turns(s.level, i, p) + 1
    ensures s.level.queues[i][p] < |Run(s, steps).tickets| && Run(s, steps).tickets[s.level.queues[i][p]].admitted
  {
    ReleasesPop(s, steps);
    ServedInTime(s, steps, i, p);
  }

  // ---------------------------------------------------------------- when waiting never ends

  /** Nobody holds a seat and nobody is about to. */
  predicate Stalled(s: State) {
    s.permits == 0 && Promised(s.tickets) == {}
  }

  lemma WokenArePromised(s: State)
    requires Invariant(s)
    ensures forall t: nat :: Enabled(s, Resume(t)) ==> t in Promised(s.tickets)
  {
    forall t: nat | Enabled(s, Resume(t)) ensures t in Promised(s.tickets) { assert TicketOk(s.tickets[t]); }
  }

  /** A stalled level stays stalled, and admits nobody, at every step but a new caller's. */
  lemma NextStalled(s: State, step: Step)
    requires Invariant(s) && Enabled(s, step) && Stalled(s) && !step.TryAcquire?
    ensures Stalled(Next(s, step)) && !step.DropPermit? && !step.Resume?
  {
    WokenArePromised(s);
  }

  lemma StalledKeepsQueued(s: State, step: Step, t: nat)
    requires Invariant(s) && Enabled(s, step) && Queued(s.level.queues, t) && !s.tickets[t].cancelled
    requires !step.DropPermit? && (step.Reconfigure? ==> step.config.limit.Queue?)
    ensures Queued(Next(s, step).level.queues, t)
  {
    match step
    case Enqueue(seed) => EnqueueKeepsQueued(s, seed, t);
    case RemoveDrop(u) =>
      RemoveKeeps(s.level, Indices(s.tickets), u);
      assert TicketOk(s.tickets[u]);
    case Reconfigure(config) =>
      ReconfigureKeeps(s.level, Indices(s.tickets), config, Seeds(s.tickets));
      assert s.level.limit.Queue?;
    case _ =>
  }

  /**
     Pops come only from permits: once no permit is live and no waiter is admitted, and until a new
     caller comes, every queued request whose caller does not give up stays queued, through any
     reconfiguration that leaves queueing on.
   */
  lemma {:induction false} StalledForever(s: State, steps: seq<Step>, t: nat)
    requires Invariant(s) && CanRun(s, steps) && Stalled(s)
    requires Queued(s.level.queues, t) && !s.tickets[t].cancelled && FlagDrop(t) !in steps
    requires forall k :: 0 <= k < |steps| ==>
               !steps[k].TryAcquire? && (steps[k].Reconfigure? ==> steps[k].config.limit.Queue?)
    ensures Stalled(Run(s, steps)) && Queued(Run(s, steps).level.queues, t)
    decreases |steps|
  {
    if steps != [] {
      NextStalled(s, steps[0]);
      StalledKeepsQueued(s, steps[0], t);
      FlagStays(s, steps[0], t);
      NextKeepsInvariant(s, steps[0]);
      StalledForever(Next(s, steps[0]), steps[1..], t);
    }
  }

  /** A level is stalled exactly when every seat it counts as executing has leaked. */
  lemma StalledExactly(s: State)
    requires Invariant(s)
    ensures Stalled(s) <==> s.level.executing == |Leaked(s.tickets)|
  {
    assert LedgerOk(s);
    assert |Promised(s.tickets)| == 0 <==> Promised(s.tickets) == {};
  }

  /** It takes an idle or a leaked seat to stall a level that has seats and somebody waiting. */
  lemma StallNeedsLostSeat(s: State)
    requires Invariant(s) && s.level.queuedCount > 0 && s.level.seats > 0
    requires WorkConserving(s.level) && Leaked(s.tickets) == {}
    ensures !Stalled(s)
  {
    assert LedgerOk(s);
  }
}
