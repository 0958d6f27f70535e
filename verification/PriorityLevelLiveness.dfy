/** Exactly when the callers that are already here can still get a queued request served. */
module PriorityLevelLiveness {
  import opened Common
  import opened PriorityLevelSpec
  import opened PriorityLevelLaws
  import opened PriorityLevelProgress
  import opened PriorityLevelRuns
  import opened PriorityLevelSafety
  import opened PriorityLevelService

  /** A step by the callers that are already here, other than the caller of `t` giving up. */
  predicate Internal(step: Step, t: nat) {
    !step.TryAcquire? && !step.Reconfigure? && step != CheckDrop(t) && step != FlagDrop(t)
  }

  predicate InternalRun(steps: seq<Step>, t: nat) {
    forall k :: 0 <= k < |steps| ==> Internal(steps[k], t)
  }

  /** The waiter of `t` is in a queue. */
  ghost predicate Awaiting(s: State, t: nat) {
    Invariant(s) && Queued(s.level.queues, t) && s.tickets[t].phase == Waiting
  }

  /** Somebody holds or is promised a seat, and not all seats have leaked. */
  predicate Serviceable(s: State) {
    !Stalled(s) && |Leaked(s.tickets)| < s.level.seats
  }

  // ---------------------------------------------------------------- otherwise it is never served

  lemma NextUnserviceable(s: State, step: Step, t: nat)
    requires Invariant(s) && Enabled(s, step) && Internal(step, t) && !Serviceable(s) && t < |s.tickets|
    ensures !Serviceable(Next(s, step)) && t < |Next(s, step).tickets|
    ensures Next(s, step).tickets[t].admitted == s.tickets[t].admitted
  {
    SeatsAfter(s, step);
    NextKeepsLeaked(s, step);
    SubsetCardinality(Leaked(s.tickets), Leaked(Next(s, step).tickets));
    if Stalled(s) {
      NextStalled(s, step);
    } else if step.DropPermit? {
      assert LedgerOk(s);
      ReleaseShape(s);
    }
  }

  lemma {:induction false} NeverServed(s: State, steps: seq<Step>, t: nat)
    requires Invariant(s) && CanRun(s, steps) && InternalRun(steps, t) && !Serviceable(s)
    requires t < |s.tickets| && !s.tickets[t].admitted
    ensures t < |Run(s, steps).tickets| && !Run(s, steps).tickets[t].admitted
    decreases |steps|
  {
    if steps != [] {
      NextUnserviceable(s, steps[0], t);
      NextKeepsInvariant(s, steps[0]);
      NeverServed(Next(s, steps[0]), steps[1..], t);
    }
  }

  // ---------------------------------------------------------------- what is left to do

  /** How many steps a ticket has yet to take on its own: to finish its drop, or to take its seat. */
  function Weight(k: Ticket): nat {
    match k.phase
    case Waiting => if k.admitted then (if k.notified then 1 else 2) else 0
    case Checked => 2
    case Flagged => 1
    case _ => 0
  }

  function Weights(ts: seq<Ticket>): nat {
    if ts == [] then 0 else Weights(ts[..|ts| - 1]) + Weight(ts[|ts| - 1])
  }

  lemma {:induction false} WeightsUpdate(ts: seq<Ticket>, u: nat, k: Ticket)
    requires u < |ts|
    ensures Weights(ts[u := k]) == Weights(ts) - Weight(ts[u]) + Weight(k)
  {
    var last := |ts| - 1;
    if u == last {
      assert ts[u := k][..last] == ts[..last];
    } else {
      WeightsUpdate(ts[..last], u, k);
      assert ts[u := k][..last] == ts[..last][u := k];
    }
  }

  /** How many scan turns pass before the one that takes `t`. */
  function Distance(l: Level<nat>, t: nat, i: nat): nat
    requires l.cursor < |l.queues| && i < |l.queues| && t in l.queues[i]
  {
    Turns(l, i, IndexOf(l.queues[i], t))
  }

  lemma Placed(s: State, t: nat)
    requires Invariant(s) && Queued(s.level.queues, t)
    ensures t < |s.tickets| && s.level.cursor < |s.level.queues| && s.tickets[t].index < |s.level.queues|
    ensures t in s.level.queues[s.tickets[t].index]
  {
    var i, p := Place(s.level.queues, t);
    assert Indices(s.tickets)[t] == i;
  }

  /** Turns to go, then seats to free, then steps for the others to take. */
  ghost predicate Nearer(s': State, s: State, t: nat)
    requires Awaiting(s', t) && Awaiting(s, t)
  {
    Placed(s', t);
    Placed(s, t);
    var d', d := Distance(s'.level, t, s'.tickets[t].index), Distance(s.level, t, s.tickets[t].index);
    || d' < d
    || (d' == d && s'.level.executing < s.level.executing)
    || (d' == d && s'.level.executing == s.level.executing && Weights(s'.tickets) < Weights(s.tickets))
  }

  lemma DistanceNeverGrows(s: State, step: Step, t: nat)
    requires Awaiting(s, t) && Enabled(s, step) && LeavesQueues(s, step) && Awaiting(Next(s, step), t)
    ensures (Placed(s, t); Placed(Next(s, step), t);
             var i := s.tickets[t].index;
             Next(s, step).tickets[t].index == i
             && Distance(Next(s, step).level, t, i) + PopsAt(s, step) <= Distance(s.level, t, i))
  {
    var s', i := Next(s, step), s.tickets[t].index;
    Placed(s, t);
    Placed(s', t);
    IndexStays(s, step, t);
    NextCountsDown(s, step, i, IndexOf(s.level.queues[i], t), IndexOf(s'.level.queues[i], t));
  }

  // ---------------------------------------------------------------- the next step towards it

  /** `step` is one that brings `t` nearer to its seat, or seats it. */
  ghost predicate Helps(s: State, step: Step, t: nat)
    requires Awaiting(s, t)
  {
    && Enabled(s, step) && Internal(step, t)
    && var s' := Next(s, step);
       && t < |s'.tickets|
       && (s'.tickets[t].admitted || (Awaiting(s', t) && Serviceable(s') && Nearer(s', s, t)))
  }

  /** A step of one other ticket that gets it nearer to its end helps. */
  lemma TicketStepHelps(s: State, step: Step, u: nat, k: Ticket, t: nat)
    requires Awaiting(s, t) && Serviceable(s) && Enabled(s, step) && Internal(step, t)
    requires step == RemoveDrop(u) || step == FlagDrop(u) || step == Notify(u) || step == Resume(u)
    requires u < |s.tickets| && u != t && Next(s, step).tickets == s.tickets[u := k] && Weight(k) < Weight(s.tickets[u])
    requires Leaked(Next(s, step).tickets) == Leaked(s.tickets) && !Stalled(Next(s, step))
    ensures Helps(s, step, t)
  {
    var s' := Next(s, step);
    NextKeepsInvariant(s, step);
    if step.RemoveDrop? { RemoveKeeps(s.level, Indices(s.tickets), u); }
    assert Awaiting(s', t);
    SeatsAfter(s, step);
    ExecutingAfter(s, step);
    DistanceNeverGrows(s, step, t);
    WeightsUpdate(s.tickets, u, k);
  }

  lemma FinishRemove(s: State, u: nat, t: nat)
    requires Awaiting(s, t) && Serviceable(s) && u < |s.tickets| && s.tickets[u].phase == Flagged
    ensures Helps(s, RemoveDrop(u), t)
  {
    var k := s.tickets[u].(phase := Dropped);
    assert Leaked(s.tickets[u := k]) == Leaked(s.tickets);
    assert Promised(s.tickets[u := k]) == Promised(s.tickets);
    TicketStepHelps(s, RemoveDrop(u), u, k, t);
  }

  lemma FinishFlag(s: State, u: nat, t: nat)
    requires Awaiting(s, t) && Serviceable(s) && u < |s.tickets| && s.tickets[u].phase == Checked
    ensures Helps(s, FlagDrop(u), t)
  {
    assert TicketOk(s.tickets[u]);
    var k := s.tickets[u].(cancelled := true, phase := Flagged);
    assert Leaked(s.tickets[u := k]) == Leaked(s.tickets);
    assert Promised(s.tickets[u := k]) == Promised(s.tickets);
    TicketStepHelps(s, FlagDrop(u), u, k, t);
  }

  lemma FinishNotify(s: State, u: nat, t: nat)
    requires Awaiting(s, t) && Serviceable(s) && u in Promised(s.tickets) && !s.tickets[u].notified
    ensures Helps(s, Notify(u), t)
  {
    var k := s.tickets[u].(notified := true);
    assert Leaked(s.tickets[u := k]) == Leaked(s.tickets);
    assert Promised(s.tickets[u := k]) == Promised(s.tickets);
    TicketStepHelps(s, Notify(u), u, k, t);
  }

  lemma FinishResume(s: State, u: nat, t: nat)
    requires Awaiting(s, t) && Serviceable(s) && u in Promised(s.tickets) && s.tickets[u].notified
    ensures Helps(s, Resume(u), t)
  {
    var k := s.tickets[u].(phase := Resumed);
    assert Leaked(s.tickets[u := k]) == Leaked(s.tickets);
    TicketStepHelps(s, Resume(u), u, k, t);
  }

  /** Every drop is finished and every admitted waiter has taken its seat. */
  ghost predicate Settled(s: State) {
    Promised(s.tickets) == {} && forall u: nat :: u < |s.tickets| ==> s.tickets[u].phase !in {Checked, Flagged}
  }

  lemma SettledReleaseLeaksNothing(s: State)
    requires Invariant(s) && Settled(s) && s.permits > 0
    ensures Leaked(Next(s, DropPermit).tickets) == Leaked(s.tickets)
  {
    NextLeaksNoSeat(s, DropPermit);
  }

  /** Over its seats, a release gives one back and nothing else changes. */
  lemma ReleaseOverSeats(s: State, t: nat)
    requires Awaiting(s, t) && Serviceable(s) && Settled(s) && s.level.executing > s.level.seats
    ensures Helps(s, DropPermit, t)
  {
    var s' := Next(s, DropPermit);
    SettledReleaseLeaksNothing(s);
    NextKeepsInvariant(s, DropPermit);
    ReleaseShape(s);
    assert s'.level == Freed(s.level);
    assert s'.tickets == s.tickets;
    assert LedgerOk(s');
    Placed(s, t);
  }

  /** Within its seats, a release of a settled level admits somebody. */
  lemma SettledReleaseAdmits(s: State, t: nat)
    requires Awaiting(s, t) && Settled(s) && s.permits > 0 && s.level.executing <= s.level.seats
    ensures Release(s.level, Cancelled(s.tickets)).admitted != []
  {
    var l, cancelled := Freed(s.level), Cancelled(s.tickets);
    assert LedgerOk(s);
    assert WellFormed(l, Indices(s.tickets));
    Placed(s, t);
    var q := l.queues[s.tickets[t].index];
    assert q[0] in q;
    assert Queued(s.level.queues, q[0]);
    assert TicketOk(s.tickets[q[0]]);
    assert LiveHead(q, cancelled);
    PopFindsNone(l, Indices(s.tickets), cancelled);
  }

  lemma AdmittedArePromised(s: State, u: nat)
    requires Invariant(s) && Settled(s) && s.permits > 0 && u in Release(s.level, Cancelled(s.tickets)).admitted
    ensures u in Promised(Next(s, DropPermit).tickets)
  {
    ReleaseKeeps(s.level, Indices(s.tickets), Cancelled(s.tickets));
    assert Queued(s.level.queues, u);
  }

  lemma ReleaseStaysServiceable(s: State, t: nat)
    requires Awaiting(s, t) && Serviceable(s) && Settled(s) && s.level.executing <= s.level.seats
    ensures Serviceable(Next(s, DropPermit))
  {
    SettledReleaseLeaksNothing(s);
    SeatsAfter(s, DropPermit);
    SettledReleaseAdmits(s, t);
    AdmittedArePromised(s, Release(s.level, Cancelled(s.tickets)).admitted[0]);
  }

  lemma StillAwaiting(s: State, t: nat)
    requires Awaiting(s, t) && s.permits > 0
    ensures t < |Next(s, DropPermit).tickets|
    ensures Awaiting(Next(s, DropPermit), t) || Next(s, DropPermit).tickets[t].admitted
  {
    assert TicketOk(s.tickets[t]);
    NextKeepsInvariant(s, DropPermit);
    LeavesOnlyAdmitted(s, DropPermit, t);
  }

  lemma ReleaseWithinSeats(s: State, t: nat)
    requires Awaiting(s, t) && Serviceable(s) && Settled(s) && s.level.executing <= s.level.seats
    ensures Helps(s, DropPermit, t)
  {
    StillAwaiting(s, t);
    if !Next(s, DropPermit).tickets[t].admitted {
      ReleaseStaysServiceable(s, t);
      DistanceNeverGrows(s, DropPermit, t);
      ReleasePops(s);
    }
  }

  lemma HelpfulStep(s: State, t: nat) returns (step: Step)
    requires Awaiting(s, t) && Serviceable(s)
    ensures Helps(s, step, t)
  {
    if u: nat :| u < |s.tickets| && s.tickets[u].phase == Flagged {
      FinishRemove(s, u, t);
      step := RemoveDrop(u);
    } else if u: nat :| u < |s.tickets| && s.tickets[u].phase == Checked {
      FinishFlag(s, u, t);
      step := FlagDrop(u);
    } else if u :| u in Promised(s.tickets) {
      if s.tickets[u].notified {
        FinishResume(s, u, t);
        step := Resume(u);
      } else {
        FinishNotify(s, u, t);
        step := Notify(u);
      }
    } else {
      step := DropPermit;
      if s.level.executing > s.level.seats { ReleaseOverSeats(s, t); } else { ReleaseWithinSeats(s, t); }
    }
  }

  lemma {:induction false} Serve(s: State, t: nat) returns (steps: seq<Step>)
    requires Awaiting(s, t) && Serviceable(s)
    ensures CanRun(s, steps) && InternalRun(steps, t)
    ensures t < |Run(s, steps).tickets| && Run(s, steps).tickets[t].admitted
    decreases (Placed(s, t); Distance(s.level, t, s.tickets[t].index)), s.level.executing, Weights(s.tickets)
  {
    Placed(s, t);
    var step := HelpfulStep(s, t);
    var s' := Next(s, step);
    if s'.tickets[t].admitted {
      steps := [step];
      assert steps[1..] == [];
      assert CanRun(s', []);
    } else {
      Placed(s', t);
      var rest := Serve(s', t);
      steps := [step] + rest;
      assert steps[1..] == rest;
    }
  }

  // ---------------------------------------------------------------- exactly when

  ghost predicate CanBeServed(s: State, t: nat) {
    exists steps :: CanRun(s, steps) && InternalRun(steps, t)
                    && t < |Run(s, steps).tickets| && Run(s, steps).tickets[t].admitted
  }

  lemma Unserved(s: State, t: nat)
    requires Invariant(s) && Queued(s.level.queues, t) && !Serviceable(s)
    ensures !CanBeServed(s, t)
  {
    forall steps | CanRun(s, steps) && InternalRun(steps, t)
      ensures t < |Run(s, steps).tickets| && !Run(s, steps).tickets[t].admitted
    {
      NeverServed(s, steps, t);
    }
  }

  /**
     The callers that are already here can get a queued request admitted, without its own caller
     giving up, if and only if somebody holds or is promised a seat and not all seats have leaked.
   */
  lemma ServedIffServiceable(s: State, t: nat)
    requires Awaiting(s, t)
    ensures CanBeServed(s, t) <==> Serviceable(s)
  {
    if Serviceable(s) {
      var steps := Serve(s, t);
    } else {
      Unserved(s, t);
    }
  }
}
