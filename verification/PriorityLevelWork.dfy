/** When a level keeps its seats busy, step by step and over whole runs. */
module PriorityLevelWork {
  import opened Common
  import opened PriorityLevelSpec
  import opened PriorityLevelLaws
  import opened PriorityLevelProgress
  import opened PriorityLevelRuns
  import opened PriorityLevelSafety

  /** What a caller can check before a step to know that no request will wait beside a free seat after it. */
  ghost predicate Conserves(s: State, step: Step) {
    var l := s.level;
    match step
    case Enqueue(seed) => EnqueueVerdict(l, seed).Accepted? ==> l.executing >= l.seats
    case DropPermit =>
      || l.queuedCount == 0
      || l.executing > l.seats
      || (exists i :: 0 <= i < |l.queues| && LiveHead(l.queues[i], Cancelled(s.tickets)))
      || (forall i :: 0 <= i < |l.queues| ==> |l.queues[i]| <= 1)
    case Reconfigure(config) =>
      l.queuedCount == 0 || Clears(l, config.limit) || l.executing >= config.seats
    case _ => true
  }

  /** From a work-conserving state, a step keeps the level work-conserving exactly when `Conserves` says so. */
  lemma NextWorkConserving(s: State, step: Step)
    requires Invariant(s) && Enabled(s, step) && WorkConserving(s.level)
    ensures WorkConserving(Next(s, step).level) <==> Conserves(s, step)
  {
    match step
    case DropPermit => ReleaseWorkConserving(s.level, Indices(s.tickets), Cancelled(s.tickets));
    case RemoveDrop(t) => RemoveKeeps(s.level, Indices(s.tickets), t);
    case Reconfigure(config) =>
      ReconfigureKeeps(s.level, Indices(s.tickets), config, Seeds(s.tickets));
      if Redeals(s.level, config.limit) { RedealLaws(s.level, Indices(s.tickets), config, Seeds(s.tickets)); }
    case _ =>
  }

  /** No request waits beside a free seat at any point of the run. */
  predicate BusyThroughout(s: State, steps: seq<Step>)
    requires CanRun(s, steps)
    decreases |steps|
  {
    WorkConserving(s.level) && (steps == [] || BusyThroughout(Next(s, steps[0]), steps[1..]))
  }

  ghost predicate ConservesThroughout(s: State, steps: seq<Step>)
    requires CanRun(s, steps)
    decreases |steps|
  {
    steps == [] || (Conserves(s, steps[0]) && ConservesThroughout(Next(s, steps[0]), steps[1..]))
  }

  /** A run keeps the seats busy throughout exactly when each of its steps conserves. */
  lemma {:induction false} WorkConservation(s: State, steps: seq<Step>)
    requires Invariant(s) && WorkConserving(s.level) && CanRun(s, steps)
    ensures BusyThroughout(s, steps) <==> ConservesThroughout(s, steps)
    decreases |steps|
  {
    if steps != [] {
      NextWorkConserving(s, steps[0]);
      NextKeepsInvariant(s, steps[0]);
      if Conserves(s, steps[0]) { WorkConservation(Next(s, steps[0]), steps[1..]); }
    }
  }

  // ---------------------------------------------------------------- the well-behaved runs

  /** A whole `acquire`, a whole drop, or one other step, with nothing in between. */
  datatype Block = Acquire(seed: nat) | Cancel(t: nat) | Single(step: Step)

  function StepsOf(s: State, block: Block): seq<Step> {
    match block
    case Acquire(seed) =>
      if s.level.executing < s.level.seats then [TryAcquire(seed)] else [TryAcquire(seed), Enqueue(seed)]
    case Cancel(t) => [FlagDrop(t), RemoveDrop(t)]
    case Single(step) => [step]
  }

  /** The block can run here, and does not raise the seats. */
  predicate Allowed(s: State, block: Block) {
    && CanRun(s, StepsOf(s, block))
    && match block
       case Acquire(_) => true
       case Cancel(_) => true
       case Single(step) =>
         && (step.DropPermit? || step.Notify? || step.Resume? || step.CheckDrop? || step.Reconfigure?)
         && (step.Reconfigure? ==> step.config.seats <= s.level.seats)
  }

  predicate CanRunBlocks(s: State, blocks: seq<Block>)
    decreases |blocks|
  {
    blocks == [] || (Allowed(s, blocks[0]) && CanRunBlocks(Run(s, StepsOf(s, blocks[0])), blocks[1..]))
  }

  function StepsOfAll(s: State, blocks: seq<Block>): seq<Step>
    requires CanRunBlocks(s, blocks)
    decreases |blocks|
  {
    if blocks == [] then [] else
      StepsOf(s, blocks[0]) + StepsOfAll(Run(s, StepsOf(s, blocks[0])), blocks[1..])
  }

  /** No cancelled request is still queued. */
  ghost predicate NoneCancelled(s: State) {
    forall t: nat :: Queued(s.level.queues, t) ==> t < |s.tickets| && !s.tickets[t].cancelled
  }

  lemma EnqueueKeepsNoneCancelled(s: State, seed: nat, t: nat)
    requires Invariant(s) && NoneCancelled(s) && Enabled(s, Enqueue(seed))
    requires Queued(Next(s, Enqueue(seed)).level.queues, t)
    ensures var s' := Next(s, Enqueue(seed)); t < |s'.tickets| && !s'.tickets[t].cancelled
  {
    if t != |s.tickets| {
      var queues := Next(s, Enqueue(seed)).level.queues;
      var i :| 0 <= i < |queues| && t in queues[i];
      assert t in s.level.queues[i];
      assert Queued(s.level.queues, t);
    }
  }

  lemma SingleKeepsNoneCancelled(s: State, step: Step)
    requires Invariant(s) && NoneCancelled(s) && Enabled(s, step) && !step.FlagDrop?
    ensures NoneCancelled(Next(s, step))
  {
    match step
    case Enqueue(seed) =>
      forall t: nat | Queued(Next(s, step).level.queues, t)
        ensures t < |Next(s, step).tickets| && !Next(s, step).tickets[t].cancelled
      {
        EnqueueKeepsNoneCancelled(s, seed, t);
      }
    case DropPermit => ReleaseKeeps(s.level, Indices(s.tickets), Cancelled(s.tickets));
    case RemoveDrop(t) => RemoveKeeps(s.level, Indices(s.tickets), t);
    case Reconfigure(config) => ReconfigureKeeps(s.level, Indices(s.tickets), config, Seeds(s.tickets));
    case _ =>
  }

  lemma SingleConserves(s: State, step: Step)
    requires Invariant(s) && NoneCancelled(s) && WorkConserving(s.level) && Enabled(s, step)
    requires step.Enqueue? ==> s.level.executing >= s.level.seats
    requires step.Reconfigure? ==> step.config.seats <= s.level.seats
    ensures WorkConserving(Next(s, step).level)
  {
    if step.DropPermit? {
      ReleaseWorkConservingWithoutCancelled(s.level, Indices(s.tickets), Cancelled(s.tickets));
    } else {
      NextWorkConserving(s, step);
    }
  }

  lemma RunOne(s: State, step: Step)
    ensures CanRun(s, [step]) <==> Enabled(s, step)
    ensures Enabled(s, step) ==> Run(s, [step]) == Next(s, step)
  {
    if Enabled(s, step) {
      assert [step][1..] == [];
      assert CanRun(Next(s, step), []);
    }
  }

  lemma RunTwo(s: State, first: Step, second: Step)
    requires CanRun(s, [first, second])
    ensures Enabled(s, first) && Enabled(Next(s, first), second)
    ensures Run(s, [first, second]) == Next(Next(s, first), second)
  {
    assert [first, second][1..] == [second];
    RunOne(Next(s, first), second);
  }

  lemma CancelKeepsNoneCancelled(s: State, t: nat)
    requires Invariant(s) && NoneCancelled(s) && Enabled(s, FlagDrop(t))
    requires Enabled(Next(s, FlagDrop(t)), RemoveDrop(t)) && Invariant(Next(s, FlagDrop(t)))
    ensures NoneCancelled(Next(Next(s, FlagDrop(t)), RemoveDrop(t)))
  {
    var s1 := Next(s, FlagDrop(t));
    RemoveKeeps(s1.level, Indices(s1.tickets), t);
  }

  /** Between the two halves of a drop the request is flagged but still queued, and no seat is freed. */
  lemma CancelKeeps(s: State, t: nat)
    requires Invariant(s) && NoneCancelled(s) && WorkConserving(s.level) && CanRun(s, [FlagDrop(t), RemoveDrop(t)])
    ensures var s1 := Next(s, FlagDrop(t));
            && Enabled(s1, RemoveDrop(t)) && WorkConserving(s1.level)
            && WorkConserving(Next(s1, RemoveDrop(t)).level) && NoneCancelled(Next(s1, RemoveDrop(t)))
            && Invariant(Next(s1, RemoveDrop(t)))
  {
    RunTwo(s, FlagDrop(t), RemoveDrop(t));
    var s1 := Next(s, FlagDrop(t));
    NextKeepsInvariant(s, FlagDrop(t));
    NextKeepsInvariant(s1, RemoveDrop(t));
    NextWorkConserving(s1, RemoveDrop(t));
    CancelKeepsNoneCancelled(s, t);
  }

  lemma AcquireKeeps(s: State, seed: nat)
    requires Invariant(s) && NoneCancelled(s) && WorkConserving(s.level) && Allowed(s, Acquire(seed))
    ensures var steps := StepsOf(s, Acquire(seed));
            && BusyThroughout(s, steps) && Invariant(Run(s, steps)) && NoneCancelled(Run(s, steps))
  {
    var s1 := Next(s, TryAcquire(seed));
    NextKeepsInvariant(s, TryAcquire(seed));
    SingleConserves(s, TryAcquire(seed));
    if s.level.executing < s.level.seats {
      RunOne(s, TryAcquire(seed));
      assert [TryAcquire(seed)][1..] == [];
      assert BusyThroughout(s1, []);
    } else {
      RunTwo(s, TryAcquire(seed), Enqueue(seed));
      var s2 := Next(s1, Enqueue(seed));
      NextKeepsInvariant(s1, Enqueue(seed));
      SingleKeepsNoneCancelled(s1, Enqueue(seed));
      SingleConserves(s1, Enqueue(seed));
      BusyTwo(s, TryAcquire(seed), Enqueue(seed));
    }
  }

  lemma BusyTwo(s: State, first: Step, second: Step)
    requires CanRun(s, [first, second]) && Enabled(s, first) && Enabled(Next(s, first), second)
    requires WorkConserving(s.level) && WorkConserving(Next(s, first).level)
    requires WorkConserving(Next(Next(s, first), second).level)
    ensures BusyThroughout(s, [first, second])
  {
    assert [first, second][1..] == [second];
    assert [second][1..] == [];
    assert BusyThroughout(Next(Next(s, first), second), []);
    assert BusyThroughout(Next(s, first), [second]);
  }

  lemma BlockKeeps(s: State, block: Block)
    requires Invariant(s) && NoneCancelled(s) && WorkConserving(s.level) && Allowed(s, block)
    ensures var steps := StepsOf(s, block);
            BusyThroughout(s, steps) && Invariant(Run(s, steps)) && NoneCancelled(Run(s, steps))
    ensures WorkConserving(Run(s, StepsOf(s, block)).level)
  {
    var steps := StepsOf(s, block);
    match block {
      case Acquire(seed) => AcquireKeeps(s, seed);
      case Cancel(t) =>
        CancelKeeps(s, t);
        RunTwo(s, FlagDrop(t), RemoveDrop(t));
        BusyTwo(s, FlagDrop(t), RemoveDrop(t));
      case Single(step) =>
        RunOne(s, step);
        NextKeepsInvariant(s, step);
        SingleKeepsNoneCancelled(s, step);
        SingleConserves(s, step);
        assert [step][1..] == [];
        assert BusyThroughout(Next(s, step), []);
    }
    BusyAtEnd(s, steps);
  }

  lemma {:induction false} BusyAtEnd(s: State, steps: seq<Step>)
    requires CanRun(s, steps) && BusyThroughout(s, steps)
    ensures WorkConserving(Run(s, steps).level)
    decreases |steps|
  {
    if steps != [] { BusyAtEnd(Next(s, steps[0]), steps[1..]); }
  }

  lemma {:induction false} RunSplit(s: State, first: seq<Step>, rest: seq<Step>)
    requires CanRun(s, first) && CanRun(Run(s, first), rest)
    ensures CanRun(s, first + rest) && Run(s, first + rest) == Run(Run(s, first), rest)
    decreases |first|
  {
    var all := first + rest;
    if first == [] {
      assert all == rest;
    } else {
      var s1 := Next(s, first[0]);
      assert all[0] == first[0] && all[1..] == first[1..] + rest;
      RunSplit(s1, first[1..], rest);
      assert CanRun(s1, all[1..]) && Run(s, first) == Run(s1, first[1..]);
      assert Run(s, all) == Run(s1, all[1..]);
    }
  }

  lemma {:induction false} BusySplit(s: State, first: seq<Step>, rest: seq<Step>)
    requires CanRun(s, first) && CanRun(Run(s, first), rest) && CanRun(s, first + rest)
    requires BusyThroughout(s, first) && BusyThroughout(Run(s, first), rest)
    ensures BusyThroughout(s, first + rest)
    decreases |first|
  {
    if first == [] {
      assert first + rest == rest;
    } else {
      assert (first + rest)[0] == first[0] && (first + rest)[1..] == first[1..] + rest;
      BusySplit(Next(s, first[0]), first[1..], rest);
    }
  }

  lemma {:induction false} BlocksKeepBusy(s: State, blocks: seq<Block>)
    requires Invariant(s) && NoneCancelled(s) && WorkConserving(s.level) && CanRunBlocks(s, blocks)
    ensures CanRun(s, StepsOfAll(s, blocks)) && BusyThroughout(s, StepsOfAll(s, blocks))
    decreases |blocks|
  {
    if blocks != [] {
      var steps := StepsOf(s, blocks[0]);
      BlockKeeps(s, blocks[0]);
      BlocksKeepBusy(Run(s, steps), blocks[1..]);
      RunSplit(s, steps, StepsOfAll(Run(s, steps), blocks[1..]));
      BusySplit(s, steps, StepsOfAll(Run(s, steps), blocks[1..]));
    }
  }

  /**
     In every run in which the two halves of `acquire` are adjacent, the two halves of a drop are
     adjacent and the seats are never raised, no request ever waits beside a free seat.
   */
  lemma WellBehavedRunsAreBusy(config: Config, blocks: seq<Block>)
    requires CanRunBlocks(Start(config), blocks)
    ensures var steps := StepsOfAll(Start(config), blocks);
            CanRun(Start(config), steps) && BusyThroughout(Start(config), steps)
  {
    StartInvariant(config);
    assert Start(config).level.queues == Initial<nat>(config).queues;
    BlocksKeepBusy(Start(config), blocks);
  }
}
