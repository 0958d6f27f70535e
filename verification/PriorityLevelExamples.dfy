/** Short runs that do what a level should not: each is the input of an exact condition proved elsewhere. */
module PriorityLevelExamples {
  import opened Common
  import opened PriorityLevelSpec
  import opened PriorityLevelLaws
  import opened PriorityLevelProgress
  import opened PriorityLevelRuns
  import opened PriorityLevelSafety
  import opened PriorityLevelService
  import opened PriorityLevelLiveness
  import opened PriorityLevelWork

  // ---------------------------------------------------------------- runs that leave a seat idle

  const ONE_SEAT := Config(1, Queue(1, 1, 2))

  /** The level of `ONE_SEAT` with these requests in its one queue. */
  function OneQueue(executing: nat, q: seq<nat>): Level<nat> {
    Level(1, Queue(1, 1, 2), executing, [q], 0, |q|)
  }

  lemma OneQueueLaws(executing: nat, q: seq<nat>, cancelled: set<nat>)
    ensures Start(ONE_SEAT).level == OneQueue(0, [])
    ensures |q| < 2 ==> EnqueueVerdict(OneQueue(executing, q), 0) == Accepted(0)
    ensures Pop(OneQueue(executing, q), cancelled)
         == if q == [] then (OneQueue(executing, []), None)
            else (OneQueue(executing, q[1..]), if q[0] in cancelled then None else Some(q[0]))
  {
    assert Empties<nat>(1) == [[]];
    if q != [] {
      var l := OneQueue(executing, q);
      assert l.queues[0 := q[1..]] == [q[1..]];
      assert Probe(l) == (OneQueue(executing, q[1..]), Some(q[0]));
      assert Scan(OneQueue(executing, q[1..]), cancelled, 0) == (OneQueue(executing, q[1..]), None);
    }
  }

  /** A second half of `acquire` on that level: the next ticket goes to the back of the queue. */
  lemma OneQueueEnqueues(s: State, executing: nat, q: seq<nat>, q': seq<nat>)
    requires s.level == OneQueue(executing, q) && |q| < 2 && q' == q + [|s.tickets|] && 0 in s.refused
    ensures Next(s, Enqueue(0)) == s.(level := OneQueue(executing, q'), tickets := s.tickets + [QUEUEING],
                                      refused := s.refused - multiset{0})
  {
    OneQueueLaws(executing, q, {});
    assert [q][0 := q'] == [q'];
  }

  const QUEUEING := Ticket(0, 0, false, false, false, Waiting)

  lemma RunSnoc(s: State, steps: seq<Step>, step: Step)
    requires CanRun(s, steps) && Enabled(Run(s, steps), step)
    ensures CanRun(s, steps + [step]) && Run(s, steps + [step]) == Next(Run(s, steps), step)
  {
    RunOne(Run(s, steps), step);
    RunSplit(s, steps, [step]);
  }

  /** The seat is taken and a second caller has been refused it. */
  lemma SeatTaken() returns (steps: seq<Step>)
    ensures steps == [TryAcquire(0), TryAcquire(0)] && CanRun(Start(ONE_SEAT), steps)
    ensures Run(Start(ONE_SEAT), steps) == State(OneQueue(1, []), [], 1, multiset{0}, {})
  {
    OneQueueLaws(0, [], {});
    var s0 := Start(ONE_SEAT);
    RunOne(s0, TryAcquire(0));
    RunSnoc(s0, [TryAcquire(0)], TryAcquire(0));
    steps := [TryAcquire(0)] + [TryAcquire(0)];
  }

  /** That caller has joined the queue. */
  lemma OneWaiting() returns (steps: seq<Step>)
    ensures steps == [TryAcquire(0), TryAcquire(0), Enqueue(0)] && CanRun(Start(ONE_SEAT), steps)
    ensures Run(Start(ONE_SEAT), steps) == State(OneQueue(1, [0]), [QUEUEING], 1, multiset{}, {})
  {
    steps := SeatTaken();
    OneQueueEnqueues(Run(Start(ONE_SEAT), steps), 1, [], [0]);
    RunSnoc(Start(ONE_SEAT), steps, Enqueue(0));
    steps := steps + [Enqueue(0)];
  }

  /** And so has a third. */
  lemma TwoWaiting() returns (steps: seq<Step>)
    ensures steps == [TryAcquire(0), TryAcquire(0), Enqueue(0), TryAcquire(0), Enqueue(0)]
    ensures CanRun(Start(ONE_SEAT), steps)
    ensures Run(Start(ONE_SEAT), steps) == State(OneQueue(1, [0, 1]), [QUEUEING, QUEUEING], 1, multiset{}, {})
  {
    steps := OneWaiting();
    RunSnoc(Start(ONE_SEAT), steps, TryAcquire(0));
    steps := steps + [TryAcquire(0)];
    OneQueueEnqueues(Run(Start(ONE_SEAT), steps), 1, [0], [0, 1]);
    RunSnoc(Start(ONE_SEAT), steps, Enqueue(0));
    steps := steps + [Enqueue(0)];
  }

  /** A release that falls between the two halves of `acquire` leaves a request queued with every seat free. */
  lemma ReleaseBetweenHalves()
    ensures var steps := [TryAcquire(0), TryAcquire(0), DropPermit, Enqueue(0)];
            && CanRun(Start(ONE_SEAT), steps)
            && Run(Start(ONE_SEAT), steps).level == OneQueue(0, [0])
            && !WorkConserving(Run(Start(ONE_SEAT), steps).level)
  {
    OneQueueLaws(0, [], {});
    var steps := SeatTaken();
    assert Cancelled([]) == {};
    assert Release(OneQueue(1, []), {}).level == OneQueue(0, []);
    RunSnoc(Start(ONE_SEAT), steps, DropPermit);
    OneQueueEnqueues(Run(Start(ONE_SEAT), steps + [DropPermit]), 0, [], [0]);
    RunSnoc(Start(ONE_SEAT), steps + [DropPermit], Enqueue(0));
    assert steps + [DropPermit] + [Enqueue(0)] == [TryAcquire(0), TryAcquire(0), DropPermit, Enqueue(0)];
  }

  /** Raising the seats wakes nobody. */
  lemma RaisedSeats()
    ensures var steps := [TryAcquire(0), TryAcquire(0), Enqueue(0), Reconfigure(ONE_SEAT.(seats := 2))];
            && CanRun(Start(ONE_SEAT), steps)
            && Run(Start(ONE_SEAT), steps).level == OneQueue(1, [0]).(seats := 2)
            && !WorkConserving(Run(Start(ONE_SEAT), steps).level)
  {
    var raise := Reconfigure(ONE_SEAT.(seats := 2));
    var steps := OneWaiting();
    RunSnoc(Start(ONE_SEAT), steps, raise);
    assert steps + [raise] == [TryAcquire(0), TryAcquire(0), Enqueue(0), raise];
  }

  /** A cancelled head uses up the scan of its queue, so the live request behind it stays queued beside a free seat. */
  lemma CancelledHead()
    ensures var steps := [TryAcquire(0), TryAcquire(0), Enqueue(0), TryAcquire(0), Enqueue(0),
                          CheckDrop(0), FlagDrop(0), DropPermit];
            && CanRun(Start(ONE_SEAT), steps)
            && Run(Start(ONE_SEAT), steps).level == OneQueue(0, [1])
            && !WorkConserving(Run(Start(ONE_SEAT), steps).level)
  {
    var s0 := Start(ONE_SEAT);
    var steps := TwoWaiting();
    RunSnoc(s0, steps, CheckDrop(0));
    steps := steps + [CheckDrop(0)];
    RunSnoc(s0, steps, FlagDrop(0));
    steps := steps + [FlagDrop(0)];
    assert Cancelled(Run(s0, steps).tickets) == {0};
    assert Release(OneQueue(1, [0, 1]), {0}).level == OneQueue(0, [1]) by { OneQueueLaws(0, [0, 1], {0}); }
    RunSnoc(s0, steps, DropPermit);
    assert steps + [DropPermit] == [TryAcquire(0), TryAcquire(0), Enqueue(0), TryAcquire(0), Enqueue(0),
                                    CheckDrop(0), FlagDrop(0), DropPermit];
  }

  const LEAKED := QUEUEING.(admitted := true, phase := Dropped)

  /** The waiter is admitted and then dropped before it wakes. */
  lemma LateDrop() returns (steps: seq<Step>)
    ensures steps == [TryAcquire(0), TryAcquire(0), Enqueue(0), DropPermit, CheckDrop(0)]
    ensures CanRun(Start(ONE_SEAT), steps)
    ensures Run(Start(ONE_SEAT), steps) == State(OneQueue(1, []), [LEAKED], 0, multiset{}, {0})
  {
    var s0 := Start(ONE_SEAT);
    steps := OneWaiting();
    WaiterIsAdmitted(Run(s0, steps));
    RunSnoc(s0, steps, DropPermit);
    steps := steps + [DropPermit];
    RunSnoc(s0, steps, CheckDrop(0));
    steps := steps + [CheckDrop(0)];
  }

  lemma WaiterIsAdmitted(s: State)
    requires s == State(OneQueue(1, [0]), [QUEUEING], 1, multiset{}, {})
    ensures Next(s, DropPermit) == State(OneQueue(1, []), [QUEUEING.(admitted := true)], 0, multiset{}, {0})
  {
    assert Cancelled([QUEUEING]) == {};
    OneQueueLaws(0, [0], {});
    OneQueueLaws(1, [], {});
    assert Release(OneQueue(1, [0]), {}) == Refilled(OneQueue(1, []), [0], 1);
  }

  /** A waiter dropped between its admission and its wake-up keeps the only seat for good. */
  lemma LateDropLeaksSeat()
    ensures var steps := [TryAcquire(0), TryAcquire(0), Enqueue(0), DropPermit, CheckDrop(0)];
            && CanRun(Start(ONE_SEAT), steps)
            && var s := Run(Start(ONE_SEAT), steps);
            && s.permits == 0 && s.level == OneQueue(1, []) && Leaked(s.tickets) == {0}
  {
    var steps := LateDrop();
    assert Leaked([LEAKED]) == {0};
  }

  /** A release between the two flag accesses of a drop admits the waiter that is giving up: its seat is gone too. */
  lemma OvertakenDropLeaksSeat()
    ensures var steps := [TryAcquire(0), TryAcquire(0), Enqueue(0), CheckDrop(0), DropPermit,
                          FlagDrop(0), RemoveDrop(0)];
            && CanRun(Start(ONE_SEAT), steps)
            && var s := Run(Start(ONE_SEAT), steps);
            && s.permits == 0 && s.level == OneQueue(1, []) && Leaked(s.tickets) == {0}
            && |s.tickets| == 1 && s.tickets[0].phase == Dropped
  {
    var s0 := Start(ONE_SEAT);
    var steps := OneWaiting();
    RunSnoc(s0, steps, CheckDrop(0));
    steps := steps + [CheckDrop(0)];
    CheckedIsAdmitted(Run(s0, steps));
    RunSnoc(s0, steps, DropPermit);
    steps := steps + [DropPermit];
    RunSnoc(s0, steps, FlagDrop(0));
    steps := steps + [FlagDrop(0)];
    AdmittedFinishesDropping(Run(s0, steps));
    RunSnoc(s0, steps, RemoveDrop(0));
    assert steps + [RemoveDrop(0)]
        == [TryAcquire(0), TryAcquire(0), Enqueue(0), CheckDrop(0), DropPermit, FlagDrop(0), RemoveDrop(0)];
  }

  const CHECKED := QUEUEING.(phase := Checked)

  lemma CheckedIsAdmitted(s: State)
    requires s == State(OneQueue(1, [0]), [CHECKED], 1, multiset{}, {})
    ensures Next(s, DropPermit) == State(OneQueue(1, []), [CHECKED.(admitted := true)], 0, multiset{}, {0})
  {
    assert Cancelled([CHECKED]) == {};
    OneQueueLaws(0, [0], {});
    OneQueueLaws(1, [], {});
    assert Release(OneQueue(1, [0]), {}) == Refilled(OneQueue(1, []), [0], 1);
  }

  lemma AdmittedFinishesDropping(s: State)
    requires s == State(OneQueue(1, []), [CHECKED.(admitted := true, cancelled := true, phase := Flagged)], 0,
                        multiset{}, {0})
    ensures var s' := Next(s, RemoveDrop(0));
            && s'.permits == 0 && s'.level == OneQueue(1, []) && Leaked(s'.tickets) == {0}
            && |s'.tickets| == 1 && s'.tickets[0].phase == Dropped
  {
  }

  /** Turning queueing off drops a waiter without waking it. */
  lemma QueueingOffLosesWaiter()
    ensures var steps := [TryAcquire(0), TryAcquire(0), Enqueue(0), Reconfigure(ONE_SEAT.(limit := Reject))];
            && CanRun(Start(ONE_SEAT), steps)
            && Lost(Run(Start(ONE_SEAT), steps), 0)
  {
    var off := Reconfigure(ONE_SEAT.(limit := Reject));
    var steps := OneWaiting();
    RunSnoc(Start(ONE_SEAT), steps, off);
    assert steps + [off] == [TryAcquire(0), TryAcquire(0), Enqueue(0), off];
  }

  // ---------------------------------------------------------------- a level that will never serve its queue

  /** After a release between the halves of `acquire`, the only waiter is beyond the help of everybody already here. */
  lemma StalledWithWaiter()
    ensures var steps := [TryAcquire(0), TryAcquire(0), DropPermit, Enqueue(0)];
            && CanRun(Start(ONE_SEAT), steps)
            && var s := Run(Start(ONE_SEAT), steps);
            && Stalled(s) && Leaked(s.tickets) == {} && s.level.seats == 1
            && Queued(s.level.queues, 0) && !CanBeServed(s, 0)
  {
    var steps := [TryAcquire(0), TryAcquire(0), DropPermit, Enqueue(0)];
    ReleaseBetweenHalves();
    StartInvariant(ONE_SEAT);
    RunKeepsInvariant(Start(ONE_SEAT), steps);
    var s := Run(Start(ONE_SEAT), steps);
    assert LedgerOk(s);
    assert 0 in s.level.queues[0];
    Unserved(s, 0);
  }

  /** The seats changed and nothing else. */
  lemma SeatsChange(s: State, seats: nat)
    requires s.level.limit == ONE_SEAT.limit
    ensures Next(s, Reconfigure(ONE_SEAT.(seats := seats))) == s.(level := s.level.(seats := seats))
  {
    assert Reindex(s.tickets, map[]) == s.tickets;
  }

  /** After the leak, a second seat is granted, taken, and withdrawn again. */
  lemma LeakedBesidePermit() returns (steps: seq<Step>)
    ensures steps == [TryAcquire(0), TryAcquire(0), Enqueue(0), DropPermit, CheckDrop(0),
                      Reconfigure(ONE_SEAT.(seats := 2)), TryAcquire(0), Reconfigure(ONE_SEAT)]
    ensures CanRun(Start(ONE_SEAT), steps)
    ensures Run(Start(ONE_SEAT), steps) == State(OneQueue(2, []), [LEAKED], 1, multiset{}, {0})
  {
    var s0 := Start(ONE_SEAT);
    steps := LateDrop();
    SeatsChange(Run(s0, steps), 2);
    RunSnoc(s0, steps, Reconfigure(ONE_SEAT.(seats := 2)));
    steps := steps + [Reconfigure(ONE_SEAT.(seats := 2))];
    RunSnoc(s0, steps, TryAcquire(0));
    steps := steps + [TryAcquire(0)];
    SeatsChange(Run(s0, steps), 1);
    RunSnoc(s0, steps, Reconfigure(ONE_SEAT));
    steps := steps + [Reconfigure(ONE_SEAT)];
  }

  /** And somebody waits. */
  lemma LeakedBesideWaiter() returns (steps: seq<Step>)
    ensures steps == [TryAcquire(0), TryAcquire(0), Enqueue(0), DropPermit, CheckDrop(0),
                      Reconfigure(ONE_SEAT.(seats := 2)), TryAcquire(0), Reconfigure(ONE_SEAT),
                      TryAcquire(0), Enqueue(0)]
    ensures CanRun(Start(ONE_SEAT), steps)
    ensures Run(Start(ONE_SEAT), steps) == State(OneQueue(2, [1]), [LEAKED, QUEUEING], 1, multiset{}, {0})
  {
    var s0 := Start(ONE_SEAT);
    steps := LeakedBesidePermit();
    RunSnoc(s0, steps, TryAcquire(0));
    steps := steps + [TryAcquire(0)];
    OneQueueEnqueues(Run(s0, steps), 2, [], [1]);
    RunSnoc(s0, steps, Enqueue(0));
    steps := steps + [Enqueue(0)];
  }

  /** A level that is not stalled, since a permit is live, and yet will not serve its queue: its one seat has leaked. */
  lemma LeakedWithWaiter()
    ensures var steps := [TryAcquire(0), TryAcquire(0), Enqueue(0), DropPermit, CheckDrop(0),
                          Reconfigure(ONE_SEAT.(seats := 2)), TryAcquire(0), Reconfigure(ONE_SEAT),
                          TryAcquire(0), Enqueue(0)];
            && CanRun(Start(ONE_SEAT), steps)
            && var s := Run(Start(ONE_SEAT), steps);
            && !Stalled(s) && Leaked(s.tickets) == {0} && s.level.seats == 1
            && Queued(s.level.queues, 1) && !CanBeServed(s, 1)
  {
    var steps := LeakedBesideWaiter();
    StartInvariant(ONE_SEAT);
    RunKeepsInvariant(Start(ONE_SEAT), steps);
    AllLeakedUnserved(Run(Start(ONE_SEAT), steps));
  }

  lemma AllLeakedUnserved(s: State)
    requires Invariant(s) && s == State(OneQueue(2, [1]), [LEAKED, QUEUEING], 1, multiset{}, {0})
    ensures Leaked(s.tickets) == {0} && Queued(s.level.queues, 1) && !CanBeServed(s, 1)
  {
    assert Leaked([LEAKED, QUEUEING]) == {0};
    assert 1 in s.level.queues[0];
    Unserved(s, 1);
  }

  // ---------------------------------------------------------------- a wider hand

  const TWO_QUEUES := Config(2, Queue(2, 2, 2))

  function TwoQueues(executing: nat, q: seq<nat>, r: seq<nat>, cursor: nat): Level<nat> {
    Level(2, Queue(2, 2, 2), executing, [q, r], cursor, |q| + |r|)
  }

  lemma TwoQueuesChoose(q: seq<nat>, r: seq<nat>)
    ensures Choose([q, r], 0, 2) == if |r| < |q| then 1 else 0
  {
    assert Best([q, r], 0, 1) == 0;
  }

  const FIRST_QUEUE := Ticket(0, 0, false, false, false, Waiting)
  const SECOND_QUEUE := Ticket(0, 1, false, false, false, Waiting)

  /** Refused a seat and enqueued, at the back of the shorter queue. */
  lemma TwoQueuesEnqueues(s: State, q: seq<nat>, r: seq<nat>, cursor: nat) returns (s': State)
    requires s.level == TwoQueues(2, q, r, cursor) && s.refused == multiset{} && |q| < 2 && |r| < 2
    ensures CanRun(s, [TryAcquire(0), Enqueue(0)]) && s' == Run(s, [TryAcquire(0), Enqueue(0)])
    ensures var t := |s.tickets|;
            s' == if |r| < |q| then s.(level := TwoQueues(2, q, r + [t], cursor), tickets := s.tickets + [SECOND_QUEUE])
                  else s.(level := TwoQueues(2, q + [t], r, cursor), tickets := s.tickets + [FIRST_QUEUE])
  {
    TwoQueuesChoose(q, r);
    var s1 := Next(s, TryAcquire(0));
    s' := Next(s1, Enqueue(0));
    RunOne(s1, Enqueue(0));
    assert [TryAcquire(0), Enqueue(0)][1..] == [Enqueue(0)];
    assert [q, r][0 := q + [|s.tickets|]] == [q + [|s.tickets|], r];
    assert [q, r][1 := r + [|s.tickets|]] == [q, r + [|s.tickets|]];
    assert s1.refused - multiset{0} == multiset{};
  }

  /** A release of a full level takes the head the cursor points at. */
  lemma TwoQueuesReleases(q: seq<nat>, r: seq<nat>, cursor: nat)
    requires cursor < 2 && [q, r][cursor] != []
    ensures Release(TwoQueues(2, q, r, cursor), {})
         == if cursor == 0 then Refilled(TwoQueues(2, q[1..], r, 1), [q[0]], 1)
            else Refilled(TwoQueues(2, q, r[1..], 0), [r[0]], 1)
  {
    var l := TwoQueues(1, q, r, cursor);
    var left := if cursor == 0 then TwoQueues(1, q[1..], r, 1) else TwoQueues(1, q, r[1..], 0);
    assert Freed(TwoQueues(2, q, r, cursor)) == l;
    assert Probe(l) == (left, Some([q, r][cursor][0])) by {
      if cursor == 0 {
        assert [q, r][0 := q[1..]] == [q[1..], r];
      } else {
        assert [q, r][1 := r[1..]] == [q, r[1..]];
      }
    }
    assert Pop(l, {}) == Probe(l);
    assert Refill(left.(executing := 2), {}) == Refilled(left.(executing := 2), [], 0);
  }

  /** Both seats are taken and somebody waits. */
  lemma OneQueued() returns (steps: seq<Step>)
    ensures steps == [TryAcquire(0), TryAcquire(0), TryAcquire(0), Enqueue(0)]
    ensures CanRun(Start(TWO_QUEUES), steps)
    ensures Run(Start(TWO_QUEUES), steps) == State(TwoQueues(2, [0], [], 0), [FIRST_QUEUE], 2, multiset{}, {})
  {
    var s0 := Start(TWO_QUEUES);
    assert Empties<nat>(2) == [[], []];
    RunOne(s0, TryAcquire(0));
    RunSnoc(s0, [TryAcquire(0)], TryAcquire(0));
    steps := [TryAcquire(0)] + [TryAcquire(0)];
    var s1 := TwoQueuesEnqueues(Run(s0, steps), [], [], 0);
    assert [] + [0] == [0];
    RunSplit(s0, steps, [TryAcquire(0), Enqueue(0)]);
    steps := steps + [TryAcquire(0), Enqueue(0)];
  }

  /** That waiter is served, and the cursor has moved on to the second queue. */
  lemma CursorMoved() returns (steps: seq<Step>)
    ensures steps == [TryAcquire(0), TryAcquire(0), TryAcquire(0), Enqueue(0), DropPermit]
    ensures CanRun(Start(TWO_QUEUES), steps)
    ensures Run(Start(TWO_QUEUES), steps)
         == State(TwoQueues(2, [], [], 1), [FIRST_QUEUE.(admitted := true)], 1, multiset{}, {0})
  {
    steps := OneQueued();
    TwoQueuesReleases([0], [], 0);
    assert Cancelled([FIRST_QUEUE]) == {};
    RunSnoc(Start(TWO_QUEUES), steps, DropPermit);
    steps := steps + [DropPermit];
  }

  /** Two more waiters of the flow, one in each queue, the earlier one in the first. */
  lemma OneInEach() returns (steps: seq<Step>)
    ensures steps == [TryAcquire(0), TryAcquire(0), TryAcquire(0), Enqueue(0), DropPermit,
                      TryAcquire(0), Enqueue(0), TryAcquire(0), Enqueue(0)]
    ensures CanRun(Start(TWO_QUEUES), steps)
    ensures Run(Start(TWO_QUEUES), steps)
         == State(TwoQueues(2, [1], [2], 1), [FIRST_QUEUE.(admitted := true), FIRST_QUEUE, SECOND_QUEUE],
                  1, multiset{}, {0})
  {
    var s0, both := Start(TWO_QUEUES), [TryAcquire(0), Enqueue(0)];
    steps := CursorMoved();
    var s1 := TwoQueuesEnqueues(Run(s0, steps), [], [], 1);
    assert [] + [1] == [1];
    RunSplit(s0, steps, both);
    steps := steps + both;
    var s2 := TwoQueuesEnqueues(s1, [1], [], 1);
    assert [] + [2] == [2];
    RunSplit(s0, steps, both);
    steps := steps + both;
  }

  /** With a hand of two, a later request of a flow is admitted while an earlier one is still queued. */
  lemma WiderHandOvertakes()
    ensures var steps := [TryAcquire(0), TryAcquire(0), TryAcquire(0), Enqueue(0), DropPermit,
                          TryAcquire(0), Enqueue(0), TryAcquire(0), Enqueue(0), DropPermit];
            && CanRun(Start(TWO_QUEUES), steps)
            && var s := Run(Start(TWO_QUEUES), steps);
            && |s.tickets| == 3 && s.tickets[1].seed == s.tickets[2].seed
            && s.tickets[2].admitted && Queued(s.level.queues, 1)
  {
    var s0 := Start(TWO_QUEUES);
    var steps := OneInEach();
    var s := Run(s0, steps);
    assert Cancelled(s.tickets) == {};
    TwoQueuesReleases([1], [2], 1);
    RunSnoc(s0, steps, DropPermit);
    assert 1 in Next(s, DropPermit).level.queues[0];
    assert steps + [DropPermit] == [TryAcquire(0), TryAcquire(0), TryAcquire(0), Enqueue(0), DropPermit,
                                    TryAcquire(0), Enqueue(0), TryAcquire(0), Enqueue(0), DropPermit];
  }
}
