/**
   Every interleaving of callers on one priority level.

   A step is one locked section, or one unlocked access to a request's flags or wake handle.
   `acquire` is therefore two steps (`TryAcquire`, `Enqueue`), and dropping a waiter that was not
   admitted is three (`CheckDrop` reads `admitted`, `FlagDrop` swaps `cancelled`, `RemoveDrop`
   locks the level).  A queued request is known by its ticket: its number in order of enqueueing.
 */
module PriorityLevelRuns {
  import opened Common
  import opened PriorityLevelSpec
  import opened PriorityLevelLaws

  datatype Phase =
    | Waiting   // awaiting its wake
    | Checked   // being dropped: found `admitted` unset
    | Flagged   // being dropped: set `cancelled`, about to lock and remove itself
    | Resumed   // woke up admitted and became a permit
    | Dropped   // gone
    | Retrying  // woke up without being admitted

  datatype Ticket = Ticket(
    seed: nat, index: nat, admitted: bool, cancelled: bool, notified: bool, phase: Phase)

  datatype State = State(
    level: Level<nat>,
    tickets: seq<Ticket>,
    permits: nat,             // live permits
    refused: multiset<nat>,   // callers between the two locked sections of `acquire`, by seed
    pending: set<nat>)        // admitted by a release that has not yet called `notify_one`

  datatype Step =
    | TryAcquire(seed: nat)
    | Enqueue(seed: nat)
    | DropPermit
    | Notify(t: nat)
    | Resume(t: nat)
    | CheckDrop(t: nat)
    | FlagDrop(t: nat)
    | RemoveDrop(t: nat)
    | Reconfigure(config: Config)

  // ---------------------------------------------------------------- the step system

  function Start(config: Config): State {
    State(Initial(config), [], 0, multiset{}, {})
  }

  function Cancelled(ts: seq<Ticket>): set<nat> {
    set t: nat | t < |ts| && ts[t].cancelled
  }

  function Indices(ts: seq<Ticket>): map<nat, nat> {
    map t: nat | t < |ts| :: ts[t].index
  }

  function Seeds(ts: seq<Ticket>): nat -> nat {
    (t: nat) => if t < |ts| then ts[t].seed else 0
  }

  /** Set `admitted` on the requests a release popped. */
  function Admit(ts: seq<Ticket>, admitted: seq<nat>): (r: seq<Ticket>)
    ensures |r| == |ts|
  {
    seq(|ts|, t requires 0 <= t < |ts| => if t in admitted then ts[t].(admitted := true) else ts[t])
  }

  /** Store the queue indices that a re-deal rewrote. */
  function Reindex(ts: seq<Ticket>, index: map<nat, nat>): (r: seq<Ticket>)
    ensures |r| == |ts|
  {
    seq(|ts|, t requires 0 <= t < |ts| => if t in index then ts[t].(index := index[t]) else ts[t])
  }

  predicate Enabled(s: State, step: Step) {
    match step
    case TryAcquire(_) => true
    case Enqueue(seed) => seed in s.refused
    case DropPermit => s.permits > 0
    case Notify(t) => t in s.pending && t < |s.tickets|
    case Resume(t) => t < |s.tickets| && s.tickets[t].phase == Waiting && s.tickets[t].notified
    case CheckDrop(t) => t < |s.tickets| && s.tickets[t].phase == Waiting
    case FlagDrop(t) => t < |s.tickets| && s.tickets[t].phase == Checked
    case RemoveDrop(t) => t < |s.tickets| && s.tickets[t].phase == Flagged
    case Reconfigure(_) => true
  }

  function Next(s: State, step: Step): State
    requires Enabled(s, step)
  {
    match step
    case TryAcquire(seed) =>
      if s.level.executing < s.level.seats then
        s.(level := s.level.(executing := s.level.executing + 1), permits := s.permits + 1)
      else
        s.(refused := s.refused + multiset{seed})
    case Enqueue(seed) =>
      var s := s.(refused := s.refused - multiset{seed});
      var verdict := EnqueueVerdict(s.level, seed);
      if verdict.Accepted? then
        s.(level := Enqueued(s.level, |s.tickets|, seed),
           tickets := s.tickets + [Ticket(seed, verdict.index, false, false, false, Waiting)])
      else
        s
    case DropPermit =>
      var f := Release(s.level, Cancelled(s.tickets));
      s.(level := f.level,
         tickets := Admit(s.tickets, f.admitted),
         permits := s.permits - 1,
         pending := s.pending + (set t | t in f.admitted))
    case Notify(t) =>
      s.(tickets := s.tickets[t := s.tickets[t].(notified := true)], pending := s.pending - {t})
    case Resume(t) =>
      if s.tickets[t].admitted then
        s.(tickets := s.tickets[t := s.tickets[t].(phase := Resumed)], permits := s.permits + 1)
      else
        s.(tickets := s.tickets[t := s.tickets[t].(phase := Retrying)])
    case CheckDrop(t) =>
      s.(tickets := s.tickets[t := s.tickets[t].(phase := if s.tickets[t].admitted then Dropped else Checked)])
    case FlagDrop(t) =>
      if s.tickets[t].cancelled then
        s.(tickets := s.tickets[t := s.tickets[t].(phase := Dropped)])
      else
        s.(tickets := s.tickets[t := s.tickets[t].(cancelled := true, phase := Flagged)])
    case RemoveDrop(t) =>
      s.(level := Remove(s.level, s.tickets[t].index, t),
         tickets := s.tickets[t := s.tickets[t].(phase := Dropped)])
    case Reconfigure(config) =>
      var (l, index) := Reconfigured(s.level, config, Seeds(s.tickets));
      s.(level := l, tickets := Reindex(s.tickets, index))
  }

  predicate CanRun(s: State, steps: seq<Step>)
    decreases |steps|
  {
    steps == [] || (Enabled(s, steps[0]) && CanRun(Next(s, steps[0]), steps[1..]))
  }

  function Run(s: State, steps: seq<Step>): State
    requires CanRun(s, steps)
    decreases |steps|
  {
    if steps == [] then s else Run(Next(s, steps[0]), steps[1..])
  }

  // ---------------------------------------------------------------- the invariant

  /** Flags and phase of one request agree. */
  predicate TicketOk(k: Ticket) {
    && (k.notified ==> k.admitted)
    && (k.phase in {Waiting, Checked} ==> !k.cancelled)
    && (k.phase == Flagged ==> k.cancelled)
    && (k.phase == Resumed ==> k.admitted && k.notified)
    && (k.phase == Dropped ==> k.admitted || k.cancelled)
    && k.phase != Retrying
  }

  /** A request that may sit in a queue: not admitted, and its owner has not finished dropping it. */
  predicate MayQueue(k: Ticket) {
    !k.admitted && k.phase in {Waiting, Checked, Flagged}
  }

  ghost predicate QueuesOk(s: State) {
    && WellFormed(s.level, Indices(s.tickets))
    && (forall t: nat :: Queued(s.level.queues, t) ==> t < |s.tickets| && MayQueue(s.tickets[t]))
  }

  ghost predicate TicketsOk(s: State) {
    forall t :: 0 <= t < |s.tickets| ==> TicketOk(s.tickets[t])
  }

  /** A wake is on its way to exactly the admitted requests that have not had it yet. */
  ghost predicate WakesOk(s: State) {
    forall t: nat :: t in s.pending <==> t < |s.tickets| && s.tickets[t].admitted && !s.tickets[t].notified
  }

  /** Admitted, and still waiting to take its seat. */
  function Promised(ts: seq<Ticket>): set<nat> {
    set t: nat | t < |ts| && ts[t].admitted && ts[t].phase == Waiting
  }

  /** Admitted, but dropped before it took its seat: nobody will give that seat back. */
  function Leaked(ts: seq<Ticket>): set<nat> {
    set t: nat | t < |ts| && ts[t].admitted && ts[t].phase in {Checked, Flagged, Dropped}
  }

  /** The exact seat ledger. */
  predicate LedgerOk(s: State) {
    s.level.executing == s.permits + |Promised(s.tickets)| + |Leaked(s.tickets)|
  }

  ghost predicate Invariant(s: State) {
    QueuesOk(s) && TicketsOk(s) && WakesOk(s) && LedgerOk(s)
  }

  // ---------------------------------------------------------------- it is kept by every step

  /** Updating one ticket without touching its index leaves the index map alone. */
  lemma SameIndices(ts: seq<Ticket>, t: nat, k: Ticket)
    requires t < |ts| && k.index == ts[t].index
    ensures Indices(ts[t := k]) == Indices(ts)
  {
  }

  lemma EnqueueKeepsQueues(s: State, step: Step)
    requires Invariant(s) && step.Enqueue? && Enabled(s, step)
    ensures QueuesOk(Next(s, step))
  {
    var t, s' := |s.tickets|, Next(s, step);
    var verdict := EnqueueVerdict(s.level, step.seed);
    EnqueueKeeps(s.level, Indices(s.tickets), t, step.seed);
    if verdict.Accepted? {
      assert Indices(s'.tickets) == Indices(s.tickets)[t := verdict.index];
      forall u: nat | Queued(s'.level.queues, u) ensures u < |s'.tickets| && MayQueue(s'.tickets[u]) {
        if u != t {
          var i :| 0 <= i < |s'.level.queues| && u in s'.level.queues[i];
          assert u in s.level.queues[i];
          assert Queued(s.level.queues, u);
        }
      }
    }
  }

  lemma AdmitIndices(ts: seq<Ticket>, admitted: seq<nat>)
    ensures Indices(Admit(ts, admitted)) == Indices(ts)
  {
  }

  lemma DropPermitKeepsQueues(s: State, step: Step)
    requires Invariant(s) && step.DropPermit? && Enabled(s, step)
    ensures QueuesOk(Next(s, step))
  {
    var f := Release(s.level, Cancelled(s.tickets));
    ReleaseKeeps(s.level, Indices(s.tickets), Cancelled(s.tickets));
    AdmitIndices(s.tickets, f.admitted);
    forall t: nat | Queued(f.level.queues, t)
      ensures t < |s.tickets| && MayQueue(Admit(s.tickets, f.admitted)[t])
    {
      assert Queued(s.level.queues, t) && t !in f.admitted;
    }
  }

  lemma RemoveDropKeepsQueues(s: State, step: Step)
    requires Invariant(s) && step.RemoveDrop? && Enabled(s, step)
    ensures QueuesOk(Next(s, step))
  {
    RemoveKeeps(s.level, Indices(s.tickets), step.t);
    SameIndices(s.tickets, step.t, s.tickets[step.t].(phase := Dropped));
  }

  lemma ReconfigureKeepsQueues(s: State, step: Step)
    requires Invariant(s) && step.Reconfigure? && Enabled(s, step)
    ensures QueuesOk(Next(s, step))
  {
    var (l, index) := Reconfigured(s.level, step.config, Seeds(s.tickets));
    ReconfigureKeeps(s.level, Indices(s.tickets), step.config, Seeds(s.tickets));
    ReindexIndices(s.tickets, index);
    assert Next(s, step) == s.(level := l, tickets := Reindex(s.tickets, index));
  }

  lemma ReindexIndices(ts: seq<Ticket>, index: map<nat, nat>)
    requires forall t :: t in index ==> t < |ts|
    ensures Indices(Reindex(ts, index)) == Indices(ts) + index
    ensures forall t: nat :: t < |ts| ==> MayQueue(Reindex(ts, index)[t]) == MayQueue(ts[t])
  {
  }

  /** The steps that leave the queues alone also leave every queued request queueable. */
  lemma FlagStepsKeepQueues(s: State, step: Step)
    requires Invariant(s) && Enabled(s, step)
    requires step.TryAcquire? || step.Notify? || step.Resume? || step.CheckDrop? || step.FlagDrop?
    ensures QueuesOk(Next(s, step))
  {
    assert Indices(Next(s, step).tickets) == Indices(s.tickets);
  }

  lemma NextKeepsTickets(s: State, step: Step)
    requires Invariant(s) && Enabled(s, step)
    ensures TicketsOk(Next(s, step))
  {
    if step.DropPermit? {
      ReleaseKeeps(s.level, Indices(s.tickets), Cancelled(s.tickets));
    } else {
      forall t | 0 <= t < |Next(s, step).tickets| ensures TicketOk(Next(s, step).tickets[t]) {
        if t < |s.tickets| { assert TicketOk(s.tickets[t]); }
      }
    }
  }

  lemma NextKeepsWakes(s: State, step: Step)
    requires Invariant(s) && Enabled(s, step)
    ensures WakesOk(Next(s, step))
  {
    if step.DropPermit? { ReleaseKeeps(s.level, Indices(s.tickets), Cancelled(s.tickets)); }
  }

  /** Everybody whose seat is counted without a permit. */
  function Owed(ts: seq<Ticket>): set<nat> {
    set t: nat | t < |ts| && ts[t].admitted && ts[t].phase != Resumed
  }

  lemma OwedSplits(s: State)
    requires TicketsOk(s)
    ensures |Owed(s.tickets)| == |Promised(s.tickets)| + |Leaked(s.tickets)|
  {
    assert Owed(s.tickets) == Promised(s.tickets) + Leaked(s.tickets);
    assert Promised(s.tickets) !! Leaked(s.tickets);
  }

  lemma ReleaseOwes(s: State, admitted: seq<nat>)
    requires NoDuplicates(admitted)
    requires forall t :: t in admitted ==> t < |s.tickets| && MayQueue(s.tickets[t])
    ensures |Owed(Admit(s.tickets, admitted))| == |Owed(s.tickets)| + |admitted|
  {
    var added := set t | t in admitted;
    assert Owed(Admit(s.tickets, admitted)) == Owed(s.tickets) + added;
    assert Owed(s.tickets) !! added;
    NoDuplicatesCount(admitted);
  }

  lemma OwedAfter(s: State, step: Step)
    requires Invariant(s) && Enabled(s, step) && !step.DropPermit?
    ensures Owed(Next(s, step).tickets) == if step.Resume? then Owed(s.tickets) - {step.t} else Owed(s.tickets)
    ensures step.Resume? ==> step.t in Owed(s.tickets)
  {
  }

  lemma ExecutingAfter(s: State, step: Step)
    requires Invariant(s) && Enabled(s, step) && !step.DropPermit?
    ensures Next(s, step).level.executing - s.level.executing
         == if step.TryAcquire? && s.level.executing < s.level.seats then 1 else 0
    ensures Next(s, step).permits - s.permits
         == if step.Resume? || (step.TryAcquire? && s.level.executing < s.level.seats) then 1 else 0
  {
  }

  lemma NextKeepsLedger(s: State, step: Step)
    requires Invariant(s) && Enabled(s, step)
    ensures LedgerOk(Next(s, step))
  {
    NextKeepsTickets(s, step);
    OwedSplits(s);
    OwedSplits(Next(s, step));
    if step.DropPermit? {
      ReleaseKeeps(s.level, Indices(s.tickets), Cancelled(s.tickets));
      ReleaseOwes(s, Release(s.level, Cancelled(s.tickets)).admitted);
    } else {
      OwedAfter(s, step);
      ExecutingAfter(s, step);
    }
  }

  lemma NextKeepsInvariant(s: State, step: Step)
    requires Invariant(s) && Enabled(s, step)
    ensures Invariant(Next(s, step))
  {
    match step {
      case Enqueue(_) => EnqueueKeepsQueues(s, step);
      case DropPermit => DropPermitKeepsQueues(s, step);
      case RemoveDrop(_) => RemoveDropKeepsQueues(s, step);
      case Reconfigure(_) => ReconfigureKeepsQueues(s, step);
      case _ => FlagStepsKeepQueues(s, step);
    }
    NextKeepsTickets(s, step);
    NextKeepsWakes(s, step);
    NextKeepsLedger(s, step);
  }

  lemma StartInvariant(config: Config)
    ensures Invariant(Start(config))
  {
    InitialIsWellFormed<nat>(config, Indices([]));
  }

  lemma {:induction false} RunKeepsInvariant(s: State, steps: seq<Step>)
    requires Invariant(s) && CanRun(s, steps)
    ensures Invariant(Run(s, steps))
    decreases |steps|
  {
    if steps != [] {
      NextKeepsInvariant(s, steps[0]);
      RunKeepsInvariant(Next(s, steps[0]), steps[1..]);
    }
  }
}
