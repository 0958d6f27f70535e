/** Arrival order within a flow, over every run whose configurations all deal hands of one. */
module PriorityLevelOrder {
  import opened Common
  import opened PriorityLevelSpec
  import opened PriorityLevelLaws
  import opened PriorityLevelRuns
  import opened PriorityLevelSafety

  predicate HandOne(limit: LimitResponse) {
    limit.Queue? ==> limit.handSize <= 1
  }

  predicate HandsOfOne(steps: seq<Step>) {
    forall k :: 0 <= k < |steps| && steps[k].Reconfigure? ==> HandOne(steps[k].config.limit)
  }

  // ---------------------------------------------------------------- order in the queues

  /** The queue of a seed when the hand is one. */
  function Home(seed: nat, n: nat): nat
    requires 0 < n
  {
    seed % n
  }

  /** Every queued request sits in its seed's own queue. */
  ghost predicate AtHome(qs: seq<seq<nat>>, seeds: seq<nat>) {
    forall i: nat, a: nat :: i < |qs| && a < |qs[i]| ==> qs[i][a] < |seeds| && i == Home(seeds[qs[i][a]], |qs|)
  }

  /** In each queue, requests of one seed stand in order of arrival. */
  ghost predicate InOrder(qs: seq<seq<nat>>, seeds: seq<nat>) {
    forall i: nat, a: nat, b: nat :: i < |qs| && a < b < |qs[i]| ==> Ordered(qs[i][a], qs[i][b], seeds)
  }

  predicate Ordered(t: nat, u: nat, seeds: seq<nat>) {
    t < |seeds| && u < |seeds| && seeds[t] == seeds[u] ==> t < u
  }

  lemma AppendOrder(qs: seq<seq<nat>>, seeds: seq<nat>, j: nat, seed: nat)
    requires AtHome(qs, seeds) && InOrder(qs, seeds) && j < |qs| && j == Home(seed, |qs|)
    ensures var qs' := qs[j := qs[j] + [|seeds|]];
            AtHome(qs', seeds + [seed]) && InOrder(qs', seeds + [seed])
  {
    var qs' := qs[j := qs[j] + [|seeds|]];
    forall i: nat, a: nat, b: nat | i < |qs'| && a < b < |qs'[i]|
      ensures Ordered(qs'[i][a], qs'[i][b], seeds + [seed])
    {
      assert qs'[i][a] == qs[i][a] && qs[i][a] < |seeds|;
      if b < |qs[i]| { assert Ordered(qs[i][a], qs[i][b], seeds); }
    }
  }

  lemma SuffixesOrder(qs': seq<seq<nat>>, qs: seq<seq<nat>>, seeds: seq<nat>)
    requires AtHome(qs, seeds) && InOrder(qs, seeds) && Suffixes(qs', qs)
    ensures AtHome(qs', seeds) && InOrder(qs', seeds)
  {
    forall i: nat, a: nat | i < |qs'| && a < |qs'[i]|
      ensures qs'[i][a] < |seeds| && i == Home(seeds[qs'[i][a]], |qs'|)
    {
      assert IsSuffix(qs'[i], qs[i]);
    }
    forall i: nat, a: nat, b: nat | i < |qs'| && a < b < |qs'[i]| ensures Ordered(qs'[i][a], qs'[i][b], seeds) {
      assert IsSuffix(qs'[i], qs[i]);
      var d := |qs[i]| - |qs'[i]|;
      assert Ordered(qs[i][a + d], qs[i][b + d], seeds);
    }
  }

  lemma WithoutOrder(qs: seq<seq<nat>>, seeds: seq<nat>, j: nat, r: nat)
    requires AtHome(qs, seeds) && InOrder(qs, seeds) && j < |qs| && r in qs[j]
    ensures var qs' := qs[j := Without(qs[j], r)]; AtHome(qs', seeds) && InOrder(qs', seeds)
  {
    var qs', p := qs[j := Without(qs[j], r)], IndexOf(qs[j], r);
    forall i: nat, a: nat, b: nat | i < |qs'| && a < b < |qs'[i]| ensures Ordered(qs'[i][a], qs'[i][b], seeds) {
      if i == j {
        var a', b' := if a < p then a else a + 1, if b < p then b else b + 1;
        assert Ordered(qs[j][a'], qs[j][b'], seeds);
      } else {
        assert Ordered(qs[i][a], qs[i][b], seeds);
      }
    }
  }

  /** Requests of one seed share a queue. */
  lemma SameHome(qs: seq<seq<nat>>, seeds: seq<nat>, i: nat, a: nat, j: nat, b: nat)
    requires AtHome(qs, seeds) && i < |qs| && a < |qs[i]| && j < |qs| && b < |qs[j]|
    ensures qs[i][a] < |seeds| && qs[j][b] < |seeds|
    ensures seeds[qs[i][a]] == seeds[qs[j][b]] ==> i == j
  {
  }

  lemma SuffixGone(q': seq<nat>, q: seq<nat>, a: nat)
    requires IsSuffix(q', q) && a < |q|
    ensures q[a] !in q' ==> a < |q| - |q'|
  {
    var d := |q| - |q'|;
    if a >= d { assert q'[a - d] == q[a]; }
  }

  /** A head that left its queue arrived before anybody of its seed that is still there. */
  lemma GoneBeforeLeft(qs': seq<seq<nat>>, qs: seq<seq<nat>>, seeds: seq<nat>, t: nat, u: nat)
    requires AtHome(qs, seeds) && InOrder(qs, seeds) && Suffixes(qs', qs)
    requires Queued(qs, t) && !Queued(qs', t) && Queued(qs', u)
    requires t < |seeds| && u < |seeds| && seeds[t] == seeds[u]
    ensures t < u
  {
    var i, a := Place(qs, t);
    var j, b := Place(qs', u);
    assert IsSuffix(qs'[j], qs[j]);
    var d := |qs[j]| - |qs'[j]|;
    SameHome(qs, seeds, i, a, j, b + d);
    SuffixGone(qs'[i], qs[i], a);
    assert t !in qs'[i];
    assert Ordered(qs[i][a], qs[i][b + d], seeds);
  }

  lemma PlacesOrdered(qs: seq<seq<nat>>, seeds: seq<nat>, i: nat, a: nat, b: nat)
    requires InOrder(qs, seeds) && i < |qs| && a < |qs[i]| && b < |qs[i]|
    ensures a < b ==> Ordered(qs[i][a], qs[i][b], seeds)
  {
  }

  /** Of two queued requests of one seed, the earlier stands ahead of the later in the same queue. */
  lemma EarlierStandsAhead(qs: seq<seq<nat>>, seeds: seq<nat>, t: nat, u: nat)
    requires AtHome(qs, seeds) && InOrder(qs, seeds) && Queued(qs, t) && Queued(qs, u)
    requires t < u < |seeds| && seeds[t] == seeds[u]
    ensures exists i: nat :: i < |qs| && Precedes(qs[i], t, u)
  {
    var i, a := Place(qs, t);
    var j, b := Place(qs, u);
    SameHome(qs, seeds, i, a, j, b);
    PlacesOrdered(qs, seeds, j, b, a);
    assert Precedes(qs[i], t, u);
  }

  // ---------------------------------------------------------------- order through a re-deal

  lemma HandOneIsHome(i: nat, seed: nat, hand: nat, n: nat)
    requires 0 < n && hand <= 1 && InHand(i, seed, hand, n)
    ensures i == Home(seed, n)
  {
    ModIsWrap(seed % n, n);
  }

  lemma RedealAtHome(l: Level<nat>, index: map<nat, nat>, config: Config, seed: nat -> nat, seeds: seq<nat>,
                     i: nat, a: nat)
    requires WellFormed(l, index) && Redeals(l, config.limit) && HandOne(config.limit)
    requires AtHome(l.queues, seeds) && forall t: nat :: t < |seeds| ==> seed(t) == seeds[t]
    requires var qs := Reconfigured(l, config, seed).0.queues; i < |qs| && a < |qs[i]|
    ensures var qs := Reconfigured(l, config, seed).0.queues;
            qs[i][a] < |seeds| && i == Home(seeds[qs[i][a]], |qs|)
  {
    var (l', index') := Reconfigured(l, config, seed);
    var t := l'.queues[i][a];
    assert t in l'.queues[i];
    assert Queued(l'.queues, t);
    ReconfigureKeeps(l, index, config, seed);
    assert Queued(l.queues, t);
    RedealLands(l, index, config, seed, t);
    assert (index + index')[t] == i;
    var j, b := Place(l.queues, t);
    HandOneIsHome(i, seeds[t], config.limit.handSize, |l'.queues|);
  }

  lemma RedealInOrder(l: Level<nat>, index: map<nat, nat>, config: Config, seed: nat -> nat, seeds: seq<nat>,
                      i: nat, a: nat, b: nat)
    requires WellFormed(l, index) && Redeals(l, config.limit)
    requires AtHome(l.queues, seeds) && InOrder(l.queues, seeds)
    requires var qs := Reconfigured(l, config, seed).0.queues; i < |qs| && a < b < |qs[i]|
    ensures var qs := Reconfigured(l, config, seed).0.queues; Ordered(qs[i][a], qs[i][b], seeds)
  {
    var qs := Reconfigured(l, config, seed).0.queues;
    var t, u := qs[i][a], qs[i][b];
    assert t in qs[i] && u in qs[i];
    assert Queued(qs, t) && Queued(qs, u);
    ReconfigureKeeps(l, index, config, seed);
    var j, x := Place(l.queues, t);
    var j', y := Place(l.queues, u);
    SameHome(l.queues, seeds, j, x, j', y);
    if seeds[t] == seeds[u] {
      if y < x {
        assert Precedes(l.queues[j], u, t);
        RedealKeepsOrder(l, index, config, seed, j, i, u, t);
      }
      RedealOnce(l, index, config, seed, i, a, b);
      assert x < y;
      assert Ordered(l.queues[j][x], l.queues[j][y], seeds);
    }
  }

  lemma RedealOnce(l: Level<nat>, index: map<nat, nat>, config: Config, seed: nat -> nat, i: nat, a: nat, b: nat)
    requires WellFormed(l, index)
    requires var qs := Reconfigured(l, config, seed).0.queues; i < |qs| && a < b < |qs[i]|
    ensures var q := Reconfigured(l, config, seed).0.queues[i]; q[a] != q[b] && !Precedes(q, q[b], q[a])
  {
    ReconfigureKeeps(l, index, config, seed);
    assert NoDuplicates(Reconfigured(l, config, seed).0.queues[i]);
  }

  lemma ReconfigureOrder(l: Level<nat>, index: map<nat, nat>, config: Config, seed: nat -> nat, seeds: seq<nat>)
    requires WellFormed(l, index) && HandOne(config.limit)
    requires AtHome(l.queues, seeds) && InOrder(l.queues, seeds)
    requires forall t: nat :: t < |seeds| ==> seed(t) == seeds[t]
    ensures var qs := Reconfigured(l, config, seed).0.queues; AtHome(qs, seeds) && InOrder(qs, seeds)
  {
    if Redeals(l, config.limit) {
      var qs := Reconfigured(l, config, seed).0.queues;
      forall i: nat, a: nat | i < |qs| && a < |qs[i]|
        ensures qs[i][a] < |seeds| && i == Home(seeds[qs[i][a]], |qs|)
      {
        RedealAtHome(l, index, config, seed, seeds, i, a);
      }
      forall i: nat, a: nat, b: nat | i < |qs| && a < b < |qs[i]| ensures Ordered(qs[i][a], qs[i][b], seeds) {
        RedealInOrder(l, index, config, seed, seeds, i, a, b);
      }
    }
  }

  // ---------------------------------------------------------------- whole runs

  function SeedList(ts: seq<Ticket>): (r: seq<nat>)
    ensures |r| == |ts|
  {
    seq(|ts|, t requires 0 <= t < |ts| => ts[t].seed)
  }

  /** If `t` was admitted while `u` of the same flow is still queued, `t` arrived first. */
  ghost predicate NotOvertaken(s: State, t: nat, u: nat) {
    (t < |s.tickets| && u < |s.tickets| && s.tickets[t].admitted
     && Queued(s.level.queues, u) && s.tickets[t].seed == s.tickets[u].seed)
    ==> t < u
  }

  /** Nobody still queued arrived before somebody of the same flow that was admitted. */
  ghost predicate AdmittedInOrder(s: State) {
    forall t: nat, u: nat :: NotOvertaken(s, t, u)
  }

  ghost predicate Fifo(s: State) {
    && HandOne(s.level.limit)
    && AtHome(s.level.queues, SeedList(s.tickets))
    && InOrder(s.level.queues, SeedList(s.tickets))
    && AdmittedInOrder(s)
  }

  lemma SeedsAfter(s: State, step: Step)
    requires Enabled(s, step)
    ensures SeedList(Next(s, step).tickets)
         == if step.Enqueue? && EnqueueVerdict(s.level, step.seed).Accepted?
            then SeedList(s.tickets) + [step.seed] else SeedList(s.tickets)
  {
  }

  /** The queues after any step are still in order. */
  lemma NextKeepsOrder(s: State, step: Step)
    requires Invariant(s) && Fifo(s) && Enabled(s, step)
    requires step.Reconfigure? ==> HandOne(step.config.limit)
    ensures var s' := Next(s, step);
            HandOne(s'.level.limit) && AtHome(s'.level.queues, SeedList(s'.tickets))
            && InOrder(s'.level.queues, SeedList(s'.tickets))
  {
    var l, seeds := s.level, SeedList(s.tickets);
    SeedsAfter(s, step);
    match step
    case Enqueue(seed) =>
      if EnqueueVerdict(l, seed).Accepted? {
        ChooseHandOne(l.queues, seed, Min(Max(l.limit.handSize, 1), Max(l.limit.queues, 1)));
        AppendOrder(l.queues, seeds, EnqueueVerdict(l, seed).index, seed);
      }
    case RemoveDrop(t) =>
      var j := s.tickets[t].index;
      if j < |l.queues| && t in l.queues[j] { WithoutOrder(l.queues, seeds, j, t); }
    case DropPermit =>
      ReleaseKeeps(l, Indices(s.tickets), Cancelled(s.tickets));
      SuffixesOrder(Release(l, Cancelled(s.tickets)).level.queues, l.queues, seeds);
    case Reconfigure(config) =>
      ReconfigureOrder(l, Indices(s.tickets), config, Seeds(s.tickets), seeds);
    case _ =>
  }

  lemma EnqueueAdmitsInOrder(s: State, seed: nat, t: nat, u: nat)
    requires Invariant(s) && Fifo(s) && Enabled(s, Enqueue(seed))
    ensures NotOvertaken(Next(s, Enqueue(seed)), t, u)
  {
    assert NotOvertaken(s, t, u);
    var queues := Next(s, Enqueue(seed)).level.queues;
    if u < |s.tickets| && Queued(queues, u) {
      var i: nat :| i < |queues| && u in queues[i];
      assert u in s.level.queues[i];
      assert Queued(s.level.queues, u);
    }
  }

  lemma ReleaseAdmitsInOrder(s: State, t: nat, u: nat)
    requires Invariant(s) && Fifo(s) && Enabled(s, DropPermit)
    ensures NotOvertaken(Next(s, DropPermit), t, u)
  {
    assert NotOvertaken(s, t, u);
    var queues := Release(s.level, Cancelled(s.tickets)).level.queues;
    ReleaseKeeps(s.level, Indices(s.tickets), Cancelled(s.tickets));
    if t < |s.tickets| && u < |s.tickets| && s.tickets[t].seed == s.tickets[u].seed && Queued(queues, u)
       && t in Release(s.level, Cancelled(s.tickets)).admitted {
      GoneBeforeLeft(queues, s.level.queues, SeedList(s.tickets), t, u);
    }
  }

  lemma NextAdmitsInOrder(s: State, step: Step, t: nat, u: nat)
    requires Invariant(s) && Fifo(s) && Enabled(s, step)
    ensures NotOvertaken(Next(s, step), t, u)
  {
    assert NotOvertaken(s, t, u);
    match step
    case Enqueue(seed) => EnqueueAdmitsInOrder(s, seed, t, u);
    case RemoveDrop(r) => RemoveKeeps(s.level, Indices(s.tickets), r);
    case DropPermit => ReleaseAdmitsInOrder(s, t, u);
    case Reconfigure(config) => ReconfigureKeeps(s.level, Indices(s.tickets), config, Seeds(s.tickets));
    case _ =>
  }

  lemma NextKeepsFifo(s: State, step: Step)
    requires Invariant(s) && Fifo(s) && Enabled(s, step)
    requires step.Reconfigure? ==> HandOne(step.config.limit)
    ensures Invariant(Next(s, step)) && Fifo(Next(s, step))
  {
    NextKeepsInvariant(s, step);
    NextKeepsOrder(s, step);
    forall t: nat, u: nat ensures NotOvertaken(Next(s, step), t, u) { NextAdmitsInOrder(s, step, t, u); }
  }

  lemma {:induction false} RunKeepsFifo(s: State, steps: seq<Step>)
    requires Invariant(s) && Fifo(s) && CanRun(s, steps) && HandsOfOne(steps)
    ensures Invariant(Run(s, steps)) && Fifo(Run(s, steps))
    decreases |steps|
  {
    if steps != [] {
      NextKeepsFifo(s, steps[0]);
      RunKeepsFifo(Next(s, steps[0]), steps[1..]);
    }
  }

  // ---------------------------------------------------------------- the order of admissions

  /** Requests of one seed stand in `rs` in order of arrival. */
  ghost predicate InArrivalOrder(rs: seq<nat>, seeds: seq<nat>) {
    forall a, b :: 0 <= a < b < |rs| ==> Ordered(rs[a], rs[b], seeds)
  }

  /** Whom a pop takes arrived before anybody of its seed that it leaves. */
  lemma PoppedBefore(l: Level<nat>, index: map<nat, nat>, cancelled: set<nat>, seeds: seq<nat>, u: nat)
    requires WellFormed(l, index) && AtHome(l.queues, seeds) && InOrder(l.queues, seeds)
    requires Pop(l, cancelled).1.Some? && Queued(Pop(l, cancelled).0.queues, u)
    ensures Ordered(Pop(l, cancelled).1.value, u, seeds)
  {
    var t, qs' := Pop(l, cancelled).1.value, Pop(l, cancelled).0.queues;
    assert Suffixes(qs', l.queues) by { ScanSuffixes(l, cancelled, |l.queues|); }
    assert Queued(l.queues, t) && !Queued(qs', t) by { ScanEffect(l, index, cancelled, |l.queues|); }
    if t < |seeds| && u < |seeds| && seeds[t] == seeds[u] { GoneBeforeLeft(qs', l.queues, seeds, t, u); }
  }

  lemma PopKeepsOrder(l: Level<nat>, index: map<nat, nat>, cancelled: set<nat>, seeds: seq<nat>)
    requires WellFormed(l, index) && AtHome(l.queues, seeds) && InOrder(l.queues, seeds) && Pop(l, cancelled).1.Some?
    ensures var l1 := Pop(l, cancelled).0;
            WellFormed(l1, index) && AtHome(l1.queues, seeds) && InOrder(l1.queues, seeds)
  {
    ScanKeeps(l, index, cancelled, |l.queues|);
    ScanSuffixes(l, cancelled, |l.queues|);
    SuffixesOrder(Pop(l, cancelled).0.queues, l.queues, seeds);
  }

  /** One release admits the requests of a flow in order of arrival. */
  lemma {:induction false} RefillInOrder(l: Level<nat>, index: map<nat, nat>, cancelled: set<nat>, seeds: seq<nat>)
    requires WellFormed(l, index) && AtHome(l.queues, seeds) && InOrder(l.queues, seeds)
    ensures InArrivalOrder(Refill(l, cancelled).admitted, seeds)
    decreases l.seats - l.executing
  {
    if l.executing < l.seats && Pop(l, cancelled).1.Some? {
      var (l1, head) := Pop(l, cancelled);
      var l2 := l1.(executing := l1.executing + 1);
      var rest := Refill(l2, cancelled).admitted;
      assert Refill(l, cancelled).admitted == [head.value] + rest;
      PopKeepsOrder(l, index, cancelled, seeds);
      assert WellFormed(l2, index);
      RefillInOrder(l2, index, cancelled, seeds);
      RefillTakes(l2, index, cancelled);
      forall b | 0 <= b < |rest| ensures Ordered(head.value, rest[b], seeds) {
        assert rest[b] in rest;
        PoppedBefore(l, index, cancelled, seeds, rest[b]);
      }
    }
  }

  /** Everybody admitted from the queues in a run, in the order in which the releases handed out the seats. */
  function Admissions(s: State, steps: seq<Step>): seq<nat>
    requires CanRun(s, steps)
    decreases |steps|
  {
    if steps == [] then []
    else AdmittedBy(s, steps[0]) + Admissions(Next(s, steps[0]), steps[1..])
  }

  function AdmittedBy(s: State, step: Step): seq<nat> {
    if step.DropPermit? then Release(s.level, Cancelled(s.tickets)).admitted else []
  }

  lemma AdmittedByStep(s: State, step: Step)
    requires Invariant(s) && Fifo(s) && Enabled(s, step)
    ensures InArrivalOrder(AdmittedBy(s, step), SeedList(s.tickets))
    ensures forall t :: t in AdmittedBy(s, step) ==>
              t < |s.tickets| && Queued(s.level.queues, t) && Next(s, step).tickets[t].admitted
  {
    if step.DropPermit? {
      ReleaseKeeps(s.level, Indices(s.tickets), Cancelled(s.tickets));
      assert WellFormed(Freed(s.level), Indices(s.tickets));
      RefillInOrder(Freed(s.level), Indices(s.tickets), Cancelled(s.tickets), SeedList(s.tickets));
    }
  }

  /** Whoever is admitted later in a run is queued now, or arrives later. */
  lemma {:induction false} AdmittedLater(s: State, steps: seq<Step>, u: nat)
    requires Invariant(s) && CanRun(s, steps) && u in Admissions(s, steps)
    ensures u < |Run(s, steps).tickets|
    ensures u < |s.tickets| ==> Queued(s.level.queues, u)
    decreases |steps|
  {
    var s' := Next(s, steps[0]);
    NextKeepsInvariant(s, steps[0]);
    TicketsStay(s', steps[1..], 0);
    if u in AdmittedBy(s, steps[0]) {
      ReleaseKeeps(s.level, Indices(s.tickets), Cancelled(s.tickets));
    } else {
      AdmittedLater(s', steps[1..], u);
      if u < |s.tickets| { NextNeverRequeues(s, steps[0], u); }
    }
  }

  lemma {:induction false} TicketsStay(s: State, steps: seq<Step>, t: nat)
    requires CanRun(s, steps)
    ensures |s.tickets| <= |Run(s, steps).tickets|
    ensures t < |s.tickets| ==> Run(s, steps).tickets[t].seed == s.tickets[t].seed
    decreases |steps|
  {
    if steps != [] { TicketsStay(Next(s, steps[0]), steps[1..], t); }
  }

  lemma AdmittedAcross(s: State, steps: seq<Step>, t: nat, u: nat)
    requires Invariant(s) && Fifo(s) && CanRun(s, steps) && HandsOfOne(steps) && steps != []
    requires t in AdmittedBy(s, steps[0]) && u in Admissions(Next(s, steps[0]), steps[1..])
    ensures Ordered(t, u, SeedList(Run(s, steps).tickets))
  {
    var s' := Next(s, steps[0]);
    AdmittedByStep(s, steps[0]);
    NextKeepsFifo(s, steps[0]);
    AdmittedLater(s', steps[1..], u);
    TicketsStay(s', steps[1..], t);
    TicketsStay(s', steps[1..], u);
    assert NotOvertaken(s', t, u);
  }

  lemma AdmittedFirst(s: State, steps: seq<Step>)
    requires Invariant(s) && Fifo(s) && CanRun(s, steps) && steps != []
    ensures InArrivalOrder(AdmittedBy(s, steps[0]), SeedList(Run(s, steps).tickets))
  {
    var first := AdmittedBy(s, steps[0]);
    AdmittedByStep(s, steps[0]);
    forall a, b | 0 <= a < b < |first| ensures Ordered(first[a], first[b], SeedList(Run(s, steps).tickets)) {
      assert Ordered(first[a], first[b], SeedList(s.tickets));
      assert first[a] in first && first[b] in first;
      TicketsStay(s, steps, first[a]);
      TicketsStay(s, steps, first[b]);
    }
  }

  lemma JoinInOrder(first: seq<nat>, rest: seq<nat>, seeds: seq<nat>)
    requires InArrivalOrder(first, seeds) && InArrivalOrder(rest, seeds)
    requires forall a, b :: 0 <= a < |first| && 0 <= b < |rest| ==> Ordered(first[a], rest[b], seeds)
    ensures InArrivalOrder(first + rest, seeds)
  {
  }

  /** Over a run, requests of one flow are admitted in order of arrival. */
  lemma {:induction false} RunAdmitsInOrder(s: State, steps: seq<Step>)
    requires Invariant(s) && Fifo(s) && CanRun(s, steps) && HandsOfOne(steps)
    ensures InArrivalOrder(Admissions(s, steps), SeedList(Run(s, steps).tickets))
    decreases |steps|
  {
    if steps != [] {
      var s', seeds := Next(s, steps[0]), SeedList(Run(s, steps).tickets);
      var first, rest := AdmittedBy(s, steps[0]), Admissions(s', steps[1..]);
      AdmittedFirst(s, steps);
      NextKeepsFifo(s, steps[0]);
      RunAdmitsInOrder(s', steps[1..]);
      forall a, b | 0 <= a < |first| && 0 <= b < |rest| ensures Ordered(first[a], rest[b], seeds) {
        AdmittedAcross(s, steps, first[a], rest[b]);
      }
      JoinInOrder(first, rest, seeds);
    }
  }

  /**
     Per-flow FIFO: when every configuration deals hands of one, all queued requests of a flow
     sit in a single queue in arrival order, through every enqueue, cancel, pop and re-deal; the
     level never admits one of them while an earlier one is still queued; and whether by one
     release or by several, it admits them in arrival order.
   */
  lemma FlowFifo(config: Config, steps: seq<Step>, t: nat, u: nat)
    requires HandOne(config.limit) && HandsOfOne(steps) && CanRun(Start(config), steps)
    ensures var s := Run(Start(config), steps);
            && InArrivalOrder(Admissions(Start(config), steps), SeedList(s.tickets))
            && (t < |s.tickets| && u < |s.tickets| && s.tickets[t].seed == s.tickets[u].seed
                && Queued(s.level.queues, u) ==>
                  && (s.tickets[t].admitted ==> t < u)
                  && (Queued(s.level.queues, t) && t < u ==>
                        exists i: nat :: i < |s.level.queues| && Precedes(s.level.queues[i], t, u)))
  {
    var s := Run(Start(config), steps);
    StartInvariant(config);
    RunAdmitsInOrder(Start(config), steps);
    RunKeepsFifo(Start(config), steps);
    assert NotOvertaken(s, t, u);
    if t < u < |s.tickets| && s.tickets[t].seed == s.tickets[u].seed
       && Queued(s.level.queues, t) && Queued(s.level.queues, u) {
      EarlierStandsAhead(s.level.queues, SeedList(s.tickets), t, u);
    }
  }
}
