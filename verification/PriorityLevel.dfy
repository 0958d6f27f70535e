/** A priority level and its queued requests as objects, each operation against `PriorityLevelSpec`. */
module PriorityLevel {
  import opened Common
  import opened PriorityLevelSpec
  import opened PriorityLevelLaws

  datatype Flow = Flow(priorityLevel: string, flowSchema: string, key: string)

  /** A request shared between the queue that holds it and the caller that waits on it. */
  class QueuedRequest {
    const flow: Flow
    var queueIndex: nat
    var admitted: bool
    var cancelled: bool

    constructor (flow: Flow, queueIndex: nat)
      ensures this.flow == flow && this.queueIndex == queueIndex && !admitted && !cancelled
    {
      this.flow, this.queueIndex, admitted, cancelled := flow, queueIndex, false, false;
    }
  }

  datatype Admission = Enqueued(request: QueuedRequest) | Refused | Full

  function SeedOf(hash: Flow -> nat): QueuedRequest -> nat {
    (r: QueuedRequest) => hash(r.flow)
  }

  ghost function MembersOf(qs: seq<seq<QueuedRequest>>): set<QueuedRequest> {
    set i, r | 0 <= i < |qs| && r in qs[i] :: r
  }

  ghost function IndexIn(qs: seq<seq<QueuedRequest>>): map<QueuedRequest, nat>
    reads MembersOf(qs)`queueIndex
  {
    map r | r in MembersOf(qs) :: r.queueIndex
  }

  /** `cancelled` tells which of the queued requests carry the flag. */
  ghost predicate FlagsAre(qs: seq<seq<QueuedRequest>>, cancelled: set<QueuedRequest>)
    reads MembersOf(qs)`cancelled
  {
    forall r :: r in MembersOf(qs) ==> (r.cancelled <==> r in cancelled)
  }

  ghost predicate NoneAdmitted(qs: seq<seq<QueuedRequest>>)
    reads MembersOf(qs)`admitted
  {
    forall r :: r in MembersOf(qs) ==> !r.admitted
  }

  /** Only the back-pointers of queued requests matter. */
  lemma WellFormedBy<R>(l: Level<R>, a: map<R, nat>, b: map<R, nat>)
    requires WellFormed(l, a)
    requires forall i, r :: 0 <= i < |l.queues| && r in l.queues[i] ==> r in b && r in a && b[r] == a[r]
    ensures WellFormed(l, b)
  {
  }

  lemma SuffixMembers(qs': seq<seq<QueuedRequest>>, qs: seq<seq<QueuedRequest>>)
    requires Suffixes(qs', qs)
    ensures MembersOf(qs') <= MembersOf(qs)
  {
    forall i, r | 0 <= i < |qs'| && r in qs'[i] ensures r in qs[i] { assert IsSuffix(qs'[i], qs[i]); }
  }

  lemma MembersAreQueued(qs: seq<seq<QueuedRequest>>)
    ensures forall r :: r in MembersOf(qs) <==> PriorityLevelSpec.Queued(qs, r)
  {
  }

  lemma AppendMembers(qs: seq<seq<QueuedRequest>>, i: nat, r: QueuedRequest)
    requires i < |qs|
    ensures MembersOf(qs[i := qs[i] + [r]]) == MembersOf(qs) + {r}
  {
    var qs' := qs[i := qs[i] + [r]];
    assert r in qs'[i];
    assert forall j, x :: 0 <= j < |qs| && x in qs[j] ==> x in qs'[j];
    assert forall j, x :: 0 <= j < |qs| && x in qs'[j] ==> x == r || x in qs[j];
  }

  /** One round of the refill loop. */
  lemma RefillUnfolds<R>(l: Level<R>, cancelled: set<R>)
    requires l.executing < l.seats
    ensures var (l', head) := Pop(l, cancelled);
            var f := Refill(l, cancelled);
            if head.None? then f.level == l' && f.admitted == []
            else
              var rest := Refill(l'.(executing := l'.executing + 1), cancelled);
              f.level == rest.level && f.admitted == [head.value] + rest.admitted
  {
  }

  lemma Regroup<R>(a: seq<R>, r: R, b: seq<R>)
    ensures a + ([r] + b) == (a + [r]) + b
  {
  }

  lemma RemoveKeepsMembers(l: Level<QueuedRequest>, index: map<QueuedRequest, nat>, r: QueuedRequest, i: nat)
    requires WellFormed(l, index) && (r in MembersOf(l.queues) ==> index[r] == i)
    ensures var l' := Remove(l, i, r);
            && MembersOf(l'.queues) == MembersOf(l.queues) - {r}
            && WellFormed(l', index)
            && (r in MembersOf(l.queues) <==> i < |l.queues| && r in l.queues[i])
  {
    var index', l' := index[r := i], Remove(l, i, r);
    WellFormedBy(l, index, index');
    RemoveKeeps(l, index', r);
    MembersAreQueued(l.queues);
    MembersAreQueued(l'.queues);
    WellFormedBy(l', index', index);
  }

  /** A reconfiguration sets the seats, so their old number does not matter to it. */
  lemma OldSeatsForgotten<R>(l: Level<R>, config: Config, seed: R -> nat)
    ensures Reconfigured(l.(seats := config.seats), config, seed) == Reconfigured(l, config, seed)
  {
  }

  lemma QueuedMembers(qs': seq<seq<QueuedRequest>>, qs: seq<seq<QueuedRequest>>)
    requires forall r :: PriorityLevelSpec.Queued(qs', r) ==> PriorityLevelSpec.Queued(qs, r)
    ensures MembersOf(qs') <= MembersOf(qs)
  {
    forall r | r in MembersOf(qs') ensures r in MembersOf(qs) { assert PriorityLevelSpec.Queued(qs', r); }
  }

  lemma ReconfigureMembers(l: Level<QueuedRequest>, index: map<QueuedRequest, nat>, config: Config,
                           seed: QueuedRequest -> nat)
    requires WellFormed(l, index)
    ensures WellFormed(Reconfigured(l, config, seed).0, index + Reconfigured(l, config, seed).1)
    ensures MembersOf(Reconfigured(l, config, seed).0.queues) <= MembersOf(l.queues)
  {
    ReconfigureKeeps(l, index, config, seed);
    QueuedMembers(Reconfigured(l, config, seed).0.queues, l.queues);
  }

  lemma PopMembers(l: Level<QueuedRequest>, index: map<QueuedRequest, nat>, cancelled: set<QueuedRequest>)
    requires WellFormed(l, index)
    ensures WellFormed(Pop(l, cancelled).0, index) && Suffixes(Pop(l, cancelled).0.queues, l.queues)
    ensures var (l', found) := Pop(l, cancelled);
            found.Some? ==> found.value in MembersOf(l.queues) && found.value !in MembersOf(l'.queues)
  {
    if l.queuedCount != 0 && l.queues != [] {
      ScanEffect(l, index, cancelled, |l.queues|);
      ScanSuffixes(l, cancelled, |l.queues|);
      ScanKeeps(l, index, cancelled, |l.queues|);
      MembersAreQueued(l.queues);
      MembersAreQueued(Pop(l, cancelled).0.queues);
    }
  }

  class PriorityLevelState {
    const stableHash: Flow -> nat
    var seats: nat
    var limit: LimitResponse
    var executing: nat
    var queues: seq<seq<QueuedRequest>>
    var cursor: nat
    var queuedCount: nat

    ghost function View(): Level<QueuedRequest>
      reads this
    {
      Level(seats, limit, executing, queues, cursor, queuedCount)
    }

    ghost function Members(): set<QueuedRequest>
      reads this
    {
      MembersOf(queues)
    }

    ghost predicate Valid()
      reads this, Members()
    {
      WellFormed(View(), IndexIn(queues)) && NoneAdmitted(queues)
    }

    constructor (config: Config, stableHash: Flow -> nat)
      ensures Valid() && View() == Initial(config) && this.stableHash == stableHash
      ensures seats == config.seats && limit == config.limit && executing == 0 && queuedCount == 0 && cursor == 0
    {
      this.stableHash := stableHash;
      var count := if config.limit.Queue? then Max(config.limit.queues, 1) else 1;
      seats, limit, executing := config.seats, config.limit, 0;
      queues := seq(count, _ => []);
      cursor, queuedCount := 0, 0;
      new;
      assert queues == Empties(count);
      InitialIsWellFormed(config, IndexIn(queues));
    }

    method TryAcquireImmediate() returns (ok: bool)
      requires Valid()
      modifies this`executing
      ensures Valid()
      ensures ok <==> old(executing) < seats
      ensures View() == old(View()).(executing := if ok then old(executing) + 1 else old(executing))
    {
      ok := executing < seats;
      if ok { executing := executing + 1; }
    }

    /** The best queue of the flow's hand so far, hand position by hand position. */
    method ChooseQueueIndex(flow: Flow, handSize: nat) returns (best: nat)
      ensures if queues == [] then best == 0 else best == Choose(queues, stableHash(flow), handSize)
    {
      var count := |queues|;
      if count == 0 { return 0; }
      var hand := Min(Max(handSize, 1), count);
      var seed := stableHash(flow);
      var start := seed % count;
      best := start;
      var bestLength: Option<nat> := None;
      var offset := 0;
      while offset < hand
        invariant 0 <= offset <= hand && best < count
        invariant offset == 0 ==> best == start && bestLength == None
        invariant offset > 0 ==> best == Best(queues, seed, offset) && bestLength == Some(|queues[best]|)
      {
        var i := (start + offset) % count;
        var length := |queues[i]|;
        if bestLength.None? || length < bestLength.value || (length == bestLength.value && i < best) {
          bestLength := Some(length);
          best := i;
        }
        offset := offset + 1;
      }
    }

    /** Append a new request to queue `i`, the one an enqueue of this flow chose. */
    method Append(i: nat, flow: Flow) returns (r: QueuedRequest)
      requires Valid() && EnqueueVerdict(View(), stableHash(flow)) == Accepted(i)
      modifies this`queues, this`queuedCount
      ensures Valid() && fresh(r) && r.flow == flow && r.queueIndex == i && !r.admitted && !r.cancelled
      ensures View() == PriorityLevelSpec.Enqueued(old(View()), r, stableHash(flow))
    {
      ghost var before, index := View(), IndexIn(queues);
      r := new QueuedRequest(flow, i);
      assert !PriorityLevelSpec.Queued(before.queues, r);
      queues := queues[i := queues[i] + [r]];
      queuedCount := queuedCount + 1;
      AppendMembers(before.queues, i, r);
      EnqueueKeeps(before, index, r, stableHash(flow));
      ValidBy(index[r := i]);
    }

    method TryEnqueue(flow: Flow) returns (admission: Admission)
      requires Valid()
      modifies this`queues, this`queuedCount
      ensures Valid()
      ensures var verdict := EnqueueVerdict(old(View()), stableHash(flow));
              match admission
              case Refused => verdict == Rejected && View() == old(View())
              case Full => verdict == QueueFull && View() == old(View())
              case Enqueued(r) =>
                && verdict == Accepted(r.queueIndex) && fresh(r) && r.flow == flow && !r.admitted && !r.cancelled
                && View() == PriorityLevelSpec.Enqueued(old(View()), r, stableHash(flow))
    {
      match limit
      case Reject => return Refused;
      case Queue(count, handSize, lengthLimit) =>
        if lengthLimit == 0 || queues == [] { return Full; }
        var i := ChooseQueueIndex(flow, Min(Max(handSize, 1), Max(count, 1)));
        if |queues[i]| >= lengthLimit { return Full; }
        var r := Append(i, flow);
        return Enqueued(r);
    }

    /** Validity, from an index map that agrees with the queued requests' own back-pointers. */
    lemma ValidBy(index: map<QueuedRequest, nat>)
      requires WellFormed(View(), index) && NoneAdmitted(queues)
      requires forall r :: r in Members() ==> r in index && r.queueIndex == index[r]
      ensures Valid()
    {
      WellFormedBy(View(), index, IndexIn(queues));
    }

    /** Queues that only lost heads are as valid as they were. */
    lemma StillValid(before: seq<seq<QueuedRequest>>)
      requires WellFormed(View(), IndexIn(before)) && NoneAdmitted(before) && Suffixes(queues, before)
      ensures Valid() && Members() <= MembersOf(before)
    {
      SuffixMembers(queues, before);
      WellFormedBy(View(), IndexIn(before), IndexIn(queues));
    }

    /** One turn of the scan: the cursor moves on and the queue it pointed at loses its head, if any. */
    method TakeTurn() returns (head: Option<QueuedRequest>)
      requires queues != []
      modifies this`queues, this`cursor, this`queuedCount
      ensures (View(), head) == Probe(old(View()))
      ensures Members() <= old(Members()) && (head.Some? ==> head.value in old(Members()))
    {
      ProbeSuffixes(View());
      SuffixMembers(Probe(View()).0.queues, queues);
      var i := cursor % |queues|;
      cursor := (cursor + 1) % |queues|;
      if queues[i] == [] { return None; }
      head := Some(queues[i][0]);
      assert head.value in queues[i];
      queues := queues[i := queues[i][1..]];
      queuedCount := if queuedCount == 0 then 0 else queuedCount - 1;
    }

    /** Up to one turn per queue, until a head turns up that is not cancelled. */
    method ScanRound(ghost cancelled: set<QueuedRequest>) returns (found: Option<QueuedRequest>)
      requires queues != [] && FlagsAre(queues, cancelled)
      modifies this`queues, this`cursor, this`queuedCount
      ensures (View(), found) == Scan(old(View()), cancelled, old(|queues|))
    {
      ghost var before := View();
      var count := |queues|;
      for k := 0 to count
        invariant |queues| == count && Members() <= old(Members())
        invariant Scan(before, cancelled, count) == Scan(View(), cancelled, count - k)
      {
        var head := TakeTurn();
        if head.Some? && !head.value.cancelled { return head; }
      }
      found := None;
    }

    method PopNextQueuedForWakeup(ghost cancelled: set<QueuedRequest>) returns (found: Option<QueuedRequest>)
      requires Valid() && FlagsAre(queues, cancelled)
      modifies this`queues, this`cursor, this`queuedCount
      ensures Valid() && Members() <= old(Members())
      ensures (View(), found) == Pop(old(View()), cancelled)
      ensures found.Some? ==> found.value in old(Members()) && found.value !in Members()
    {
      if queuedCount == 0 || queues == [] { return None; }
      ghost var before := queues;
      PopMembers(View(), IndexIn(queues), cancelled);
      found := ScanRound(cancelled);
      StillValid(before);
    }

    /** Hand a free seat to a request that has left the queues. */
    method Seat(r: QueuedRequest)
      requires Valid() && r !in Members()
      modifies this`executing, r`admitted
      ensures Valid() && r.admitted
      ensures View() == old(View()).(executing := old(executing) + 1)
    {
      r.admitted := true;
      executing := executing + 1;
    }

    /** Hand one free seat to the next live request, if the pop finds one. */
    method AdmitNext(ghost cancelled: set<QueuedRequest>) returns (head: Option<QueuedRequest>)
      requires Valid() && FlagsAre(queues, cancelled) && executing < seats
      modifies this`executing, this`queues, this`cursor, this`queuedCount, Members()`admitted
      ensures Valid() && FlagsAre(queues, cancelled) && Members() <= old(Members())
      ensures seats == old(seats) && executing == old(executing) + if head.Some? then 1 else 0
      ensures var f := Refill(old(View()), cancelled);
              if head.None? then f.level == View() && f.admitted == []
              else
                var rest := Refill(View(), cancelled);
                f.level == rest.level && f.admitted == [head.value] + rest.admitted
      ensures head.Some? ==> head.value in old(Members()) && head.value.admitted
      ensures forall r :: r in old(Members()) && head != Some(r) ==> r.admitted == old(r.admitted)
    {
      RefillUnfolds(View(), cancelled);
      head := PopNextQueuedForWakeup(cancelled);
      if head.Some? {
        Seat(head.value);
      }
    }

    /** Hand free seats to queued requests, until no seat is free or the pop finds nobody. */
    method RefillSeats(ghost cancelled: set<QueuedRequest>) returns (toNotify: seq<QueuedRequest>)
      requires Valid() && FlagsAre(queues, cancelled)
      modifies this`executing, this`queues, this`cursor, this`queuedCount, Members()`admitted
      ensures Valid()
      ensures View() == Refill(old(View()), cancelled).level
      ensures toNotify == Refill(old(View()), cancelled).admitted
      ensures forall r :: r in old(Members()) ==> (r.admitted <==> r in toNotify)
    {
      toNotify := [];
      ghost var members, goal := Members(), Refill(View(), cancelled);
      while executing < seats
        invariant Valid() && FlagsAre(queues, cancelled) && Members() <= members
        invariant goal.level == Refill(View(), cancelled).level
        invariant goal.admitted == toNotify + Refill(View(), cancelled).admitted
        invariant forall r :: r in members ==> (r.admitted <==> r in toNotify)
        decreases seats - executing
      {
        var head := AdmitNext(cancelled);
        if head.None? { return; }
        Regroup(toNotify, head.value, Refill(View(), cancelled).admitted);
        toNotify := toNotify + [head.value];
      }
    }

    /** Give one seat back and hand free seats to queued requests; returns those to wake. */
    method Release(ghost cancelled: set<QueuedRequest>) returns (toNotify: seq<QueuedRequest>)
      requires Valid() && FlagsAre(queues, cancelled)
      modifies this`executing, this`queues, this`cursor, this`queuedCount, Members()`admitted
      ensures Valid()
      ensures View() == PriorityLevelSpec.Release(old(View()), cancelled).level
      ensures toNotify == PriorityLevelSpec.Release(old(View()), cancelled).admitted
      ensures forall r :: r in old(Members()) ==> (r.admitted <==> r in toNotify)
    {
      if executing > 0 { executing := executing - 1; }
      toNotify := RefillSeats(cancelled);
    }

    /** Where `request` stands in `queue`, if it does. */
    static method Position(queue: seq<QueuedRequest>, request: QueuedRequest) returns (pos: Option<nat>)
      ensures pos == if request in queue then Some(IndexOf(queue, request)) else None
    {
      for a := 0 to |queue|
        invariant request !in queue[..a]
      {
        if queue[a] == request { return Some(a); }
      }
      return None;
    }

    /** Take `request` out of queue `i`, if it is there. */
    method TakeOut(i: nat, request: QueuedRequest) returns (found: bool)
      modifies this`queues, this`queuedCount
      ensures View() == Remove(old(View()), i, request)
      ensures found <==> i < |old(queues)| && request in old(queues)[i]
    {
      if i >= |queues| { return false; }
      var pos := Position(queues[i], request);
      if pos.None? { return false; }
      queues := queues[i := queues[i][..pos.value] + queues[i][pos.value + 1..]];
      queuedCount := if queuedCount == 0 then 0 else queuedCount - 1;
      found := true;
    }

    /** Take a cancelled request out of the queue its back-pointer names. */
    method RemoveQueuedRequest(request: QueuedRequest)
      requires Valid()
      modifies this`queues, this`queuedCount, request`cancelled
      ensures Valid() && Members() == old(Members()) - {request}
      ensures View() == Remove(old(View()), request.queueIndex, request)
      ensures request.cancelled == (old(request.cancelled) || request in old(Members()))
    {
      ghost var index := IndexIn(queues);
      RemoveKeepsMembers(View(), index, request, request.queueIndex);
      var found := TakeOut(request.queueIndex, request);
      if found { request.cancelled := true; }
      ValidBy(index);
    }

    /** Drain every queue, front to back, into one list. */
    method DrainQueues() returns (all: seq<QueuedRequest>)
      modifies this`queues
      ensures all == Concat(old(queues))
      ensures |queues| == old(|queues|)
    {
      all := [];
      for i := 0 to |queues|
        invariant |queues| == |old(queues)| && queues[i..] == old(queues)[i..]
        invariant all == Concat(old(queues)[..i])
      {
        ghost var drained := all;
        assert queues[i] == old(queues)[i];
        while queues[i] != []
          invariant |queues| == |old(queues)| && queues[i + 1..] == old(queues)[i + 1..]
          invariant all + queues[i] == drained + old(queues)[i]
          decreases |queues[i]|
        {
          all := all + [queues[i][0]];
          queues := queues[i := queues[i][1..]];
        }
        assert old(queues)[..i + 1][..i] == old(queues)[..i];
      }
      assert old(queues)[..|queues|] == old(queues);
    }

    /** Deal `all`, in order, into `count` fresh queues, storing each request's new queue index. */
    method DealQueues(all: seq<QueuedRequest>, count: nat, hand: nat)
      requires 0 < count && NoDuplicates(all)
      modifies this`queues, this`queuedCount, this`cursor, (set r | r in all)`queueIndex
      ensures var d := Deal(all, count, hand, SeedOf(stableHash));
              && queues == d.queues && queuedCount == |all| && cursor == 0
              && forall r :: r in all ==> r in d.index && r.queueIndex == d.index[r]
    {
      queues := seq(count, _ => []);
      queuedCount, cursor := 0, 0;
      var seed := SeedOf(stableHash);
      assert all[..0] == [];
      for k := 0 to |all|
        invariant queuedCount == k && cursor == 0 && |queues| == count
        invariant queues == Deal(all[..k], count, hand, seed).queues
        invariant forall r :: r in all[..k] ==>
                    var d := Deal(all[..k], count, hand, seed); r in d.index && r.queueIndex == d.index[r]
      {
        var r := all[k];
        var i := ChooseQueueIndex(r.flow, hand);
        r.queueIndex := i;
        queues := queues[i := queues[i] + [r]];
        queuedCount := queuedCount + 1;
        assert all[..k + 1][..k] == all[..k] && all[..k + 1][k] == r;
      }
      assert all[..|all|] == all;
    }

    /** Re-deal every queued request into `count` queues, unless there already are that many. */
    method RebuildQueues(count: nat)
      requires 0 < count && EachOnce(queues) && BackPointers(queues, IndexIn(queues))
      modifies this`queues, this`queuedCount, this`cursor, Members()`queueIndex
      ensures if old(|queues|) == count then
                queues == old(queues) && queuedCount == old(queuedCount) && cursor == old(cursor)
                && forall r :: r in old(Members()) ==> r.queueIndex == old(r.queueIndex)
              else
                var d := Deal(Concat(old(queues)), count, HandSize(limit), SeedOf(stableHash));
                && queues == d.queues && queuedCount == |Concat(old(queues))| && cursor == 0
                && forall r :: r in old(Members()) ==> r in d.index && r.queueIndex == d.index[r]
    {
      if |queues| == count { return; }
      ConcatNoDuplicates(queues, IndexIn(queues));
      ConcatMembers(queues);
      MembersAreQueued(queues);
      var hand := HandSize(limit);
      var all := DrainQueues();
      DealQueues(all, count, hand);
    }

    /** Keep, re-deal or drop the queues after the limit response changed from `oldLimit`. */
    method AdjustQueues(oldLimit: LimitResponse, ghost goal: (Level<QueuedRequest>, map<QueuedRequest, nat>))
      requires EachOnce(queues) && BackPointers(queues, IndexIn(queues))
      requires goal == Reconfigured(View().(limit := oldLimit), Config(seats, limit), SeedOf(stableHash))
      modifies this`queues, this`queuedCount, this`cursor, Members()`queueIndex
      ensures View() == goal.0
      ensures forall r :: r in old(Members()) ==>
                r.queueIndex == if r in goal.1 then goal.1[r] else old(r.queueIndex)
    {
      if oldLimit.Queue? && limit.Queue? {
        if oldLimit.queues != limit.queues { RebuildQueues(Max(limit.queues, 1)); }
      } else if oldLimit.Queue? {
        queues, queuedCount, cursor := [], 0, 0;
      } else if limit.Queue? {
        queues, queuedCount, cursor := seq(Max(limit.queues, 1), _ => []), 0, 0;
      }
    }

    /** The same, when what comes out is known to be well formed. */
    method ReachGoal(oldLimit: LimitResponse, ghost goal: (Level<QueuedRequest>, map<QueuedRequest, nat>))
      requires EachOnce(queues) && BackPointers(queues, IndexIn(queues)) && NoneAdmitted(queues)
      requires goal == Reconfigured(View().(limit := oldLimit), Config(seats, limit), SeedOf(stableHash))
      requires WellFormed(goal.0, IndexIn(queues) + goal.1) && MembersOf(goal.0.queues) <= Members()
      modifies this`queues, this`queuedCount, this`cursor, Members()`queueIndex
      ensures Valid() && View() == goal.0
      ensures forall r :: r in old(Members()) ==>
                r.queueIndex == if r in goal.1 then goal.1[r] else old(r.queueIndex)
    {
      ghost var index := IndexIn(queues) + goal.1;
      AdjustQueues(oldLimit, goal);
      ValidBy(index);
    }

    /** Change the seats and the limit response, and the queues with them. */
    method Reconfigure(config: Config)
      requires Valid()
      modifies this, Members()`queueIndex
      ensures Valid()
      ensures View() == Reconfigured(old(View()), config, SeedOf(stableHash)).0
      ensures var index := Reconfigured(old(View()), config, SeedOf(stableHash)).1;
              forall r :: r in old(Members()) ==> r.queueIndex == if r in index then index[r] else old(r.queueIndex)
    {
      ghost var goal := Reconfigured(View(), config, SeedOf(stableHash));
      ReconfigureMembers(View(), IndexIn(queues), config, SeedOf(stableHash));
      assert goal == Reconfigured(View().(seats := config.seats), config, SeedOf(stableHash)) by {
        OldSeatsForgotten(View(), config, SeedOf(stableHash));
      }
      var oldLimit := limit;
      seats, limit := config.seats, config.limit;
      assert IndexIn(queues) == old(IndexIn(queues));
      ReachGoal(oldLimit, goal);
    }
  }
}
