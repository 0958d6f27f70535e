/** What the wakeup pop guarantees over time: whom it finds, how soon, and when it keeps seats busy. */
module PriorityLevelProgress {
  import opened Common
  import opened PriorityLevelSpec
  import opened PriorityLevelLaws

  // ---------------------------------------------------------------- whom the pop finds

  predicate LiveHead<R>(q: seq<R>, cancelled: set<R>) {
    q != [] && q[0] !in cancelled
  }

  function Tail<R>(q: seq<R>): seq<R> {
    if q == [] then [] else q[1..]
  }

  /** The queue the cursor reaches after `o` turns: its number and its contents. */
  function RingSlot<R>(l: Level<R>, o: nat): (i: nat)
    requires l.cursor < |l.queues| && o < |l.queues|
    ensures i < |l.queues|
  {
    Wrap(l.cursor + o, |l.queues|)
  }

  function Reached<R>(l: Level<R>, o: nat): seq<R>
    requires l.cursor < |l.queues| && o < |l.queues|
  {
    l.queues[RingSlot(l, o)]
  }

  lemma ProbeMoves<R>(l: Level<R>)
    requires l.cursor < |l.queues|
    ensures var l' := Probe(l).0;
            && l'.cursor == Wrap(l.cursor + 1, |l.queues|)
            && l'.queues == l.queues[l.cursor := Tail(l.queues[l.cursor])]
            && Probe(l).1 == (if l.queues[l.cursor] == [] then None else Some(l.queues[l.cursor][0]))
  {
    ModIsWrap(l.cursor, |l.queues|);
    ModIsWrap(l.cursor + 1, |l.queues|);
  }

  /** After one turn, what was `o + 1` turns away is `o` turns away, untouched. */
  lemma ReachedShifts<R>(l: Level<R>, o: nat)
    requires l.cursor < |l.queues| && o + 1 < |l.queues|
    ensures Probe(l).0.cursor < |l.queues|
    ensures Reached(Probe(l).0, o) == Reached(l, o + 1)
  {
    ProbeMoves(l);
  }

  /** `k` turns find nobody exactly when no queue they reach has a live head. */
  lemma {:induction false} ScanFindsNone<R>(l: Level<R>, cancelled: set<R>, k: nat)
    requires l.cursor < |l.queues| && k <= |l.queues|
    ensures Scan(l, cancelled, k).1.None? <==> forall o: nat :: o < k ==> !LiveHead(Reached(l, o), cancelled)
    decreases k
  {
    if k > 0 {
      ProbeMoves(l);
      assert Reached(l, 0) == l.queues[l.cursor];
      if !LiveHead(Reached(l, 0), cancelled) {
        var l1 := Probe(l).0;
        ScanFindsNone(l1, cancelled, k - 1);
        forall o: nat | o < k && 0 < o ensures Reached(l, o) == Reached(l1, o - 1) { ReachedShifts(l, o - 1); }
        forall o: nat | o < k - 1 ensures Reached(l1, o) == Reached(l, o + 1) { ReachedShifts(l, o); }
      }
    }
  }

  /** After one turn, the queue just probed is the farthest, without its head; every other is one turn nearer. */
  lemma SlotShifts<R>(l: Level<R>, o: nat)
    requires l.cursor < |l.queues| && o < |l.queues|
    ensures Probe(l).0.cursor < |l.queues|
    ensures var l1, o1 := Probe(l).0, if o == 0 then |l.queues| - 1 else o - 1;
            && RingSlot(l1, o1) == RingSlot(l, o)
            && Reached(l1, o1) == if o == 0 then Tail(Reached(l, 0)) else Reached(l, o)
  {
    ProbeMoves(l);
  }

  /** Then each queue they reach has lost its (cancelled) head and the others are as they were. */
  lemma {:induction false} ScanDropsHeads<R>(l: Level<R>, cancelled: set<R>, k: nat, o: nat)
    requires l.cursor < |l.queues| && k <= |l.queues| && o < |l.queues|
    requires Scan(l, cancelled, k).1.None?
    ensures Scan(l, cancelled, k).0.queues[RingSlot(l, o)] == if o < k then Tail(Reached(l, o)) else Reached(l, o)
    decreases k
  {
    if k > 0 {
      var l1, n := Probe(l).0, |l.queues|;
      SlotShifts(l, o);
      ScanDropsHeads(l1, cancelled, k - 1, if o == 0 then n - 1 else o - 1);
    }
  }

  /** When the scan finds someone, it is the head of the first queue in ring order that has a live one. */
  lemma {:induction false} ScanFindsFirst<R>(l: Level<R>, cancelled: set<R>, k: nat) returns (o: nat)
    requires l.cursor < |l.queues| && k <= |l.queues|
    requires Scan(l, cancelled, k).1.Some?
    ensures o < k && LiveHead(Reached(l, o), cancelled)
    ensures forall o': nat :: o' < o ==> !LiveHead(Reached(l, o'), cancelled)
    ensures Scan(l, cancelled, k).1 == Some(Reached(l, o)[0])
    ensures Scan(l, cancelled, k).0.cursor == Wrap(RingSlot(l, o) + 1, |l.queues|)
    decreases k
  {
    var l1 := Probe(l).0;
    ProbeMoves(l);
    if LiveHead(l.queues[l.cursor], cancelled) {
      o := 0;
    } else {
      var o1 := ScanFindsFirst(l1, cancelled, k - 1);
      o := o1 + 1;
      forall o': nat | o' < o ensures !LiveHead(Reached(l, o'), cancelled) {
        if o' > 0 { ReachedShifts(l, o' - 1); }
      }
      ReachedShifts(l, o1);
    }
  }

  /** How many turns away queue `i` is. */
  function TurnsTo<R>(l: Level<R>, i: nat): (o: nat)
    requires l.cursor < |l.queues| && i < |l.queues|
    ensures o < |l.queues| && i == RingSlot(l, o)
  {
    Wrap(i + |l.queues| - l.cursor, |l.queues|)
  }

  /** The pop comes back empty-handed exactly when no queue has a live head, even if live requests wait behind. */
  lemma PopFindsNone<R>(l: Level<R>, index: map<R, nat>, cancelled: set<R>)
    requires WellFormed(l, index)
    ensures Pop(l, cancelled).1.None? <==> forall i :: 0 <= i < |l.queues| ==> !LiveHead(l.queues[i], cancelled)
    ensures Pop(l, cancelled).1.None? ==>
              forall i :: 0 <= i < |l.queues| ==> Pop(l, cancelled).0.queues[i] == Tail(l.queues[i])
  {
    TotalZero(l.queues);
    if !(l.queuedCount == 0 || l.queues == []) {
      ScanFindsNone(l, cancelled, |l.queues|);
      forall i | 0 <= i < |l.queues|
        ensures TurnsTo(l, i) < |l.queues| && Reached(l, TurnsTo(l, i)) == l.queues[i]
        ensures Pop(l, cancelled).1.None? ==> Pop(l, cancelled).0.queues[i] == Tail(l.queues[i])
      {
        if Pop(l, cancelled).1.None? { ScanDropsHeads(l, cancelled, |l.queues|, TurnsTo(l, i)); }
      }
    }
  }

  /** The pop returns the head of the first queue, in ring order from the cursor, that has a live head. */
  lemma PopFindsFirst<R>(l: Level<R>, index: map<R, nat>, cancelled: set<R>) returns (o: nat)
    requires WellFormed(l, index) && Pop(l, cancelled).1.Some?
    ensures l.cursor < |l.queues| && o < |l.queues| && LiveHead(Reached(l, o), cancelled)
    ensures forall o': nat :: o' < o ==> !LiveHead(Reached(l, o'), cancelled)
    ensures Pop(l, cancelled).1 == Some(Reached(l, o)[0])
  {
    o := ScanFindsFirst(l, cancelled, |l.queues|);
  }

  // ---------------------------------------------------------------- how soon

  /** How many scan turns pass before the one that takes the request at place `p` of queue `i`. */
  function Turns<R>(l: Level<R>, i: nat, p: nat): nat
    requires l.cursor < |l.queues| && i < |l.queues|
  {
    p * |l.queues| + TurnsTo(l, i)
  }

  lemma TurnsExactly<R>(l: Level<R>, i: nat, p: nat)
    requires l.cursor < |l.queues| && i < |l.queues|
    ensures Turns(l, i, p) == p * |l.queues| + (i + |l.queues| - l.cursor) % |l.queues|
  {
    ModIsWrap(i + |l.queues| - l.cursor, |l.queues|);
  }

  /** A turn takes the request when its count is zero and otherwise lowers the count by exactly one. */
  lemma ProbeCountsDown<R>(l: Level<R>, i: nat, p: nat)
    requires l.cursor < |l.queues| && i < |l.queues| && p < |l.queues[i]|
    ensures var (l', head) := Probe(l);
            && l'.cursor < |l.queues|
            && (if Turns(l, i, p) == 0 then
                  head == Some(l.queues[i][p]) && l'.queues[i] == l.queues[i][1..]
                else
                  var p' := if i == l.cursor then p - 1 else p;
                  0 <= p' < |l'.queues[i]| && l'.queues[i][p'] == l.queues[i][p]
                  && Turns(l', i, p') == Turns(l, i, p) - 1)
  {
    ProbeMoves(l);
    var n := |l.queues|;
    assert 0 <= p * n;
    if i == l.cursor {
      assert (p - 1) * n == p * n - n;
      assert p > 0 ==> p * n >= n by { if p > 0 { assert (p - 1) * n >= 0; } }
    }
  }

  lemma {:induction false} ScanCountsDown<R>(l: Level<R>, cancelled: set<R>, k: nat, i: nat, p: nat, p': nat)
    requires l.cursor < |l.queues| && i < |l.queues| && p < |l.queues[i]| && NoDuplicates(l.queues[i])
    requires var l' := Scan(l, cancelled, k).0; p' < |l'.queues[i]| && l'.queues[i][p'] == l.queues[i][p]
    ensures Scan(l, cancelled, k).0.cursor < |l.queues|
    ensures Turns(Scan(l, cancelled, k).0, i, p') + (if k == 0 then 0 else 1) <= Turns(l, i, p)
    decreases k
  {
    if k > 0 {
      var (l1, head) := Probe(l);
      ProbeMoves(l);
      ProbeCountsDown(l, i, p);
      assert NoDuplicates(l1.queues[i]);
      if head.Some? && head.value !in cancelled {
        assert Turns(l, i, p) != 0;
      } else {
        ScanSuffixes(l1, cancelled, k - 1);
        assert IsSuffix(Scan(l1, cancelled, k - 1).0.queues[i], l1.queues[i]);
        assert Turns(l, i, p) != 0;
        ScanCountsDown(l1, cancelled, k - 1, i, if i == l.cursor then p - 1 else p, p');
      }
    }
  }

  lemma PopCountsDown<R>(l: Level<R>, index: map<R, nat>, cancelled: set<R>, i: nat, p: nat, p': nat)
    requires WellFormed(l, index) && i < |l.queues| && p < |l.queues[i]|
    requires var l' := Pop(l, cancelled).0; p' < |l'.queues[i]| && l'.queues[i][p'] == l.queues[i][p]
    ensures l.cursor < |l.queues| && Pop(l, cancelled).0.cursor < |l.queues| == |Pop(l, cancelled).0.queues|
    ensures Turns(Pop(l, cancelled).0, i, p') + 1 <= Turns(l, i, p)
    ensures WellFormed(Pop(l, cancelled).0, index)
  {
    assert NoDuplicates(l.queues[i]);
    TotalZero(l.queues);
    ScanKeeps(l, index, cancelled, |l.queues|);
    ScanCountsDown(l, cancelled, |l.queues|, i, p, p');
  }

  /**
     No starvation, at one release: as long as a request stays queued, every call of the pop
     brings it at least one turn closer to the head of the ring.
   */
  lemma {:induction false} RefillCountsDown<R>(l: Level<R>, index: map<R, nat>, cancelled: set<R>,
                                               i: nat, p: nat, p': nat)
    requires WellFormed(l, index) && i < |l.queues| && p < |l.queues[i]|
    requires var f := Refill(l, cancelled); p' < |f.level.queues[i]| && f.level.queues[i][p'] == l.queues[i][p]
    ensures l.cursor < |l.queues| && Refill(l, cancelled).level.cursor < |l.queues|
    ensures Turns(Refill(l, cancelled).level, i, p') + Refill(l, cancelled).pops <= Turns(l, i, p)
    decreases l.seats - l.executing
  {
    if l.executing < l.seats {
      var (l1, head) := Pop(l, cancelled);
      if head.None? {
        PopCountsDown(l, index, cancelled, i, p, p');
      } else {
        var l2 := l1.(executing := l1.executing + 1);
        var q := Refill(l2, cancelled).level.queues[i];
        RefillSuffixes(l2, cancelled);
        assert IsSuffix(q, l1.queues[i]);
        var p1 := p' + (|l1.queues[i]| - |q|);
        PopCountsDown(l, index, cancelled, i, p, p1);
        RefillCountsDown(l2, index, cancelled, i, p1, p');
      }
    } else {
      assert NoDuplicates(l.queues[i]);
    }
  }

  // ---------------------------------------------------------------- when seats stay busy

  /** No request waits while a seat is free. */
  predicate WorkConserving<R>(l: Level<R>) {
    l.queuedCount > 0 ==> l.executing >= l.seats
  }

  /**
     A release from a work-conserving level leaves it work-conserving exactly when nobody is
     queued, the level is over its seats, some queue has a live head, or every queue is at
     most one (cancelled) request long.
   */
  lemma ReleaseWorkConserving<R>(l: Level<R>, index: map<R, nat>, cancelled: set<R>)
    requires WellFormed(l, index) && WorkConserving(l) && l.executing > 0
    ensures WorkConserving(Release(l, cancelled).level) <==>
            || l.queuedCount == 0
            || l.executing > l.seats
            || (exists i :: 0 <= i < |l.queues| && LiveHead(l.queues[i], cancelled))
            || (forall i :: 0 <= i < |l.queues| ==> |l.queues[i]| <= 1)
  {
    var freed := l.(executing := l.executing - 1);
    var (l1, head) := Pop(freed, cancelled);
    assert WellFormed(freed, index);
    PopFindsNone(freed, index, cancelled);
    if !(l.queuedCount == 0 || l.queues == []) { ScanKeeps(freed, index, cancelled, |l.queues|); }
    TotalZero(l.queues);
    TotalZero(l1.queues);
    if l.queuedCount > 0 && l.executing == l.seats {
      if head.None? {
        assert Release(l, cancelled).level == l1;
        assert forall i :: 0 <= i < |l.queues| ==> (l1.queues[i] == [] <==> |l.queues[i]| <= 1);
      } else {
        var l2 := l1.(executing := l1.executing + 1);
        assert l2.executing == l2.seats;
        assert Refill(l2, cancelled).level == l2;
        assert Refill(freed, cancelled).level == l2;
      }
    }
  }

  /** In particular a release is work-conserving whenever no cancelled request is still queued. */
  lemma ReleaseWorkConservingWithoutCancelled<R>(l: Level<R>, index: map<R, nat>, cancelled: set<R>)
    requires WellFormed(l, index) && WorkConserving(l) && l.executing > 0
    requires forall r :: r in cancelled ==> !Queued(l.queues, r)
    ensures WorkConserving(Release(l, cancelled).level)
  {
    ReleaseWorkConserving(l, index, cancelled);
    TotalZero(l.queues);
    if l.queuedCount > 0 {
      var i :| 0 <= i < |l.queues| && l.queues[i] != [];
      assert l.queues[i][0] in l.queues[i];
      assert Queued(l.queues, l.queues[i][0]);
      assert LiveHead(l.queues[i], cancelled);
    }
  }
}
