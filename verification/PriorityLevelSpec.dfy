/**
   One priority level of API Priority and Fairness, as values.

   `Level<R>` is the state behind the level's lock; `R` is the identity of a queued
   request.  The mutable parts of a request that live outside the lock (its queue
   index and its two flags) are passed in and out as a map and a set, so the same
   functions specify the heap objects of `PriorityLevel` and the run system of
   `PriorityLevelRuns`.  The stable hash of a request's flow enters as a number, its seed.
 */
module PriorityLevelSpec {
  import opened Common

  datatype LimitResponse =
    | Reject
    | Queue(queues: nat, handSize: nat, lengthLimit: nat)

  datatype Config = Config(seats: nat, limit: LimitResponse)

  datatype Level<R> = Level(
    seats: nat,
    limit: LimitResponse,
    executing: nat,
    queues: seq<seq<R>>,
    cursor: nat,
    queuedCount: nat)

  // ---------------------------------------------------------------- queues

  function Total<R>(qs: seq<seq<R>>): nat {
    if qs == [] then 0 else Total(qs[..|qs| - 1]) + |qs[|qs| - 1]|
  }

  function Concat<R>(qs: seq<seq<R>>): seq<R> {
    if qs == [] then [] else Concat(qs[..|qs| - 1]) + qs[|qs| - 1]
  }

  function Empties<R>(n: nat): (qs: seq<seq<R>>)
    ensures |qs| == n
    ensures forall i :: 0 <= i < n ==> qs[i] == []
  {
    seq(n, _ => [])
  }

  ghost predicate Queued<R>(qs: seq<seq<R>>, older r: R) {
    exists i :: 0 <= i < |qs| && r in qs[i]
  }

  ghost predicate AllEmpty<R>(qs: seq<seq<R>>) {
    forall i :: 0 <= i < |qs| ==> qs[i] == []
  }

  /** Every request's back-pointer names the queue it sits in. */
  ghost predicate BackPointers<R>(qs: seq<seq<R>>, index: map<R, nat>) {
    forall i, r :: 0 <= i < |qs| && r in qs[i] ==> r in index && index[r] == i
  }

  /** No queue holds a request twice. */
  ghost predicate EachOnce<R>(qs: seq<seq<R>>) {
    forall i :: 0 <= i < |qs| ==> NoDuplicates(qs[i])
  }

  lemma {:induction false} TotalUpdate<R>(qs: seq<seq<R>>, i: nat, q: seq<R>)
    requires i < |qs|
    ensures Total(qs[i := q]) == Total(qs) - |qs[i]| + |q|
  {
    var last := |qs| - 1;
    if i == last {
      assert qs[i := q][..last] == qs[..last];
    } else {
      TotalUpdate(qs[..last], i, q);
      assert qs[i := q][..last] == qs[..last][i := q];
    }
  }

  lemma {:induction false} TotalZero<R>(qs: seq<seq<R>>)
    ensures Total(qs) == 0 <==> AllEmpty(qs)
  {
    if qs != [] {
      var last := |qs| - 1;
      TotalZero(qs[..last]);
      assert forall i :: 0 <= i < last ==> qs[..last][i] == qs[i];
      if AllEmpty(qs) {
        assert AllEmpty(qs[..last]);
      } else if Total(qs) == 0 {
        assert AllEmpty(qs[..last]);
        forall i | 0 <= i < |qs| ensures qs[i] == [] {
          if i < last { assert qs[..last][i] == []; }
        }
      }
    }
  }

  lemma {:induction false} TotalIsConcat<R>(qs: seq<seq<R>>)
    ensures Total(qs) == |Concat(qs)|
  {
    if qs != [] { TotalIsConcat(qs[..|qs| - 1]); }
  }

  /** A queue list whose every queue is at most `m` long holds at most `|qs| * m` requests. */
  lemma {:induction false} TotalBound<R>(qs: seq<seq<R>>, m: nat)
    requires forall i :: 0 <= i < |qs| ==> |qs[i]| <= m
    ensures Total(qs) <= |qs| * m
  {
    if qs != [] {
      TotalBound(qs[..|qs| - 1], m);
      assert |qs| * m == (|qs| - 1) * m + m;
    }
  }

  // ---------------------------------------------------------------- shuffle sharding

  /** The number of queues a flow may use: at least one, at most all. */
  function HandCount(hand: nat, n: nat): (k: nat)
    requires 0 < n
    ensures 1 <= k <= n
  {
    Min(Max(hand, 1), n)
  }

  /** Queue `i` is one of the `HandCount` consecutive queues dealt to this seed. */
  ghost predicate InHand(i: nat, seed: nat, hand: nat, n: nat)
    requires 0 < n
  {
    exists o: nat :: o < HandCount(hand, n) && i == Slot(seed, o, n)
  }

  function Slot(seed: nat, o: nat, n: nat): (i: nat)
    requires 0 < n
    ensures i < n
  {
    (seed % n + o) % n
  }

  /** Queue `i` is preferred to queue `j`: shorter, or as short and earlier. */
  predicate Before<R>(qs: seq<seq<R>>, i: nat, j: nat)
    requires i < |qs| && j < |qs|
  {
    |qs[i]| < |qs[j]| || (|qs[i]| == |qs[j]| && i < j)
  }

  /** The most preferred of the first `k` queues of the hand. */
  function Best<R>(qs: seq<seq<R>>, seed: nat, k: nat): (b: nat)
    requires 0 < k && 0 < |qs|
    ensures b < |qs|
    ensures exists o: nat :: o < k && b == Slot(seed, o, |qs|)
    ensures forall o: nat :: o < k && Slot(seed, o, |qs|) != b ==> Before(qs, b, Slot(seed, o, |qs|))
  {
    if k == 1 then
      Slot(seed, 0, |qs|)
    else
      var b := Best(qs, seed, k - 1);
      var c := Slot(seed, k - 1, |qs|);
      if Before(qs, c, b) then c else b
  }

  function Choose<R>(qs: seq<seq<R>>, seed: nat, hand: nat): (b: nat)
    requires 0 < |qs|
    ensures b < |qs|
  {
    Best(qs, seed, HandCount(hand, |qs|))
  }

  /** The chosen queue is the least, by length then position, of the flow's hand, and only it is. */
  lemma ChooseIsLeastOfHand<R>(qs: seq<seq<R>>, seed: nat, hand: nat, b: nat)
    requires 0 < |qs| && b < |qs|
    ensures b == Choose(qs, seed, hand) <==>
            InHand(b, seed, hand, |qs|) &&
            forall i: nat :: InHand(i, seed, hand, |qs|) && i < |qs| && i != b ==> Before(qs, b, i)
  {
    var c := Choose(qs, seed, hand);
    var k := HandCount(hand, |qs|);
    assert InHand(c, seed, hand, |qs|);
    forall i: nat | InHand(i, seed, hand, |qs|) && i < |qs| && i != c
      ensures Before(qs, c, i)
    {
      var o: nat :| o < k && i == Slot(seed, o, |qs|);
    }
  }

  /** With a hand of one the choice ignores the queues: it is the seed's own queue. */
  lemma ChooseHandOne<R>(qs: seq<seq<R>>, seed: nat, hand: nat)
    requires 0 < |qs| && hand <= 1
    ensures Choose(qs, seed, hand) == seed % |qs|
  {
    assert HandCount(hand, |qs|) == 1;
    ModIsWrap(seed % |qs|, |qs|);
  }

  // ---------------------------------------------------------------- enqueue

  datatype Verdict = Accepted(index: nat) | Rejected | QueueFull

  /** `PriorityLevelStateInner::try_enqueue`: the verdict, and the level after it. */
  function EnqueueVerdict<R>(l: Level<R>, seed: nat): Verdict {
    match l.limit
    case Reject => Rejected
    case Queue(queues, handSize, lengthLimit) =>
      if lengthLimit == 0 || l.queues == [] then
        QueueFull
      else
        var i := Choose(l.queues, seed, Min(Max(handSize, 1), Max(queues, 1)));
        if |l.queues[i]| >= lengthLimit then QueueFull else Accepted(i)
  }

  function Enqueued<R>(l: Level<R>, r: R, seed: nat): Level<R> {
    match EnqueueVerdict(l, seed)
    case Accepted(i) =>
      l.(queues := l.queues[i := l.queues[i] + [r]], queuedCount := l.queuedCount + 1)
    case _ => l
  }

  // ---------------------------------------------------------------- wakeup pop

  /** One turn of the pop scan: the cursor moves on and the queue it pointed at loses its head. */
  function Probe<R>(l: Level<R>): (p: (Level<R>, Option<R>))
    requires l.queues != []
    ensures |p.0.queues| == |l.queues|
    ensures p.0.executing == l.executing && p.0.seats == l.seats && p.0.limit == l.limit
  {
    var n := |l.queues|;
    var c := l.cursor % n;
    var moved := l.(cursor := (l.cursor + 1) % n);
    if l.queues[c] == [] then
      (moved, None)
    else
      (moved.(queues := l.queues[c := l.queues[c][1..]],
              queuedCount := if l.queuedCount == 0 then 0 else l.queuedCount - 1),
       Some(l.queues[c][0]))
  }

  /** `k` turns of the scan, stopping at the first head that is not cancelled. */
  function Scan<R>(l: Level<R>, cancelled: set<R>, k: nat): (p: (Level<R>, Option<R>))
    requires l.queues != []
    ensures |p.0.queues| == |l.queues|
    ensures p.0.executing == l.executing && p.0.seats == l.seats && p.0.limit == l.limit
    decreases k
  {
    if k == 0 then
      (l, None)
    else
      var (l', head) := Probe(l);
      if head.Some? && head.value !in cancelled then (l', head)
      else Scan(l', cancelled, k - 1)
  }

  /** `pop_next_queued_for_wakeup`. */
  function Pop<R>(l: Level<R>, cancelled: set<R>): (p: (Level<R>, Option<R>))
    ensures p.0.executing == l.executing && p.0.seats == l.seats && p.0.limit == l.limit
    ensures |p.0.queues| == |l.queues|
  {
    if l.queuedCount == 0 || l.queues == [] then (l, None)
    else Scan(l, cancelled, |l.queues|)
  }

  // ---------------------------------------------------------------- release

  /** The level after refilling its free seats, whom it admitted, and how often it called the pop. */
  datatype Refilled<R> = Refilled(level: Level<R>, admitted: seq<R>, pops: nat)

  function Refill<R>(l: Level<R>, cancelled: set<R>): (f: Refilled<R>)
    ensures f.level.seats == l.seats && f.level.limit == l.limit
    ensures |f.level.queues| == |l.queues|
    ensures f.level.executing == l.executing + |f.admitted|
    ensures f.admitted == [] || f.level.executing <= l.seats
    ensures f.pops == |f.admitted| + if f.level.executing < l.seats then 1 else 0
    decreases l.seats - l.executing
  {
    if l.executing >= l.seats then
      Refilled(l, [], 0)
    else
      var (l', head) := Pop(l, cancelled);
      if head.None? then
        Refilled(l', [], 1)
      else
        var rest := Refill(l'.(executing := l'.executing + 1), cancelled);
        Refilled(rest.level, [head.value] + rest.admitted, rest.pops + 1)
  }

  /** One seat given back. */
  function Freed<R>(l: Level<R>): Level<R> {
    l.(executing := if l.executing > 0 then l.executing - 1 else 0)
  }

  /** `PriorityLevelState::release`, the locked part. */
  function Release<R>(l: Level<R>, cancelled: set<R>): (f: Refilled<R>) {
    Refill(Freed(l), cancelled)
  }

  // ---------------------------------------------------------------- cancellation

  function IndexOf<R(==)>(q: seq<R>, r: R): (p: nat)
    requires r in q
    ensures p < |q| && q[p] == r
    ensures forall a :: 0 <= a < p ==> q[a] != r
  {
    if q[0] == r then 0 else 1 + IndexOf(q[1..], r)
  }

  function Without<R(==)>(q: seq<R>, r: R): seq<R> {
    if r in q then q[..IndexOf(q, r)] + q[IndexOf(q, r) + 1..] else q
  }

  /** `remove_queued_request`: drop `r` from the queue its back-pointer names. */
  function Remove<R(==)>(l: Level<R>, index: nat, r: R): Level<R> {
    if index < |l.queues| && r in l.queues[index] then
      l.(queues := l.queues[index := Without(l.queues[index], r)],
         queuedCount := if l.queuedCount == 0 then 0 else l.queuedCount - 1)
    else
      l
  }

  // ---------------------------------------------------------------- reconfiguration

  datatype Dealt<R> = Dealt(queues: seq<seq<R>>, index: map<R, nat>)

  /** Deal `rs`, in order, into `n` fresh queues. */
  function Deal<R>(rs: seq<R>, n: nat, hand: nat, seed: R -> nat): (d: Dealt<R>)
    requires 0 < n
    ensures |d.queues| == n
  {
    if rs == [] then
      Dealt(Empties(n), map[])
    else
      var d := Deal(rs[..|rs| - 1], n, hand, seed);
      var r := rs[|rs| - 1];
      var i := Choose(d.queues, seed(r), hand);
      Dealt(d.queues[i := d.queues[i] + [r]], d.index[r := i])
  }

  function HandSize(limit: LimitResponse): nat {
    match limit
    case Reject => 1
    case Queue(_, handSize, _) => Max(handSize, 1)
  }

  /** Whether this change of limit response empties or re-deals the queues. */
  predicate Redeals<R>(l: Level<R>, limit: LimitResponse) {
    l.limit.Queue? && limit.Queue? && l.limit.queues != limit.queues && |l.queues| != Max(limit.queues, 1)
  }

  predicate Clears<R>(l: Level<R>, limit: LimitResponse) {
    l.limit.Queue? != limit.Queue?
  }

  /** `reconfigure`: the level after it and the back-pointers it rewrote. */
  function Reconfigured<R>(l: Level<R>, config: Config, seed: R -> nat): (Level<R>, map<R, nat>) {
    var l := l.(seats := config.seats);
    if Redeals(l, config.limit) then
      var rs := Concat(l.queues);
      var d := Deal(rs, Max(config.limit.queues, 1), HandSize(config.limit), seed);
      (l.(limit := config.limit, queues := d.queues, cursor := 0, queuedCount := |rs|), d.index)
    else if Clears(l, config.limit) then
      var n := if config.limit.Queue? then Max(config.limit.queues, 1) else 0;
      (l.(limit := config.limit, queues := Empties(n), cursor := 0, queuedCount := 0), map[])
    else
      (l.(limit := config.limit), map[])
  }

  function Initial<R>(config: Config): Level<R> {
    var n := if config.limit.Queue? then Max(config.limit.queues, 1) else 1;
    Level(config.seats, config.limit, 0, Empties(n), 0, 0)
  }
}
