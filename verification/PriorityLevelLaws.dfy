/** What each locked operation of a priority level keeps, one operation at a time. */
module PriorityLevelLaws {
  import opened Common
  import opened PriorityLevelSpec
  import opened PriorityLevelHands

  /** The invariant behind the lock. */
  ghost predicate WellFormed<R>(l: Level<R>, index: map<R, nat>) {
    && l.queuedCount == Total(l.queues)
    && (l.limit.Queue? ==> |l.queues| == Max(l.limit.queues, 1))
    && (l.limit.Reject? ==> AllEmpty(l.queues))
    && (l.cursor == 0 || l.cursor < |l.queues|)
    && EachOnce(l.queues)
    && BackPointers(l.queues, index)
  }

  lemma InitialIsWellFormed<R>(config: Config, index: map<R, nat>)
    ensures WellFormed<R>(Initial(config), index)
  {
    TotalZero<R>(Initial<R>(config).queues);
  }

  /** Where a queued request sits. */
  lemma Place<R>(qs: seq<seq<R>>, r: R) returns (i: nat, a: nat)
    requires Queued(qs, r)
    ensures i < |qs| && a < |qs[i]| && qs[i][a] == r
  {
    i :| i < |qs| && r in qs[i];
    a :| a < |qs[i]| && qs[i][a] == r;
  }

  // ---------------------------------------------------------------- enqueue

  lemma EnqueueKeeps<R>(l: Level<R>, index: map<R, nat>, r: R, seed: nat)
    requires WellFormed(l, index) && !Queued(l.queues, r)
    ensures var v := EnqueueVerdict(l, seed);
            WellFormed(Enqueued(l, r, seed), if v.Accepted? then index[r := v.index] else index)
  {
    var v := EnqueueVerdict(l, seed);
    if v.Accepted? {
      TotalUpdate(l.queues, v.index, l.queues[v.index] + [r]);
    }
  }

  lemma SameHand<R>(l: Level<R>, index: map<R, nat>, seed: nat)
    requires WellFormed(l, index) && l.limit.Queue?
    ensures Choose(l.queues, seed, Min(Max(l.limit.handSize, 1), Max(l.limit.queues, 1)))
         == Choose(l.queues, seed, l.limit.handSize)
  {
    assert HandCount(Min(Max(l.limit.handSize, 1), Max(l.limit.queues, 1)), |l.queues|)
        == HandCount(l.limit.handSize, |l.queues|);
  }

  /**
     In Reject mode an enqueue is refused outright.  In Queue mode it is refused exactly when every
     queue of the flow's hand is at or over its length limit.
   */
  lemma QueueFullIffHandFull<R>(l: Level<R>, index: map<R, nat>, seed: nat)
    requires WellFormed(l, index)
    ensures EnqueueVerdict(l, seed) == Rejected <==> l.limit.Reject?
    ensures l.limit.Queue? ==>
              var n, hand := |l.queues|, l.limit.handSize;
              n > 0 &&
              (EnqueueVerdict(l, seed) == QueueFull <==>
                 forall i: nat ::
                   i < n && (i + n - seed % n) % n < (if hand < 1 then 1 else if hand > n then n else hand)
                   ==> |l.queues[i]| >= l.limit.lengthLimit)
  {
    if l.limit.Queue? {
      ChooseExactly(l.queues, seed, l.limit.handSize);
      SameHand(l, index, seed);
    }
  }

  /**
     An accepted request goes to the back of the queue of its hand that is least, by length, then
     index, and was below the limit; nothing else changes but the count.
   */
  lemma EnqueuePlaces<R>(l: Level<R>, index: map<R, nat>, r: R, seed: nat)
    requires WellFormed(l, index) && EnqueueVerdict(l, seed).Accepted?
    ensures var i, n := EnqueueVerdict(l, seed).index, |l.queues|;
            && l.limit.Queue? && i < n && |l.queues[i]| < l.limit.lengthLimit
            && var hand := if l.limit.handSize < 1 then 1 else if l.limit.handSize > n then n else l.limit.handSize;
            && (i + n - seed % n) % n < hand
            && (forall j: nat :: j < n && j != i && (j + n - seed % n) % n < hand ==>
                  |l.queues[j]| > |l.queues[i]| || (|l.queues[j]| == |l.queues[i]| && j > i))
            && Enqueued(l, r, seed) == l.(queues := l.queues[i := l.queues[i] + [r]], queuedCount := l.queuedCount + 1)
  {
    ChooseExactly(l.queues, seed, l.limit.handSize);
    SameHand(l, index, seed);
  }

  // ---------------------------------------------------------------- pop and release

  /** Every queue of `qs'` is what is left of the same queue of `qs` after losing some heads. */
  ghost predicate Suffixes<R>(qs': seq<seq<R>>, qs: seq<seq<R>>) {
    && |qs'| == |qs|
    && forall i :: 0 <= i < |qs| ==>
         IsSuffix(qs'[i], qs[i])
  }

  ghost predicate IsSuffix<R>(q': seq<R>, q: seq<R>) {
    |q'| <= |q| && forall a :: 0 <= a < |q'| ==> q'[a] == q[a + (|q| - |q'|)]
  }

  lemma SuffixesTransitive<R>(a: seq<seq<R>>, b: seq<seq<R>>, c: seq<seq<R>>)
    requires Suffixes(a, b) && Suffixes(b, c)
    ensures Suffixes(a, c)
  {
    forall i | 0 <= i < |c| ensures IsSuffix(a[i], c[i]) {
      assert IsSuffix(a[i], b[i]) && IsSuffix(b[i], c[i]);
    }
  }

  lemma SuffixesKeep<R>(qs': seq<seq<R>>, qs: seq<seq<R>>, index: map<R, nat>)
    requires Suffixes(qs', qs) && EachOnce(qs) && BackPointers(qs, index)
    ensures EachOnce(qs') && BackPointers(qs', index)
    ensures forall r :: Queued(qs', r) ==> Queued(qs, r)
  {
    forall i | 0 <= i < |qs'| ensures NoDuplicates(qs'[i]) && forall r :: r in qs'[i] ==> r in qs[i] {
      assert NoDuplicates(qs[i]);
      assert IsSuffix(qs'[i], qs[i]);
    }
  }

  lemma OneHome<R>(qs: seq<seq<R>>, index: map<R, nat>)
    requires BackPointers(qs, index)
    ensures forall i, j, r :: 0 <= i < |qs| && 0 <= j < |qs| && r in qs[i] && r in qs[j] ==> i == j
  {
    forall i, j, r | 0 <= i < |qs| && 0 <= j < |qs| && r in qs[i] && r in qs[j] ensures i == j {
      assert index[r] == i;
    }
  }

  /** Popping the head of queue `c` takes that request out of the level and no other. */
  lemma HeadLeaves<R>(qs: seq<seq<R>>, c: nat, index: map<R, nat>)
    requires c < |qs| && qs[c] != [] && EachOnce(qs) && BackPointers(qs, index)
    ensures var qs' := qs[c := qs[c][1..]];
            && Queued(qs, qs[c][0]) && !Queued(qs', qs[c][0])
            && (forall r :: Queued(qs, r) && r != qs[c][0] ==> Queued(qs', r))
  {
    var head, qs' := qs[c][0], qs[c := qs[c][1..]];
    OneHome(qs, index);
    assert head in qs[c];
    assert NoDuplicates(qs[c]);
    forall i | 0 <= i < |qs'| ensures head !in qs'[i] {
      assert qs'[i] == if i == c then qs[c][1..] else qs[i];
    }
    forall r | Queued(qs, r) && r != head ensures Queued(qs', r) {
      var i :| 0 <= i < |qs| && r in qs[i];
      assert r in qs'[i];
    }
  }

  lemma ProbeKeeps<R>(l: Level<R>, index: map<R, nat>)
    requires WellFormed(l, index) && l.queues != []
    ensures WellFormed(Probe(l).0, index)
    ensures Suffixes(Probe(l).0.queues, l.queues)
    ensures Probe(l).1.Some? ==> l.queuedCount > 0
  {
    var c := l.cursor % |l.queues|;
    var (l', head) := Probe(l);
    if head.Some? {
      TotalUpdate(l.queues, c, l.queues[c][1..]);
      SuffixesKeep(l'.queues, l.queues, index);
    }
  }

  lemma ProbeEffect<R>(l: Level<R>, index: map<R, nat>)
    requires WellFormed(l, index) && l.queues != []
    ensures var (l', head) := Probe(l);
            && (head.Some? ==> Queued(l.queues, head.value) && !Queued(l'.queues, head.value))
            && (forall r :: Queued(l.queues, r) && head != Some(r) ==> Queued(l'.queues, r))
  {
    var c := l.cursor % |l.queues|;
    if l.queues[c] != [] { HeadLeaves(l.queues, c, index); }
  }

  lemma {:induction false} ScanKeeps<R>(l: Level<R>, index: map<R, nat>, cancelled: set<R>, k: nat)
    requires WellFormed(l, index) && l.queues != []
    ensures WellFormed(Scan(l, cancelled, k).0, index)
    decreases k
  {
    if k > 0 {
      ProbeKeeps(l, index);
      ScanKeeps(Probe(l).0, index, cancelled, k - 1);
    }
  }

  lemma {:induction false} RefillKeeps<R>(l: Level<R>, index: map<R, nat>, cancelled: set<R>)
    requires WellFormed(l, index)
    ensures WellFormed(Refill(l, cancelled).level, index)
    decreases l.seats - l.executing
  {
    if l.executing < l.seats {
      var (l1, head) := Pop(l, cancelled);
      if !(l.queuedCount == 0 || l.queues == []) { ScanKeeps(l, index, cancelled, |l.queues|); }
      if head.Some? { RefillKeeps(l1.(executing := l1.executing + 1), index, cancelled); }
    }
  }

  lemma ProbeSuffixes<R>(l: Level<R>)
    requires l.queues != []
    ensures Suffixes(Probe(l).0.queues, l.queues)
  {
  }

  lemma {:induction false} ScanSuffixes<R>(l: Level<R>, cancelled: set<R>, k: nat)
    requires l.queues != []
    ensures Suffixes(Scan(l, cancelled, k).0.queues, l.queues)
    decreases k
  {
    if k > 0 {
      var (l1, head) := Probe(l);
      ProbeSuffixes(l);
      if !(head.Some? && head.value !in cancelled) {
        ScanSuffixes(l1, cancelled, k - 1);
        SuffixesTransitive(Scan(l1, cancelled, k - 1).0.queues, l1.queues, l.queues);
      }
    }
  }

  lemma {:induction false} RefillSuffixes<R>(l: Level<R>, cancelled: set<R>)
    ensures Suffixes(Refill(l, cancelled).level.queues, l.queues)
    decreases l.seats - l.executing
  {
    if l.executing < l.seats {
      var (l1, head) := Pop(l, cancelled);
      if !(l.queuedCount == 0 || l.queues == []) { ScanSuffixes(l, cancelled, |l.queues|); }
      if head.Some? {
        var l2 := l1.(executing := l1.executing + 1);
        RefillSuffixes(l2, cancelled);
        SuffixesTransitive(Refill(l2, cancelled).level.queues, l1.queues, l.queues);
      }
    }
  }

  /** A pop takes out the request it returns, which is live, and otherwise only cancelled ones. */
  ghost predicate PopEffect<R>(qs: seq<seq<R>>, qs': seq<seq<R>>, found: Option<R>, cancelled: set<R>) {
    && (found.Some? ==> found.value !in cancelled && Queued(qs, found.value) && !Queued(qs', found.value))
    && (forall r :: Queued(qs', r) ==> Queued(qs, r))
    && (forall r :: Queued(qs, r) && found != Some(r) && r !in cancelled ==> Queued(qs', r))
  }

  lemma {:induction false} ScanEffect<R>(l: Level<R>, index: map<R, nat>, cancelled: set<R>, k: nat)
    requires WellFormed(l, index) && l.queues != []
    ensures PopEffect(l.queues, Scan(l, cancelled, k).0.queues, Scan(l, cancelled, k).1, cancelled)
    decreases k
  {
    if k > 0 {
      var (l1, head) := Probe(l);
      ProbeKeeps(l, index);
      ProbeEffect(l, index);
      SuffixesKeep(l1.queues, l.queues, index);
      if !(head.Some? && head.value !in cancelled) {
        ScanEffect(l1, index, cancelled, k - 1);
      }
    }
  }

  /** A refill takes out the requests it admits, each once and live, and otherwise only cancelled ones. */
  ghost predicate RefillEffect<R>(qs: seq<seq<R>>, qs': seq<seq<R>>, admitted: seq<R>, cancelled: set<R>) {
    && NoDuplicates(admitted)
    && (forall r :: r in admitted ==> r !in cancelled && Queued(qs, r) && !Queued(qs', r))
    && (forall r :: Queued(qs', r) ==> Queued(qs, r))
    && (forall r :: Queued(qs, r) && r !in admitted && r !in cancelled ==> Queued(qs', r))
  }

  lemma RefillEffectStep<R>(qs: seq<seq<R>>, qs1: seq<seq<R>>, qs2: seq<seq<R>>,
                            head: R, rest: seq<R>, cancelled: set<R>)
    requires PopEffect(qs, qs1, Some(head), cancelled)
    requires RefillEffect(qs1, qs2, rest, cancelled)
    ensures RefillEffect(qs, qs2, [head] + rest, cancelled)
  {
  }

  lemma {:induction false} RefillTakes<R>(l: Level<R>, index: map<R, nat>, cancelled: set<R>)
    requires WellFormed(l, index)
    ensures RefillEffect(l.queues, Refill(l, cancelled).level.queues, Refill(l, cancelled).admitted, cancelled)
    decreases l.seats - l.executing
  {
    if l.executing < l.seats {
      var (l1, head) := Pop(l, cancelled);
      if !(l.queuedCount == 0 || l.queues == []) {
        ScanKeeps(l, index, cancelled, |l.queues|);
        ScanEffect(l, index, cancelled, |l.queues|);
      }
      if head.Some? {
        var l2 := l1.(executing := l1.executing + 1);
        RefillTakes(l2, index, cancelled);
        var rest := Refill(l2, cancelled);
        RefillEffectStep(l.queues, l1.queues, rest.level.queues, head.value, rest.admitted, cancelled);
      }
    }
  }

  lemma ReleaseKeeps<R>(l: Level<R>, index: map<R, nat>, cancelled: set<R>)
    requires WellFormed(l, index)
    ensures WellFormed(Release(l, cancelled).level, index)
    ensures Suffixes(Release(l, cancelled).level.queues, l.queues)
    ensures RefillEffect(l.queues, Release(l, cancelled).level.queues, Release(l, cancelled).admitted, cancelled)
  {
    RefillKeeps(Freed(l), index, cancelled);
    RefillSuffixes(Freed(l), cancelled);
    RefillTakes(Freed(l), index, cancelled);
  }

  // ---------------------------------------------------------------- cancellation

  lemma WithoutLaws<R>(q: seq<R>, r: R)
    requires NoDuplicates(q) && r in q
    ensures |Without(q, r)| == |q| - 1 && NoDuplicates(Without(q, r))
    ensures forall x :: x in Without(q, r) <==> x in q && x != r
  {
    var p := IndexOf(q, r);
    forall x | x in q && x != r ensures x in Without(q, r) {
      var a :| 0 <= a < |q| && q[a] == x;
      assert Without(q, r)[if a < p then a else a - 1] == x;
    }
  }

  /** Cancelling removes that request and nothing else; a request no longer queued changes nothing. */
  lemma RemoveKeeps<R>(l: Level<R>, index: map<R, nat>, r: R)
    requires WellFormed(l, index) && r in index
    ensures var l' := Remove(l, index[r], r);
            && WellFormed(l', index)
            && |l'.queues| == |l.queues| && l'.executing == l.executing && l'.seats == l.seats && l'.limit == l.limit
            && (!Queued(l.queues, r) ==> l' == l)
            && (Queued(l.queues, r) ==> l'.queuedCount == l.queuedCount - 1)
            && (forall x :: Queued(l'.queues, x) <==> Queued(l.queues, x) && x != r)
  {
    var i := index[r];
    var l' := Remove(l, i, r);
    if i < |l.queues| && r in l.queues[i] {
      assert NoDuplicates(l.queues[i]);
      WithoutLaws(l.queues[i], r);
      TotalUpdate(l.queues, i, Without(l.queues[i], r));
      forall x | Queued(l.queues, x) && x != r ensures Queued(l'.queues, x) {
        var j :| 0 <= j < |l.queues| && x in l.queues[j];
        assert x in l'.queues[j];
      }
      forall x | Queued(l'.queues, x) ensures Queued(l.queues, x) && x != r {
        var j :| 0 <= j < |l.queues| && x in l'.queues[j];
        assert x in l.queues[j];
      }
    }
  }

  // ---------------------------------------------------------------- re-dealing

  lemma {:induction false} ConcatUpdate<R>(qs: seq<seq<R>>, i: nat, r: R)
    requires i < |qs|
    ensures multiset(Concat(qs[i := qs[i] + [r]])) == multiset(Concat(qs)) + multiset{r}
  {
    var last := |qs| - 1;
    var qs' := qs[i := qs[i] + [r]];
    if i == last {
      assert qs'[..last] == qs[..last];
      assert Concat(qs') == Concat(qs) + [r];
    } else {
      ConcatUpdate(qs[..last], i, r);
      assert qs'[..last] == qs[..last][i := qs[..last][i] + [r]];
      assert Concat(qs') == Concat(qs'[..last]) + qs[last];
      assert Concat(qs) == Concat(qs[..last]) + qs[last];
    }
  }

  lemma {:induction false} ConcatMembers<R>(qs: seq<seq<R>>)
    ensures forall r :: r in Concat(qs) <==> Queued(qs, r)
  {
    if qs != [] {
      var last := |qs| - 1;
      ConcatMembers(qs[..last]);
      forall r ensures r in Concat(qs) <==> Queued(qs, r) {
        if Queued(qs[..last], r) {
          var i :| 0 <= i < last && r in qs[..last][i];
          assert r in qs[i];
        }
        if Queued(qs, r) {
          var i :| 0 <= i < |qs| && r in qs[i];
          if i < last { assert r in qs[..last][i]; }
        }
      }
    }
  }

  lemma {:induction false} ConcatNoDuplicates<R>(qs: seq<seq<R>>, index: map<R, nat>)
    requires EachOnce(qs) && BackPointers(qs, index)
    ensures NoDuplicates(Concat(qs))
  {
    if qs != [] {
      var last := |qs| - 1;
      var front := qs[..last];
      assert EachOnce(front) by {
        forall i | 0 <= i < |front| ensures NoDuplicates(front[i]) { assert front[i] == qs[i]; }
      }
      assert BackPointers(front, index);
      ConcatNoDuplicates(front, index);
      ConcatMembers(front);
      OneHome(qs, index);
      forall r | r in Concat(front) ensures r !in qs[last] {
        assert Queued(front, r);
        var i :| 0 <= i < |front| && r in front[i];
        assert r in qs[i];
      }
      assert NoDuplicates(qs[last]);
      var c, k := Concat(qs), |Concat(front)|;
      assert c == Concat(front) + qs[last];
      forall a, b | 0 <= a < b < |c| ensures c[a] != c[b] {
        if a < k <= b { assert c[a] in Concat(front) && c[b] in qs[last]; }
      }
    }
  }

  /** `x` stands before `y` in `q`. */
  ghost predicate Precedes<R>(q: seq<R>, x: R, y: R) {
    exists a, b :: 0 <= a < b < |q| && q[a] == x && q[b] == y
  }

  lemma {:induction false} ConcatKeepsOrder<R>(qs: seq<seq<R>>, i: nat, x: R, y: R)
    requires i < |qs| && Precedes(qs[i], x, y)
    ensures Precedes(Concat(qs), x, y)
  {
    var last := |qs| - 1;
    if i == last {
      var a, b :| 0 <= a < b < |qs[i]| && qs[i][a] == x && qs[i][b] == y;
      var k := |Concat(qs[..last])|;
      assert Concat(qs)[k + a] == x && Concat(qs)[k + b] == y;
    } else {
      ConcatKeepsOrder(qs[..last], i, x, y);
      var c := Concat(qs[..last]);
      var a, b :| 0 <= a < b < |c| && c[a] == x && c[b] == y;
      assert Concat(qs)[a] == x && Concat(qs)[b] == y;
    }
  }

  lemma {:induction false} DealCounts<R>(rs: seq<R>, n: nat, hand: nat, seed: R -> nat)
    requires 0 < n
    ensures multiset(Concat(Deal(rs, n, hand, seed).queues)) == multiset(rs)
    ensures Total(Deal(rs, n, hand, seed).queues) == |rs|
  {
    var qs := Deal(rs, n, hand, seed).queues;
    TotalIsConcat(qs);
    if rs == [] {
      TotalZero(qs);
    } else {
      var m := |rs| - 1;
      var d := Deal(rs[..m], n, hand, seed);
      assert rs == rs[..m] + [rs[m]];
      DealCounts(rs[..m], n, hand, seed);
      ConcatUpdate(d.queues, Choose(d.queues, seed(rs[m]), hand), rs[m]);
      assert |multiset(Concat(qs))| == |multiset(rs)|;
    }
  }

  /** Each dealt request lies in exactly one queue, the one its new back-pointer names, and in its hand. */
  ghost predicate DealtRight<R>(d: Dealt<R>, rs: seq<R>, n: nat, hand: nat, seed: R -> nat)
    requires 0 < n
  {
    && |d.queues| == n
    && (forall r :: r in rs ==> r in d.index)
    && (forall r :: r in d.index ==> r in rs)
    && EachOnce(d.queues)
    && BackPointers(d.queues, d.index)
    && (forall r :: r in d.index ==> d.index[r] < n && r in d.queues[d.index[r]])
    && (forall r :: r in d.index ==> InHand(d.index[r], seed(r), hand, n))
  }

  lemma DealOne<R>(d: Dealt<R>, rs: seq<R>, n: nat, hand: nat, seed: R -> nat, r: R, i: nat)
    requires 0 < n && DealtRight(d, rs, n, hand, seed) && r !in rs && i < n && InHand(i, seed(r), hand, n)
    ensures DealtRight(Dealt(d.queues[i := d.queues[i] + [r]], d.index[r := i]), rs + [r], n, hand, seed)
  {
    assert NoDuplicates(d.queues[i]);
    assert r !in d.index;
    assert r !in d.queues[i];
  }

  lemma {:induction false} DealLaws<R>(rs: seq<R>, n: nat, hand: nat, seed: R -> nat)
    requires 0 < n && NoDuplicates(rs)
    ensures DealtRight(Deal(rs, n, hand, seed), rs, n, hand, seed)
  {
    if rs != [] {
      var m := |rs| - 1;
      var front, r := rs[..m], rs[m];
      assert rs == front + [r];
      DealLaws(front, n, hand, seed);
      var d := Deal(front, n, hand, seed);
      var i := Choose(d.queues, seed(r), hand);
      ChooseIsLeastOfHand(d.queues, seed(r), hand, i);
      DealOne(d, front, n, hand, seed, r, i);
    }
  }

  /** Requests that land in one queue are in the order in which they were dealt. */
  lemma {:induction false} DealKeepsOrder<R>(rs: seq<R>, n: nat, hand: nat, seed: R -> nat, j: nat, x: R, y: R)
    requires 0 < n && NoDuplicates(rs) && Precedes(rs, x, y)
    requires j < n && x in Deal(rs, n, hand, seed).queues[j] && y in Deal(rs, n, hand, seed).queues[j]
    ensures Precedes(Deal(rs, n, hand, seed).queues[j], x, y)
  {
    var m := |rs| - 1;
    var front, r := rs[..m], rs[m];
    assert rs == front + [r];
    var d := Deal(front, n, hand, seed);
    var q := Deal(rs, n, hand, seed).queues[j];
    DealLaws(front, n, hand, seed);
    var a, b :| 0 <= a < b < |rs| && rs[a] == x && rs[b] == y;
    assert x in front && x != r;
    if y == r {
      assert x in d.queues[j];
      var p :| 0 <= p < |d.queues[j]| && d.queues[j][p] == x;
      assert q[|q| - 1] == y && q[p] == x;
    } else {
      assert b < m;
      assert front[a] == x && front[b] == y;
      DealKeepsOrder(front, n, hand, seed, j, x, y);
      var p, p' :| 0 <= p < p' < |d.queues[j]| && d.queues[j][p] == x && d.queues[j][p'] == y;
      assert q[p] == x && q[p'] == y;
    }
  }

  lemma DealtQueued<R>(d: Dealt<R>, rs: seq<R>, n: nat, hand: nat, seed: R -> nat, r: R)
    requires 0 < n && DealtRight(d, rs, n, hand, seed)
    ensures Queued(d.queues, r) <==> r in rs
  {
    if r in rs { assert r in d.index; }
  }

  /** What a re-deal deals: everybody queued, once. */
  lemma RedealDeals<R>(l: Level<R>, index: map<R, nat>, limit: LimitResponse, seed: R -> nat)
    requires WellFormed(l, index) && Redeals(l, limit)
    ensures var rs, n, hand := Concat(l.queues), Max(limit.queues, 1), HandSize(limit);
            var d := Deal(rs, n, hand, seed);
            && DealtRight(d, rs, n, hand, seed)
            && multiset(Concat(d.queues)) == multiset(rs) && |rs| == Total(d.queues) == l.queuedCount
  {
    ConcatNoDuplicates(l.queues, index);
    TotalIsConcat(l.queues);
    DealLaws(Concat(l.queues), Max(limit.queues, 1), HandSize(limit), seed);
    DealCounts(Concat(l.queues), Max(limit.queues, 1), HandSize(limit), seed);
  }

  lemma RedealKeepsQueued<R>(l: Level<R>, index: map<R, nat>, config: Config, seed: R -> nat)
    requires WellFormed(l, index) && Redeals(l, config.limit)
    ensures forall r :: Queued(Reconfigured(l, config, seed).0.queues, r) ==> Queued(l.queues, r)
    ensures forall r :: Queued(l.queues, r) ==> Queued(Reconfigured(l, config, seed).0.queues, r)
  {
    var rs, n, hand := Concat(l.queues), Max(config.limit.queues, 1), HandSize(config.limit);
    var d := Deal(rs, n, hand, seed);
    RedealDeals(l, index, config.limit, seed);
    ConcatMembers(l.queues);
    forall r | Queued(d.queues, r) ensures Queued(l.queues, r) { DealtQueued(d, rs, n, hand, seed, r); }
    forall r | Queued(l.queues, r) ensures Queued(d.queues, r) { DealtQueued(d, rs, n, hand, seed, r); }
  }

  lemma HandSizeInHand(i: nat, seed: nat, limit: LimitResponse, n: nat)
    requires 0 < n && limit.Queue? && InHand(i, seed, HandSize(limit), n)
    ensures InHand(i, seed, limit.handSize, n)
  {
    assert HandCount(HandSize(limit), n) == HandCount(limit.handSize, n);
  }

  lemma DealtLands<R>(d: Dealt<R>, rs: seq<R>, n: nat, hand: nat, seed: R -> nat, r: R)
    requires 0 < n && DealtRight(d, rs, n, hand, seed) && r in rs
    ensures r in d.index && d.index[r] < n && r in d.queues[d.index[r]] && InHand(d.index[r], seed(r), hand, n)
  {
  }

  /** Each request lands in its flow's hand for the new queue count, with its back-pointer there. */
  lemma RedealLands<R>(l: Level<R>, index: map<R, nat>, config: Config, seed: R -> nat, r: R)
    requires WellFormed(l, index) && Redeals(l, config.limit) && Queued(l.queues, r)
    ensures var (l', index') := Reconfigured(l, config, seed);
            && r in index' && index'[r] < |l'.queues| && r in l'.queues[index'[r]]
            && InHand(index'[r], seed(r), config.limit.handSize, |l'.queues|)
            && var n, hand := |l'.queues|, config.limit.handSize;
            (index'[r] + n - seed(r) % n) % n < (if hand < 1 then 1 else if hand > n then n else hand)
  {
    var rs, n, hand := Concat(l.queues), Max(config.limit.queues, 1), HandSize(config.limit);
    var d := Deal(rs, n, hand, seed);
    assert r in rs by { ConcatMembers(l.queues); }
    assert DealtRight(d, rs, n, hand, seed) by { RedealDeals(l, index, config.limit, seed); }
    DealtLands(d, rs, n, hand, seed, r);
    HandSizeInHand(d.index[r], seed(r), config.limit, n);
    InHandExactly(d.index[r], seed(r), config.limit.handSize, n);
  }

  lemma {:induction false} DealForgetsMax<R>(rs: seq<R>, n: nat, hand: nat, seed: R -> nat)
    requires 0 < n
    ensures Deal(rs, n, Max(hand, 1), seed) == Deal(rs, n, hand, seed)
  {
    if rs != [] {
      DealForgetsMax(rs[..|rs| - 1], n, hand, seed);
      assert HandCount(Max(hand, 1), n) == HandCount(hand, n);
    }
  }

  /** A re-deal deals everybody, queue by queue from the head, with the configured hand and number of queues. */
  lemma RedealExactly<R>(l: Level<R>, config: Config, seed: R -> nat)
    requires Redeals(l, config.limit)
    ensures var n := if config.limit.queues == 0 then 1 else config.limit.queues;
            var d := Deal(Concat(l.queues), n, config.limit.handSize, seed);
            Reconfigured(l, config, seed).0.queues == d.queues && Reconfigured(l, config, seed).1 == d.index
  {
    DealForgetsMax(Concat(l.queues), Max(config.limit.queues, 1), config.limit.handSize, seed);
  }

  /**
     Re-dealing loses and duplicates nothing: the queued requests are the same multiset.
     `RedealLands` says where each lands; `RedealKeepsOrder` that two requests of one old queue
     that meet again in one new queue keep their order.
   */
  lemma RedealLaws<R>(l: Level<R>, index: map<R, nat>, config: Config, seed: R -> nat)
    requires WellFormed(l, index) && Redeals(l, config.limit)
    ensures var l' := Reconfigured(l, config, seed).0;
            && multiset(Concat(l'.queues)) == multiset(Concat(l.queues))
            && l'.queuedCount == l.queuedCount == Total(l'.queues) && l'.executing == l.executing
  {
    RedealDeals(l, index, config.limit, seed);
  }

  lemma RedealKeepsOrder<R>(l: Level<R>, index: map<R, nat>, config: Config, seed: R -> nat,
                            i: nat, j: nat, x: R, y: R)
    requires WellFormed(l, index) && Redeals(l, config.limit)
    requires i < |l.queues| && Precedes(l.queues[i], x, y)
    requires var qs := Reconfigured(l, config, seed).0.queues; j < |qs| && x in qs[j] && y in qs[j]
    ensures Precedes(Reconfigured(l, config, seed).0.queues[j], x, y)
  {
    ConcatNoDuplicates(l.queues, index);
    ConcatKeepsOrder(l.queues, i, x, y);
    DealKeepsOrder(Concat(l.queues), Max(config.limit.queues, 1), HandSize(config.limit), seed, j, x, y);
  }

  lemma DealtIsWellFormed<R>(l: Level<R>, index: map<R, nat>, d: Dealt<R>, rs: seq<R>, hand: nat, seed: R -> nat)
    requires l.limit.Queue? && DealtRight(d, rs, Max(l.limit.queues, 1), hand, seed)
    requires l.queues == d.queues && l.queuedCount == Total(d.queues) && l.cursor == 0
    ensures WellFormed(l, index + d.index)
  {
  }

  lemma RedealKeeps<R>(l: Level<R>, index: map<R, nat>, config: Config, seed: R -> nat)
    requires WellFormed(l, index) && Redeals(l, config.limit)
    ensures WellFormed(Reconfigured(l, config, seed).0, index + Reconfigured(l, config, seed).1)
    ensures forall r :: r in Reconfigured(l, config, seed).1 ==> Queued(l.queues, r)
  {
    var rs, n, hand := Concat(l.queues), Max(config.limit.queues, 1), HandSize(config.limit);
    RedealDeals(l, index, config.limit, seed);
    ConcatMembers(l.queues);
    DealtIsWellFormed(Reconfigured(l, config, seed).0, index, Deal(rs, n, hand, seed), rs, hand, seed);
  }

  lemma OtherwiseKeeps<R>(l: Level<R>, index: map<R, nat>, config: Config, seed: R -> nat)
    requires WellFormed(l, index) && !Redeals(l, config.limit)
    ensures Reconfigured(l, config, seed).1 == map[]
    ensures var l' := Reconfigured(l, config, seed).0;
            && WellFormed(l', index)
            && (if Clears(l, config.limit) then AllEmpty(l'.queues) && l'.queuedCount == 0 else l'.queues == l.queues)
  {
    if Clears(l, config.limit) { TotalZero(Reconfigured(l, config, seed).0.queues); }
  }

  lemma ReconfigureKeeps<R>(l: Level<R>, index: map<R, nat>, config: Config, seed: R -> nat)
    requires WellFormed(l, index)
    ensures WellFormed(Reconfigured(l, config, seed).0, index + Reconfigured(l, config, seed).1)
    ensures forall r :: r in Reconfigured(l, config, seed).1 ==> Queued(l.queues, r)
    ensures var l' := Reconfigured(l, config, seed).0;
            && l'.executing == l.executing && l'.seats == config.seats && l'.limit == config.limit
            && (forall r :: Queued(l'.queues, r) ==> Queued(l.queues, r))
            && (!Clears(l, config.limit) ==> forall r :: Queued(l.queues, r) ==> Queued(l'.queues, r))
            && (Clears(l, config.limit) ==> l'.queuedCount == 0)
  {
    if Redeals(l, config.limit) {
      RedealKeeps(l, index, config, seed);
      RedealKeepsQueued(l, index, config, seed);
    } else {
      OtherwiseKeeps(l, index, config, seed);
      assert index + map[] == index;
    }
  }

  /** What each change of configuration does to the level, case by case. */
  lemma ReconfigureExactly<R>(l: Level<R>, index: map<R, nat>, config: Config, seed: R -> nat)
    requires WellFormed(l, index)
    ensures var l' := Reconfigured(l, config, seed).0;
            && l'.seats == config.seats && l'.limit == config.limit && l'.executing == l.executing
            && match (l.limit, config.limit)
               case (Queue(m, _, _), Queue(n, _, _)) =>
                 if |l.queues| == (if n == 0 then 1 else n) then
                   l'.queues == l.queues && l'.cursor == l.cursor && l'.queuedCount == l.queuedCount
                 else
                   |l'.queues| == (if n == 0 then 1 else n) && l'.cursor == 0 && l'.queuedCount == l.queuedCount
               case (Queue(_, _, _), Reject) => l'.queues == [] && l'.cursor == 0 && l'.queuedCount == 0
               case (Reject, Queue(n, _, _)) =>
                 && |l'.queues| == (if n == 0 then 1 else n) && l'.cursor == 0 && l'.queuedCount == 0
                 && forall i :: 0 <= i < |l'.queues| ==> l'.queues[i] == []
               case (Reject, Reject) =>
                 l'.queues == l.queues && l'.cursor == l.cursor && l'.queuedCount == l.queuedCount
  {
    if Redeals(l, config.limit) { RedealLaws(l, index, config, seed); }
  }

  /** A new level: the configured seats and limit, nobody seated, and empty queues. */
  lemma InitialExactly<R>(config: Config)
    ensures var l := Initial<R>(config);
            && l.seats == config.seats && l.limit == config.limit && l.executing == 0
            && |l.queues| == (if config.limit.Queue? && config.limit.queues > 0 then config.limit.queues else 1)
            && (forall i :: 0 <= i < |l.queues| ==> l.queues[i] == []) && l.cursor == 0 && l.queuedCount == 0
  {
  }
}
