/**
   Whom a whole refill admits, told from the level before it.

   Number the turns of an endless scan from the cursor: turn `k * n + o` takes the `k`-th request of
   the queue `o` places further on.  A refill admits the live requests in that order, until the free
   seats are used up or `n` turns in a row find nobody live.
 */
module PriorityLevelRing {
  import opened Common
  import opened PriorityLevelSpec
  import opened PriorityLevelLaws
  import opened PriorityLevelProgress

  // ---------------------------------------------------------------- the turns of an endless scan

  /** Whom turn `x` would take, if that many turns were made. */
  function At<R>(l: Level<R>, x: nat): Option<R>
    requires l.cursor < |l.queues|
  {
    var q := Reached(l, x % |l.queues|);
    if x / |l.queues| < |q| then Some(q[x / |l.queues|]) else None
  }

  predicate Live<R>(l: Level<R>, cancelled: set<R>, x: nat)
    requires l.cursor < |l.queues|
  {
    At(l, x).Some? && At(l, x).value !in cancelled
  }

  /** How many of the first `x` turns take a live request. */
  function LiveBefore<R>(l: Level<R>, cancelled: set<R>, x: nat): nat
    requires l.cursor < |l.queues|
  {
    if x == 0 then 0 else LiveBefore(l, cancelled, x - 1) + if Live(l, cancelled, x - 1) then 1 else 0
  }

  /** One of the `k` turns from turn `x` on takes a live request. */
  ghost predicate LiveWithin<R>(l: Level<R>, cancelled: set<R>, x: nat, k: nat)
    requires l.cursor < |l.queues|
  {
    exists v: nat :: x <= v < x + k && Live(l, cancelled, v)
  }

  /** No lap of turns before turn `x` goes by without a live request. */
  ghost predicate NoIdleLap<R>(l: Level<R>, cancelled: set<R>, x: nat)
    requires l.cursor < |l.queues|
  {
    forall u: nat :: u + |l.queues| <= x ==> LiveWithin(l, cancelled, u, |l.queues|)
  }

  lemma MultipleIsFar(d: int, n: nat)
    ensures d >= 1 ==> d * n >= n
    ensures d <= -1 ==> d * n + n <= 0
  {
  }

  lemma DivModUnique(q: nat, r: nat, n: nat)
    requires r < n
    ensures (q * n + r) / n == q && (q * n + r) % n == r
  {
    var x := q * n + r;
    assert (q - x / n) * n == x % n - r;
    MultipleIsFar(q - x / n, n);
  }

  /** The number of turns that pass before a request is taken is the number of the turn that takes it. */
  lemma AtTurns<R>(l: Level<R>, i: nat, p: nat)
    requires l.cursor < |l.queues| && i < |l.queues| && p < |l.queues[i]|
    ensures At(l, Turns(l, i, p)) == Some(l.queues[i][p])
  {
    DivModUnique(p, TurnsTo(l, i), |l.queues|);
  }

  /** And a turn takes the request whose number of turns it is. */
  lemma TurnsAt<R>(l: Level<R>, x: nat) returns (i: nat, p: nat)
    requires l.cursor < |l.queues| && At(l, x).Some?
    ensures i < |l.queues| && p < |l.queues[i]| && At(l, x) == Some(l.queues[i][p]) && Turns(l, i, p) == x
  {
    var n := |l.queues|;
    i, p := RingSlot(l, x % n), x / n;
    assert TurnsTo(l, i) == x % n;
    assert x == (x / n) * n + x % n;
  }

  lemma PredDivMod(x: nat, n: nat)
    requires 0 < n
    ensures (x + 1) % n > 0 ==> x / n == (x + 1) / n && x % n == (x + 1) % n - 1
    ensures (x + 1) % n == 0 ==> (x + 1) / n > 0 && x / n == (x + 1) / n - 1 && x % n == n - 1
  {
    var q, r := (x + 1) / n, (x + 1) % n;
    assert x + 1 == q * n + r;
    if r > 0 {
      DivModUnique(q, r - 1, n);
    } else {
      assert q > 0;
      assert (q - 1) * n + (n - 1) == x;
      DivModUnique(q - 1, n - 1, n);
    }
  }

  /** After one turn, every later turn is one turn nearer. */
  lemma AtShifts<R>(l: Level<R>, x: nat)
    requires l.cursor < |l.queues|
    ensures Probe(l).0.cursor < |l.queues|
    ensures At(Probe(l).0, x) == At(l, x + 1)
  {
    ProbeMoves(l);
    var l1, n := Probe(l).0, |l.queues|;
    PredDivMod(x, n);
    if (x + 1) % n > 0 {
      ReachedShifts(l, x % n);
    } else {
      assert RingSlot(l1, n - 1) == l.cursor && RingSlot(l, 0) == l.cursor;
    }
  }

  lemma AtZero<R>(l: Level<R>)
    requires l.cursor < |l.queues|
    ensures At(l, 0) == Probe(l).1
  {
    ProbeMoves(l);
  }

  lemma {:induction false} LiveBeforeShifts<R>(l: Level<R>, cancelled: set<R>, x: nat)
    requires l.cursor < |l.queues|
    ensures Probe(l).0.cursor < |l.queues|
    ensures LiveBefore(l, cancelled, x + 1)
         == (if Live(l, cancelled, 0) then 1 else 0) + LiveBefore(Probe(l).0, cancelled, x)
  {
    ProbeMoves(l);
    if x > 0 {
      LiveBeforeShifts(l, cancelled, x - 1);
      AtShifts(l, x - 1);
    }
  }

  lemma WithinShifts<R>(l: Level<R>, cancelled: set<R>, x: nat, k: nat)
    requires l.cursor < |l.queues|
    ensures Probe(l).0.cursor < |l.queues|
    ensures LiveWithin(Probe(l).0, cancelled, x, k) <==> LiveWithin(l, cancelled, x + 1, k)
  {
    ProbeMoves(l);
    var l1 := Probe(l).0;
    if LiveWithin(l1, cancelled, x, k) {
      var v: nat :| x <= v < x + k && Live(l1, cancelled, v);
      AtShifts(l, v);
      assert Live(l, cancelled, v + 1);
    }
    if LiveWithin(l, cancelled, x + 1, k) {
      var v: nat :| x + 1 <= v < x + 1 + k && Live(l, cancelled, v);
      AtShifts(l, v - 1);
      assert Live(l1, cancelled, v - 1);
    }
  }

  lemma WithinFirst<R>(l: Level<R>, cancelled: set<R>, k: nat)
    requires l.cursor < |l.queues| && k > 0
    ensures LiveWithin(l, cancelled, 0, k) <==> Live(l, cancelled, 0) || LiveWithin(l, cancelled, 1, k - 1)
  {
  }

  lemma LapShifts<R>(l: Level<R>, cancelled: set<R>, x: nat)
    requires l.cursor < |l.queues|
    ensures Probe(l).0.cursor < |l.queues|
    ensures NoIdleLap(l, cancelled, x + 1) <==>
            NoIdleLap(Probe(l).0, cancelled, x) && (x + 1 >= |l.queues| ==> LiveWithin(l, cancelled, 0, |l.queues|))
  {
    ProbeMoves(l);
    var l1, n := Probe(l).0, |l.queues|;
    if NoIdleLap(l, cancelled, x + 1) {
      forall u: nat | u + n <= x ensures LiveWithin(l1, cancelled, u, n) {
        WithinShifts(l, cancelled, u, n);
        assert LiveWithin(l, cancelled, u + 1, n);
      }
      assert x + 1 >= n ==> LiveWithin(l, cancelled, 0, n);
    }
    if NoIdleLap(l1, cancelled, x) && (x + 1 >= n ==> LiveWithin(l, cancelled, 0, n)) {
      forall u: nat | u + n <= x + 1 ensures LiveWithin(l, cancelled, u, n) {
        if u > 0 {
          assert LiveWithin(l1, cancelled, u - 1, n);
          WithinShifts(l, cancelled, u - 1, n);
        }
      }
    }
  }

  // ---------------------------------------------------------------- the refill, turn by turn

  /** The requests taken while `free` seats are free, giving up after `k` turns in a row without a live head. */
  function Walk<R>(l: Level<R>, cancelled: set<R>, free: nat, k: nat): seq<R>
    requires l.queues != []
    decreases free, k
  {
    if free == 0 || k == 0 then []
    else
      var (l', head) := Probe(l);
      if head.Some? && head.value !in cancelled then [head.value] + Walk(l', cancelled, free - 1, |l.queues|)
      else Walk(l', cancelled, free, k - 1)
  }

  /** The walk gets as far as turn `x`. */
  ghost predicate Gets<R>(l: Level<R>, cancelled: set<R>, free: nat, k: nat, x: nat)
    requires l.cursor < |l.queues|
  {
    && LiveBefore(l, cancelled, x) < free
    && (x >= k ==> LiveWithin(l, cancelled, 0, k))
    && NoIdleLap(l, cancelled, x)
  }

  lemma GetsAfterLive<R>(l: Level<R>, cancelled: set<R>, free: nat, k: nat, x: nat)
    requires l.cursor < |l.queues| && 0 < k <= |l.queues| && free > 0 && Live(l, cancelled, 0)
    ensures Probe(l).0.cursor < |l.queues|
    ensures Gets(Probe(l).0, cancelled, free - 1, |l.queues|, x) <==> Gets(l, cancelled, free, k, x + 1)
  {
    var n, l1 := |l.queues|, Probe(l).0;
    LiveBeforeShifts(l, cancelled, x);
    LapShifts(l, cancelled, x);
    WithinFirst(l, cancelled, n);
    WithinFirst(l, cancelled, k);
    assert NoIdleLap(l1, cancelled, x) && x >= n ==> LiveWithin(l1, cancelled, 0, n);
  }

  lemma GetsAfterIdle<R>(l: Level<R>, cancelled: set<R>, free: nat, k: nat, x: nat)
    requires l.cursor < |l.queues| && 0 < k <= |l.queues| && !Live(l, cancelled, 0)
    ensures Probe(l).0.cursor < |l.queues|
    ensures Gets(Probe(l).0, cancelled, free, k - 1, x) <==> Gets(l, cancelled, free, k, x + 1)
  {
    LiveBeforeShifts(l, cancelled, x);
    LapShifts(l, cancelled, x);
    WithinFirst(l, cancelled, k);
    WithinShifts(l, cancelled, 0, k - 1);
    assert LiveWithin(l, cancelled, 0, k) ==> LiveWithin(l, cancelled, 0, |l.queues|);
  }

  /** One turn of the walk, from what turn 0 finds. */
  lemma WalkUnfolds<R>(l: Level<R>, cancelled: set<R>, free: nat, k: nat)
    requires l.cursor < |l.queues| && free > 0 && k > 0
    ensures Probe(l).0.cursor < |l.queues| == |Probe(l).0.queues|
    ensures Walk(l, cancelled, free, k)
         == if Live(l, cancelled, 0) then [At(l, 0).value] + Walk(Probe(l).0, cancelled, free - 1, |l.queues|)
            else Walk(Probe(l).0, cancelled, free, k - 1)
  {
    ProbeMoves(l);
    AtZero(l);
  }

  /** The walk takes a live turn's request exactly when it gets there, and in its place among the live ones. */
  ghost predicate Ranked<R>(l: Level<R>, cancelled: set<R>, free: nat, k: nat, x: nat)
    requires l.cursor < |l.queues| && Live(l, cancelled, x)
  {
    var walk, a := Walk(l, cancelled, free, k), LiveBefore(l, cancelled, x);
    && (Gets(l, cancelled, free, k, x) <==> a < |walk|)
    && (a < |walk| ==> walk[a] == At(l, x).value)
  }

  lemma RankedNext<R>(l: Level<R>, cancelled: set<R>, free: nat, k: nat, x: nat)
    requires l.cursor < |l.queues| && free > 0 && 0 < k <= |l.queues| && Live(l, cancelled, x + 1)
    requires Probe(l).0.cursor < |l.queues| == |Probe(l).0.queues| && Live(Probe(l).0, cancelled, x)
    requires if Live(l, cancelled, 0) then Ranked(Probe(l).0, cancelled, free - 1, |l.queues|, x)
             else Ranked(Probe(l).0, cancelled, free, k - 1, x)
    ensures Ranked(l, cancelled, free, k, x + 1)
  {
    WalkUnfolds(l, cancelled, free, k);
    AtShifts(l, x);
    LiveBeforeShifts(l, cancelled, x);
    if Live(l, cancelled, 0) {
      GetsAfterLive(l, cancelled, free, k, x);
    } else {
      GetsAfterIdle(l, cancelled, free, k, x);
    }
  }

  lemma {:induction false} WalkRank<R>(l: Level<R>, cancelled: set<R>, free: nat, k: nat, x: nat)
    requires l.cursor < |l.queues| && k <= |l.queues| && Live(l, cancelled, x)
    ensures Ranked(l, cancelled, free, k, x)
    decreases free, k
  {
    if free > 0 && k > 0 {
      WalkUnfolds(l, cancelled, free, k);
      if x > 0 {
        AtShifts(l, x - 1);
        if Live(l, cancelled, 0) {
          WalkRank(Probe(l).0, cancelled, free - 1, |l.queues|, x - 1);
        } else {
          WalkRank(Probe(l).0, cancelled, free, k - 1, x - 1);
        }
        RankedNext(l, cancelled, free, k, x - 1);
      }
    }
  }

  /** Everybody the walk takes is some live turn's request. */
  lemma {:induction false} WalkTakes<R>(l: Level<R>, cancelled: set<R>, free: nat, k: nat, a: nat) returns (x: nat)
    requires l.cursor < |l.queues| && k <= |l.queues| && a < |Walk(l, cancelled, free, k)|
    ensures Live(l, cancelled, x) && LiveBefore(l, cancelled, x) == a
    ensures At(l, x).value == Walk(l, cancelled, free, k)[a]
    decreases free, k
  {
    WalkUnfolds(l, cancelled, free, k);
    if Live(l, cancelled, 0) && a == 0 {
      x := 0;
    } else {
      var y;
      if Live(l, cancelled, 0) {
        y := WalkTakes(Probe(l).0, cancelled, free - 1, |l.queues|, a - 1);
      } else {
        y := WalkTakes(Probe(l).0, cancelled, free, k - 1, a);
      }
      x := y + 1;
      AtShifts(l, y);
      LiveBeforeShifts(l, cancelled, y);
    }
  }

  lemma {:induction false} WalkForgetsExecuting<R>(l: Level<R>, cancelled: set<R>, free: nat, k: nat, e: nat)
    requires l.queues != []
    ensures Walk(l.(executing := e), cancelled, free, k) == Walk(l, cancelled, free, k)
    decreases free, k
  {
    if free > 0 && k > 0 {
      var (l1, head) := Probe(l);
      assert Probe(l.(executing := e)) == (l1.(executing := e), head);
      if head.Some? && head.value !in cancelled {
        WalkForgetsExecuting(l1, cancelled, free - 1, |l.queues|, e);
      } else {
        WalkForgetsExecuting(l1, cancelled, free, k - 1, e);
      }
    }
  }

  lemma {:induction false} ScanWalks<R>(l: Level<R>, cancelled: set<R>, free: nat, k: nat)
    requires l.queues != [] && free > 0
    ensures Walk(l, cancelled, free, k)
         == if Scan(l, cancelled, k).1.None? then []
            else [Scan(l, cancelled, k).1.value] + Walk(Scan(l, cancelled, k).0, cancelled, free - 1, |l.queues|)
    decreases k
  {
    if k > 0 {
      var (l1, head) := Probe(l);
      if !(head.Some? && head.value !in cancelled) { ScanWalks(l1, cancelled, free, k - 1); }
    }
  }

  /** A pop is the first part of a walk, also when the cached count lets it skip the scan. */
  lemma PopWalks<R>(l: Level<R>, index: map<R, nat>, cancelled: set<R>, free: nat)
    requires WellFormed(l, index) && l.queues != [] && free > 0
    ensures Walk(l, cancelled, free, |l.queues|)
         == if Pop(l, cancelled).1.None? then []
            else [Pop(l, cancelled).1.value] + Walk(Pop(l, cancelled).0, cancelled, free - 1, |l.queues|)
    ensures WellFormed(Pop(l, cancelled).0, index)
  {
    ScanWalks(l, cancelled, free, |l.queues|);
    ScanKeeps(l, index, cancelled, |l.queues|);
    if l.queuedCount == 0 {
      TotalZero(l.queues);
      ScanFindsNone(l, cancelled, |l.queues|);
    }
  }

  lemma {:induction false} RefillWalks<R>(l: Level<R>, index: map<R, nat>, cancelled: set<R>)
    requires WellFormed(l, index) && l.queues != []
    ensures Refill(l, cancelled).admitted == Walk(l, cancelled, Max(l.seats - l.executing, 0), |l.queues|)
    decreases l.seats - l.executing
  {
    if l.executing < l.seats {
      var (l1, head) := Pop(l, cancelled);
      PopWalks(l, index, cancelled, l.seats - l.executing);
      if head.Some? {
        var l2 := l1.(executing := l1.executing + 1);
        assert Refill(l, cancelled).admitted == [head.value] + Refill(l2, cancelled).admitted;
        assert WellFormed(l2, index);
        RefillWalks(l2, index, cancelled);
        WalkForgetsExecuting(l1, cancelled, l.seats - l.executing - 1, |l.queues|, l1.executing + 1);
      }
    }
  }

  // ---------------------------------------------------------------- whom a refill admits

  /** Live, fewer live requests ahead than free seats, and no lap before its turn without one. */
  ghost predicate Admits<R>(l: Level<R>, cancelled: set<R>, i: nat, p: nat)
    requires l.cursor < |l.queues| && i < |l.queues| && p < |l.queues[i]|
  {
    var x := Turns(l, i, p);
    && l.queues[i][p] !in cancelled
    && LiveBefore(l, cancelled, x) < l.seats - l.executing
    && NoIdleLap(l, cancelled, x)
  }

  lemma SamePlace<R>(l: Level<R>, index: map<R, nat>, i: nat, p: nat, j: nat, q: nat)
    requires WellFormed(l, index) && i < |l.queues| && p < |l.queues[i]| && j < |l.queues| && q < |l.queues[j]|
    requires l.queues[i][p] == l.queues[j][q]
    ensures i == j && p == q
  {
    assert index[l.queues[i][p]] == i && index[l.queues[j][q]] == j;
    assert NoDuplicates(l.queues[i]);
  }

  /**
     A refill admits a queued request exactly when `Admits` says so of the level before it; and it
     admits in turn order: the request's place in the list is the number of live ones ahead of it.
   */
  lemma RefillAdmits<R>(l: Level<R>, index: map<R, nat>, cancelled: set<R>, i: nat, p: nat)
    requires WellFormed(l, index) && i < |l.queues| && p < |l.queues[i]|
    ensures l.cursor < |l.queues|
    ensures l.queues[i][p] in Refill(l, cancelled).admitted <==> Admits(l, cancelled, i, p)
    ensures Admits(l, cancelled, i, p) ==>
              var a := LiveBefore(l, cancelled, Turns(l, i, p));
              a < |Refill(l, cancelled).admitted| && Refill(l, cancelled).admitted[a] == l.queues[i][p]
  {
    var free, n, x := Max(l.seats - l.executing, 0), |l.queues|, Turns(l, i, p);
    var admitted := Refill(l, cancelled).admitted;
    RefillWalks(l, index, cancelled);
    AtTurns(l, i, p);
    if Live(l, cancelled, x) {
      WalkRank(l, cancelled, free, n, x);
      assert NoIdleLap(l, cancelled, x) && x >= n ==> LiveWithin(l, cancelled, 0, n);
    }
    if l.queues[i][p] in admitted {
      var a: nat :| a < |admitted| && admitted[a] == l.queues[i][p];
      var y := WalkTakes(l, cancelled, free, n, a);
      var j, q := TurnsAt(l, y);
      SamePlace(l, index, i, p, j, q);
    }
  }

  lemma {:induction false} NoneLiveBefore<R>(l: Level<R>, cancelled: set<R>, x: nat)
    requires l.cursor < |l.queues|
    ensures LiveBefore(l, cancelled, x) == 0 <==> forall v: nat :: v < x ==> !Live(l, cancelled, v)
  {
    if x > 0 { NoneLiveBefore(l, cancelled, x - 1); }
  }

  lemma FirstLap<R>(l: Level<R>, cancelled: set<R>, o: nat)
    requires l.cursor < |l.queues| && o < |l.queues|
    ensures Live(l, cancelled, o) <==> LiveHead(Reached(l, o), cancelled)
  {
    DivModUnique(0, o, |l.queues|);
  }

  lemma OneSeatFirstLap<R>(l: Level<R>, cancelled: set<R>, i: nat, p: nat)
    requires l.cursor < |l.queues| && i < |l.queues| && p < |l.queues[i]| && l.seats == l.executing + 1
    requires Admits(l, cancelled, i, p)
    ensures p == 0
  {
    var x, n := Turns(l, i, p), |l.queues|;
    NoneLiveBefore(l, cancelled, x);
    MultipleIsFar(p, n);
    assert x >= n ==> LiveWithin(l, cancelled, 0, n);
  }

  lemma OneSeatHead<R>(l: Level<R>, cancelled: set<R>, i: nat)
    requires l.cursor < |l.queues| && i < |l.queues| && l.queues[i] != [] && l.seats == l.executing + 1
    ensures Admits(l, cancelled, i, 0) <==>
            && LiveHead(l.queues[i], cancelled)
            && forall o: nat :: o < TurnsTo(l, i) ==> !LiveHead(Reached(l, o), cancelled)
  {
    var x := TurnsTo(l, i);
    assert Turns(l, i, 0) == x;
    NoneLiveBefore(l, cancelled, x);
    forall o: nat | o < x ensures Live(l, cancelled, o) <==> LiveHead(Reached(l, o), cancelled) {
      FirstLap(l, cancelled, o);
    }
  }

  /** With one seat free it is exactly the first live head in ring order that is admitted. */
  lemma OneSeatAdmits<R>(l: Level<R>, cancelled: set<R>, i: nat, p: nat)
    requires l.cursor < |l.queues| && i < |l.queues| && p < |l.queues[i]| && l.seats == l.executing + 1
    ensures Admits(l, cancelled, i, p) <==>
            && p == 0 && LiveHead(l.queues[i], cancelled)
            && forall o: nat :: o < TurnsTo(l, i) ==> !LiveHead(Reached(l, o), cancelled)
  {
    OneSeatHead(l, cancelled, i);
    if Admits(l, cancelled, i, p) { OneSeatFirstLap(l, cancelled, i, p); }
  }
}
