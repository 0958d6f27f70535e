/** Shuffle sharding in numbers: which queues a flow's hand holds, and which of them a request joins. */
module PriorityLevelHands {
  import opened Common
  import opened PriorityLevelSpec

  lemma SlotDistance(seed: nat, o: nat, n: nat)
    requires 0 < n && o < n
    ensures (Slot(seed, o, n) + n - seed % n) % n == o
  {
    var s := seed % n;
    ModIsWrap(s + o, n);
    ModIsWrap(Slot(seed, o, n) + n - s, n);
  }

  lemma DistanceSlot(seed: nat, i: nat, n: nat)
    requires 0 < n && i < n
    ensures Slot(seed, (i + n - seed % n) % n, n) == i
  {
    var s := seed % n;
    ModIsWrap(i + n - s, n);
    ModIsWrap(s + Wrap(i + n - s, n), n);
  }

  /**
     The hand is the hash's own queue and those after it, around the end: as many as the hand size
     says, at least one and at most all.
   */
  lemma InHandExactly(i: nat, seed: nat, hand: nat, n: nat)
    requires 0 < n
    ensures InHand(i, seed, hand, n) <==>
            i < n && (i + n - seed % n) % n < (if hand < 1 then 1 else if hand > n then n else hand)
  {
    if InHand(i, seed, hand, n) {
      var o: nat :| o < HandCount(hand, n) && i == Slot(seed, o, n);
      SlotDistance(seed, o, n);
    }
    if i < n && (i + n - seed % n) % n < (if hand < 1 then 1 else if hand > n then n else hand) {
      DistanceSlot(seed, i, n);
      assert (i + n - seed % n) % n < HandCount(hand, n);
    }
  }

  /** The first `k` queues from the hash's own on. */
  function Slots(seed: nat, k: nat, n: nat): set<nat>
    requires 0 < n
  {
    if k == 0 then {} else Slots(seed, k - 1, n) + {Slot(seed, k - 1, n)}
  }

  lemma {:induction false} SlotIn(seed: nat, k: nat, n: nat, o: nat)
    requires 0 < n && o < k
    ensures Slot(seed, o, n) in Slots(seed, k, n)
  {
    if o < k - 1 { SlotIn(seed, k - 1, n, o); }
  }

  lemma {:induction false} SlotOf(seed: nat, k: nat, n: nat, i: nat) returns (o: nat)
    requires 0 < n && i in Slots(seed, k, n)
    ensures o < k && i == Slot(seed, o, n)
  {
    if i == Slot(seed, k - 1, n) {
      o := k - 1;
    } else {
      o := SlotOf(seed, k - 1, n, i);
    }
  }

  lemma SlotIsNew(seed: nat, k: nat, n: nat)
    requires 0 < n && k < n
    ensures Slot(seed, k, n) !in Slots(seed, k, n)
  {
    if Slot(seed, k, n) in Slots(seed, k, n) {
      var o := SlotOf(seed, k, n, Slot(seed, k, n));
      SlotDistance(seed, o, n);
      SlotDistance(seed, k, n);
    }
  }

  lemma {:induction false} SlotsCount(seed: nat, k: nat, n: nat)
    requires 0 < n && k <= n
    ensures |Slots(seed, k, n)| == k
  {
    if k > 0 {
      SlotsCount(seed, k - 1, n);
      SlotIsNew(seed, k - 1, n);
    }
  }

  /** So many queues are in the hand. */
  lemma HandHolds(seed: nat, hand: nat, n: nat)
    requires 0 < n
    ensures |set i: nat | i < n && InHand(i, seed, hand, n)|
         == if hand < 1 then 1 else if hand > n then n else hand
  {
    var k := HandCount(hand, n);
    SlotsCount(seed, k, n);
    forall i: nat | InHand(i, seed, hand, n) ensures i in Slots(seed, k, n) {
      var o: nat :| o < k && i == Slot(seed, o, n);
      SlotIn(seed, k, n, o);
    }
    forall i | i in Slots(seed, k, n) ensures i < n && InHand(i, seed, hand, n) { var o := SlotOf(seed, k, n, i); }
    assert (set i: nat | i < n && InHand(i, seed, hand, n)) == Slots(seed, k, n);
  }

  /** The chosen queue is in the hand, and every other queue of the hand is longer, or as long and later. */
  lemma ChooseExactly<R>(qs: seq<seq<R>>, seed: nat, hand: nat)
    requires 0 < |qs|
    ensures var n, b := |qs|, Choose(qs, seed, hand);
            var k := if hand < 1 then 1 else if hand > n then n else hand;
            && b < n && (b + n - seed % n) % n < k
            && forall i: nat :: i < n && i != b && (i + n - seed % n) % n < k ==>
                 |qs[i]| > |qs[b]| || (|qs[i]| == |qs[b]| && i > b)
  {
    var n, b := |qs|, Choose(qs, seed, hand);
    ChooseIsLeastOfHand(qs, seed, hand, b);
    InHandExactly(b, seed, hand, n);
    forall i: nat | i < n && i != b
                    && (i + n - seed % n) % n < (if hand < 1 then 1 else if hand > n then n else hand)
      ensures |qs[i]| > |qs[b]| || (|qs[i]| == |qs[b]| && i > b)
    {
      InHandExactly(i, seed, hand, n);
    }
  }

  /**
     Dealing, request by request: the k-th joins the back of the queue of its hand that is least, by
     length, then index, after the first k have been dealt; its back-pointer names that queue.
   */
  lemma DealExactly<R>(rs: seq<R>, n: nat, hand: nat, seed: R -> nat, k: nat)
    requires 0 < n && k < |rs|
    ensures var before, after, r := Deal(rs[..k], n, hand, seed), Deal(rs[..k + 1], n, hand, seed), rs[k];
            var size := if hand < 1 then 1 else if hand > n then n else hand;
            && r in after.index && after.index[r] < n
            && var i := after.index[r];
            && (i + n - seed(r) % n) % n < size
            && (forall j: nat :: j < n && j != i && (j + n - seed(r) % n) % n < size ==>
                  |before.queues[j]| > |before.queues[i]| || (|before.queues[j]| == |before.queues[i]| && j > i))
            && after.queues == before.queues[i := before.queues[i] + [r]]
            && after.index == before.index[r := i]
  {
    assert rs[..k + 1][..k] == rs[..k];
    ChooseExactly(Deal(rs[..k], n, hand, seed).queues, seed(rs[k]), hand);
  }

  /** Draining puts the queues one after the other, each from its head. */
  lemma {:induction false} ConcatAt<R>(qs: seq<seq<R>>, i: nat, a: nat)
    requires i < |qs| && a < |qs[i]|
    ensures Total(qs[..i]) + a < |Concat(qs)| && Concat(qs)[Total(qs[..i]) + a] == qs[i][a]
    ensures |Concat(qs)| == Total(qs)
  {
    var last := |qs| - 1;
    TotalIsConcat(qs);
    TotalIsConcat(qs[..last]);
    if i < last {
      ConcatAt(qs[..last], i, a);
      assert qs[..last][..i] == qs[..i];
    }
  }
}
