/**
   What a run of admission webhooks is: the turns its webhooks took, in order.

   Rule matching, the callout, the answer's verdict and its patch are given by a `World`, so
   everything proved here holds for every behaviour of the webhooks.
 */
module AdmissionSpec {
  import opened Common
  import opened StableSort

  /** A webhook; `spec` stands for its rules, selectors and client configuration. */
  datatype Hook = Hook(
    name: Option<string>, failurePolicy: Option<string>, reinvocationPolicy: Option<string>, spec: nat)

  datatype Config = Config(name: Option<string>, hooks: seq<Hook>)

  /** `matches` may fail; `call` is the outcome of the run's n-th turn; `patch` may be malformed. */
  datatype World<!O, !A> = World(
    matches: (Hook, O) -> Option<bool>,
    call: (nat, Hook, O) -> Option<A>,
    allowed: A -> bool,
    patch: (O, A) -> Option<O>)

  datatype Failure = MatchFailed | CallFailed | Denied | BadPatch | ListFailed | PolicyViolated

  datatype Result<O> = Admitted(resource: O) | Failed(failure: Failure)

  /** How one webhook's turn went. */
  datatype Outcome<O, A> =
    | Skipped
    | Ignored
    | Answered(answer: A, after: O)
    | Fatal(failure: Failure)

  /** A webhook to be given a turn, under its reinvocation key. */
  datatype Item = Item(key: string, hook: Hook)

  datatype Turn<O, A> = Turn(item: Item, seen: O, outcome: Outcome<O, A>)

  // ---------------------------------------------------------------- one turn

  predicate FailsClosed(hook: Hook) {
    hook.failurePolicy.None? || hook.failurePolicy.value == "Fail"
  }

  predicate Reinvocable(hook: Hook) {
    hook.reinvocationPolicy == Some("IfNeeded")
  }

  function Key(config: Option<string>, hook: Hook): string {
    (if config.Some? then config.value else "") + "/" + (if hook.name.Some? then hook.name.value else "<unnamed>")
  }

  function Take<O, A>(w: World<O, A>, mutating: bool, n: nat, hook: Hook, seen: O): Outcome<O, A> {
    match w.matches(hook, seen)
    case None => Fatal(MatchFailed)
    case Some(false) => Skipped
    case Some(true) =>
      match w.call(n, hook, seen)
      case None => if FailsClosed(hook) then Fatal(CallFailed) else Ignored
      case Some(answer) =>
        if !w.allowed(answer) then Fatal(Denied)
        else if !mutating then Answered(answer, seen)
        else
          match w.patch(seen, answer)
          case None => Fatal(BadPatch)
          case Some(after) => Answered(answer, after)
  }

  /** What `Take` means: a turn that is not fatal was skipped, allowed, or failed under a policy that tolerates it. */
  ghost predicate Sound<O, A>(w: World<O, A>, mutating: bool, n: nat, t: Turn<O, A>) {
    var hook := t.item.hook;
    && w.matches(hook, t.seen).Some?
    && (t.outcome == Skipped <==> w.matches(hook, t.seen) == Some(false))
    && (w.matches(hook, t.seen) == Some(true) ==>
          || (t.outcome == Ignored && w.call(n, hook, t.seen).None?
              && hook.failurePolicy.Some? && hook.failurePolicy.value != "Fail")
          || (t.outcome.Answered? && w.call(n, hook, t.seen) == Some(t.outcome.answer)
              && w.allowed(t.outcome.answer)
              && (if mutating then w.patch(t.seen, t.outcome.answer) == Some(t.outcome.after)
                  else t.outcome.after == t.seen)))
  }

  lemma TakeIsSound<O, A>(w: World<O, A>, mutating: bool, n: nat, t: Turn<O, A>)
    requires t.outcome == Take(w, mutating, n, t.item.hook, t.seen)
    ensures !t.outcome.Fatal? <==> Sound(w, mutating, n, t)
  {
  }

  // ---------------------------------------------------------------- a pass over a list of webhooks

  function After<O, A>(t: Turn<O, A>): O {
    if t.outcome.Answered? then t.outcome.after else t.seen
  }

  predicate Changes<O(==), A>(t: Turn<O, A>) {
    t.outcome.Answered? && t.outcome.after != t.seen
  }

  /** The object the `i`-th turn is shown. */
  function ObjectAt<O, A>(ts: seq<Turn<O, A>>, start: O, i: nat): O
    requires i <= |ts|
  {
    if i == 0 then start else After(ts[i - 1])
  }

  function Final<O, A>(ts: seq<Turn<O, A>>, start: O): O {
    ObjectAt(ts, start, |ts|)
  }

  predicate EndsFatally<O, A>(ts: seq<Turn<O, A>>) {
    ts != [] && ts[|ts| - 1].outcome.Fatal?
  }

  /** Turn `i` is what webhook `i` does with the object the turns before it left. */
  ghost predicate TurnRight<O, A>(w: World<O, A>, mutating: bool, base: nat, items: seq<Item>, start: O,
                                  ts: seq<Turn<O, A>>, i: nat)
    requires i < |ts| <= |items|
  {
    && ts[i].item == items[i]
    && ts[i].seen == ObjectAt(ts, start, i)
    && ts[i].outcome == Take(w, mutating, base + i, items[i].hook, ts[i].seen)
  }

  /** The turns of a pass so far: in order, each right, none but the last fatal. */
  ghost predicate Passing<O, A>(w: World<O, A>, mutating: bool, base: nat, items: seq<Item>, start: O,
                                ts: seq<Turn<O, A>>) {
    && |ts| <= |items|
    && (forall i: nat :: i < |ts| ==> TurnRight(w, mutating, base, items, start, ts, i))
    && (forall i: nat :: i + 1 < |ts| ==> !ts[i].outcome.Fatal?)
  }

  /** A whole pass: every webhook had its turn unless one was fatal, and that one came last. */
  ghost predicate IsPass<O, A>(w: World<O, A>, mutating: bool, base: nat, items: seq<Item>, start: O,
                               ts: seq<Turn<O, A>>) {
    Passing(w, mutating, base, items, start, ts) && (|ts| == |items| || EndsFatally(ts))
  }

  /** A pass is determined by the world, the webhooks and the object it starts from. */
  lemma {:induction false} PassUnique<O, A>(w: World<O, A>, mutating: bool, base: nat, items: seq<Item>, start: O,
                                            s: seq<Turn<O, A>>, t: seq<Turn<O, A>>, i: nat)
    requires IsPass(w, mutating, base, items, start, s) && IsPass(w, mutating, base, items, start, t)
    requires i <= |s| && i <= |t| && s[..i] == t[..i]
    ensures s == t
    decreases |items| - i
  {
    if i < |s| && i < |t| {
      assert TurnRight(w, mutating, base, items, start, s, i) && TurnRight(w, mutating, base, items, start, t, i);
      assert i > 0 ==> s[..i][i - 1] == t[..i][i - 1];
      assert s[i] == t[i];
      assert s[..i + 1] == s[..i] + [s[i]] && t[..i + 1] == t[..i] + [t[i]];
      PassUnique(w, mutating, base, items, start, s, t, i + 1);
    } else {
      assert s[..i] == t[..i];
      assert i > 0 ==> s[i - 1] == s[..i][i - 1] && t[i - 1] == t[..i][i - 1];
      assert |s| == |t|;
    }
  }

  lemma PassExtends<O, A>(w: World<O, A>, mutating: bool, base: nat, items: seq<Item>, start: O,
                          ts: seq<Turn<O, A>>, t: Turn<O, A>)
    requires Passing(w, mutating, base, items, start, ts) && !EndsFatally(ts) && |ts| < |items|
    requires t == Turn(items[|ts|], Final(ts, start),
                       Take(w, mutating, base + |ts|, items[|ts|].hook, Final(ts, start)))
    ensures Passing(w, mutating, base, items, start, ts + [t])
  {
    var ts' := ts + [t];
    forall i: nat | i < |ts'| ensures TurnRight(w, mutating, base, items, start, ts', i) {
      if i < |ts| { assert TurnRight(w, mutating, base, items, start, ts, i); }
    }
  }

  /** A pass without a fatal turn was sound at every turn. */
  lemma PassIsSound<O, A>(w: World<O, A>, mutating: bool, base: nat, items: seq<Item>, start: O, ts: seq<Turn<O, A>>)
    requires IsPass(w, mutating, base, items, start, ts) && !EndsFatally(ts)
    ensures |ts| == |items|
    ensures forall i: nat :: i < |ts| ==> ts[i].item == items[i] && Sound(w, mutating, base + i, ts[i])
  {
    forall i: nat | i < |ts| ensures ts[i].item == items[i] && Sound(w, mutating, base + i, ts[i]) {
      assert TurnRight(w, mutating, base, items, start, ts, i);
      TakeIsSound(w, mutating, base + i, ts[i]);
    }
  }

  /** The answers given, in call order, and what applying their patches in that order makes of an object. */
  function Answers<O, A>(ts: seq<Turn<O, A>>): seq<A> {
    if ts == [] then []
    else Answers(ts[..|ts| - 1])
         + if ts[|ts| - 1].outcome.Answered? then [ts[|ts| - 1].outcome.answer] else []
  }

  function Patched<O, A>(w: World<O, A>, start: O, answers: seq<A>): Option<O> {
    if answers == [] then Some(start)
    else
      var before := Patched(w, start, answers[..|answers| - 1]);
      if before.None? then None else w.patch(before.value, answers[|answers| - 1])
  }

  lemma PassingFront<O, A>(w: World<O, A>, mutating: bool, base: nat, items: seq<Item>, start: O, ts: seq<Turn<O, A>>)
    requires Passing(w, mutating, base, items, start, ts) && ts != []
    ensures Passing(w, mutating, base, items, start, ts[..|ts| - 1])
  {
    var front := ts[..|ts| - 1];
    forall i: nat | i < |front| ensures TurnRight(w, mutating, base, items, start, front, i) {
      assert TurnRight(w, mutating, base, items, start, ts, i);
    }
  }

  /** The object a mutating pass ends with is the fold of the answers' patches, in call order. */
  lemma {:induction false} PassFolds<O, A>(w: World<O, A>, base: nat, items: seq<Item>, start: O, ts: seq<Turn<O, A>>)
    requires Passing(w, true, base, items, start, ts)
    ensures Patched(w, start, Answers(ts)) == Some(Final(ts, start))
  {
    if ts != [] {
      var n := |ts| - 1;
      var front := ts[..n];
      PassingFront(w, true, base, items, start, ts);
      PassFolds(w, base, items, start, front);
      assert TurnRight(w, true, base, items, start, ts, n);
      assert ts[n].seen == Final(front, start);
      if ts[n].outcome.Answered? {
        assert Answers(ts)[..|Answers(ts)| - 1] == Answers(front);
      } else {
        assert Answers(ts) == Answers(front);
      }
    }
  }

  /** A validating pass shows every webhook the same object. */
  lemma {:induction false} ValidationSeesOne<O, A>(w: World<O, A>, items: seq<Item>, start: O,
                                                   ts: seq<Turn<O, A>>, i: nat)
    requires Passing(w, false, 0, items, start, ts) && i <= |ts|
    ensures ObjectAt(ts, start, i) == start
    ensures i < |ts| ==> ts[i].seen == start
    decreases i
  {
    if i < |ts| { assert TurnRight(w, false, 0, items, start, ts, i); }
    if i > 0 {
      ValidationSeesOne(w, items, start, ts, i - 1);
      assert TurnRight(w, false, 0, items, start, ts, i - 1);
    }
  }

  // ---------------------------------------------------------------- configurations

  predicate ByName(a: Config, b: Config) {
    StringLe(if a.name.Some? then a.name.value else "", if b.name.Some? then b.name.value else "")
  }

  function ItemsOf(config: Config): seq<Item> {
    seq(|config.hooks|, h requires 0 <= h < |config.hooks| => Item(Key(config.name, config.hooks[h]), config.hooks[h]))
  }

  function Items(configs: seq<Config>): seq<Item> {
    if configs == [] then [] else Items(configs[..|configs| - 1]) + ItemsOf(configs[|configs| - 1])
  }

  function Schedule(configs: seq<Config>): seq<Item> {
    Items(Sort(configs, ByName))
  }

  lemma ByNameIsOrder()
    ensures TotalPreorder(ByName)
  {
    forall a, b ensures ByName(a, b) || ByName(b, a) {
      StringTotal(if a.name.Some? then a.name.value else "", if b.name.Some? then b.name.value else "");
    }
    forall a, b, c | ByName(a, b) && ByName(b, c) ensures ByName(a, c) {
      StringTransitive(if a.name.Some? then a.name.value else "", if b.name.Some? then b.name.value else "",
                       if c.name.Some? then c.name.value else "");
    }
  }

  /** The order in which the store lists configurations with distinct names does not matter. */
  lemma ScheduleForgetsOrder(s: seq<Config>, t: seq<Config>)
    requires multiset(s) == multiset(t)
    requires forall a, b :: a in s && b in s && ByName(a, b) && ByName(b, a) ==> a == b
    ensures Schedule(s) == Schedule(t)
  {
    ByNameIsOrder();
    SortForgetsOrder(s, t, ByName);
  }

  // ---------------------------------------------------------------- reinvocation

  /** The reinvocable webhooks that answered, in call order. */
  function Tracked<O, A>(ts: seq<Turn<O, A>>): seq<Item> {
    if ts == [] then []
    else
      var t := ts[|ts| - 1];
      Tracked(ts[..|ts| - 1]) + if t.outcome.Answered? && Reinvocable(t.item.hook) then [t.item] else []
  }

  /** The turn that last changed the object, or the first turn when none did. */
  function LastChange<O(==), A>(ts: seq<Turn<O, A>>): (i: nat)
    ensures i <= |ts|
  {
    if ts == [] then 0
    else if Changes(ts[|ts| - 1]) then |ts| - 1
    else LastChange(ts[..|ts| - 1])
  }

  predicate HasKey(items: seq<Item>, key: string) {
    exists i :: 0 <= i < |items| && items[i].key == key
  }

  /** The first item of each key, in order. */
  function FirstByKey(items: seq<Item>): seq<Item> {
    if items == [] then []
    else
      var front := FirstByKey(items[..|items| - 1]);
      if HasKey(front, items[|items| - 1].key) then front else front + [items[|items| - 1]]
  }

  /**
     The reinvocation queue in closed form: the reinvocable webhooks that answered strictly before
     the last call that changed the object, each key once, in call order.
   */
  function Reinvocations<O(==), A>(main: seq<Turn<O, A>>): seq<Item> {
    FirstByKey(Tracked(main[..LastChange(main)]))
  }

  /** `LastChange` is what its name says. */
  lemma {:induction false} LastChangeIsLast<O, A>(ts: seq<Turn<O, A>>)
    ensures forall i :: LastChange(ts) < i < |ts| ==> !(ts[i].outcome.Answered? && ts[i].outcome.after != ts[i].seen)
    ensures LastChange(ts) == 0 ||
            (&& LastChange(ts) < |ts| && ts[LastChange(ts)].outcome.Answered?
             && ts[LastChange(ts)].outcome.after != ts[LastChange(ts)].seen)
  {
    if ts != [] && !Changes(ts[|ts| - 1]) {
      var front := ts[..|ts| - 1];
      LastChangeIsLast(front);
      assert forall i :: 0 <= i < |front| ==> front[i] == ts[i];
    }
  }

  lemma {:induction false} FirstByKeyLaws(items: seq<Item>)
    ensures |FirstByKey(items)| <= |items|
    ensures forall i, j :: 0 <= i < j < |FirstByKey(items)| ==> FirstByKey(items)[i].key != FirstByKey(items)[j].key
    ensures forall x :: x in FirstByKey(items) ==> x in items
    ensures forall key :: HasKey(FirstByKey(items), key) <==> HasKey(items, key)
  {
    if items != [] {
      var n := |items| - 1;
      var front, last := items[..n], items[n];
      FirstByKeyLaws(front);
      var f := FirstByKey(front);
      forall key ensures HasKey(FirstByKey(items), key) <==> HasKey(items, key) {
        if HasKey(front, key) {
          var i :| 0 <= i < |front| && front[i].key == key;
          assert items[i].key == key;
          var j :| 0 <= j < |f| && f[j].key == key;
          assert FirstByKey(items)[j].key == key;
        }
        if HasKey(items, key) {
          var i :| 0 <= i < |items| && items[i].key == key;
          if i < n {
            assert front[i].key == key;
          } else if !HasKey(f, key) {
            assert FirstByKey(items)[|f|].key == key;
          } else {
            var j :| 0 <= j < |f| && f[j].key == key;
            assert FirstByKey(items)[j].key == key;
          }
        }
      }
    }
  }

  /** Item `i` is the first of its key. */
  predicate FirstOfKey(items: seq<Item>, i: nat)
    requires i < |items|
  {
    forall j :: 0 <= j < i ==> items[j].key != items[i].key
  }

  /** The positions of the items that are the first of their key, in order. */
  function FirstPositions(items: seq<Item>): seq<nat> {
    if items == [] then []
    else
      var front, n := FirstPositions(items[..|items| - 1]), |items| - 1;
      if FirstOfKey(items, n) then front + [n] else front
  }

  lemma {:induction false} FirstPositionsLaws(items: seq<Item>)
    ensures forall j :: 0 <= j < |FirstPositions(items)| ==> FirstPositions(items)[j] < |items|
    ensures forall j, k :: 0 <= j < k < |FirstPositions(items)| ==> FirstPositions(items)[j] < FirstPositions(items)[k]
  {
    if items != [] { FirstPositionsLaws(items[..|items| - 1]); }
  }

  lemma {:induction false} FirstPositionsComplete(items: seq<Item>, i: nat)
    requires i < |items|
    ensures i in FirstPositions(items) <==> FirstOfKey(items, i)
  {
    var n := |items| - 1;
    FirstPositionsLaws(items[..n]);
    if i < n {
      FirstPositionsComplete(items[..n], i);
      assert items[..i] == items[..n][..i];
    }
  }

  lemma FirstOfKeyMeans(items: seq<Item>, i: nat)
    requires i < |items|
    ensures FirstOfKey(items, i) <==> !HasKey(items[..i], items[i].key)
  {
    assert forall j :: 0 <= j < i ==> items[..i][j] == items[j];
  }

  lemma FirstByKeyUnfolds(items: seq<Item>)
    requires items != []
    ensures var n := |items| - 1; var front := FirstByKey(items[..n]);
            FirstByKey(items) == if FirstOfKey(items, n) then front + [items[n]] else front
  {
    var n := |items| - 1;
    assert HasKey(FirstByKey(items[..n]), items[n].key) <==> HasKey(items[..n], items[n].key) by {
      FirstByKeyLaws(items[..n]);
    }
    FirstOfKeyMeans(items, n);
  }

  /** De-duplication keeps exactly the items that are the first of their key, in their order. */
  lemma {:induction false} FirstByKeyKeeps(items: seq<Item>)
    ensures |FirstByKey(items)| == |FirstPositions(items)|
    ensures forall j :: 0 <= j < |FirstPositions(items)| ==>
              FirstPositions(items)[j] < |items| && FirstByKey(items)[j] == items[FirstPositions(items)[j]]
  {
    if items != [] {
      FirstByKeyKeeps(items[..|items| - 1]);
      FirstByKeyUnfolds(items);
    }
  }

  lemma {:induction false} TrackedLaws<O, A>(ts: seq<Turn<O, A>>)
    ensures |Tracked(ts)| <= |ts|
    ensures forall x :: x in Tracked(ts) ==> Reinvocable(x.hook) && exists i :: 0 <= i < |ts| && ts[i].item == x
  {
    if ts != [] {
      var front := ts[..|ts| - 1];
      TrackedLaws(front);
      forall x | x in Tracked(ts) ensures Reinvocable(x.hook) && exists i :: 0 <= i < |ts| && ts[i].item == x {
        if x in Tracked(front) {
          var i :| 0 <= i < |front| && front[i].item == x;
          assert ts[i].item == x;
        } else {
          assert ts[|ts| - 1].item == x;
        }
      }
    }
  }

  /** Bounded reinvocation: only reinvocable webhooks of the main pass, each key once, never more than its turns. */
  lemma ReinvocationsBounded<O, A>(main: seq<Turn<O, A>>)
    ensures |Reinvocations(main)| <= |main|
    ensures DistinctKeys(Reinvocations(main))
    ensures forall x :: x in Reinvocations(main) ==>
              x.hook.reinvocationPolicy == Some("IfNeeded") && exists i :: 0 <= i < |main| && main[i].item == x
  {
    var early := main[..LastChange(main)];
    TrackedLaws(early);
    FirstByKeyLaws(Tracked(early));
    forall x | x in Reinvocations(main)
      ensures x.hook.reinvocationPolicy == Some("IfNeeded") && exists i :: 0 <= i < |main| && main[i].item == x
    {
      assert x in Tracked(early);
      var i :| 0 <= i < |early| && early[i].item == x;
      assert main[i].item == x;
    }
  }

  // ---------------------------------------------------------------- webhooks that were called but did not answer

  /** A reinvocable webhook whose call failed under a policy that tolerates it. */
  predicate IgnoredReinvocable<O, A>(t: Turn<O, A>) {
    t.outcome.Ignored? && Reinvocable(t.item.hook)
  }

  /** The reinvocable webhooks that were called, in call order, whether or not they answered. */
  function Invoked<O, A>(ts: seq<Turn<O, A>>): seq<Item> {
    if ts == [] then []
    else
      var t := ts[|ts| - 1];
      Invoked(ts[..|ts| - 1])
      + if (t.outcome.Answered? || t.outcome.Ignored?) && Reinvocable(t.item.hook) then [t.item] else []
  }

  /** All that was called is tracked exactly when nothing reinvocable was ignored. */
  lemma {:induction false} TrackedOrIgnored<O, A>(ts: seq<Turn<O, A>>)
    ensures |Tracked(ts)| <= |Invoked(ts)|
    ensures Tracked(ts) == Invoked(ts) <==> forall i :: 0 <= i < |ts| ==> !IgnoredReinvocable(ts[i])
    ensures |Tracked(ts)| == |Invoked(ts)| ==> Tracked(ts) == Invoked(ts)
  {
    if ts != [] {
      var front := ts[..|ts| - 1];
      TrackedOrIgnored(front);
      assert forall i :: 0 <= i < |front| ==> front[i] == ts[i];
    }
  }

  ghost predicate DistinctKeys(items: seq<Item>) {
    forall i, j :: 0 <= i < j < |items| ==> items[i].key != items[j].key
  }

  lemma {:induction false} FirstByDistinctKey(items: seq<Item>)
    requires DistinctKeys(items)
    ensures FirstByKey(items) == items
  {
    if items != [] {
      FirstByDistinctKey(items[..|items| - 1]);
      assert items == items[..|items| - 1] + [items[|items| - 1]];
    }
  }

  function ItemsTaken<O, A>(ts: seq<Turn<O, A>>): seq<Item> {
    seq(|ts|, i requires 0 <= i < |ts| => ts[i].item)
  }

  lemma {:induction false} InvokedAreTaken<O, A>(ts: seq<Turn<O, A>>)
    requires DistinctKeys(ItemsTaken(ts))
    ensures DistinctKeys(Invoked(ts)) && DistinctKeys(Tracked(ts))
    ensures forall x :: x in Invoked(ts) || x in Tracked(ts) ==> x in ItemsTaken(ts)
  {
    if ts != [] {
      var n := |ts| - 1;
      var front := ts[..n];
      var all := ItemsTaken(ts);
      assert ItemsTaken(front) == all[..n];
      InvokedAreTaken(front);
      forall x | x in Invoked(front) || x in Tracked(front) ensures x in all && x.key != ts[n].item.key {
        assert x in ItemsTaken(front);
        var i :| 0 <= i < n && ItemsTaken(front)[i] == x;
        assert all[i] == x && all[n] == ts[n].item;
      }
      assert all[n] == ts[n].item;
    }
  }

  /**
     With distinct keys, the queue is all reinvocable webhooks that were called before the last
     change, exactly when none of them was called in vain.
   */
  lemma ReinvokesAllInvoked<O, A>(main: seq<Turn<O, A>>)
    requires DistinctKeys(ItemsTaken(main))
    ensures Reinvocations(main) == FirstByKey(Invoked(main[..LastChange(main)])) <==>
            forall i :: 0 <= i < LastChange(main) ==> !IgnoredReinvocable(main[i])
  {
    var early := main[..LastChange(main)];
    assert ItemsTaken(early) == ItemsTaken(main)[..LastChange(main)];
    InvokedAreTaken(early);
    FirstByDistinctKey(Tracked(early));
    FirstByDistinctKey(Invoked(early));
    TrackedOrIgnored(early);
    assert forall i :: 0 <= i < |early| ==> early[i] == main[i];
  }
}
