/** The admission engine in the fields of its inputs: who is called when, and what each turn and run comes to. */
module AdmissionLaws {
  import opened Common
  import opened StableSort
  import opened AdmissionSpec
  import opened Admission

  // ---------------------------------------------------------------- the order of calls

  /** For each scheduled webhook, the position of its configuration and its own position there. */
  function Origins(order: seq<Config>): seq<(nat, nat)> {
    if order == [] then []
    else
      var c := |order| - 1;
      Origins(order[..c]) + seq(|order[c].hooks|, h requires 0 <= h < |order[c].hooks| => (c, h))
  }

  /**
     `at` lists every webhook of every configuration of `order` once, in order, and `items` are those
     webhooks, each keyed by its configuration's name, a slash, and its own name.
   */
  ghost predicate CallsInOrder(order: seq<Config>, at: seq<(nat, nat)>, items: seq<Item>) {
    && |at| == |items|
    && (forall i :: 0 <= i < |at| ==>
          && at[i].0 < |order| && at[i].1 < |order[at[i].0].hooks|
          && items[i].hook == order[at[i].0].hooks[at[i].1]
          && var config, hook := order[at[i].0], items[i].hook;
          items[i].key == (if config.name.None? then "" else config.name.value) + "/"
                          + (if hook.name.None? then "<unnamed>" else hook.name.value))
    && (forall i, j :: 0 <= i < j < |at| ==> at[i].0 < at[j].0 || (at[i].0 == at[j].0 && at[i].1 < at[j].1))
    && (forall c: nat, h: nat :: c < |order| && h < |order[c].hooks| ==> (c, h) in at)
  }

  lemma {:induction false} OriginsComplete(order: seq<Config>, c: nat, h: nat)
    requires c < |order| && h < |order[c].hooks|
    ensures (c, h) in Origins(order)
  {
    var last := |order| - 1;
    var front := Origins(order[..last]);
    if c < last {
      OriginsComplete(order[..last], c, h);
    } else {
      assert Origins(order)[|front| + h] == (c, h);
    }
  }

  lemma {:induction false} OriginAt(order: seq<Config>, i: nat)
    requires i < |Origins(order)|
    ensures |Origins(order)| == |Items(order)|
    ensures var (c, h) := Origins(order)[i];
            && c < |order| && h < |order[c].hooks|
            && Items(order)[i] == Item(Key(order[c].name, order[c].hooks[h]), order[c].hooks[h])
  {
    var last := |order| - 1;
    var front := order[..last];
    SameCount(front);
    SameCount(order);
    if i < |Origins(front)| {
      OriginAt(front, i);
      assert Origins(order)[i] == Origins(front)[i] && Items(order)[i] == Items(front)[i];
      assert front[Origins(front)[i].0] == order[Origins(front)[i].0];
    } else {
      assert Origins(order)[i] == (last, i - |Origins(front)|);
      assert Items(order)[i] == ItemsOf(order[last])[i - |Items(front)|];
    }
  }

  lemma {:induction false} SameCount(order: seq<Config>)
    ensures |Origins(order)| == |Items(order)|
  {
    if order != [] { SameCount(order[..|order| - 1]); }
  }

  lemma {:induction false} OriginsIncrease(order: seq<Config>, i: nat, j: nat)
    requires i < j < |Origins(order)|
    ensures var (c, h), (d, k) := Origins(order)[i], Origins(order)[j]; c < d || (c == d && h < k)
  {
    var last := |order| - 1;
    var front := Origins(order[..last]);
    if j < |front| {
      OriginsIncrease(order[..last], i, j);
    } else if i < |front| {
      OriginAt(order[..last], i);
    }
  }

  lemma ItemsInOrder(order: seq<Config>)
    ensures CallsInOrder(order, Origins(order), Items(order))
  {
    var at := Origins(order);
    SameCount(order);
    forall i | 0 <= i < |at|
      ensures at[i].0 < |order| && at[i].1 < |order[at[i].0].hooks|
      ensures Items(order)[i] == Item(Key(order[at[i].0].name, order[at[i].0].hooks[at[i].1]),
                                      order[at[i].0].hooks[at[i].1])
    {
      OriginAt(order, i);
    }
    forall i, j | 0 <= i < j < |at| ensures at[i].0 < at[j].0 || (at[i].0 == at[j].0 && at[i].1 < at[j].1) {
      OriginsIncrease(order, i, j);
    }
    forall c: nat, h: nat | c < |order| && h < |order[c].hooks| ensures (c, h) in at { OriginsComplete(order, c, h); }
  }

  lemma ByNameExactly(a: Config, b: Config)
    ensures var x, y := if a.name.None? then "" else a.name.value, if b.name.None? then "" else b.name.value;
            ByName(a, b) <==> x <= y || exists k: nat :: k < |x| && k < |y| && x[..k] == y[..k] && x[k] < y[k]
  {
    StringLeExactly(if a.name.None? then "" else a.name.value, if b.name.None? then "" else b.name.value);
  }

  /**
     The schedule goes through the listed configurations in ascending order of their names, absent
     ones first, and through the webhooks of each in their own order.
   */
  lemma ScheduleExactly(configs: seq<Config>) returns (order: seq<Config>, at: seq<(nat, nat)>)
    ensures multiset(order) == multiset(configs)
    ensures CallsInOrder(order, at, Schedule(configs))
    ensures forall c, d :: 0 <= c < d < |order| ==>
              var x := if order[c].name.None? then "" else order[c].name.value;
              var y := if order[d].name.None? then "" else order[d].name.value;
              x <= y || exists k: nat :: k < |x| && k < |y| && x[..k] == y[..k] && x[k] < y[k]
  {
    order := Sort(configs, ByName);
    at := Origins(order);
    ByNameIsOrder();
    SortSorts(configs, ByName);
    ItemsInOrder(order);
    forall c, d | 0 <= c < d < |order|
      ensures var x := if order[c].name.None? then "" else order[c].name.value;
              var y := if order[d].name.None? then "" else order[d].name.value;
              x <= y || exists k: nat :: k < |x| && k < |y| && x[..k] == y[..k] && x[k] < y[k]
    {
      ByNameExactly(order[c], order[d]);
    }
  }

  /** So do the turns of a mutating run, until a fatal one. */
  lemma RunInNameOrder<O, A>(w: World<O, A>, configs: seq<Config>, resource: O,
                             main: seq<Turn<O, A>>, again: seq<Turn<O, A>>, result: Result<O>, i: nat, j: nat)
    returns (a: Config, b: Config)
    requires MutatingRun(w, configs, resource, main, again, result) && i < j < |main|
    ensures a in configs && main[i].item.hook in a.hooks && b in configs && main[j].item.hook in b.hooks
    ensures var x, y := if a.name.None? then "" else a.name.value, if b.name.None? then "" else b.name.value;
            x <= y || exists k: nat :: k < |x| && k < |y| && x[..k] == y[..k] && x[k] < y[k]
  {
    var order, at := ScheduleExactly(configs);
    assert TurnRight(w, true, 0, Schedule(configs), resource, main, i);
    assert TurnRight(w, true, 0, Schedule(configs), resource, main, j);
    a, b := order[at[i].0], order[at[j].0];
    assert a in multiset(order) && b in multiset(order);
  }

  // ---------------------------------------------------------------- one turn

  /** What a turn comes to, in every case. */
  lemma TakeExactly<O, A>(w: World<O, A>, mutating: bool, n: nat, hook: Hook, seen: O)
    ensures var matched, answer := w.matches(hook, seen), w.call(n, hook, seen);
            var outcome := Take(w, mutating, n, hook, seen);
            && (matched == None ==> outcome == Fatal(MatchFailed))
            && (matched == Some(false) ==> outcome == Skipped)
            && (matched == Some(true) && answer.None? ==>
                  outcome == if hook.failurePolicy.None? || hook.failurePolicy.value == "Fail" then Fatal(CallFailed)
                             else Ignored)
            && (matched == Some(true) && answer.Some? && !w.allowed(answer.value) ==> outcome == Fatal(Denied))
            && (matched == Some(true) && answer.Some? && w.allowed(answer.value) && !mutating
                ==> outcome == Answered(answer.value, seen))
            && (matched == Some(true) && answer.Some? && w.allowed(answer.value) && mutating ==>
                  outcome == match w.patch(seen, answer.value)
                             case None => Fatal(BadPatch)
                             case Some(after) => Answered(answer.value, after))
  {
  }

  // ---------------------------------------------------------------- folds, from the front

  lemma {:induction false} AnswersFirst<O, A>(t: Turn<O, A>, ts: seq<Turn<O, A>>)
    ensures Answers([t] + ts) == (if t.outcome.Answered? then [t.outcome.answer] else []) + Answers(ts)
  {
    var all := [t] + ts;
    if ts == [] {
      assert all[..|all| - 1] == [];
    } else {
      AnswersFirst(t, ts[..|ts| - 1]);
      assert all[..|all| - 1] == [t] + ts[..|ts| - 1];
    }
  }

  lemma {:induction false} PatchedFirst<O, A>(w: World<O, A>, start: O, a: A, answers: seq<A>)
    ensures Patched(w, start, [a] + answers)
         == if w.patch(start, a).None? then None else Patched(w, w.patch(start, a).value, answers)
  {
    var all := [a] + answers;
    if answers == [] {
      assert all[..|all| - 1] == [];
    } else {
      PatchedFirst(w, start, a, answers[..|answers| - 1]);
      assert all[..|all| - 1] == [a] + answers[..|answers| - 1];
    }
  }

  // ---------------------------------------------------------------- who is reinvoked

  lemma {:induction false} TrackedExactly<O, A>(ts: seq<Turn<O, A>>, item: Item)
    ensures item in Tracked(ts) <==>
            exists i :: 0 <= i < |ts| && ts[i].outcome.Answered? && ts[i].item == item
                        && item.hook.reinvocationPolicy == Some("IfNeeded")
  {
    if ts != [] {
      var n := |ts| - 1;
      TrackedExactly(ts[..n], item);
      assert forall i :: 0 <= i < n ==> ts[..n][i] == ts[i];
    }
  }

  /** A key is reinvoked exactly when a webhook with the policy "IfNeeded" answered under it before the last change. */
  lemma ReinvocationsExactly<O, A>(main: seq<Turn<O, A>>, key: string)
    ensures (exists q :: q in Reinvocations(main) && q.key == key) <==>
            exists i :: 0 <= i < LastChange(main) && main[i].outcome.Answered? && main[i].item.key == key
                        && main[i].item.hook.reinvocationPolicy == Some("IfNeeded")
  {
    var early := main[..LastChange(main)];
    var tracked := Tracked(early);
    FirstByKeyLaws(tracked);
    if q :| q in Reinvocations(main) && q.key == key {
      assert q in tracked;
      TrackedExactly(early, q);
      var i :| 0 <= i < |early| && early[i].outcome.Answered? && early[i].item == q;
      assert main[i] == early[i];
    }
    if i :| 0 <= i < LastChange(main) && main[i].outcome.Answered? && main[i].item.key == key
            && main[i].item.hook.reinvocationPolicy == Some("IfNeeded") {
      assert early[i] == main[i];
      TrackedExactly(early, main[i].item);
      assert HasKey(tracked, key);
      var k :| 0 <= k < |Reinvocations(main)| && Reinvocations(main)[k].key == key;
      assert Reinvocations(main)[k] in Reinvocations(main);
    }
  }

  // ---------------------------------------------------------------- how a run ends

  /** A mutating run that fails does so with the failure of its last turn. */
  lemma RunFailsWithLast<O, A>(w: World<O, A>, configs: seq<Config>, resource: O,
                               main: seq<Turn<O, A>>, again: seq<Turn<O, A>>, result: Result<O>)
    requires MutatingRun(w, configs, resource, main, again, result) && result.Failed?
    ensures main + again != [] && (main + again)[|main + again| - 1].outcome == Fatal(result.failure)
  {
  }

  /** How the pipeline goes on when the mutating run has succeeded. */
  lemma PipelineAdmitsExactly<O, A>(p: Pipeline<O, A>, admitted: Result<O>, turns: seq<Turn<O, A>>, result: Result<O>)
    requires PipelineEnd(p, admitted, turns, result)
    ensures admitted.Failed? ==> result == admitted
    ensures admitted.Admitted? && p.validatingConfigs.None? ==> result == Failed(ListFailed)
    ensures admitted.Admitted? && p.validatingConfigs.Some? ==>
              if exists t :: t in turns && t.outcome.Fatal? then
                result.Failed? && turns != [] && turns[|turns| - 1].outcome == Fatal(result.failure)
              else
                result == if p.policies(admitted.resource) then admitted else Failed(PolicyViolated)
  {
    assert EndsFatally(turns) ==> turns[|turns| - 1] in turns;
  }
}
