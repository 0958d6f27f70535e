/** The admission engine's loops, each against the passes of `AdmissionSpec`, and the whole pipeline. */
module Admission {
  import opened Common
  import opened StableSort
  import opened AdmissionSpec

  // ---------------------------------------------------------------- the reinvocation queue, incrementally

  /** `previous` and `queue` are what the engine remembers of the turns so far. */
  ghost predicate Remembers<O, A>(main: seq<Turn<O, A>>, previous: seq<Item>, queue: seq<Item>) {
    previous == Tracked(main) && queue == Reinvocations(main)
  }

  /** What was tracked before the last change is the beginning of what is tracked now. */
  lemma {:induction false} TrackedGrows<O, A>(ts: seq<Turn<O, A>>, k: nat)
    requires k <= |ts|
    ensures |Tracked(ts[..k])| <= |Tracked(ts)| && Tracked(ts[..k]) == Tracked(ts)[..|Tracked(ts[..k])|]
  {
    if k == |ts| {
      assert ts[..k] == ts;
    } else {
      TrackedGrows(ts[..|ts| - 1], k);
      assert ts[..|ts| - 1][..k] == ts[..k];
    }
  }

  lemma RemembersNext<O, A>(main: seq<Turn<O, A>>, t: Turn<O, A>)
    ensures Tracked(main + [t]) ==
            Tracked(main) + if t.outcome.Answered? && Reinvocable(t.item.hook) then [t.item] else []
    ensures Reinvocations(main + [t]) == if Changes(t) then FirstByKey(Tracked(main)) else Reinvocations(main)
  {
    var ts := main + [t];
    assert ts[..|ts| - 1] == main;
    assert ts[..LastChange(ts)] == if Changes(t) then main else main[..LastChange(main)];
  }

  /** Push every item whose key is not queued yet: the queue becomes the first item of each key. */
  method QueueMissing(previous: seq<Item>, queue: seq<Item>, ghost done: nat) returns (queue': seq<Item>)
    requires done <= |previous| && queue == FirstByKey(previous[..done])
    ensures queue' == FirstByKey(previous)
  {
    queue' := queue;
    for j := 0 to |previous|
      invariant queue' == FirstByKey(previous[..Max(done, j)])
    {
      FirstByKeyLaws(previous[..Max(done, j)]);
      if j < done { assert previous[..done][j] == previous[j]; }
      if !HasKey(queue', previous[j].key) { queue' := queue' + [previous[j]]; }
      assert j >= done ==> previous[..j + 1][..j] == previous[..j];
    }
    assert previous[..|previous|] == previous;
  }

  /** After an answer: queue reinvocations if the object changed, then track the webhook. */
  method Remember<O(==), A>(ghost main: seq<Turn<O, A>>, t: Turn<O, A>, previous: seq<Item>, queue: seq<Item>)
    returns (previous': seq<Item>, queue': seq<Item>)
    requires Remembers(main, previous, queue) && t.outcome.Answered?
    ensures Remembers(main + [t], previous', queue')
  {
    RemembersNext(main, t);
    previous', queue' := previous, queue;
    if t.outcome.after != t.seen {
      TrackedGrows(main, LastChange(main));
      queue' := QueueMissing(previous, queue, |Tracked(main[..LastChange(main)])|);
    }
    if Reinvocable(t.item.hook) { previous' := previous' + [t.item]; }
  }

  // ---------------------------------------------------------------- the passes

  /** One webhook's turn on the object the turns before it left. */
  method GiveTurn<O(==), A>(w: World<O, A>, mutating: bool, ghost items: seq<Item>, ghost start: O, item: Item,
                            main: seq<Turn<O, A>>, mutated: O, previous: seq<Item>, queue: seq<Item>)
    returns (main': seq<Turn<O, A>>, mutated': O, previous': seq<Item>, queue': seq<Item>)
    requires Passing(w, mutating, 0, items, start, main) && !EndsFatally(main)
    requires |main| < |items| && items[|main|] == item
    requires mutated == Final(main, start) && (mutating ==> Remembers(main, previous, queue))
    ensures Passing(w, mutating, 0, items, start, main') && |main'| == |main| + 1
    ensures mutated' == Final(main', start) && (mutating ==> Remembers(main', previous', queue'))
  {
    var t := Turn(item, mutated, Take(w, mutating, |main|, item.hook, mutated));
    PassExtends(w, mutating, 0, items, start, main, t);
    RemembersNext(main, t);
    main' := main + [t];
    mutated', previous', queue' := mutated, previous, queue;
    if t.outcome.Answered? {
      mutated' := t.outcome.after;
      if mutating { previous', queue' := Remember(main, t, previous, queue); }
    }
  }

  lemma {:induction false} ItemsPrefix(configs: seq<Config>, c: nat)
    requires c < |configs|
    ensures Items(configs[..c + 1]) == Items(configs[..c]) + ItemsOf(configs[c])
    ensures |Items(configs[..c + 1])| <= |Items(configs)|
    ensures Items(configs[..c + 1]) == Items(configs)[..|Items(configs[..c + 1])|]
    decreases |configs|
  {
    assert configs[..c + 1][..c] == configs[..c];
    if c + 1 == |configs| {
      assert configs[..c + 1] == configs;
    } else {
      var front := configs[..|configs| - 1];
      ItemsPrefix(front, c);
      assert front[..c + 1] == configs[..c + 1] && front[..c] == configs[..c];
    }
  }

  /** The inner loop, over the webhooks of one configuration; it stops at a fatal turn. */
  method ConfigPass<O(==), A>(w: World<O, A>, mutating: bool, ghost items: seq<Item>, ghost start: O, hooks: seq<Item>,
                              main: seq<Turn<O, A>>, mutated: O, previous: seq<Item>, queue: seq<Item>)
    returns (main': seq<Turn<O, A>>, mutated': O, previous': seq<Item>, queue': seq<Item>)
    requires Passing(w, mutating, 0, items, start, main) && !EndsFatally(main)
    requires |main| + |hooks| <= |items| && items[|main|..|main| + |hooks|] == hooks
    requires mutated == Final(main, start) && (mutating ==> Remembers(main, previous, queue))
    ensures Passing(w, mutating, 0, items, start, main')
    ensures !EndsFatally(main') ==> |main'| == |main| + |hooks|
    ensures mutated' == Final(main', start) && (mutating ==> Remembers(main', previous', queue'))
  {
    main', mutated', previous', queue' := main, mutated, previous, queue;
    for h := 0 to |hooks|
      invariant Passing(w, mutating, 0, items, start, main') && !EndsFatally(main')
      invariant |main'| == |main| + h
      invariant mutated' == Final(main', start) && (mutating ==> Remembers(main', previous', queue'))
    {
      assert items[|main'|] == items[|main|..|main| + |hooks|][h];
      main', mutated', previous', queue' :=
        GiveTurn(w, mutating, items, start, hooks[h], main', mutated', previous', queue');
      if main'[|main'| - 1].outcome.Fatal? { return; }
    }
  }

  /** The loop over sorted configurations and their webhooks. */
  method MainPass<O(==), A>(w: World<O, A>, mutating: bool, configs: seq<Config>, resource: O)
    returns (main: seq<Turn<O, A>>, mutated: O, queue: seq<Item>)
    ensures IsPass(w, mutating, 0, Schedule(configs), resource, main)
    ensures mutated == Final(main, resource)
    ensures mutating ==> queue == Reinvocations(main)
  {
    var sorted := Sort(configs, ByName);
    ghost var items := Items(sorted);
    var previous: seq<Item> := [];
    main, mutated, queue := [], resource, [];
    assert sorted[..0] == [];
    for c := 0 to |sorted|
      invariant Passing(w, mutating, 0, items, resource, main) && !EndsFatally(main)
      invariant |main| == |Items(sorted[..c])|
      invariant mutated == Final(main, resource) && (mutating ==> Remembers(main, previous, queue))
    {
      ItemsPrefix(sorted, c);
      main, mutated, previous, queue :=
        ConfigPass(w, mutating, items, resource, ItemsOf(sorted[c]), main, mutated, previous, queue);
      if EndsFatally(main) { return; }
    }
    assert sorted[..|sorted|] == sorted;
  }

  /** The second pass: it only folds answers into the object, so a change queues nothing further. */
  method ReinvocationPass<O(==), A>(w: World<O, A>, base: nat, queue: seq<Item>, resource: O)
    returns (again: seq<Turn<O, A>>, mutated: O)
    ensures IsPass(w, true, base, queue, resource, again) && mutated == Final(again, resource)
  {
    again, mutated := [], resource;
    for k := 0 to |queue|
      invariant |again| == k && mutated == Final(again, resource)
      invariant Passing(w, true, base, queue, resource, again) && !EndsFatally(again)
    {
      var t := Turn(queue[k], mutated, Take(w, true, base + k, queue[k].hook, mutated));
      PassExtends(w, true, base, queue, resource, again, t);
      again := again + [t];
      if t.outcome.Fatal? { return; }
      if t.outcome.Answered? { mutated := t.outcome.after; }
    }
  }

  // ---------------------------------------------------------------- one run

  function Verdict<O, A>(ts: seq<Turn<O, A>>, start: O): Result<O> {
    if EndsFatally(ts) then Failed(ts[|ts| - 1].outcome.failure) else Admitted(Final(ts, start))
  }

  /**
     What a mutating run must be: the scheduled pass, then (unless it failed) the reinvocation pass
     over the closed-form queue, on the object the first pass left.
   */
  ghost predicate MutatingRun<O, A>(w: World<O, A>, configs: seq<Config>, resource: O,
                                        main: seq<Turn<O, A>>, again: seq<Turn<O, A>>, result: Result<O>) {
    && IsPass(w, true, 0, Schedule(configs), resource, main)
    && (EndsFatally(main) ==> again == [] && result == Verdict(main, resource))
    && (!EndsFatally(main) ==>
          && IsPass(w, true, |main|, Reinvocations(main), Final(main, resource), again)
          && result == Verdict(again, Final(main, resource)))
  }

  /** `run_with_context(.., true)` when admission applies to the request. */
  method RunMutating<O(==), A>(w: World<O, A>, configs: seq<Config>, resource: O)
    returns (result: Result<O>, main: seq<Turn<O, A>>, again: seq<Turn<O, A>>)
    ensures MutatingRun(w, configs, resource, main, again, result)
  {
    var mutated: O;
    var queue: seq<Item>;
    main, mutated, queue := MainPass(w, true, configs, resource);
    again := [];
    if EndsFatally(main) { return Failed(main[|main| - 1].outcome.failure), main, again; }
    again, mutated := ReinvocationPass(w, |main|, queue, mutated);
    result := if EndsFatally(again) then Failed(again[|again| - 1].outcome.failure) else Admitted(mutated);
  }

  /** `run_with_context(.., false)`: the webhooks, then the validating policies, on one object. */
  method RunValidating<O(==), A>(w: World<O, A>, policies: O -> bool, configs: seq<Config>, resource: O)
    returns (result: Result<O>, turns: seq<Turn<O, A>>)
    ensures IsPass(w, false, 0, Schedule(configs), resource, turns)
    ensures result == if EndsFatally(turns) then Verdict(turns, resource)
                      else if policies(resource) then Admitted(resource) else Failed(PolicyViolated)
  {
    var mutated: O;
    var queue: seq<Item>;
    turns, mutated, queue := MainPass(w, false, configs, resource);
    if EndsFatally(turns) { return Failed(turns[|turns| - 1].outcome.failure), turns; }
    ValidationSeesOne(w, Schedule(configs), resource, turns, |turns|);
    result := if policies(mutated) then Admitted(mutated) else Failed(PolicyViolated);
  }

  /**
     Every scheduled webhook and then every queued one had its turn, none of them refused or failed
     closed, and `object` is the fold of their mutations, in call order, over `resource`.
   */
  ghost predicate MutationsSound<O, A>(w: World<O, A>, configs: seq<Config>, resource: O,
                                           main: seq<Turn<O, A>>, again: seq<Turn<O, A>>, admitted: O) {
    && |main| == |Schedule(configs)| && |again| == |Reinvocations(main)|
    && (forall i: nat :: i < |main| ==> main[i].item == Schedule(configs)[i] && Sound(w, true, i, main[i]))
    && (forall i: nat :: i < |again| ==>
          again[i].item == Reinvocations(main)[i] && Sound(w, true, |main| + i, again[i]))
    && Patched(w, resource, Answers(main) + Answers(again)) == Some(admitted)
  }

  lemma AdmittedRunFolds<O, A>(w: World<O, A>, configs: seq<Config>, resource: O,
                               main: seq<Turn<O, A>>, again: seq<Turn<O, A>>, result: Result<O>)
    requires MutatingRun(w, configs, resource, main, again, result) && result.Admitted?
    ensures Patched(w, resource, Answers(main) + Answers(again)) == Some(result.resource)
  {
    var mid := Final(main, resource);
    PassFolds(w, 0, Schedule(configs), resource, main);
    PassFolds(w, |main|, Reinvocations(main), mid, again);
    PatchedJoins(w, resource, Answers(main), mid, Answers(again));
  }

  lemma AdmittedRunIsSound<O, A>(w: World<O, A>, configs: seq<Config>, resource: O,
                                 main: seq<Turn<O, A>>, again: seq<Turn<O, A>>, result: Result<O>)
    requires MutatingRun(w, configs, resource, main, again, result) && result.Admitted?
    ensures MutationsSound(w, configs, resource, main, again, result.resource)
  {
    AdmittedRunFolds(w, configs, resource, main, again, result);
    PassIsSound(w, true, 0, Schedule(configs), resource, main);
    PassIsSound(w, true, |main|, Reinvocations(main), Final(main, resource), again);
  }

  /** A mutating run succeeds exactly when no turn of either pass was fatal, and then every turn was sound. */
  lemma MutatingRunIsSound<O, A>(w: World<O, A>, configs: seq<Config>, resource: O,
                                 main: seq<Turn<O, A>>, again: seq<Turn<O, A>>, result: Result<O>)
    requires MutatingRun(w, configs, resource, main, again, result)
    ensures result.Admitted? <==> forall t :: t in main + again ==> !t.outcome.Fatal?
    ensures result.Admitted? ==> MutationsSound(w, configs, resource, main, again, result.resource)
  {
    if result.Admitted? {
      AdmittedRunIsSound(w, configs, resource, main, again, result);
    } else {
      assert EndsFatally(main) || EndsFatally(again);
      assert EndsFatally(main) ==> main[|main| - 1] in main + again;
      assert EndsFatally(again) ==> again[|again| - 1] in main + again;
    }
  }

  lemma {:induction false} PatchedJoins<O, A>(w: World<O, A>, start: O, first: seq<A>, mid: O, second: seq<A>)
    requires Patched(w, start, first) == Some(mid)
    ensures Patched(w, start, first + second) == Patched(w, mid, second)
  {
    if second == [] {
      assert first + second == first;
    } else {
      var n := |second| - 1;
      PatchedJoins(w, start, first, mid, second[..n]);
      assert (first + second)[..|first + second| - 1] == first + second[..n];
    }
  }

  /** The turns that called their webhook. */
  function Calls<O, A>(ts: seq<Turn<O, A>>): set<nat> {
    set i: nat | i < |ts| && !ts[i].outcome.Skipped?
  }

  lemma {:induction false} CallsBounded<O, A>(ts: seq<Turn<O, A>>)
    ensures |Calls(ts)| <= |ts|
  {
    if ts != [] {
      var n := |ts| - 1;
      CallsBounded(ts[..n]);
      assert Calls(ts) == Calls(ts[..n]) + if ts[n].outcome.Skipped? then {} else {n};
    }
  }

  /** A mutating run makes at most two calls per scheduled webhook, and at most one extra call per reinvocable key. */
  lemma ReinvocationIsBounded<O, A>(w: World<O, A>, configs: seq<Config>, resource: O,
                                    main: seq<Turn<O, A>>, again: seq<Turn<O, A>>, result: Result<O>)
    requires MutatingRun(w, configs, resource, main, again, result)
    ensures |Calls(main)| + |Calls(again)| <= |main| + |again| <= 2 * |Schedule(configs)|
    ensures forall i, j :: 0 <= i < j < |again| ==> again[i].item.key != again[j].item.key
    ensures forall i :: 0 <= i < |again| ==>
              && again[i].item.hook.reinvocationPolicy == Some("IfNeeded")
              && exists k :: 0 <= k < |main| && main[k].item == again[i].item
  {
    CallsBounded(main);
    CallsBounded(again);
    ReinvocationsBounded(main);
    if !EndsFatally(main) {
      forall i: nat | i < |again| ensures again[i].item == Reinvocations(main)[i] {
        assert TurnRight(w, true, |main|, Reinvocations(main), Final(main, resource), again, i);
      }
    }
  }

  // ---------------------------------------------------------------- the pipeline

  /** Everything the pipeline meets: the two worlds, the two listings (which may fail), and the policies. */
  datatype Pipeline<!O, !A> = Pipeline(
    applies: bool,
    mutating: World<O, A>, mutatingConfigs: Option<seq<Config>>,
    validating: World<O, A>, validatingConfigs: Option<seq<Config>>,
    policies: O -> bool)

  /** The turns a run of the pipeline took. */
  datatype Transcript<O, A> = Transcript(
    main: seq<Turn<O, A>>, again: seq<Turn<O, A>>, validation: seq<Turn<O, A>>)

  /** `execute_admission_pipeline`. */
  method Execute<O(==, !new), A>(p: Pipeline<O, A>, resource: O) returns (result: Result<O>, log: Transcript<O, A>)
    ensures !p.applies ==> result == Admitted(resource) && log == Transcript([], [], [])
    ensures p.applies && p.mutatingConfigs.None? ==> result == Failed(ListFailed) && log == Transcript([], [], [])
    ensures p.applies && p.mutatingConfigs.Some? ==> Executed(p, resource, log, result)
  {
    if !p.applies { return Admitted(resource), Transcript([], [], []); }
    if p.mutatingConfigs.None? { return Failed(ListFailed), Transcript([], [], []); }
    var admitted, main, again := RunMutating(p.mutating, p.mutatingConfigs.value, resource);
    log := Transcript(main, again, []);
    if admitted.Failed? {
      result := admitted;
      assert PipelineEnd(p, admitted, [], result);
      return;
    }
    if p.validatingConfigs.None? {
      result := Failed(ListFailed);
      assert PipelineEnd(p, admitted, [], result);
      return;
    }
    var verdict, turns := RunValidating(p.validating, p.policies, p.validatingConfigs.value, admitted.resource);
    log := Transcript(main, again, turns);
    result := if verdict.Failed? then verdict else admitted;
    assert PipelineEnd(p, admitted, turns, result);
  }

  /** How the pipeline goes on from the mutating run's result. */
  ghost predicate PipelineEnd<O, A>(p: Pipeline<O, A>, admitted: Result<O>, turns: seq<Turn<O, A>>, result: Result<O>) {
    if admitted.Failed? then
      turns == [] && result == admitted
    else if p.validatingConfigs.None? then
      turns == [] && result == Failed(ListFailed)
    else
      && IsPass(p.validating, false, 0, Schedule(p.validatingConfigs.value), admitted.resource, turns)
      && result == if EndsFatally(turns) then Verdict(turns, admitted.resource)
                   else if p.policies(admitted.resource) then admitted else Failed(PolicyViolated)
  }

  /** Every validating webhook had its turn on `admitted` itself and let it pass, and so did the policies. */
  ghost predicate ValidationSound<O, A>(p: Pipeline<O, A>, turns: seq<Turn<O, A>>, admitted: O) {
    && p.validatingConfigs.Some? && p.policies(admitted)
    && |turns| == |Schedule(p.validatingConfigs.value)|
    && forall i: nat :: i < |turns| ==>
         && turns[i].item == Schedule(p.validatingConfigs.value)[i] && turns[i].seen == admitted
         && Sound(p.validating, false, i, turns[i])
  }

  lemma ValidationIsSound<O, A>(p: Pipeline<O, A>, admitted: Result<O>, turns: seq<Turn<O, A>>, result: Result<O>)
    requires PipelineEnd(p, admitted, turns, result) && result.Admitted?
    ensures admitted == result && ValidationSound(p, turns, result.resource)
  {
    var items := Schedule(p.validatingConfigs.value);
    PassIsSound(p.validating, false, 0, items, admitted.resource, turns);
    forall i: nat | i < |turns| ensures turns[i].seen == result.resource {
      ValidationSeesOne(p.validating, items, admitted.resource, turns, i);
    }
  }

  /**
     Soundness of the whole pipeline: an object it returns is the fold of the mutations in call
     order, is exactly what every validating webhook and the policies saw, and no webhook that
     matched at its turn, in any of the three passes, refused it or failed closed.
   */
  lemma PipelineIsSound<O, A>(p: Pipeline<O, A>, resource: O, admitted: Result<O>,
                              log: Transcript<O, A>, result: Result<O>)
    requires p.mutatingConfigs.Some?
    requires MutatingRun(p.mutating, p.mutatingConfigs.value, resource, log.main, log.again, admitted)
    requires PipelineEnd(p, admitted, log.validation, result) && result.Admitted?
    ensures MutationsSound(p.mutating, p.mutatingConfigs.value, resource, log.main, log.again, result.resource)
    ensures ValidationSound(p, log.validation, result.resource)
  {
    ValidationIsSound(p, admitted, log.validation, result);
    MutatingRunIsSound(p.mutating, p.mutatingConfigs.value, resource, log.main, log.again, admitted);
  }

  /** The result of a mutating run does not depend on the order in which configurations were listed. */
  lemma RunForgetsListing<O, A>(w: World<O, A>, s: seq<Config>, t: seq<Config>, resource: O,
                                main: seq<Turn<O, A>>, again: seq<Turn<O, A>>, r: Result<O>,
                                main': seq<Turn<O, A>>, again': seq<Turn<O, A>>, r': Result<O>)
    requires multiset(s) == multiset(t)
    requires forall a, b :: a in s && b in s && ByName(a, b) && ByName(b, a) ==> a == b
    requires MutatingRun(w, s, resource, main, again, r) && MutatingRun(w, t, resource, main', again', r')
    ensures main == main' && again == again' && r == r'
  {
    ScheduleForgetsOrder(s, t);
    PassUnique(w, true, 0, Schedule(s), resource, main, main', 0);
    if !EndsFatally(main) {
      PassUnique(w, true, |main|, Reinvocations(main), Final(main, resource), again, again', 0);
    }
  }

  /** The two listings are of the same, distinctly named, configurations; or both failed. */
  ghost predicate SameListing(s: Option<seq<Config>>, t: Option<seq<Config>>) {
    && (s.Some? <==> t.Some?)
    && (s.Some? ==>
          && multiset(s.value) == multiset(t.value)
          && forall a, b :: a in s.value && b in s.value && ByName(a, b) && ByName(b, a) ==> a == b)
  }

  /** What `Execute` ensures when admission applies and the configurations could be listed. */
  ghost predicate Executed<O(!new), A>(p: Pipeline<O, A>, resource: O, log: Transcript<O, A>, result: Result<O>)
    requires p.mutatingConfigs.Some?
  {
    exists admitted: Result<O> ::
      && MutatingRun(p.mutating, p.mutatingConfigs.value, resource, log.main, log.again, admitted)
      && PipelineEnd(p, admitted, log.validation, result)
  }

  lemma EndForgetsListing<O, A>(p: Pipeline<O, A>, q: Pipeline<O, A>, admitted: Result<O>,
                                turns: seq<Turn<O, A>>, result: Result<O>,
                                turns': seq<Turn<O, A>>, result': Result<O>)
    requires q == p.(validatingConfigs := q.validatingConfigs, mutatingConfigs := q.mutatingConfigs)
    requires SameListing(p.validatingConfigs, q.validatingConfigs)
    requires PipelineEnd(p, admitted, turns, result) && PipelineEnd(q, admitted, turns', result')
    ensures turns == turns' && result == result'
  {
    if admitted.Admitted? && p.validatingConfigs.Some? {
      ScheduleForgetsOrder(p.validatingConfigs.value, q.validatingConfigs.value);
      PassUnique(p.validating, false, 0, Schedule(p.validatingConfigs.value), admitted.resource, turns, turns', 0);
    }
  }

  /** Neither the calls nor the result of the whole pipeline depend on the order of either listing. */
  lemma PipelineForgetsListing<O(!new), A>(p: Pipeline<O, A>, q: Pipeline<O, A>, resource: O,
                                           log: Transcript<O, A>, result: Result<O>,
                                           log': Transcript<O, A>, result': Result<O>)
    requires q == p.(validatingConfigs := q.validatingConfigs, mutatingConfigs := q.mutatingConfigs)
    requires SameListing(p.mutatingConfigs, q.mutatingConfigs) && SameListing(p.validatingConfigs, q.validatingConfigs)
    requires p.mutatingConfigs.Some? && Executed(p, resource, log, result) && Executed(q, resource, log', result')
    ensures log == log' && result == result'
  {
    var r: Result<O> :| MutatingRun(p.mutating, p.mutatingConfigs.value, resource, log.main, log.again, r)
                        && PipelineEnd(p, r, log.validation, result);
    var r': Result<O> :| MutatingRun(q.mutating, q.mutatingConfigs.value, resource, log'.main, log'.again, r')
                         && PipelineEnd(q, r', log'.validation, result');
    RunForgetsListing(p.mutating, p.mutatingConfigs.value, q.mutatingConfigs.value, resource,
                      log.main, log.again, r, log'.main, log'.again, r');
    EndForgetsListing(p, q, r, log.validation, result, log'.validation, result');
  }

  // ---------------------------------------------------------------- a webhook called in vain

  const FLAKY := Hook(Some("flaky"), Some("Ignore"), Some("IfNeeded"), 0)
  const EDITOR := Hook(Some("editor"), None, None, 1)
  const BOTH := Config(Some("both"), [FLAKY, EDITOR])

  /** The first webhook's calls fail; the second adds one to the object. */
  const EDITED: World<int, int> := World(
    (_, _) => Some(true),
    (_, hook, _) => if hook == FLAKY then None else Some(1),
    _ => true,
    (o, a) => Some(o + a))

  lemma BothScheduled()
    ensures Schedule([BOTH]) == [Item(Key(BOTH.name, FLAKY), FLAKY), Item(Key(BOTH.name, EDITOR), EDITOR)]
  {
    assert [BOTH][1..] == [];
    assert Sort([BOTH], ByName) == [BOTH];
    assert [BOTH][..0] == [];
    assert Items([BOTH]) == Items([]) + ItemsOf(BOTH);
  }

  lemma LoneIgnored<O, A>(t: Turn<O, A>)
    requires IgnoredReinvocable(t)
    ensures Tracked([t]) == [] && Invoked([t]) == [t.item]
  {
    var front := [t][..|[t]| - 1];
    assert front == [];
    assert Invoked([t]) == Invoked(front) + [t.item];
    assert Tracked([t]) == Tracked(front);
  }

  /** A reinvocable webhook whose call failed is not called again, although the object changed after it. */
  lemma FailedCallIsNotRetried() returns (main: seq<Turn<int, int>>)
    ensures MutatingRun(EDITED, [BOTH], 0, main, [], Admitted(1))
    ensures Reinvocations(main) == [] && Invoked(main[..LastChange(main)]) == [Item(Key(BOTH.name, FLAKY), FLAKY)]
  {
    BothScheduled();
    var items := Schedule([BOTH]);
    var first, second := Turn(items[0], 0, Ignored), Turn(items[1], 0, Answered(1, 1));
    main := [first, second];
    PassExtends(EDITED, true, 0, items, 0, [], first);
    assert [] + [first] == [first];
    PassExtends(EDITED, true, 0, items, 0, [first], second);
    assert [first] + [second] == main;
    assert LastChange(main) == 1 && main[..1] == [first];
    LoneIgnored(first);
  }
}
