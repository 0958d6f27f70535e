/** Which FlowSchema classifies a request. */
module FlowSchemas {
  import opened Common
  import opened StableSort

  /** The largest matching precedence, standing in for an absent one. */
  const I64_MAX: int := 0x7fff_ffff_ffff_ffff

  /** The parts of a FlowSchema that selection reads; `spec` is everything its rules are matched on. */
  datatype FlowSchema = FlowSchema(name: Option<string>, precedence: Option<int>, spec: nat)

  function Precedence(f: FlowSchema): int {
    if f.precedence.Some? then f.precedence.value else I64_MAX
  }

  function Name(f: FlowSchema): string {
    if f.name.Some? then f.name.value else ""
  }

  /** Lower precedence value first, then name. */
  predicate PreferredTo(a: FlowSchema, b: FlowSchema) {
    Precedence(a) < Precedence(b) || (Precedence(a) == Precedence(b) && StringLe(Name(a), Name(b)))
  }

  /** `select_matching_flow_schema`: the first match in the stable sort. */
  function Select(schemas: seq<FlowSchema>, matches: FlowSchema -> bool): Option<FlowSchema> {
    var sorted := Sort(Filter(schemas, matches), PreferredTo);
    if sorted == [] then None else Some(sorted[0])
  }

  lemma PreferenceIsOrder()
    ensures TotalPreorder(PreferredTo)
    ensures forall a, b :: PreferredTo(a, b) && PreferredTo(b, a) ==> Name(a) == Name(b)
  {
    forall a, b ensures PreferredTo(a, b) || PreferredTo(b, a) { StringTotal(Name(a), Name(b)); }
    forall a, b | PreferredTo(a, b) && PreferredTo(b, a) ensures Name(a) == Name(b) {
      StringTotal(Name(a), Name(b));
    }
    forall a, b, c | PreferredTo(a, b) && PreferredTo(b, c) ensures PreferredTo(a, c) {
      if Precedence(a) == Precedence(b) == Precedence(c) { StringTransitive(Name(a), Name(b), Name(c)); }
    }
  }

  /** Nothing is selected exactly when nothing matches; otherwise the selected schema is a least match. */
  lemma SelectsLeast(schemas: seq<FlowSchema>, matches: FlowSchema -> bool)
    ensures Select(schemas, matches).None? <==> forall f :: f in schemas ==> !matches(f)
    ensures Select(schemas, matches).Some? ==>
              var best := Select(schemas, matches).value;
              && best in schemas && matches(best)
              && forall f :: f in schemas && matches(f) ==> PreferredTo(best, f)
  {
    PreferenceIsOrder();
    FilterMembers(schemas, matches);
    var hits := Filter(schemas, matches);
    SortHead(hits, PreferredTo);
    if hits != [] {
      assert hits[0] in schemas && matches(hits[0]);
    } else {
      forall f | f in schemas ensures !matches(f) { assert f !in hits; }
    }
  }

  /**
     `a` comes no later than `b`: its precedence, 2^63 - 1 when absent, is lower; or as low, and its
     name, empty when absent, is no later.
   */
  lemma PreferredExactly(a: FlowSchema, b: FlowSchema)
    ensures var p, q := if a.precedence.None? then 0x7fff_ffff_ffff_ffff else a.precedence.value,
                        if b.precedence.None? then 0x7fff_ffff_ffff_ffff else b.precedence.value;
            var x, y := if a.name.None? then "" else a.name.value, if b.name.None? then "" else b.name.value;
            PreferredTo(a, b) <==>
              p < q || (p == q && (x <= y || exists k: nat :: k < |x| && k < |y| && x[..k] == y[..k] && x[k] < y[k]))
  {
    StringLeExactly(Name(a), Name(b));
  }

  /** Against every match, the selected schema has the lower precedence number, or as low a one and no later a name. */
  lemma SelectsLowest(schemas: seq<FlowSchema>, matches: FlowSchema -> bool, f: FlowSchema)
    requires f in schemas && matches(f)
    ensures Select(schemas, matches).Some? && Select(schemas, matches).value in schemas
    ensures var best := Select(schemas, matches).value;
            var p, q := if best.precedence.None? then 0x7fff_ffff_ffff_ffff else best.precedence.value,
                        if f.precedence.None? then 0x7fff_ffff_ffff_ffff else f.precedence.value;
            var x, y := if best.name.None? then "" else best.name.value, if f.name.None? then "" else f.name.value;
            p < q || (p == q && (x <= y || exists k: nat :: k < |x| && k < |y| && x[..k] == y[..k] && x[k] < y[k]))
  {
    SelectsLeast(schemas, matches);
    PreferredExactly(Select(schemas, matches).value, f);
  }

  /** The selected schema is the earliest listed of the least matches: every match listed before it is worse. */
  lemma SelectsFirst(schemas: seq<FlowSchema>, matches: FlowSchema -> bool) returns (at: nat)
    requires Select(schemas, matches).Some?
    ensures at < |schemas| && Select(schemas, matches) == Some(schemas[at]) && matches(schemas[at])
    ensures forall k :: 0 <= k < |schemas| && matches(schemas[k]) ==> PreferredTo(schemas[at], schemas[k])
    ensures forall k :: 0 <= k < at && matches(schemas[k]) ==> !PreferredTo(schemas[k], schemas[at])
  {
    var hits := Filter(schemas, matches);
    PreferenceIsOrder();
    SelectsLeast(schemas, matches);
    var best := Select(schemas, matches).value;
    SortStable(hits, PreferredTo, best);
    assert Filter(Sort(hits, PreferredTo), Ties(PreferredTo, best))[0] == best;
    at := FirstHit(schemas, matches, Ties(PreferredTo, best));
  }

  lemma {:induction false} FirstHit(schemas: seq<FlowSchema>, p: FlowSchema -> bool, q: FlowSchema -> bool)
    returns (at: nat)
    requires Filter(Filter(schemas, p), q) != []
    ensures at < |schemas| && p(schemas[at]) && q(schemas[at]) && Filter(Filter(schemas, p), q)[0] == schemas[at]
    ensures forall k :: 0 <= k < at && p(schemas[k]) ==> !q(schemas[k])
  {
    if p(schemas[0]) && q(schemas[0]) {
      at := 0;
      assert Filter(schemas, p) == [schemas[0]] + Filter(schemas[1..], p);
    } else {
      if p(schemas[0]) {
        assert Filter(schemas, p) == [schemas[0]] + Filter(schemas[1..], p);
        assert Filter(schemas, p)[1..] == Filter(schemas[1..], p);
      }
      var rest := FirstHit(schemas[1..], p, q);
      at := rest + 1;
    }
  }

  /** With distinct names, any permutation of the list selects the same schema. */
  lemma SelectForgetsOrder(s: seq<FlowSchema>, t: seq<FlowSchema>, matches: FlowSchema -> bool)
    requires multiset(s) == multiset(t)
    requires forall f, g :: f in s && g in s && Name(f) == Name(g) ==> f == g
    ensures Select(s, matches) == Select(t, matches)
  {
    PreferenceIsOrder();
    SelectsLeast(s, matches);
    SelectsLeast(t, matches);
    assert forall f :: f in s <==> f in multiset(s);
    assert forall f :: f in t <==> f in multiset(t);
  }
}
