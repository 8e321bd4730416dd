/**
 * `filterCandidates(plan, candidates)` of the search tools (src/lib/mcp-tools.js): keep the
 * candidates that match every `include` criterion and no `exclude` criterion, narrowing
 * the list one criterion at a time.
 */
module McpFilter {
  import opened Wrappers
  import opened JsValues
  import opened JsStrings
  import opened SeqLib
  import opened McpMatch

  /**
   * A filter plan. `NotAnObject` is a plan that is falsy or not an object. An object's
   * `include` and `exclude` are `None` when the key is missing or does not hold an array.
   */
  datatype FilterPlan =
    | NotAnObject
    | FilterObject(includes: Option<seq<Criterion>>, excludes: Option<seq<Criterion>>)

  /** `candidate[filter.field]`: the property key is `String(filter.field)`. */
  function FieldOf(c: Record, crit: Criterion): JsValue {
    Get(c, ToStr(crit.field))
  }

  /** A test of one criterion against one candidate. */
  type Matcher = (Criterion, Record) -> bool

  /** `(filter, candidate) => matchesFilter(candidate[filter.field], filter)`. */
  function MatcherOf(rt: Runtime): Matcher {
    (crit, c) => MatchesFilter(rt, FieldOf(c, crit), crit)
  }

  predicate MatchesAll(m: Matcher, crits: seq<Criterion>, c: Record) {
    forall i :: 0 <= i < |crits| ==> m(crits[i], c)
  }

  predicate MatchesNone(m: Matcher, crits: seq<Criterion>, c: Record) {
    forall i :: 0 <= i < |crits| ==> !m(crits[i], c)
  }

  /** The include criteria the plan applies (none unless it is an object with an `include` array). */
  function IncludeList(plan: FilterPlan): seq<Criterion> {
    if plan.FilterObject? then plan.includes.GetOr([]) else []
  }

  /** The exclude criteria the plan applies. */
  function ExcludeList(plan: FilterPlan): seq<Criterion> {
    if plan.FilterObject? then plan.excludes.GetOr([]) else []
  }

  /** The callback of one include pass, `candidate => matchesFilter(candidate[filter.field], filter)`. */
  function Test(m: Matcher, crit: Criterion): Record -> bool {
    c => m(crit, c)
  }

  /** The callback of one exclude pass. */
  function TestNot(m: Matcher, crit: Criterion): Record -> bool {
    c => !m(crit, c)
  }

  /** Matches all of `inc` and none of `exc`. */
  function Stage(m: Matcher, inc: seq<Criterion>, exc: seq<Criterion>): Record -> bool {
    c => MatchesAll(m, inc, c) && MatchesNone(m, exc, c)
  }

  /** Whether a candidate passes the whole plan. */
  predicate Survives(rt: Runtime, plan: FilterPlan, c: Record) {
    Stage(MatcherOf(rt), IncludeList(plan), ExcludeList(plan))(c)
  }

  /** What `filterCandidates` returns, stated as a single filter of the input. */
  function Survivors(rt: Runtime, plan: FilterPlan, candidates: seq<Record>): seq<Record> {
    Filter(candidates, Stage(MatcherOf(rt), IncludeList(plan), ExcludeList(plan)))
  }

  lemma {:induction false} StageNothing(m: Matcher, candidates: seq<Record>)
    ensures Filter(candidates, Stage(m, [], [])) == candidates
  {
    FilterKeepsAll(candidates, Stage(m, [], []));
  }

  lemma MatchesAllSnoc(m: Matcher, inc: seq<Criterion>, k: nat, c: Record)
    requires k < |inc|
    ensures MatchesAll(m, inc[..k + 1], c) <==> MatchesAll(m, inc[..k], c) && m(inc[k], c)
  {
    assert forall i :: 0 <= i < k ==> inc[..k + 1][i] == inc[..k][i];
  }

  lemma MatchesNoneSnoc(m: Matcher, exc: seq<Criterion>, k: nat, c: Record)
    requires k < |exc|
    ensures MatchesNone(m, exc[..k + 1], c) <==> MatchesNone(m, exc[..k], c) && !m(exc[k], c)
  {
    assert forall i :: 0 <= i < k ==> exc[..k + 1][i] == exc[..k][i];
  }

  lemma {:induction false} IncludeStep(m: Matcher, candidates: seq<Record>, inc: seq<Criterion>, k: nat)
    requires k < |inc|
    ensures Filter(Filter(candidates, Stage(m, inc[..k], [])), Test(m, inc[k]))
         == Filter(candidates, Stage(m, inc[..k + 1], []))
  {
    var p, q := Stage(m, inc[..k], []), Test(m, inc[k]);
    forall c ensures Stage(m, inc[..k + 1], [])(c) == (p(c) && q(c)) {
      MatchesAllSnoc(m, inc, k, c);
    }
    FilterFilter(candidates, p, q, Stage(m, inc[..k + 1], []));
  }

  lemma {:induction false} ExcludeStep(m: Matcher, candidates: seq<Record>, inc: seq<Criterion>, exc: seq<Criterion>, k: nat)
    requires k < |exc|
    ensures Filter(Filter(candidates, Stage(m, inc, exc[..k])), TestNot(m, exc[k]))
         == Filter(candidates, Stage(m, inc, exc[..k + 1]))
  {
    var p, q := Stage(m, inc, exc[..k]), TestNot(m, exc[k]);
    forall c ensures Stage(m, inc, exc[..k + 1])(c) == (p(c) && q(c)) {
      MatchesNoneSnoc(m, exc, k, c);
    }
    FilterFilter(candidates, p, q, Stage(m, inc, exc[..k + 1]));
  }

  /**
   * `filterCandidates(plan, candidates)`: a plan that is not an object returns a copy of
   * the input; otherwise each include criterion, then each exclude criterion, narrows the
   * list with a filter pass of its own. Missing, non-array or empty lists are skipped.
   */
  method FilterCandidates(rt: Runtime, plan: FilterPlan, candidates: seq<Record>) returns (filtered: seq<Record>)
    ensures filtered == Survivors(rt, plan, candidates)
    ensures forall c :: c in filtered <==> c in candidates && Survives(rt, plan, c)
    ensures IsSubseq(filtered, candidates)
  {
    var m := MatcherOf(rt);
    SurvivorsMembers(rt, plan, candidates);
    FilterIsSubseq(candidates, Stage(m, IncludeList(plan), ExcludeList(plan)));
    if plan.NotAnObject? {
      StageNothing(m, candidates);
      return candidates;
    }
    filtered := candidates;
    StageNothing(m, candidates);
    var inc := IncludeList(plan);
    if plan.includes.Some? && |plan.includes.value| > 0 {
      var k := 0;
      assert inc[..0] == [];
      while k < |inc|
        invariant 0 <= k <= |inc|
        invariant filtered == Filter(candidates, Stage(m, inc[..k], []))
      {
        var crit := inc[k];
        IncludeStep(m, candidates, inc, k);
        filtered := Filter(filtered, Test(m, crit));
        k := k + 1;
      }
      assert inc[..k] == inc;
    }
    assert filtered == Filter(candidates, Stage(m, inc, []));
    var exc := ExcludeList(plan);
    if plan.excludes.Some? && |plan.excludes.value| > 0 {
      var k := 0;
      assert exc[..0] == [];
      while k < |exc|
        invariant 0 <= k <= |exc|
        invariant filtered == Filter(candidates, Stage(m, inc, exc[..k]))
      {
        var crit := exc[k];
        ExcludeStep(m, candidates, inc, exc, k);
        filtered := Filter(filtered, TestNot(m, crit));
        k := k + 1;
      }
      assert exc[..k] == exc;
    }
  }

  /** A candidate survives exactly when it is in the input and passes the plan. */
  lemma SurvivorsMembers(rt: Runtime, plan: FilterPlan, candidates: seq<Record>)
    ensures forall c :: c in Survivors(rt, plan, candidates) <==> c in candidates && Survives(rt, plan, c)
  {
    forall c ensures c in Survivors(rt, plan, candidates) <==> c in candidates && Survives(rt, plan, c) {
      FilterMembers(candidates, Stage(MatcherOf(rt), IncludeList(plan), ExcludeList(plan)), c);
    }
  }

  /** Every survivor matches every include criterion and no exclude criterion. */
  lemma SurvivorsMatch(rt: Runtime, plan: FilterPlan, candidates: seq<Record>, c: Record, crit: Criterion)
    requires c in Survivors(rt, plan, candidates)
    ensures crit in IncludeList(plan) ==> MatchesFilter(rt, FieldOf(c, crit), crit)
    ensures crit in ExcludeList(plan) ==> !MatchesFilter(rt, FieldOf(c, crit), crit)
  {
    SurvivorsMembers(rt, plan, candidates);
    if crit in IncludeList(plan) {
      var i :| 0 <= i < |IncludeList(plan)| && IncludeList(plan)[i] == crit;
    }
    if crit in ExcludeList(plan) {
      var i :| 0 <= i < |ExcludeList(plan)| && ExcludeList(plan)[i] == crit;
    }
  }

  /** A plan that is not an object, or an object with no criteria, keeps every candidate in order. */
  lemma PlanWithoutCriteriaKeepsAll(rt: Runtime, plan: FilterPlan, candidates: seq<Record>)
    requires plan.NotAnObject? || (IncludeList(plan) == [] && ExcludeList(plan) == [])
    ensures Survivors(rt, plan, candidates) == candidates
  {
    StageNothing(MatcherOf(rt), candidates);
  }

  /** The result keeps the input's relative order. */
  lemma SurvivorsKeepOrder(rt: Runtime, plan: FilterPlan, candidates: seq<Record>)
    ensures IsSubseq(Survivors(rt, plan, candidates), candidates)
  {
    FilterIsSubseq(candidates, Stage(MatcherOf(rt), IncludeList(plan), ExcludeList(plan)));
  }

  lemma StagePartition(m: Matcher, crit: Criterion, candidates: seq<Record>)
    ensures multiset(Filter(candidates, Stage(m, [crit], []))) + multiset(Filter(candidates, Stage(m, [], [crit])))
         == multiset(candidates)
  {
    var p, q := Stage(m, [crit], []), Stage(m, [], [crit]);
    forall x ensures q(x) == !p(x) {
      assert [crit][0] == crit;
    }
    FilterComplement(candidates, p, q);
  }

  /** Including a criterion and excluding it split the candidates between them, without loss or overlap. */
  lemma IncludeExcludePartition(rt: Runtime, crit: Criterion, candidates: seq<Record>)
    ensures multiset(Survivors(rt, FilterObject(Some([crit]), None), candidates))
          + multiset(Survivors(rt, FilterObject(None, Some([crit])), candidates))
         == multiset(candidates)
  {
    StagePartition(MatcherOf(rt), crit, candidates);
  }

  lemma {:induction false} StageSnoc(m: Matcher, inc: seq<Criterion>, exc: seq<Criterion>, crit: Criterion, candidates: seq<Record>)
    ensures Filter(candidates, Stage(m, inc + [crit], exc)) == Filter(Filter(candidates, Stage(m, inc, exc)), Test(m, crit))
  {
    var p, q := Stage(m, inc, exc), Test(m, crit);
    forall c ensures Stage(m, inc + [crit], exc)(c) == (p(c) && q(c)) {
      assert (inc + [crit])[..|inc|] == inc;
      assert (inc + [crit])[..|inc| + 1] == inc + [crit];
      MatchesAllSnoc(m, inc + [crit], |inc|, c);
    }
    FilterFilter(candidates, p, q, Stage(m, inc + [crit], exc));
  }

  /** Adding an include criterion narrows the result by one more filter pass. */
  lemma ExtraCriterionNarrows(rt: Runtime, inc: seq<Criterion>, exc: seq<Criterion>, crit: Criterion, candidates: seq<Record>)
    ensures Survivors(rt, FilterObject(Some(inc + [crit]), Some(exc)), candidates)
         == Filter(Survivors(rt, FilterObject(Some(inc), Some(exc)), candidates), Test(MatcherOf(rt), crit))
  {
    StageSnoc(MatcherOf(rt), inc, exc, crit, candidates);
  }

  /** `{ include: [skills contains React, location contains Cyprus], exclude: [] }`. */
  const ReactInCyprus: FilterPlan := FilterObject(Some([
    Criterion(Str("skills"), Str("contains"), Undefined, Str("React")),
    Criterion(Str("location"), Str("contains"), Undefined, Str("Cyprus"))]), Some([]))

  /** A candidate in Cyprus whose skills list starts with `React` passes `ReactInCyprus`. */
  lemma ReactDeveloperInCyprus(rt: Runtime, c: Record, more: seq<string>)
    requires Get(c, "skills") == Arr(["React"] + more) && Get(c, "location") == Str("Cyprus")
    ensures Survives(rt, ReactInCyprus, c)
  {
    var skills, location := IncludeList(ReactInCyprus)[0], IncludeList(ReactInCyprus)[1];
    OperatorMeaning(rt, FieldOf(c, skills), skills);
    OperatorMeaning(rt, FieldOf(c, location), location);
    var joined := Join(["React"] + more, ',');
    assert "React" <= joined by {
      if more != [] {
        assert (["React"] + more)[1..] == more;
      }
    }
    LowerPrefix("React", joined);
    IncludesPrefix(Lower(joined), Lower("React"));
    IncludesSelf(Lower("Cyprus"));
  }

  /** A candidate in Germany fails `ReactInCyprus`, whatever their skills. */
  lemma InGermany(rt: Runtime, c: Record)
    requires Get(c, "location") == Str("Germany")
    ensures !Survives(rt, ReactInCyprus, c)
  {
    var location := IncludeList(ReactInCyprus)[1];
    OperatorMeaning(rt, FieldOf(c, location), location);
    forall i | 0 <= i < |"Germany"| ensures Lower("Germany")[i] != 'c' {
      LowerCharC("Germany"[i]);
    }
    IncludesNeedsFirstChar(Lower("Germany"), Lower("Cyprus"));
  }

  /**
   * Filtering for React developers in Cyprus: the two candidates whose skills list starts
   * with `React` and who live in Cyprus pass, in their order, and a candidate in Germany is
   * dropped whatever their skills.
   */
  lemma ReactInCyprusFilter(rt: Runtime, lisa: Record, nikos: Record, anna: Record)
    requires Get(lisa, "skills") == Arr(["React", "JavaScript", "CSS"]) && Get(lisa, "location") == Str("Cyprus")
    requires Get(nikos, "skills") == Arr(["React", "TypeScript", "Node.js"]) && Get(nikos, "location") == Str("Cyprus")
    requires Get(anna, "location") == Str("Germany")
    ensures Survivors(rt, ReactInCyprus, [lisa, nikos, anna]) == [lisa, nikos]
  {
    ReactDeveloperInCyprus(rt, lisa, ["JavaScript", "CSS"]);
    ReactDeveloperInCyprus(rt, nikos, ["TypeScript", "Node.js"]);
    InGermany(rt, anna);
    var stage := Stage(MatcherOf(rt), IncludeList(ReactInCyprus), ExcludeList(ReactInCyprus));
    var cands := [lisa, nikos, anna];
    FilterUnfold(cands, stage);
    FilterUnfold(cands[1..], stage);
    FilterUnfold(cands[2..], stage);
    assert cands[1..][1..] == cands[2..];
    assert cands[2..][1..] == [];
  }
}
