/**
 * `aggregateStats(ids, candidates)` of the search tools (src/lib/mcp-tools.js): over the
 * listed candidates, their number, their average experience rounded to one decimal, and
 * the five most frequent skills with their counts.
 */
module McpStats {
  import opened JsStrings
  import opened JsValues
  import opened SeqLib
  import opened StableSort
  import opened McpMatch
  import opened McpRank

  /** One `{ skill, count }` entry of `top_skills`. */
  datatype SkillCount = SkillCount(skill: string, count: nat)

  /**
   * What `aggregateStats` returns. `avg_experience` is a number with one decimal; it is
   * kept here in tenths (`avgTenths / 10` is the reported average).
   */
  datatype Stats = Stats(count: nat, avgTenths: int, topSkills: seq<SkillCount>)

  /** `parseFloat(c.experience) || 0`. */
  function ExperienceOf(c: Record): int {
    NumberOr(Get(c, "experience"), 0)
  }

  /** The `reduce` that sums the experience of `cs`. */
  function TotalExperience(cs: seq<Record>): int {
    if cs == [] then 0 else TotalExperience(cs[..|cs| - 1]) + ExperienceOf(cs[|cs| - 1])
  }

  /** The sum over a concatenation is the sum of the sums. */
  lemma {:induction false} TotalExperienceAppend(a: seq<Record>, b: seq<Record>)
    ensures TotalExperience(a + b) == TotalExperience(a) + TotalExperience(b)
    decreases |b|
  {
    if b == [] {
      assert a + b == a;
    } else {
      var init := b[..|b| - 1];
      assert (a + b)[..|a + b| - 1] == a + init;
      TotalExperienceAppend(a, init);
    }
  }

  /**
   * `count > 0 ? Math.round((total / count) * 10) / 10 : 0`, in tenths: `Math.round`
   * rounds halves up, so the result is `floor(10 * total / count + 1/2)`.
   */
  function RoundedTenths(total: int, count: nat): (r: int)
    ensures count == 0 ==> r == 0
    ensures count > 0 ==> 2 * count * r - count <= 20 * total < 2 * count * r + count
  {
    if count == 0 then 0
    else
      var q := (20 * total + count) / (2 * count);
      assert 20 * total + count == 2 * count * q + (20 * total + count) % (2 * count);
      q
  }

  /** The nearest-tenth bracket pins the average down: only one number of tenths lies in it. */
  lemma RoundedTenthsUnique(total: int, count: nat, r: int)
    requires count > 0
    requires 2 * count * r - count <= 20 * total < 2 * count * r + count
    ensures r == RoundedTenths(total, count)
  {
    var q := RoundedTenths(total, count);
    if r < q {
      MulMonotone(count, r + 1, q);
    } else if q < r {
      MulMonotone(count, q + 1, r);
    }
  }

  lemma MulMonotone(c: nat, x: int, y: int)
    requires x <= y
    ensures c * x <= c * y
  {
    assert c * y - c * x == c * (y - x);
  }

  /** Some averages the rounding produces: 10/3 is 3.3, 5/2 is 2.5, 7/4 is 1.8, -5/4 is -1.2. */
  lemma RoundedTenthsExamples()
    ensures RoundedTenths(10, 3) == 33
    ensures RoundedTenths(5, 2) == 25
    ensures RoundedTenths(7, 4) == 18
    ensures RoundedTenths(-5, 4) == -12
  {
    RoundedTenthsUnique(10, 3, 33);
    RoundedTenthsUnique(5, 2, 25);
    RoundedTenthsUnique(7, 4, 18);
    RoundedTenthsUnique(-5, 4, -12);
  }

  /**
   * The skills of one candidate: an array as it is, a string split at commas with each
   * piece trimmed, anything else no skills.
   */
  function SkillList(v: JsValue): seq<string> {
    match v
    case Arr(items) => items
    case Str(s) => TrimAll(Split(s, ','))
    case _ => []
  }

  /** Every skill of the candidates, in the order the loop meets them. */
  function Tokens(cs: seq<Record>): seq<string> {
    if cs == [] then [] else Tokens(cs[..|cs| - 1]) + SkillList(Get(cs[|cs| - 1], "skills"))
  }

  /** The names in a table, in its order (`Object.entries` order: insertion order). */
  function Keys(table: seq<SkillCount>): (r: seq<string>)
    ensures |r| == |table|
    ensures forall i :: 0 <= i < |r| ==> r[i] == table[i].skill
  {
    seq(|table|, i requires 0 <= i < |table| => table[i].skill)
  }

  /** Where `skill` sits in the table, or -1. */
  function FindSkill(table: seq<SkillCount>, skill: string): (k: int)
    ensures -1 <= k < |table|
    ensures k >= 0 ==> table[k].skill == skill
    ensures k < 0 ==> forall i :: 0 <= i < |table| ==> table[i].skill != skill
  {
    if table == [] then -1
    else if table[|table| - 1].skill == skill then |table| - 1
    else FindSkill(table[..|table| - 1], skill)
  }

  /** `skillCounts[skill] = (skillCounts[skill] || 0) + 1`. */
  function Bump(table: seq<SkillCount>, skill: string): seq<SkillCount> {
    var k := FindSkill(table, skill);
    if k >= 0 then table[k := SkillCount(skill, table[k].count + 1)]
    else table + [SkillCount(skill, 1)]
  }

  /** The `skillCounts` object after counting `skills`, empty names skipped (`if (skill)`). */
  function Tally(skills: seq<string>): seq<SkillCount> {
    if skills == [] then []
    else
      var t := Tally(skills[..|skills| - 1]);
      var last := skills[|skills| - 1];
      if last == "" then t else Bump(t, last)
  }

  function NonEmpty(): string -> bool {
    s => s != ""
  }

  /** A new name is appended; a known one stays where it is. */
  lemma BumpKeys(table: seq<SkillCount>, skill: string)
    ensures Keys(Bump(table, skill)) == if skill in Keys(table) then Keys(table) else Keys(table) + [skill]
  {
  }

  /**
   * The table lists each non-empty skill once, in the order of first occurrence:
   * exactly `[...new Set(skills.filter(s => s))]`.
   */
  lemma {:induction false} TallyKeys(skills: seq<string>)
    ensures Keys(Tally(skills)) == Dedup(Filter(skills, NonEmpty()))
  {
    if skills != [] {
      var init, last := skills[..|skills| - 1], skills[|skills| - 1];
      TallyKeys(init);
      assert skills == init + [last];
      FilterAppend(init, [last], NonEmpty());
      FilterUnfold([last], NonEmpty());
      var f := Filter(init, NonEmpty());
      if last == "" {
        assert Filter(skills, NonEmpty()) == f;
      } else {
        assert Filter(skills, NonEmpty()) == f + [last];
        assert (f + [last])[..|f|] == f;
        BumpKeys(Tally(init), last);
      }
    }
  }

  /** No two entries name the same skill, and none names the empty string. */
  lemma TallyWellFormed(skills: seq<string>)
    ensures Distinct(Keys(Tally(skills)))
    ensures forall x :: x in Keys(Tally(skills)) <==> x in skills && x != ""
  {
    TallyKeys(skills);
    forall x ensures x in Keys(Tally(skills)) <==> x in skills && x != "" {
      FilterMembers(skills, NonEmpty(), x);
    }
  }

  /** Every entry counts how often its skill occurs in `skills`. */
  ghost predicate CountsMatch(table: seq<SkillCount>, skills: seq<string>) {
    forall i :: 0 <= i < |table| ==> table[i].count == multiset(skills)[table[i].skill]
  }

  /** Counting one more occurrence keeps every entry exact. */
  lemma BumpCounts(table: seq<SkillCount>, skills: seq<string>, x: string)
    requires Distinct(Keys(table)) && CountsMatch(table, skills)
    requires x != "" && (x in Keys(table) <==> x in skills)
    ensures CountsMatch(Bump(table, x), skills + [x])
  {
    var k := FindSkill(table, x);
    assert multiset(skills + [x]) == multiset(skills) + multiset{x};
    var b := Bump(table, x);
    if k < 0 {
      assert multiset(skills)[x] == 0;
      forall i | 0 <= i < |b| ensures b[i].count == multiset(skills + [x])[b[i].skill] {
        if i < |table| {
          assert Keys(table)[i] == table[i].skill;
        }
      }
    } else {
      forall i | 0 <= i < |b| ensures b[i].count == multiset(skills + [x])[b[i].skill] {
        if i != k {
          assert Keys(table)[i] != Keys(table)[k];
        }
      }
    }
  }

  /** A skipped empty name changes no entry's count. */
  lemma SkipCounts(table: seq<SkillCount>, skills: seq<string>)
    requires CountsMatch(table, skills)
    requires forall i :: 0 <= i < |table| ==> table[i].skill != ""
    ensures CountsMatch(table, skills + [""])
  {
    assert multiset(skills + [""]) == multiset(skills) + multiset{""};
  }

  /** Each entry counts how often its skill occurs. */
  lemma {:induction false} TallyCounts(skills: seq<string>)
    ensures CountsMatch(Tally(skills), skills)
  {
    if skills != [] {
      var init, last := skills[..|skills| - 1], skills[|skills| - 1];
      TallyCounts(init);
      TallyWellFormed(init);
      assert skills == init + [last];
      var t := Tally(init);
      if last == "" {
        forall i | 0 <= i < |t| ensures t[i].skill != "" {
          assert Keys(t)[i] in Keys(t);
        }
        SkipCounts(t, init);
      } else {
        BumpCounts(t, init, last);
      }
    }
  }

  /** Larger counts first: `(a, b) => b[1] - a[1]`. */
  function ByCount(): (SkillCount, SkillCount) -> int {
    (a: SkillCount, b: SkillCount) => b.count - a.count
  }

  lemma ByCountConsistent()
    ensures Consistent(ByCount())
  {
  }

  /** `.sort(byCount).slice(0, 5)`. */
  function TopSkills(table: seq<SkillCount>): seq<SkillCount> {
    Take(Sort(table, ByCount()), 5)
  }

  /** At most five entries, all taken from the table. */
  lemma TopSkillsFromTable(table: seq<SkillCount>)
    ensures |TopSkills(table)| == if |table| < 5 then |table| else 5
    ensures multiset(TopSkills(table)) <= multiset(table)
  {
    var s := Sort(table, ByCount());
    var top := TopSkills(table);
    SortPermutes(table, ByCount());
    assert |s| == |multiset(s)| == |table|;
    assert s == top + s[|top|..];
    assert multiset(s) == multiset(top) + multiset(s[|top|..]);
  }

  /** The most frequent skill first: counts never increase along the list. */
  lemma TopSkillsDescending(table: seq<SkillCount>)
    ensures forall i, j :: 0 <= i < j < |TopSkills(table)| ==> TopSkills(table)[i].count >= TopSkills(table)[j].count
  {
    var s := Sort(table, ByCount());
    ByCountConsistent();
    SortSorted(table, ByCount());
    forall i, j | 0 <= i < j < |TopSkills(table)| ensures TopSkills(table)[i].count >= TopSkills(table)[j].count {
      assert ByCount()(s[i], s[j]) <= 0;
    }
  }

  /** An entry left out of the top five is not more frequent than any entry kept. */
  lemma TopSkillsDominate(table: seq<SkillCount>, e: SkillCount, t: SkillCount)
    requires e in table && t in TopSkills(table) && e !in TopSkills(table)
    ensures e.count <= t.count
  {
    var s := Sort(table, ByCount());
    var top := TopSkills(table);
    SortPermutes(table, ByCount());
    assert e in multiset(s);
    var k :| 0 <= k < |s| && s[k] == e;
    var i :| 0 <= i < |top| && top[i] == t;
    assert top == s[..|top|];
    assert k >= |top|;
    ByCountConsistent();
    SortSorted(table, ByCount());
    assert ByCount()(s[i], s[k]) <= 0;
  }

  /** Skills with equal counts keep the order in which they were first seen. */
  lemma TopSkillsTiesKeepOrder(table: seq<SkillCount>, y: SkillCount)
    ensures Filter(Sort(table, ByCount()), TiedWith(ByCount(), y)) == Filter(table, TiedWith(ByCount(), y))
  {
    ByCountConsistent();
    SortStable(table, ByCount(), y);
  }

  /** What `aggregateStats(ids, candidates)` returns. */
  function AggregateSpec(ids: seq<JsValue>, candidates: seq<Record>): Stats {
    var subset := SelectByIds(ids, candidates);
    Stats(|subset|, RoundedTenths(TotalExperience(subset), |subset|), TopSkills(Tally(Tokens(subset))))
  }

  lemma TallySnoc(skills: seq<string>, x: string)
    ensures Tally(skills + [x]) == if x == "" then Tally(skills) else Bump(Tally(skills), x)
  {
    assert (skills + [x])[..|skills|] == skills;
  }

  lemma TokensSnoc(cs: seq<Record>, i: nat)
    requires i < |cs|
    ensures Tokens(cs[..i + 1]) == Tokens(cs[..i]) + SkillList(Get(cs[i], "skills"))
  {
    assert cs[..i + 1][..i] == cs[..i];
  }

  /** The `reduce` over the experience of `subset`. */
  method SumExperience(subset: seq<Record>) returns (total: int)
    ensures total == TotalExperience(subset)
  {
    total := 0;
    var i := 0;
    while i < |subset|
      invariant 0 <= i <= |subset|
      invariant total == TotalExperience(subset[..i])
    {
      assert subset[..i + 1][..i] == subset[..i];
      total := total + ExperienceOf(subset[i]);
      i := i + 1;
    }
    assert subset[..i] == subset;
  }

  /** One step of the inner loop: count `skill` unless it is empty. */
  function CountOne(table: seq<SkillCount>, skill: string): seq<SkillCount> {
    if skill == "" then table else Bump(table, skill)
  }

  /** The inner loop as a fold from the front, starting from `table`. */
  function TallyFrom(table: seq<SkillCount>, skills: seq<string>): seq<SkillCount>
    decreases |skills|
  {
    if skills == [] then table else TallyFrom(CountOne(table, skills[0]), skills[1..])
  }

  /** Folding over `a + b` is folding over `a`, then over `b`. */
  lemma {:induction false} TallyFromAppend(table: seq<SkillCount>, a: seq<string>, b: seq<string>)
    ensures TallyFrom(table, a + b) == TallyFrom(TallyFrom(table, a), b)
    decreases |a|
  {
    if a == [] {
      assert a + b == b;
    } else {
      assert (a + b)[0] == a[0] && (a + b)[1..] == a[1..] + b;
      TallyFromAppend(CountOne(table, a[0]), a[1..], b);
    }
  }

  lemma TallyFromOne(table: seq<SkillCount>, x: string)
    ensures TallyFrom(table, [x]) == CountOne(table, x)
  {
    assert [x][1..] == [];
  }

  /** The table built back to front is the table the loop builds front to back. */
  lemma {:induction false} TallyIsFold(skills: seq<string>)
    ensures Tally(skills) == TallyFrom([], skills)
  {
    if skills != [] {
      var init, last := skills[..|skills| - 1], skills[|skills| - 1];
      assert skills == init + [last];
      TallyIsFold(init);
      TallySnoc(init, last);
      TallyFromAppend([], init, [last]);
      TallyFromOne(TallyFrom([], init), last);
    }
  }

  /** Counting `skills` on top of the table of `before` is the table of `before + skills`. */
  lemma TallyFromTally(before: seq<string>, skills: seq<string>)
    ensures TallyFrom(Tally(before), skills) == Tally(before + skills)
  {
    TallyIsFold(before);
    TallyIsFold(before + skills);
    TallyFromAppend([], before, skills);
  }

  /** The inner `skills.forEach`: counts one candidate's skills into the table. */
  method CountSkills(ghost before: seq<string>, table: seq<SkillCount>, skills: seq<string>) returns (counted: seq<SkillCount>)
    requires table == Tally(before)
    ensures counted == Tally(before + skills)
  {
    counted := table;
    var j := 0;
    while j < |skills|
      invariant 0 <= j <= |skills|
      invariant TallyFrom(counted, skills[j..]) == TallyFrom(table, skills)
    {
      var skill := skills[j];
      assert skills[j..][1..] == skills[j + 1..];
      if skill != "" {
        counted := Bump(counted, skill);
      }
      j := j + 1;
    }
    TallyFromTally(before, skills);
  }

  /** The outer `subset.forEach`: the `skillCounts` table of all the candidates' skills. */
  method CountAllSkills(subset: seq<Record>) returns (skillCounts: seq<SkillCount>)
    ensures skillCounts == Tally(Tokens(subset))
  {
    skillCounts := [];
    var i := 0;
    while i < |subset|
      invariant 0 <= i <= |subset|
      invariant skillCounts == Tally(Tokens(subset[..i]))
    {
      TokensSnoc(subset, i);
      skillCounts := CountSkills(Tokens(subset[..i]), skillCounts, SkillList(Get(subset[i], "skills")));
      i := i + 1;
    }
    assert subset[..i] == subset;
  }

  /**
   * `aggregateStats(ids, candidates)`: the listed candidates' number, average experience
   * and five most frequent skills.
   */
  method AggregateStats(ids: seq<JsValue>, candidates: seq<Record>) returns (stats: Stats)
    ensures stats == AggregateSpec(ids, candidates)
  {
    var subset := SelectByIds(ids, candidates);
    var count := |subset|;
    var total := SumExperience(subset);
    var avgTenths := if count > 0 then RoundedTenths(total, count) else 0;
    var skillCounts := CountAllSkills(subset);
    stats := Stats(count, avgTenths, TopSkills(skillCounts));
  }

  /** An entry of a well-formed, exact table names a counted skill and counts it. */
  lemma EntryIsExact(table: seq<SkillCount>, skills: seq<string>, e: SkillCount)
    requires CountsMatch(table, skills)
    requires forall x :: x in Keys(table) <==> x in skills && x != ""
    requires e in table
    ensures e.skill != "" && e.skill in skills
    ensures e.count == multiset(skills)[e.skill]
  {
    var k :| 0 <= k < |table| && table[k] == e;
    assert Keys(table)[k] in Keys(table);
  }

  /** Each reported skill occurs among the counted skills, and its count is exact. */
  lemma ReportedCountsAreExact(skills: seq<string>, e: SkillCount)
    requires e in TopSkills(Tally(skills))
    ensures e.skill != "" && e.skill in skills
    ensures e.count == multiset(skills)[e.skill]
  {
    var table := Tally(skills);
    TopSkillsFromTable(table);
    assert e in multiset(table);
    TallyCounts(skills);
    TallyWellFormed(skills);
    EntryIsExact(table, skills, e);
  }
}
