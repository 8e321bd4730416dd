/**
 * The list helpers behind the candidate list's search box, location and experience
 * filters, sort menu and location picker (lib/data/searchHelpers.js). Each one returns
 * a new list and leaves its input alone.
 */
module SearchHelpers {
  import opened JsStrings
  import opened SeqLib
  import opened StableSort
  import opened CsvLoader

  /** Some skill of the candidate contains `term` once lower-cased (`skills.some(...)`). */
  predicate SomeSkillIncludes(skills: seq<string>, term: string) {
    exists i :: 0 <= i < |skills| && Includes(Lower(skills[i]), term)
  }

  /** The search term (already lower-cased) occurs in the name, title, a skill or the location. */
  predicate MatchesTerm(c: Candidate, term: string) {
    || Includes(Lower(c.name), term)
    || Includes(Lower(c.title), term)
    || SomeSkillIncludes(c.skills, term)
    || Includes(Lower(c.location), term)
  }

  function TermMatcher(term: string): Candidate -> bool {
    (c: Candidate) => MatchesTerm(c, term)
  }

  /** `filterBySearchTerm(candidates, searchTerm)`: an empty term keeps every candidate. */
  function FilterBySearchTerm(candidates: seq<Candidate>, searchTerm: string): seq<Candidate> {
    if searchTerm == "" then candidates
    else Filter(candidates, TermMatcher(Lower(searchTerm)))
  }

  /**
   * The search keeps exactly the candidates the term occurs in, each as often as it occurs,
   * in their order.
   */
  lemma SearchTermMeaning(candidates: seq<Candidate>, searchTerm: string)
    ensures forall c :: (c in FilterBySearchTerm(candidates, searchTerm)
      <==> c in candidates && (searchTerm == "" || MatchesTerm(c, Lower(searchTerm))))
    ensures IsSubseq(FilterBySearchTerm(candidates, searchTerm), candidates)
    ensures forall c :: (multiset(FilterBySearchTerm(candidates, searchTerm))[c]
      == if searchTerm == "" || MatchesTerm(c, Lower(searchTerm)) then multiset(candidates)[c] else 0)
  {
    if searchTerm == "" {
      FilterKeepsAll(candidates, _ => true);
      FilterIsSubseq(candidates, _ => true);
    } else {
      forall c ensures c in FilterBySearchTerm(candidates, searchTerm)
        <==> c in candidates && MatchesTerm(c, Lower(searchTerm)) {
        FilterMembers(candidates, TermMatcher(Lower(searchTerm)), c);
      }
      forall c ensures multiset(FilterBySearchTerm(candidates, searchTerm))[c]
        == if MatchesTerm(c, Lower(searchTerm)) then multiset(candidates)[c] else 0 {
        FilterCount(candidates, TermMatcher(Lower(searchTerm)), c);
      }
      FilterIsSubseq(candidates, TermMatcher(Lower(searchTerm)));
    }
  }

  /** Lower-casing twice is lower-casing once. */
  lemma LowerIdempotent(s: string)
    ensures Lower(Lower(s)) == Lower(s)
  {
    assert forall i :: 0 <= i < |s| ==> LowerChar(LowerChar(s[i])) == LowerChar(s[i]);
  }

  /** The search ignores the case of the term. */
  lemma SearchIgnoresTermCase(candidates: seq<Candidate>, searchTerm: string)
    ensures FilterBySearchTerm(candidates, Lower(searchTerm)) == FilterBySearchTerm(candidates, searchTerm)
  {
    LowerIdempotent(searchTerm);
  }

  function LocationMatcher(location: string): Candidate -> bool {
    (c: Candidate) => Includes(Lower(c.location), Lower(location))
  }

  /** `filterByLocation(candidates, location)`: an empty location keeps every candidate. */
  function FilterByLocation(candidates: seq<Candidate>, location: string): seq<Candidate> {
    if location == "" then candidates
    else Filter(candidates, LocationMatcher(location))
  }

  /**
   * The location filter keeps exactly the candidates whose location contains the given one,
   * ignoring case, each as often as it occurs, in their order.
   */
  lemma LocationMeaning(candidates: seq<Candidate>, location: string)
    ensures forall c :: (c in FilterByLocation(candidates, location)
      <==> c in candidates && (location == "" || Includes(Lower(c.location), Lower(location))))
    ensures IsSubseq(FilterByLocation(candidates, location), candidates)
    ensures forall c :: (multiset(FilterByLocation(candidates, location))[c]
      == if location == "" || Includes(Lower(c.location), Lower(location)) then multiset(candidates)[c] else 0)
  {
    if location == "" {
      FilterKeepsAll(candidates, _ => true);
      FilterIsSubseq(candidates, _ => true);
    } else {
      forall c ensures c in FilterByLocation(candidates, location)
        <==> c in candidates && Includes(Lower(c.location), Lower(location)) {
        FilterMembers(candidates, LocationMatcher(location), c);
      }
      forall c ensures multiset(FilterByLocation(candidates, location))[c]
        == if Includes(Lower(c.location), Lower(location)) then multiset(candidates)[c] else 0 {
        FilterCount(candidates, LocationMatcher(location), c);
      }
      FilterIsSubseq(candidates, LocationMatcher(location));
    }
  }

  /** A candidate is kept when its location is exactly the one asked for, in any case. */
  lemma SameLocationIsKept(candidates: seq<Candidate>, c: Candidate, location: string)
    requires c in candidates && location != "" && Lower(c.location) == Lower(location)
    ensures c in FilterByLocation(candidates, location)
  {
    IncludesSelf(Lower(location));
    LocationMeaning(candidates, location);
  }

  /** The experience bands: junior up to 3 years, mid 4 to 6, senior above 6. */
  function Junior(): Candidate -> bool { (c: Candidate) => c.experience <= 3 }
  function Mid(): Candidate -> bool { (c: Candidate) => c.experience > 3 && c.experience <= 6 }
  function Senior(): Candidate -> bool { (c: Candidate) => c.experience > 6 }

  /** `filterByExperience(candidates, level)`: an empty or unknown level keeps every candidate. */
  function FilterByExperience(candidates: seq<Candidate>, level: string): seq<Candidate> {
    if level == "junior" then Filter(candidates, Junior())
    else if level == "mid" then Filter(candidates, Mid())
    else if level == "senior" then Filter(candidates, Senior())
    else candidates
  }

  /** Whether a candidate falls in the experience band `level` selects (every candidate for other levels). */
  predicate InBand(level: string, c: Candidate) {
    && (level == "junior" ==> c.experience <= 3)
    && (level == "mid" ==> 3 < c.experience <= 6)
    && (level == "senior" ==> c.experience > 6)
  }

  /**
   * The level filters keep exactly the candidates in the band, each as often as it occurs,
   * in their order.
   */
  lemma ExperienceMeaning(candidates: seq<Candidate>, level: string, c: Candidate)
    ensures level == "junior" ==> (c in FilterByExperience(candidates, level) <==> c in candidates && c.experience <= 3)
    ensures level == "mid" ==> (c in FilterByExperience(candidates, level) <==> c in candidates && 3 < c.experience <= 6)
    ensures level == "senior" ==> (c in FilterByExperience(candidates, level) <==> c in candidates && c.experience > 6)
    ensures level !in {"junior", "mid", "senior"} ==> FilterByExperience(candidates, level) == candidates
    ensures IsSubseq(FilterByExperience(candidates, level), candidates)
    ensures multiset(FilterByExperience(candidates, level))[c] == if InBand(level, c) then multiset(candidates)[c] else 0
  {
    if level == "junior" {
      FilterCount(candidates, Junior(), c);
      FilterMembers(candidates, Junior(), c);
      FilterIsSubseq(candidates, Junior());
    } else if level == "mid" {
      FilterCount(candidates, Mid(), c);
      FilterMembers(candidates, Mid(), c);
      FilterIsSubseq(candidates, Mid());
    } else if level == "senior" {
      FilterCount(candidates, Senior(), c);
      FilterMembers(candidates, Senior(), c);
      FilterIsSubseq(candidates, Senior());
    } else {
      FilterKeepsAll(candidates, _ => true);
      FilterIsSubseq(candidates, _ => true);
    }
  }

  /** The three levels split the candidates between them: each candidate is in exactly one band. */
  lemma ExperienceBandsPartition(candidates: seq<Candidate>)
    ensures multiset(FilterByExperience(candidates, "junior"))
          + multiset(FilterByExperience(candidates, "mid"))
          + multiset(FilterByExperience(candidates, "senior"))
         == multiset(candidates)
  {
    var upToMid: Candidate -> bool := (c: Candidate) => c.experience <= 6;
    FilterDisjointUnion(candidates, Junior(), Mid(), upToMid);
    var any: Candidate -> bool := (c: Candidate) => c.experience <= 6 || c.experience > 6;
    FilterDisjointUnion(candidates, upToMid, Senior(), any);
    FilterKeepsAll(candidates, any);
  }

  /** `a.name.localeCompare(b.name)`, without locale rules. */
  function ByName(): (Candidate, Candidate) -> int {
    (a: Candidate, b: Candidate) => LexCompare(a.name, b.name)
  }

  /** `b.experience - a.experience`: most experienced first. */
  function ByExperience(): (Candidate, Candidate) -> int {
    (a: Candidate, b: Candidate) => b.experience - a.experience
  }

  /** `b.salary - a.salary`: highest salary first. */
  function BySalary(): (Candidate, Candidate) -> int {
    (a: Candidate, b: Candidate) => b.salary - a.salary
  }

  /** `sortCandidates(candidates, sortBy)`: a sorted copy; an unknown criterion keeps the order. */
  function SortCandidates(candidates: seq<Candidate>, sortBy: string): seq<Candidate> {
    if sortBy == "name" then Sort(candidates, ByName())
    else if sortBy == "experience" then Sort(candidates, ByExperience())
    else if sortBy == "salary" then Sort(candidates, BySalary())
    else candidates
  }

  lemma LexCompareConsistent()
    ensures Consistent((a: string, b: string) => LexCompare(a, b))
  {
    forall a: string, b: string ensures LexCompare(a, b) < 0 <==> LexCompare(b, a) > 0 {
      LexLessAsymmetric(a, b);
    }
    forall a: string, b: string, c: string | LexCompare(a, b) <= 0 && LexCompare(b, c) <= 0
      ensures LexCompare(a, c) <= 0
    {
      LexLessAsymmetric(a, b);
      LexLessAsymmetric(b, c);
      LexLessTotal(a, b);
      if LexLess(c, a) {
        if LexLess(a, b) {
          LexLessTransitive(c, a, b);
        }
      }
      LexLessAsymmetric(c, a);
    }
  }

  /** The three sort orders are comparators the stable sort can rely on. */
  lemma SortOrdersConsistent()
    ensures Consistent(ByName()) && Consistent(ByExperience()) && Consistent(BySalary())
  {
    LexCompareConsistent();
    var lex := (a: string, b: string) => LexCompare(a, b);
    assert forall a: Candidate, b: Candidate :: ByName()(a, b) == lex(a.name, b.name);
  }

  /**
   * Sorting by experience rearranges the candidates, puts more experienced ones first,
   * and keeps candidates with equal experience in their input order.
   */
  lemma SortByExperienceMeaning(candidates: seq<Candidate>, y: Candidate)
    ensures var r := SortCandidates(candidates, "experience");
      && multiset(r) == multiset(candidates)
      && (forall i, j :: 0 <= i < j < |r| ==> r[i].experience >= r[j].experience)
      && Filter(r, TiedWith(ByExperience(), y)) == Filter(candidates, TiedWith(ByExperience(), y))
  {
    var r := SortCandidates(candidates, "experience");
    SortOrdersConsistent();
    SortPermutes(candidates, ByExperience());
    SortSorted(candidates, ByExperience());
    SortStable(candidates, ByExperience(), y);
    assert forall i, j :: 0 <= i < j < |r| ==> ByExperience()(r[i], r[j]) <= 0;
  }

  /**
   * Sorting by salary rearranges the candidates and puts higher salaries first; candidates
   * with equal salaries keep their input order.
   */
  lemma SortBySalaryMeaning(candidates: seq<Candidate>, y: Candidate)
    ensures var r := SortCandidates(candidates, "salary");
      && multiset(r) == multiset(candidates)
      && (forall i, j :: 0 <= i < j < |r| ==> r[i].salary >= r[j].salary)
      && Filter(r, TiedWith(BySalary(), y)) == Filter(candidates, TiedWith(BySalary(), y))
  {
    var r := SortCandidates(candidates, "salary");
    SortOrdersConsistent();
    SortPermutes(candidates, BySalary());
    SortSorted(candidates, BySalary());
    SortStable(candidates, BySalary(), y);
    assert forall i, j :: 0 <= i < j < |r| ==> BySalary()(r[i], r[j]) <= 0;
  }

  /**
   * Sorting by name rearranges the candidates into alphabetical order of their names;
   * candidates with the same name keep their input order.
   */
  lemma SortByNameMeaning(candidates: seq<Candidate>, y: Candidate)
    ensures var r := SortCandidates(candidates, "name");
      && multiset(r) == multiset(candidates)
      && (forall i, j :: 0 <= i < j < |r| ==> !LexLess(r[j].name, r[i].name))
      && Filter(r, TiedWith(ByName(), y)) == Filter(candidates, TiedWith(ByName(), y))
  {
    var r := SortCandidates(candidates, "name");
    SortOrdersConsistent();
    SortPermutes(candidates, ByName());
    SortSorted(candidates, ByName());
    SortStable(candidates, ByName(), y);
    forall i, j | 0 <= i < j < |r| ensures !LexLess(r[j].name, r[i].name) {
      assert ByName()(r[i], r[j]) <= 0;
    }
  }

  /** An unknown sort criterion returns the candidates in their order. */
  lemma UnknownSortKeepsOrder(candidates: seq<Candidate>, sortBy: string)
    requires sortBy !in {"name", "experience", "salary"}
    ensures SortCandidates(candidates, sortBy) == candidates
  {
  }

  /** `candidates.map(c => c.location)`. */
  function Locations(candidates: seq<Candidate>): (r: seq<string>)
    ensures |r| == |candidates|
    ensures forall i :: 0 <= i < |r| ==> r[i] == candidates[i].location
  {
    seq(|candidates|, i requires 0 <= i < |candidates| => candidates[i].location)
  }

  /** `[...new Set(locations)].sort()`. */
  function GetUniqueLocations(candidates: seq<Candidate>): seq<string> {
    Sort(Dedup(Locations(candidates)), (a: string, b: string) => LexCompare(a, b))
  }

  /**
   * Every location of a candidate appears once, nothing else appears, and the list is in
   * strictly increasing order.
   */
  lemma UniqueLocationsMeaning(candidates: seq<Candidate>)
    ensures var r := GetUniqueLocations(candidates);
      && (forall x :: x in r <==> exists c :: c in candidates && c.location == x)
      && (forall i, j :: 0 <= i < j < |r| ==> LexLess(r[i], r[j]))
  {
    var lex := (a: string, b: string) => LexCompare(a, b);
    var d := Dedup(Locations(candidates));
    var r := GetUniqueLocations(candidates);
    SortPermutes(d, lex);
    LexCompareConsistent();
    SortSorted(d, lex);
    PermutationKeepsDistinct(d, r);
    forall x ensures x in r <==> exists c :: c in candidates && c.location == x {
      assert x in r <==> x in multiset(d);
      if x in d {
        var i :| 0 <= i < |Locations(candidates)| && Locations(candidates)[i] == x;
        assert candidates[i] in candidates;
      }
      if c :| c in candidates && c.location == x {
        var i :| 0 <= i < |candidates| && candidates[i] == c;
        assert Locations(candidates)[i] == x;
      }
    }
    forall i, j | 0 <= i < j < |r| ensures LexLess(r[i], r[j]) {
      assert lex(r[i], r[j]) <= 0;
      assert r[i] != r[j];
      LexLessTotal(r[i], r[j]);
    }
  }
}
