/**
 * `rankCandidates(ids, plan, candidates)` of the search tools (src/lib/mcp-tools.js): pick
 * the candidates whose id is listed, then sort them in place, descending, by the plan's
 * primary field and then by each tie-breaker field.
 */
module McpRank {
  import opened Wrappers
  import opened JsValues
  import opened SeqLib
  import opened StableSort
  import opened McpMatch

  /**
   * A rank plan: `RankNotObject` is a plan that is falsy or not an object; an object names
   * the primary field and the tie-breakers (`plan.tie_breakers || []`).
   */
  datatype RankPlan =
    | RankNotObject
    | RankObject(primary: string, tieBreakers: seq<string>)

  /** `c => ids.includes(c.id)`. */
  function HasIdIn(ids: seq<JsValue>): Record -> bool {
    c => Get(c, "id") in ids
  }

  /** `candidates.filter(c => ids.includes(c.id))`: the listed candidates, in the order of `candidates`. */
  function SelectByIds(ids: seq<JsValue>, candidates: seq<Record>): seq<Record> {
    Filter(candidates, HasIdIn(ids))
  }

  /** `[plan.primary, ...(plan.tie_breakers || [])]`. */
  function SortFields(plan: RankPlan): seq<string>
    requires plan.RankObject?
  {
    [plan.primary] + plan.tieBreakers
  }

  /** How a ranking reads a field of a candidate. */
  type KeyFn = (Record, string) -> Key

  /** `getFieldValue`, as a key function. */
  function KeyOf(rt: Runtime): KeyFn {
    (c, field) => GetFieldValue(rt, c, field)
  }

  /**
   * The comparator handed to `sort`: the first field on which the two keys differ decides,
   * the greater key first (-1 when `a` goes first, 1 when `b` does); 0 when all fields tie.
   */
  function CompareByFields(key: KeyFn, fields: seq<string>, a: Record, b: Record): int
  {
    if fields == [] then 0
    else if KeyGreater(key(a, fields[0]), key(b, fields[0])) then -1
    else if KeyGreater(key(b, fields[0]), key(a, fields[0])) then 1
    else CompareByFields(key, fields[1..], a, b)
  }

  /** The comparator over `fields` with keys read by `key`. */
  function Comparator(key: KeyFn, fields: seq<string>): (Record, Record) -> int {
    (a, b) => CompareByFields(key, fields, a, b)
  }

  /** The comparator `rankCandidates` sorts with. */
  function RankOrder(rt: Runtime, fields: seq<string>): (Record, Record) -> int {
    Comparator(KeyOf(rt), fields)
  }

  /** Both records have equal keys on every field. */
  predicate TiedOn(key: KeyFn, fields: seq<string>, a: Record, b: Record) {
    forall i :: 0 <= i < |fields| ==> key(a, fields[i]) == key(b, fields[i])
  }

  /**
   * The comparator is the lexicographic order on the fields' keys, greater first: at the
   * first field where the keys differ, the record with the greater key goes first.
   */
  lemma {:induction false} CompareIsLexicographic(key: KeyFn, fields: seq<string>, a: Record, b: Record, k: nat)
    requires k < |fields| && TiedOn(key, fields[..k], a, b)
    ensures KeyGreater(key(a, fields[k]), key(b, fields[k])) ==> CompareByFields(key, fields, a, b) == -1
    ensures KeyGreater(key(b, fields[k]), key(a, fields[k])) ==> CompareByFields(key, fields, a, b) == 1
  {
    KeyGreaterAsymmetric(key(a, fields[k]), key(b, fields[k]));
    if k > 0 {
      assert fields[..k][0] == fields[0];
      KeyGreaterIrreflexive(key(a, fields[0]));
      assert fields[1..][..k - 1] == fields[..k][1..];
      assert fields[1..][k - 1] == fields[k];
      CompareIsLexicographic(key, fields[1..], a, b, k - 1);
    }
  }

  /** The comparator answers 0 exactly for records tied on every field. */
  lemma {:induction false} CompareZeroIffTied(key: KeyFn, fields: seq<string>, a: Record, b: Record)
    ensures CompareByFields(key, fields, a, b) == 0 <==> TiedOn(key, fields, a, b)
  {
    if fields != [] {
      var ka, kb := key(a, fields[0]), key(b, fields[0]);
      CompareZeroIffTied(key, fields[1..], a, b);
      KeyGreaterTotal(ka, kb);
      KeyGreaterIrreflexive(ka);
      if TiedOn(key, fields, a, b) {
        assert ka == kb;
        forall i | 0 <= i < |fields| - 1 ensures key(a, fields[1..][i]) == key(b, fields[1..][i]) {
          assert fields[1..][i] == fields[i + 1];
        }
      }
      if TiedOn(key, fields[1..], a, b) && ka == kb {
        forall i | 0 <= i < |fields| ensures key(a, fields[i]) == key(b, fields[i]) {
          if i > 0 {
            assert fields[i] == fields[1..][i - 1];
          }
        }
      }
    }
  }

  lemma {:induction false} CompareAntisymmetric(key: KeyFn, fields: seq<string>, a: Record, b: Record)
    ensures CompareByFields(key, fields, a, b) < 0 <==> CompareByFields(key, fields, b, a) > 0
  {
    if fields != [] {
      KeyGreaterAsymmetric(key(a, fields[0]), key(b, fields[0]));
      CompareAntisymmetric(key, fields[1..], a, b);
    }
  }

  lemma {:induction false} CompareTransitive(key: KeyFn, fields: seq<string>, a: Record, b: Record, c: Record)
    requires CompareByFields(key, fields, a, b) <= 0 && CompareByFields(key, fields, b, c) <= 0
    ensures CompareByFields(key, fields, a, c) <= 0
  {
    if fields != [] {
      var ka, kb, kc := key(a, fields[0]), key(b, fields[0]), key(c, fields[0]);
      KeyGreaterTotal(ka, kb);
      KeyGreaterTotal(kb, kc);
      KeyGreaterAsymmetric(ka, kb);
      KeyGreaterAsymmetric(kb, kc);
      if KeyGreater(ka, kb) && KeyGreater(kb, kc) {
        KeyGreaterTransitive(ka, kb, kc);
      }
      KeyGreaterAsymmetric(ka, kc);
      if ka == kb && kb == kc {
        KeyGreaterIrreflexive(ka);
        CompareTransitive(key, fields[1..], a, b, c);
      }
    }
  }

  /** The ranking comparator is one the stable sort can rely on. */
  lemma ComparatorConsistent(key: KeyFn, fields: seq<string>)
    ensures Consistent(Comparator(key, fields))
  {
    var cmp := Comparator(key, fields);
    forall a, b ensures cmp(a, b) < 0 <==> cmp(b, a) > 0 {
      CompareAntisymmetric(key, fields, a, b);
    }
    forall a, b, c | cmp(a, b) <= 0 && cmp(b, c) <= 0 ensures cmp(a, c) <= 0 {
      CompareTransitive(key, fields, a, b, c);
    }
  }

  lemma RankOrderConsistent(rt: Runtime, fields: seq<string>)
    ensures Consistent(RankOrder(rt, fields))
  {
    ComparatorConsistent(KeyOf(rt), fields);
  }

  /** The comparator body: the loop over the sort fields, returning at the first field that differs. */
  method CompareRecords(key: KeyFn, fields: seq<string>, a: Record, b: Record) returns (r: int)
    ensures r == CompareByFields(key, fields, a, b)
  {
    var i := 0;
    while i < |fields|
      invariant 0 <= i <= |fields|
      invariant CompareByFields(key, fields[i..], a, b) == CompareByFields(key, fields, a, b)
    {
      var aVal := key(a, fields[i]);
      var bVal := key(b, fields[i]);
      if KeyGreater(aVal, bVal) {
        return -1;
      }
      if KeyGreater(bVal, aVal) {
        return 1;
      }
      assert fields[i..][1..] == fields[i + 1..];
      i := i + 1;
    }
    return 0;
  }

  /**
   * Where insertion puts `x`: after every element it does not precede, in front of the
   * trailing run of elements it does precede.
   */
  lemma {:induction false} InsertAtPosition(sorted: seq<Record>, x: Record, cmp: (Record, Record) -> int, j: nat)
    requires j <= |sorted| && (j == 0 || cmp(x, sorted[j - 1]) >= 0)
    requires forall k :: j <= k < |sorted| ==> cmp(x, sorted[k]) < 0
    ensures Insert(sorted, x, cmp) == sorted[..j] + [x] + sorted[j..]
    decreases |sorted|
  {
    if j == |sorted| {
      assert sorted[..j] == sorted && sorted[j..] == [];
    } else {
      var init, last := sorted[..|sorted| - 1], sorted[|sorted| - 1];
      InsertAtPosition(init, x, cmp, j);
      var head, rest := sorted[..j] + [x], init[j..];
      assert init[..j] == sorted[..j];
      assert Insert(sorted, x, cmp) == (head + rest) + [last];
      assert rest + [last] == sorted[j..];
      assert (head + rest) + [last] == head + (rest + [last]);
    }
  }

  /** The array prefix the shift loop leaves behind is the insertion of `x`. */
  lemma PlacedIsInsert(key: KeyFn, fields: seq<string>, sorted: seq<Record>, x: Record, j: nat, placed: seq<Record>)
    requires j <= |sorted| && |placed| == |sorted| + 1
    requires j == 0 || CompareByFields(key, fields, x, sorted[j - 1]) >= 0
    requires forall k :: j <= k < |sorted| ==> CompareByFields(key, fields, x, sorted[k]) < 0
    requires forall k :: 0 <= k < j ==> placed[k] == sorted[k]
    requires placed[j] == x
    requires forall k :: j < k < |placed| ==> placed[k] == sorted[k - 1]
    ensures placed == Insert(sorted, x, Comparator(key, fields))
  {
    InsertAtPosition(sorted, x, Comparator(key, fields), j);
    assert placed == sorted[..j] + [x] + sorted[j..];
  }

  /**
   * The shift loop of one insertion pass: moves up by one place every element of the sorted
   * prefix `a[..i]` that `x` must precede, from the back, and returns the hole left for `x`.
   */
  method ShiftUp(key: KeyFn, fields: seq<string>, a: array<Record>, i: nat, x: Record, ghost sorted: seq<Record>) returns (j: nat)
    requires i < a.Length && a[..i] == sorted
    modifies a
    ensures j <= i
    ensures j == 0 || CompareByFields(key, fields, x, sorted[j - 1]) >= 0
    ensures forall k :: j <= k < i ==> CompareByFields(key, fields, x, sorted[k]) < 0
    ensures forall k :: 0 <= k < j ==> a[k] == sorted[k]
    ensures forall k :: j < k <= i ==> a[k] == sorted[k - 1]
    ensures a[i + 1..] == old(a[i + 1..])
  {
    j := i;
    while j > 0
      invariant 0 <= j <= i
      invariant forall k :: 0 <= k < j ==> a[k] == sorted[k]
      invariant forall k :: j < k <= i ==> a[k] == sorted[k - 1]
      invariant a[i + 1..] == old(a[i + 1..])
      invariant forall k :: j <= k < i ==> CompareByFields(key, fields, x, sorted[k]) < 0
    {
      var order := CompareRecords(key, fields, x, a[j - 1]);
      if order >= 0 {
        return;
      }
      a[j] := a[j - 1];
      j := j - 1;
    }
  }

  /**
   * One pass of the insertion sort: `a[..i]` is sorted; the element at `i` is shifted up
   * past every element it must precede.
   */
  method InsertAt(key: KeyFn, fields: seq<string>, a: array<Record>, i: nat)
    requires i < a.Length
    modifies a
    ensures a[..i + 1] == Insert(old(a[..i]), old(a[i]), Comparator(key, fields))
    ensures a[i + 1..] == old(a[i + 1..])
  {
    ghost var sorted := a[..i];
    var x := a[i];
    var j := ShiftUp(key, fields, a, i, x, sorted);
    a[j] := x;
    PlacedIsInsert(key, fields, sorted, x, j, a[..i + 1]);
  }

  /**
   * `subset.sort(comparator)`: sorts the array in place. Insertion sort stands for the
   * engine's stable sort; the result is the stable sort of the old contents.
   */
  method SortByFields(key: KeyFn, fields: seq<string>, a: array<Record>)
    modifies a
    ensures a[..] == Sort(old(a[..]), Comparator(key, fields))
  {
    ghost var input := a[..];
    var i := 0;
    while i < a.Length
      invariant 0 <= i <= a.Length
      invariant a[..i] == Sort(input[..i], Comparator(key, fields))
      invariant a[i..] == input[i..]
    {
      assert input[..i + 1][..i] == input[..i];
      InsertAt(key, fields, a, i);
      i := i + 1;
    }
    assert input[..a.Length] == input;
  }

  /** What `rankCandidates` returns. */
  function Ranked(rt: Runtime, ids: seq<JsValue>, plan: RankPlan, candidates: seq<Record>): seq<Record> {
    if plan.RankObject? then Sort(SelectByIds(ids, candidates), RankOrder(rt, SortFields(plan)))
    else SelectByIds(ids, candidates)
  }

  /**
   * `rankCandidates(ids, plan, candidates)`: without an object plan, the listed candidates in
   * their original order; otherwise the listed candidates sorted by the plan's fields.
   */
  method RankCandidates(rt: Runtime, ids: seq<JsValue>, plan: RankPlan, candidates: seq<Record>) returns (ranked: seq<Record>)
    ensures ranked == Ranked(rt, ids, plan, candidates)
    ensures multiset(ranked) == multiset(SelectByIds(ids, candidates))
  {
    var subset := SelectByIds(ids, candidates);
    if plan.RankNotObject? {
      return subset;
    }
    var sortFields := SortFields(plan);
    var a := new Record[|subset|](i requires 0 <= i < |subset| => subset[i]);
    assert a[..] == subset;
    SortByFields(KeyOf(rt), sortFields, a);
    ranked := a[..];
    SortPermutes(subset, RankOrder(rt, sortFields));
  }

  /** The ranking holds exactly the candidates whose id is listed, each as often as in the input. */
  lemma RankedMembers(rt: Runtime, ids: seq<JsValue>, plan: RankPlan, candidates: seq<Record>, c: Record)
    ensures c in Ranked(rt, ids, plan, candidates) <==> c in candidates && Get(c, "id") in ids
    ensures multiset(Ranked(rt, ids, plan, candidates))[c] == multiset(SelectByIds(ids, candidates))[c]
  {
    FilterMembers(candidates, HasIdIn(ids), c);
    var subset := SelectByIds(ids, candidates);
    if plan.RankObject? {
      SortPermutes(subset, RankOrder(rt, SortFields(plan)));
    }
    assert c in Ranked(rt, ids, plan, candidates) <==> c in multiset(Ranked(rt, ids, plan, candidates));
    assert c in subset <==> c in multiset(subset);
  }

  /** Without an object plan the listed candidates keep the input order. */
  lemma RankedWithoutPlan(rt: Runtime, ids: seq<JsValue>, candidates: seq<Record>)
    ensures Ranked(rt, ids, RankNotObject, candidates) == SelectByIds(ids, candidates)
    ensures IsSubseq(Ranked(rt, ids, RankNotObject, candidates), candidates)
  {
    FilterIsSubseq(candidates, HasIdIn(ids));
  }

  /**
   * With an object plan the ranking is in order: no candidate ranks strictly before one
   * placed ahead of it, and in particular the primary keys do not increase.
   */
  lemma RankedDescending(rt: Runtime, ids: seq<JsValue>, plan: RankPlan, candidates: seq<Record>, i: nat, j: nat)
    requires plan.RankObject?
    requires i < j < |Ranked(rt, ids, plan, candidates)|
    ensures var r := Ranked(rt, ids, plan, candidates);
      && CompareByFields(KeyOf(rt), SortFields(plan), r[i], r[j]) <= 0
      && !KeyGreater(GetFieldValue(rt, r[j], plan.primary), GetFieldValue(rt, r[i], plan.primary))
  {
    var fields := SortFields(plan);
    var r := Ranked(rt, ids, plan, candidates);
    RankOrderConsistent(rt, fields);
    SortSorted(SelectByIds(ids, candidates), RankOrder(rt, fields));
    assert RankOrder(rt, fields)(r[i], r[j]) <= 0;
    var key := KeyOf(rt);
    if KeyGreater(key(r[j], fields[0]), key(r[i], fields[0])) {
      assert TiedOn(key, fields[..0], r[i], r[j]);
      CompareIsLexicographic(key, fields, r[i], r[j], 0);
    }
  }

  /** Candidates tied on every sort field keep their relative order from the input. */
  lemma RankedStable(rt: Runtime, ids: seq<JsValue>, plan: RankPlan, candidates: seq<Record>, y: Record)
    requires plan.RankObject?
    ensures Filter(Ranked(rt, ids, plan, candidates), TiedWith(RankOrder(rt, SortFields(plan)), y))
         == Filter(SelectByIds(ids, candidates), TiedWith(RankOrder(rt, SortFields(plan)), y))
  {
    RankOrderConsistent(rt, SortFields(plan));
    SortStable(SelectByIds(ids, candidates), RankOrder(rt, SortFields(plan)), y);
  }


  /**
   * Two listed candidates with numeric experience, ranked by `experience` alone: the more
   * experienced one comes first, whatever the input order, and unlisted candidates are dropped.
   */
  lemma MoreExperienceRanksFirst(rt: Runtime, lo: Record, hi: Record, other: Record, x: int, y: int)
    requires Get(lo, "experience") == Num(x) && Get(hi, "experience") == Num(y) && x < y
    requires Get(lo, "id") == Num(5) && Get(hi, "id") == Num(12) && Get(other, "id") == Num(8)
    ensures Ranked(rt, [Num(5), Num(12)], RankObject("experience", []), [lo, hi, other]) == [hi, lo]
  {
    var ids := [Num(5), Num(12)];
    var cands := [lo, hi, other];
    FilterUnfold(cands, HasIdIn(ids));
    FilterUnfold(cands[1..], HasIdIn(ids));
    FilterUnfold(cands[2..], HasIdIn(ids));
    assert cands[1..][1..] == cands[2..];
    assert cands[2..][1..] == [];
    assert SelectByIds(ids, cands) == [lo, hi];
    var fields := SortFields(RankObject("experience", []));
    assert fields == ["experience"];
    NumericFieldOfNumber(rt, lo, "experience", x);
    NumericFieldOfNumber(rt, hi, "experience", y);
    var cmp := RankOrder(rt, fields);
    assert cmp(hi, lo) == -1;
    assert [lo, hi][..1] == [lo];
    assert Sort([lo], cmp) == [lo];
    assert Insert([lo], hi, cmp) == [hi, lo];
  }

  /**
   * A boolean rank field: ranked by `willing_to_relocate`, the candidate with `true` comes
   * before the one with `false`, as `true > ''` holds in JavaScript, whatever the input order.
   */
  lemma WillingRanksBeforeUnwilling(rt: Runtime, no: Record, yes: Record)
    requires Get(no, "willing_to_relocate") == Bool(false) && Get(yes, "willing_to_relocate") == Bool(true)
    requires Get(no, "id") == Num(1) && Get(yes, "id") == Num(2)
    ensures Ranked(rt, [Num(1), Num(2)], RankObject("willing_to_relocate", []), [no, yes]) == [yes, no]
  {
    var ids := [Num(1), Num(2)];
    var cands := [no, yes];
    FilterUnfold(cands, HasIdIn(ids));
    FilterUnfold(cands[1..], HasIdIn(ids));
    assert cands[1..][1..] == [];
    assert SelectByIds(ids, cands) == [no, yes];
    var fields := SortFields(RankObject("willing_to_relocate", []));
    assert fields == ["willing_to_relocate"];
    WillingToRelocateIsPlain();
    PlainFieldKey(rt, no, "willing_to_relocate");
    PlainFieldKey(rt, yes, "willing_to_relocate");
    var cmp := RankOrder(rt, fields);
    assert cmp(yes, no) == -1;
    assert [no, yes][..1] == [no];
    assert Sort([no], cmp) == [no];
    assert Insert([no], yes, cmp) == [yes, no];
  }

  /**
   * An empty skills array ties with missing skills: `[] > ''` and `[] < ''` are both false in
   * JavaScript, so ranking by `skills` keeps the two candidates in input order.
   */
  lemma EmptySkillsTieWithMissing(rt: Runtime, missing: Record, empty: Record)
    requires Get(missing, "skills") == Undefined && Get(empty, "skills") == Arr([])
    requires Get(missing, "id") == Num(1) && Get(empty, "id") == Num(2)
    ensures Ranked(rt, [Num(1), Num(2)], RankObject("skills", []), [missing, empty]) == [missing, empty]
  {
    var ids := [Num(1), Num(2)];
    var cands := [missing, empty];
    FilterUnfold(cands, HasIdIn(ids));
    FilterUnfold(cands[1..], HasIdIn(ids));
    assert cands[1..][1..] == [];
    assert SelectByIds(ids, cands) == [missing, empty];
    var fields := SortFields(RankObject("skills", []));
    assert fields == ["skills"];
    SkillsIsPlain();
    PlainFieldKey(rt, missing, "skills");
    PlainFieldKey(rt, empty, "skills");
    assert ToStr(Arr([])) == "";
    assert GetFieldValue(rt, empty, "skills") == KNum(0) == GetFieldValue(rt, missing, "skills");
    assert fields[1..] == [];
    var key := KeyOf(rt);
    assert key(empty, fields[0]) == KNum(0) == key(missing, fields[0]);
    assert CompareByFields(key, fields, empty, missing) == CompareByFields(key, [], empty, missing) == 0;
    var cmp := RankOrder(rt, fields);
    assert cmp(empty, missing) == 0;
    assert [missing, empty][..1] == [missing];
    assert Sort([missing], cmp) == [missing];
    assert Insert([missing], empty, cmp) == [missing, empty];
  }
}
