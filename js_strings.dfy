/**
 * The JavaScript string operations the candidate engine relies on: `toLowerCase`,
 * `includes`, `indexOf`/`lastIndexOf`, `split`/`join`, `trim`, the relational `<` on
 * strings and the `/\s+/g` replacement. Characters are Unicode scalar values; case
 * mapping and white space are restricted to ASCII.
 */
module JsStrings {

  /** The ASCII characters that `\s` and `String.prototype.trim` treat as white space. */
  predicate IsSpace(c: char) {
    c == ' ' || c == '\t' || c == '\n' || c == '\r' || c == '\U{B}' || c == '\U{C}'
  }

  function LowerChar(c: char): char {
    if 'A' <= c <= 'Z' then (c as int + 32) as char else c
  }

  /** `s.toLowerCase()` on ASCII letters. */
  function Lower(s: string): (r: string)
    ensures |r| == |s|
    ensures forall i :: 0 <= i < |s| ==> r[i] == LowerChar(s[i])
  {
    seq(|s|, i requires 0 <= i < |s| => LowerChar(s[i]))
  }

  /** `hay.includes(needle)`: `needle` occurs as a contiguous block of `hay`. */
  predicate Includes(hay: string, needle: string)
    decreases |hay|
  {
    needle <= hay || (hay != [] && Includes(hay[1..], needle))
  }

  /** `Includes` agrees with the textbook definition: some block of `hay` equals `needle`. */
  lemma {:induction false} IncludesAt(hay: string, needle: string)
    ensures Includes(hay, needle) <==>
      exists i {:trigger hay[i..]} :: 0 <= i <= |hay| && needle <= hay[i..]
    decreases |hay|
  {
    if needle <= hay {
      assert hay[0..] == hay;
    } else if hay == [] {
      forall i | 0 <= i <= |hay| ensures !(needle <= hay[i..]) {
        assert hay[i..] == hay;
      }
    } else {
      IncludesAt(hay[1..], needle);
      if exists i {:trigger hay[i..]} :: 0 <= i <= |hay| && needle <= hay[i..] {
        var i :| 0 <= i <= |hay| && needle <= hay[i..];
        assert i != 0 by { assert hay[0..] == hay; }
        assert hay[1..][i - 1..] == hay[i..];
      }
      if Includes(hay[1..], needle) {
        var i :| 0 <= i <= |hay[1..]| && needle <= hay[1..][i..];
        assert hay[1..][i..] == hay[i + 1..];
      }
    }
  }

  /** Every string contains itself, so an exact match is always a containment match. */
  lemma IncludesSelf(s: string)
    ensures Includes(s, s)
  {
  }

  /** A string that lacks the first character of `needle` does not contain `needle`. */
  lemma IncludesNeedsFirstChar(hay: string, needle: string)
    requires needle != [] && needle[0] !in hay
    ensures !Includes(hay, needle)
  {
    forall i | 0 <= i <= |hay| ensures !(needle <= hay[i..]) {
      if i < |hay| {
        assert hay[i..][0] == hay[i];
        assert hay[i] in hay;
      }
    }
    IncludesAt(hay, needle);
  }

  /** A string contains each of its prefixes. */
  lemma IncludesPrefix(hay: string, needle: string)
    requires needle <= hay
    ensures Includes(hay, needle)
  {
  }

  /** Lower-casing keeps prefixes. */
  lemma LowerPrefix(a: string, b: string)
    requires a <= b
    ensures Lower(a) <= Lower(b)
  {
    assert Lower(a) == Lower(b)[..|a|];
  }

  /** Only `c` and `C` lower-case to `c`. */
  lemma LowerCharC(x: char)
    ensures LowerChar(x) == 'c' <==> x == 'c' || x == 'C'
  {
  }

  /** Every string contains the empty string. */
  lemma IncludesEmpty(s: string)
    ensures Includes(s, "")
  {
  }

  /** `s.indexOf(c)`: the first position of `c`, or -1. */
  function IndexOf(s: string, c: char): (i: int)
    ensures -1 <= i < |s|
    ensures i == -1 <==> c !in s
    ensures 0 <= i ==> s[i] == c && c !in s[..i]
  {
    if s == [] then -1
    else if s[0] == c then 0
    else
      var j := IndexOf(s[1..], c);
      assert s[1..][..if j < 0 then 0 else j] == s[1..if j < 0 then 1 else j + 1];
      if j < 0 then -1 else j + 1
  }

  /** `s.lastIndexOf(c)`: the last position of `c`, or -1. */
  function LastIndexOf(s: string, c: char): (i: int)
    ensures -1 <= i < |s|
    ensures i == -1 <==> c !in s
    ensures 0 <= i ==> s[i] == c && c !in s[i + 1..]
  {
    if s == [] then -1
    else if s[|s| - 1] == c then |s| - 1
    else
      var j := LastIndexOf(s[..|s| - 1], c);
      assert s == s[..|s| - 1] + [s[|s| - 1]];
      assert 0 <= j ==> s[j + 1..] == s[..|s| - 1][j + 1..] + [s[|s| - 1]];
      j
  }

  /** `s.split(sep)` for a one-character separator: the pieces between separators, at least one. */
  function Split(s: string, sep: char): (parts: seq<string>)
    ensures |parts| >= 1
    decreases |s|
  {
    var i := IndexOf(s, sep);
    if i < 0 then [s] else [s[..i]] + Split(s[i + 1..], sep)
  }

  /** `parts.join(sep)` for a one-character separator. */
  function Join(parts: seq<string>, sep: char): string
  {
    if |parts| == 0 then ""
    else if |parts| == 1 then parts[0]
    else parts[0] + [sep] + Join(parts[1..], sep)
  }

  lemma {:induction false} SplitUnfold(s: string, sep: char, i: int)
    requires i == IndexOf(s, sep) && 0 <= i
    ensures Split(s, sep) == [s[..i]] + Split(s[i + 1..], sep)
  {
  }

  /** No piece contains the separator. */
  lemma {:induction false} SplitPieces(s: string, sep: char)
    ensures forall k :: 0 <= k < |Split(s, sep)| ==> sep !in Split(s, sep)[k]
    decreases |s|
  {
    var i := IndexOf(s, sep);
    if 0 <= i {
      SplitUnfold(s, sep, i);
      SplitPieces(s[i + 1..], sep);
    }
  }

  lemma JoinCons(first: string, rest: seq<string>, sep: char)
    requires |rest| >= 1
    ensures Join([first] + rest, sep) == first + [sep] + Join(rest, sep)
  {
    assert ([first] + rest)[1..] == rest;
  }

  /** Splitting and joining again gives the original string back. */
  lemma {:induction false} JoinSplit(s: string, sep: char)
    ensures Join(Split(s, sep), sep) == s
    decreases |s|
  {
    var i := IndexOf(s, sep);
    if 0 <= i {
      var head, tail := s[..i], s[i + 1..];
      var rest := Split(tail, sep);
      JoinSplit(tail, sep);
      SplitUnfold(s, sep, i);
      assert Split(s, sep) == [head] + rest;
      JoinCons(head, rest, sep);
      assert Join(Split(s, sep), sep) == head + [sep] + tail;
      assert s == head + [sep] + tail;
    }
  }

  /** The first `c` of `a + [c] + b` is the one after `a` when `a` has none. */
  lemma IndexOfAfterPlain(a: string, c: char, b: string)
    requires c !in a
    ensures IndexOf(a + [c] + b, c) == |a|
  {
    var s := a + [c] + b;
    assert s[|a|] == c;
    assert s[..|a|] == a;
    assert s[..|a| + 1][|a|] == c;
  }

  /** Joining pieces that do not contain the separator and splitting again gives the pieces back. */
  lemma {:induction false} SplitJoin(parts: seq<string>, sep: char)
    requires |parts| >= 1
    requires forall i :: 0 <= i < |parts| ==> sep !in parts[i]
    ensures Split(Join(parts, sep), sep) == parts
  {
    if |parts| > 1 {
      var first, rest := parts[0], Join(parts[1..], sep);
      var s := first + [sep] + rest;
      assert parts == [first] + parts[1..];
      JoinCons(first, parts[1..], sep);
      IndexOfAfterPlain(first, sep, rest);
      SplitUnfold(s, sep, |first|);
      assert s[..|first|] == first;
      assert s[|first| + 1..] == rest;
      SplitJoin(parts[1..], sep);
    }
  }

  /** `s.trimStart()`: drops the white space at the front. */
  function TrimStart(s: string): (r: string)
    ensures |r| <= |s| && r == s[|s| - |r|..]
    ensures forall i :: 0 <= i < |s| - |r| ==> IsSpace(s[i])
    ensures r != [] ==> !IsSpace(r[0])
  {
    if s != [] && IsSpace(s[0]) then TrimStart(s[1..]) else s
  }

  /** `s.trimEnd()`: drops the white space at the back. */
  function TrimEnd(s: string): (r: string)
    ensures |r| <= |s| && r == s[..|r|]
    ensures forall i :: |r| <= i < |s| ==> IsSpace(s[i])
    ensures r != [] ==> !IsSpace(r[|r| - 1])
  {
    if s != [] && IsSpace(s[|s| - 1]) then TrimEnd(s[..|s| - 1]) else s
  }

  /** `s.trim()`. */
  function Trim(s: string): string {
    TrimEnd(TrimStart(s))
  }

  /** `parts.map(s => s.trim())`. */
  function TrimAll(parts: seq<string>): seq<string> {
    seq(|parts|, i requires 0 <= i < |parts| => Trim(parts[i]))
  }

  /** `trim` leaves a string that neither starts nor ends with white space, and keeps one that already does not. */
  lemma TrimProperties(s: string)
    ensures Trim(s) != [] ==> !IsSpace(Trim(s)[0]) && !IsSpace(Trim(s)[|Trim(s)| - 1])
    ensures (s == [] || (!IsSpace(s[0]) && !IsSpace(s[|s| - 1]))) ==> Trim(s) == s
  {
    var t := TrimStart(s);
    var r := TrimEnd(t);
    if r != [] {
      assert r[0] == t[0];
    }
  }

  /** `a < b` on strings: lexicographic order on characters, a proper prefix first. */
  predicate LexLess(a: string, b: string)
  {
    if a == [] then b != []
    else if b == [] then false
    else a[0] < b[0] || (a[0] == b[0] && LexLess(a[1..], b[1..]))
  }

  lemma {:induction false} LexLessIrreflexive(a: string)
    ensures !LexLess(a, a)
  {
    if a != [] {
      LexLessIrreflexive(a[1..]);
    }
  }

  lemma {:induction false} LexLessAsymmetric(a: string, b: string)
    ensures LexLess(a, b) ==> !LexLess(b, a)
  {
    if a != [] && b != [] && a[0] == b[0] {
      LexLessAsymmetric(a[1..], b[1..]);
    }
  }

  lemma {:induction false} LexLessTransitive(a: string, b: string, c: string)
    requires LexLess(a, b) && LexLess(b, c)
    ensures LexLess(a, c)
  {
    if a != [] && a[0] == b[0] && b[0] == c[0] {
      LexLessTransitive(a[1..], b[1..], c[1..]);
    }
  }

  lemma {:induction false} LexLessTotal(a: string, b: string)
    ensures a == b || LexLess(a, b) || LexLess(b, a)
  {
    if a != [] && b != [] && a[0] == b[0] {
      LexLessTotal(a[1..], b[1..]);
      if a[1..] == b[1..] {
        assert a == [a[0]] + a[1..] && b == [b[0]] + b[1..];
      }
    }
  }

  /** Three-way string comparison (`sort()`'s default order, and `localeCompare` without locale rules). */
  function LexCompare(a: string, b: string): int
  {
    if LexLess(a, b) then -1 else if LexLess(b, a) then 1 else 0
  }

  /** `s.replace(/\s+/g, dot)`: every maximal run of white space becomes one `dot`. */
  function ReplaceSpaceRuns(s: string, dot: char): (r: string)
    requires !IsSpace(dot)
    ensures forall i :: 0 <= i < |r| ==> !IsSpace(r[i])
    ensures |r| <= |s|
    decreases |s|
  {
    if s == [] then []
    else if IsSpace(s[0]) then [dot] + ReplaceSpaceRuns(TrimStart(s), dot)
    else [s[0]] + ReplaceSpaceRuns(s[1..], dot)
  }

  lemma ReplaceUnfoldPlain(c: char, t: string, dot: char)
    requires !IsSpace(dot) && !IsSpace(c)
    ensures ReplaceSpaceRuns([c] + t, dot) == [c] + ReplaceSpaceRuns(t, dot)
  {
    assert ([c] + t)[1..] == t;
  }

  /** A string without white space is left as it is. */
  lemma {:induction false} ReplaceKeepsPlain(s: string, dot: char)
    requires !IsSpace(dot)
    requires forall i :: 0 <= i < |s| ==> !IsSpace(s[i])
    ensures ReplaceSpaceRuns(s, dot) == s
  {
    if s != [] {
      PlainTail(s);
      ReplaceUnfoldPlain(s[0], s[1..], dot);
      assert s == [s[0]] + s[1..];
      ReplaceKeepsPlain(s[1..], dot);
    }
  }

  lemma SplitFirst(a: string, s: string)
    requires a != []
    ensures a + s == [a[0]] + (a[1..] + s)
  {
  }

  lemma PlainTail(a: string)
    requires a != [] && forall i :: 0 <= i < |a| ==> !IsSpace(a[i])
    ensures forall i :: 0 <= i < |a| - 1 ==> !IsSpace(a[1..][i])
  {
  }

  /** A prefix without white space passes through the replacement unchanged. */
  lemma {:induction false} ReplaceAfterPlainPrefix(a: string, s: string, dot: char)
    requires !IsSpace(dot)
    requires forall i :: 0 <= i < |a| ==> !IsSpace(a[i])
    ensures ReplaceSpaceRuns(a + s, dot) == a + ReplaceSpaceRuns(s, dot)
  {
    var r := ReplaceSpaceRuns(s, dot);
    if a != [] {
      var c, rest := a[0], a[1..];
      SplitFirst(a, s);
      SplitFirst(a, r);
      ReplaceUnfoldPlain(c, rest + s, dot);
      PlainTail(a);
      ReplaceAfterPlainPrefix(rest, s, dot);
    } else {
      assert a + s == s && a + r == r;
    }
  }

  /** `a b`, with one space between two words, becomes `a` + dot + `b`. */
  lemma ReplaceSingleSpace(a: string, b: string, dot: char)
    requires !IsSpace(dot)
    requires forall i :: 0 <= i < |a| ==> !IsSpace(a[i])
    requires forall i :: 0 <= i < |b| ==> !IsSpace(b[i])
    ensures ReplaceSpaceRuns(a + ([' '] + b), dot) == a + ([dot] + b)
  {
    ReplaceSpaceThenPlain(b, dot);
    ReplaceAfterPlainPrefix(a, [' '] + b, dot);
  }

  lemma ReplaceUnfoldSpace(s: string, dot: char)
    requires !IsSpace(dot) && s != [] && IsSpace(s[0])
    ensures ReplaceSpaceRuns(s, dot) == [dot] + ReplaceSpaceRuns(TrimStart(s), dot)
  {
  }

  lemma TrimStartPlain(s: string)
    requires s == [] || !IsSpace(s[0])
    ensures TrimStart(s) == s
  {
  }

  lemma ReplaceSpaceThenPlain(b: string, dot: char)
    requires !IsSpace(dot)
    requires forall i :: 0 <= i < |b| ==> !IsSpace(b[i])
    ensures ReplaceSpaceRuns([' '] + b, dot) == [dot] + b
  {
    var sb := [' '] + b;
    assert sb[0] == ' ' && sb[1..] == b;
    ReplaceUnfoldSpace(sb, dot);
    TrimStartPlain(b);
    assert TrimStart(sb) == TrimStart(b);
    ReplaceKeepsPlain(b, dot);
  }
}
