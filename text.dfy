/**
 * String operations the article search relies on: lower-casing (modelled
 * on ASCII), joining a list of strings with a separator, and the
 * `includes` substring test, together with an index-based reference
 * definition of "is a substring" that `Includes` is proved to agree with.
 */
module Text {

  /** True of the upper-case ASCII letters 'A' .. 'Z'. */
  predicate IsUpper(c: char) {
    'A' <= c <= 'Z'
  }

  /** Lower-cases one character: 'A' .. 'Z' become 'a' .. 'z', everything else is kept. */
  function Lower(c: char): (d: char)
    ensures !IsUpper(d)
    ensures IsUpper(c) ==> d as int == c as int + 32
    ensures !IsUpper(c) ==> d == c
  {
    if IsUpper(c) then (c as int - 'A' as int + 'a' as int) as char else c
  }

  /** Lower-cases a string character by character. */
  function LowerStr(s: string): (r: string)
    ensures |r| == |s|
    ensures forall i :: 0 <= i < |s| ==> r[i] == Lower(s[i])
  {
    if s == [] then [] else [Lower(s[0])] + LowerStr(s[1..])
  }

  /** The total length of a list of strings. */
  function TotalLength(parts: seq<string>): nat {
    if parts == [] then 0 else |parts[0]| + TotalLength(parts[1..])
  }

  /** Joins `parts` with `sep` between each pair of neighbours; no parts give "". */
  function Join(parts: seq<string>, sep: string): (r: string)
  {
    if |parts| == 0 then ""
    else if |parts| == 1 then parts[0]
    else parts[0] + sep + Join(parts[1..], sep)
  }

  /** Reference definition: `q` occurs in `s` starting at index `i`. */
  ghost predicate SubstringAt(s: string, q: string, i: int) {
    0 <= i && i + |q| <= |s| && s[i..i + |q|] == q
  }

  /** Reference definition: `q` occurs somewhere in `s`. */
  ghost predicate Occurs(s: string, q: string) {
    exists i :: SubstringAt(s, q, i)
  }

  /**
   * The `includes` test: whether `q` occurs somewhere in `s`, trying the
   * start positions from left to right. The empty string occurs in every string.
   */
  function Includes(s: string, q: string): (b: bool)
    ensures b ==> |q| <= |s|
    decreases |s|
  {
    if |q| > |s| then false
    else if s[..|q|] == q then true
    else Includes(s[1..], q)
  }

  /** Dropping the first character shifts every occurrence one index to the left. */
  lemma SubstringAtTail(s: string, q: string, i: nat)
    requires |s| >= 1
    ensures SubstringAt(s[1..], q, i) <==> SubstringAt(s, q, i + 1)
  {
    if i + |q| <= |s| - 1 {
      assert s[1..][i..i + |q|] == s[i + 1..i + 1 + |q|];
    }
  }

  /** `Includes` holds exactly when `q` occurs in `s` at some index. */
  lemma {:induction false} IncludesIff(s: string, q: string)
    ensures Includes(s, q) <==> Occurs(s, q)
    decreases |s|
  {
    if |q| > |s| {
    } else if s[..|q|] == q {
      assert SubstringAt(s, q, 0);
    } else {
      IncludesIff(s[1..], q);
      if Includes(s[1..], q) {
        var i :| SubstringAt(s[1..], q, i);
        SubstringAtTail(s, q, i);
      }
      if Occurs(s, q) {
        var i :| SubstringAt(s, q, i);
        assert i != 0;
        SubstringAtTail(s, q, i - 1);
      }
    }
  }

  /** The empty query occurs in every string. */
  lemma IncludesEmpty(s: string)
    ensures Includes(s, "")
  {
  }

  /** Lower-casing twice is the same as lower-casing once. */
  lemma LowerStrIdempotent(s: string)
    ensures LowerStr(LowerStr(s)) == LowerStr(s)
  {
  }

  /** A string with no upper-case letter is left unchanged by lower-casing. */
  lemma LowerStrOfLower(s: string)
    requires forall i :: 0 <= i < |s| ==> !IsUpper(s[i])
    ensures LowerStr(s) == s
  {
  }

  /** An occurrence of `q` in `s` is an occurrence of lower-cased `q` in lower-cased `s`. */
  lemma LowerPreservesSubstring(s: string, q: string, i: int)
    requires SubstringAt(s, q, i)
    ensures SubstringAt(LowerStr(s), LowerStr(q), i)
  {
  }

  /** A prefix of an occurrence is itself an occurrence at the same index. */
  lemma SubstringAtPrefix(s: string, q: string, i: int, n: nat)
    requires SubstringAt(s, q, i) && n <= |q|
    ensures SubstringAt(s, q[..n], i)
  {
  }

  /** An occurrence in `b` is an occurrence in `a + b`, shifted by `|a|`. */
  lemma SubstringAtAppend(a: string, b: string, q: string, i: int)
    requires SubstringAt(b, q, i)
    ensures SubstringAt(a + b, q, |a| + i)
  {
  }

  /** The first part of a non-empty list opens its join. */
  lemma JoinStartsWithFirst(parts: seq<string>, sep: string)
    requires |parts| >= 1
    ensures SubstringAt(Join(parts, sep), parts[0], 0)
  {
  }

  /**
   * Two neighbouring parts, with the separator between them, occur in the
   * join: a query can span the boundary between adjacent parts.
   */
  lemma {:induction false} JoinSpansNeighbours(parts: seq<string>, sep: string, i: nat)
    requires i + 1 < |parts|
    ensures Occurs(Join(parts, sep), parts[i] + sep + parts[i + 1])
    decreases i
  {
    var rest := Join(parts[1..], sep);
    assert Join(parts, sep) == parts[0] + sep + rest;
    if i == 0 {
      JoinStartsWithFirst(parts[1..], sep);
      var q := parts[0] + sep + parts[1];
      assert rest[..|parts[1]|] == parts[1];
      assert Join(parts, sep)[0..|q|] == q;
      assert SubstringAt(Join(parts, sep), q, 0);
    } else {
      JoinSpansNeighbours(parts[1..], sep, i - 1);
      var q := parts[1..][i - 1] + sep + parts[1..][i];
      var k :| SubstringAt(rest, q, k);
      SubstringAtAppend(parts[0] + sep, rest, q, k);
      assert (parts[0] + sep) + rest == Join(parts, sep);
    }
  }

  /** The join of n parts is as long as the parts together plus n - 1 separators. */
  lemma {:induction false} JoinLength(parts: seq<string>, sep: string)
    requires |parts| >= 1
    ensures |Join(parts, sep)| == TotalLength(parts) + (|parts| - 1) * |sep|
    decreases |parts|
  {
    if |parts| > 1 {
      JoinLength(parts[1..], sep);
      var n := |parts| - 2;
      assert (n + 1) * |sep| == n * |sep| + |sep|;
    }
  }

  /**
   * Appending a part to a non-empty list appends the separator and that
   * part to the join; with `Join([], sep) == ""` and `Join([p], sep) == p`
   * this fixes the join of every list.
   */
  lemma {:induction false} JoinSnoc(parts: seq<string>, sep: string, p: string)
    requires |parts| >= 1
    ensures Join(parts + [p], sep) == Join(parts, sep) + sep + p
    decreases |parts|
  {
    var ps := parts + [p];
    assert ps[0] == parts[0] && ps[1..] == parts[1..] + [p];
    if |parts| == 1 {
      assert ps[1..] == [p];
    } else {
      JoinSnoc(parts[1..], sep, p);
      calc {
        Join(ps, sep);
        parts[0] + sep + Join(parts[1..] + [p], sep);
        parts[0] + sep + (Join(parts[1..], sep) + sep + p);
        (parts[0] + sep + Join(parts[1..], sep)) + sep + p;
      }
    }
  }

  /** Every part occurs in the join. */
  lemma {:induction false} JoinContainsPart(parts: seq<string>, sep: string, i: nat)
    requires i < |parts|
    ensures Occurs(Join(parts, sep), parts[i])
    decreases i
  {
    if i == 0 {
      JoinStartsWithFirst(parts, sep);
    } else {
      var rest := Join(parts[1..], sep);
      assert Join(parts, sep) == (parts[0] + sep) + rest;
      JoinContainsPart(parts[1..], sep, i - 1);
      var k :| SubstringAt(rest, parts[i], k);
      SubstringAtAppend(parts[0] + sep, rest, parts[i], k);
    }
  }
}
