/** String helpers with the meaning Go and SQLite give them. */
module Text {

  /** Number of occurrences of `c` in `s`. */
  function Occurrences(s: string, c: char): nat
  {
    if s == [] then 0 else (if s[0] == c then 1 else 0) + Occurrences(s[1..], c)
  }

  /** Go's `strings.Join`: the parts with `sep` between consecutive ones. */
  function Join(parts: seq<string>, sep: string): string
  {
    if |parts| == 0 then ""
    else if |parts| == 1 then parts[0]
    else parts[0] + sep + Join(parts[1..], sep)
  }

  /** Total number of occurrences of `c` over all `parts`. */
  function TotalOccurrences(parts: seq<string>, c: char): nat
  {
    if parts == [] then 0 else Occurrences(parts[0], c) + TotalOccurrences(parts[1..], c)
  }

  /** Whether `t` occurs in `s` starting at index `i`. */
  predicate OccursAt(s: string, t: string, i: int)
  {
    0 <= i && i + |t| <= |s| && s[i..i + |t|] == t
  }

  /** Whether `t` occurs in `s` as a contiguous piece. */
  predicate Contains(s: string, t: string)
  {
    exists i :: 0 <= i <= |s| && OccursAt(s, t, i)
  }

  /** SQLite's BINARY collation on text: code-point order, a proper prefix first. */
  predicate LexLe(a: string, b: string)
  {
    if a == [] then true
    else if b == [] then false
    else if a[0] != b[0] then a[0] < b[0]
    else LexLe(a[1..], b[1..])
  }

  lemma {:induction false} OccurrencesAppend(a: string, b: string, c: char)
    ensures Occurrences(a + b, c) == Occurrences(a, c) + Occurrences(b, c)
  {
    if a == [] {
      assert a + b == b;
    } else {
      assert (a + b)[1..] == a[1..] + b;
      OccurrencesAppend(a[1..], b, c);
    }
  }

  lemma {:induction false} OccurrencesAbsent(s: string, c: char)
    requires c !in s
    ensures Occurrences(s, c) == 0
  {
    if s != [] {
      assert c != s[0];
      OccurrencesAbsent(s[1..], c);
    }
  }

  /** A join counts each part's occurrences plus one separator's worth per gap. */
  lemma {:induction false} JoinOccurrences(parts: seq<string>, sep: string, c: char)
    requires |parts| > 0
    ensures Occurrences(Join(parts, sep), c)
            == TotalOccurrences(parts, c) + (|parts| - 1) * Occurrences(sep, c)
  {
    if |parts| == 1 {
      assert parts[1..] == [];
    } else {
      JoinOccurrences(parts[1..], sep, c);
      OccurrencesAppend(parts[0], sep, c);
      OccurrencesAppend(parts[0] + sep, Join(parts[1..], sep), c);
    }
  }

  /** A join with a separator free of `c` counts only the parts' occurrences. */
  lemma JoinOccurrencesPlainSeparator(parts: seq<string>, sep: string, c: char)
    requires |parts| > 0
    requires c !in sep
    ensures Occurrences(Join(parts, sep), c) == TotalOccurrences(parts, c)
  {
    JoinOccurrences(parts, sep, c);
    OccurrencesAbsent(sep, c);
  }

  /** Texts sharing a prefix compare as their remainders do. */
  lemma {:induction false} LexLeCommonPrefix(p: string, a: string, b: string)
    ensures LexLe(p + a, p + b) == LexLe(a, b)
  {
    if p == [] {
      assert p + a == a && p + b == b;
    } else {
      assert (p + a)[1..] == p[1..] + a;
      assert (p + b)[1..] == p[1..] + b;
      LexLeCommonPrefix(p[1..], a, b);
    }
  }

  /** The BINARY order is transitive. */
  lemma {:induction false} LexLeTrans(a: string, b: string, c: string)
    requires LexLe(a, b) && LexLe(b, c)
    ensures LexLe(a, c)
  {
    if a != [] && b != [] && c != [] && a[0] == b[0] && b[0] == c[0] {
      LexLeTrans(a[1..], b[1..], c[1..]);
    }
  }

  /** A text missing one of the characters of `t` does not contain `t`. */
  lemma MissingCharNotContained(s: string, t: string, c: char)
    requires c in t && c !in s
    ensures !Contains(s, t)
  {
    forall i | 0 <= i && i + |t| <= |s|
      ensures !OccursAt(s, t, i)
    {
      var k :| 0 <= k < |t| && t[k] == c;
      assert s[i..i + |t|][k] == s[i + k];
    }
  }

  /** Two texts that meet at a space, neither containing a space-free `t`, do not contain it
      once joined: an occurrence could only straddle the seam, and the seam is a space. */
  lemma NotContainedAcrossSpace(a: string, b: string, t: string)
    requires !Contains(a, t) && !Contains(b, t)
    requires ' ' !in t
    requires (|a| > 0 && a[|a| - 1] == ' ') || (|b| > 0 && b[0] == ' ')
    ensures !Contains(a + b, t)
  {
    forall i | 0 <= i && i + |t| <= |a + b|
      ensures !OccursAt(a + b, t, i)
    {
      var s := (a + b)[i..i + |t|];
      if i + |t| <= |a| {
        assert s == a[i..i + |t|];
        assert !OccursAt(a, t, i);
      } else if |a| <= i {
        assert s == b[i - |a|..i - |a| + |t|];
        assert !OccursAt(b, t, i - |a|);
      } else if |a| > 0 && a[|a| - 1] == ' ' {
        assert s[|a| - 1 - i] == ' ';
      } else {
        assert s[|a| - i] == ' ';
      }
    }
  }
}
