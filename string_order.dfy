/** The order in which the document store compares two strings: the simple
    binary comparison, which on UTF-8 encodings is lexicographic order on code
    points. ISO-8601 timestamps are compared with it, not as dates.
 */
module StringOrder {

  /** `a <= b` lexicographically: `a` is empty, or its first character is
      smaller, or the first characters agree and the rests are ordered. */
  predicate LexLe(a: string, b: string)
    decreases |a|
  {
    |a| == 0 || (|b| > 0 && (a[0] < b[0] || (a[0] == b[0] && LexLe(a[1..], b[1..]))))
  }

  /** Strictly before. */
  predicate LexLt(a: string, b: string) {
    LexLe(a, b) && a != b
  }

  /** The textbook definition: `a` is a prefix of `b`, or at the first
      position where they differ `a` has the smaller character. */
  ghost predicate PrefixOrSmallerAt(a: string, b: string) {
    (|a| <= |b| && a == b[..|a|])
    || exists i :: 0 <= i < |a| && i < |b| && a[..i] == b[..i] && a[i] < b[i]
  }

  lemma LexLeMatchesDefinition(a: string, b: string)
    ensures LexLe(a, b) <==> PrefixOrSmallerAt(a, b)
  {
    if LexLe(a, b) {
      LexLeIsPrefixOrSmaller(a, b);
    }
    if PrefixOrSmallerAt(a, b) {
      PrefixOrSmallerIsLexLe(a, b);
    }
  }

  lemma {:induction false} LexLeIsPrefixOrSmaller(a: string, b: string)
    requires LexLe(a, b)
    ensures PrefixOrSmallerAt(a, b)
    decreases |a|
  {
    if |a| == 0 {
      assert a == b[..0];
    } else if a[0] < b[0] {
      assert a[..0] == b[..0];
    } else {
      LexLeIsPrefixOrSmaller(a[1..], b[1..]);
      if |a[1..]| <= |b[1..]| && a[1..] == b[1..][..|a[1..]|] {
        assert a == [a[0]] + a[1..];
        assert b[..|a|] == [b[0]] + b[1..][..|a[1..]|];
      } else {
        var j :| 0 <= j < |a[1..]| && j < |b[1..]| && a[1..][..j] == b[1..][..j] && a[1..][j] < b[1..][j];
        assert a[..j + 1] == [a[0]] + a[1..][..j];
        assert b[..j + 1] == [b[0]] + b[1..][..j];
        assert a[j + 1] < b[j + 1];
      }
    }
  }

  lemma {:induction false} PrefixOrSmallerIsLexLe(a: string, b: string)
    requires PrefixOrSmallerAt(a, b)
    ensures LexLe(a, b)
    decreases |a|
  {
    if |a| > 0 {
      if |a| <= |b| && a == b[..|a|] {
        assert a[0] == b[..|a|][0];
        assert a[1..] == b[1..][..|a[1..]|];
        PrefixOrSmallerIsLexLe(a[1..], b[1..]);
      } else {
        var i :| 0 <= i < |a| && i < |b| && a[..i] == b[..i] && a[i] < b[i];
        if i > 0 {
          assert a[0] == a[..i][0] && b[0] == b[..i][0];
          assert a[1..][..i - 1] == a[..i][1..];
          assert b[1..][..i - 1] == b[..i][1..];
          assert a[1..][i - 1] < b[1..][i - 1];
          PrefixOrSmallerIsLexLe(a[1..], b[1..]);
        }
      }
    }
  }

  lemma {:induction false} LexLeReflexive(a: string)
    ensures LexLe(a, a)
    decreases |a|
  {
    if |a| > 0 {
      LexLeReflexive(a[1..]);
    }
  }

  lemma {:induction false} LexLeAntisymmetric(a: string, b: string)
    requires LexLe(a, b) && LexLe(b, a)
    ensures a == b
    decreases |a|
  {
    if |a| > 0 {
      LexLeAntisymmetric(a[1..], b[1..]);
      assert a == [a[0]] + a[1..];
      assert b == [b[0]] + b[1..];
    }
  }

  lemma {:induction false} LexLeTransitive(a: string, b: string, c: string)
    requires LexLe(a, b) && LexLe(b, c)
    ensures LexLe(a, c)
    decreases |a|
  {
    if |a| > 0 && a[0] == b[0] && b[0] == c[0] {
      LexLeTransitive(a[1..], b[1..], c[1..]);
    }
  }

  lemma {:induction false} LexLeTotal(a: string, b: string)
    ensures LexLe(a, b) || LexLe(b, a)
    decreases |a|
  {
    if |a| > 0 && |b| > 0 && a[0] == b[0] {
      LexLeTotal(a[1..], b[1..]);
    }
  }

  /** "Strictly before" is exactly "not at or after". */
  lemma LexLtIffNotLe(a: string, b: string)
    ensures LexLt(a, b) <==> !LexLe(b, a)
  {
    LexLeTotal(a, b);
    if LexLe(a, b) && LexLe(b, a) {
      LexLeAntisymmetric(a, b);
    }
    if a == b {
      LexLeReflexive(a);
    }
  }
}
