/**
 The few `String.prototype` operations the summarizer relies on, with the
 semantics JavaScript gives them: `startsWith`, `includes`, `trim`, `length`
 (in UTF-16 code units) and `replace` with a global literal pattern.
 */
module Strings {

  /** `s.startsWith(p)` */
  predicate IsPrefix(p: string, s: string) {
    |p| <= |s| && s[..|p|] == p
  }

  /** `p` occurs in `s` starting at index `i`. */
  ghost predicate OccursAt(s: string, p: string, i: int) {
    0 <= i && i + |p| <= |s| && s[i..i + |p|] == p
  }

  /** `s.includes(p)`, as a left-to-right search. */
  predicate Contains(s: string, p: string)
    decreases |s|
  {
    IsPrefix(p, s) || (|s| > 0 && Contains(s[1..], p))
  }

  /** The search agrees with the positional definition of a substring, in both directions. */
  lemma {:induction false} ContainsIffOccurs(s: string, p: string)
    ensures Contains(s, p) <==> exists i :: OccursAt(s, p, i)
    decreases |s|
  {
    if IsPrefix(p, s) {
      assert OccursAt(s, p, 0);
    } else if |s| > 0 {
      ContainsIffOccurs(s[1..], p);
      if Contains(s[1..], p) {
        var j :| OccursAt(s[1..], p, j);
        assert s[1..][j..j + |p|] == s[j + 1..j + 1 + |p|];
        assert OccursAt(s, p, j + 1);
      }
      if i :| OccursAt(s, p, i) {
        assert i != 0;
        assert s[1..][i - 1..i - 1 + |p|] == s[i..i + |p|];
        assert OccursAt(s[1..], p, i - 1);
      }
    }
  }

  /**
   The characters `String.prototype.trim` strips: ECMAScript WhiteSpace
   (tab, vertical tab, form feed, space, no-break space, byte order mark and
   the Space_Separator category) and LineTerminator (LF, CR, LS, PS).
   */
  predicate IsJsWhitespace(c: char) {
    || c == '\t' || c == '\U{000B}' || c == '\U{000C}' || c == ' '
    || c == '\U{00A0}' || c == '\U{FEFF}'
    || c == '\U{1680}' || ('\U{2000}' <= c <= '\U{200A}') || c == '\U{202F}'
    || c == '\U{205F}' || c == '\U{3000}'
    || c == '\n' || c == '\r' || c == '\U{2028}' || c == '\U{2029}'
  }

  ghost predicate AllWhitespace(s: string) {
    forall i :: 0 <= i < |s| ==> IsJsWhitespace(s[i])
  }

  /** `s.trimStart()`: the suffix left after dropping leading whitespace. */
  function TrimStart(s: string): (r: string)
    ensures |r| <= |s| && r == s[|s| - |r|..]
    ensures AllWhitespace(s[..|s| - |r|])
    ensures |r| > 0 ==> !IsJsWhitespace(r[0])
    decreases |s|
  {
    if |s| > 0 && IsJsWhitespace(s[0]) then
      var r := TrimStart(s[1..]);
      assert s[1..][..|s| - 1 - |r|] == s[1..|s| - |r|];
      r
    else s
  }

  /** `s.trimEnd()`: the prefix left after dropping trailing whitespace. */
  function TrimEnd(s: string): (r: string)
    ensures |r| <= |s| && r == s[..|r|]
    ensures AllWhitespace(s[|r|..])
    ensures |r| > 0 ==> !IsJsWhitespace(r[|r| - 1])
    decreases |s|
  {
    if |s| > 0 && IsJsWhitespace(s[|s| - 1]) then
      var r := TrimEnd(s[..|s| - 1]);
      assert s[..|s| - 1][|r|..] == s[|r|..|s| - 1];
      r
    else s
  }

  /** `s.trim()`: never longer than the text, and empty exactly when the text is whitespace only. */
  function Trim(s: string): (t: string)
    ensures |t| <= |s|
    ensures t == "" <==> AllWhitespace(s)
  {
    TrimEnd(TrimStart(s))
  }

  /** `t` is `s[i..j]`, and only whitespace lies outside it. */
  ghost predicate InnerSlice(s: string, t: string, i: int, j: int) {
    0 <= i <= j <= |s| && t == s[i..j] && AllWhitespace(s[..i]) && AllWhitespace(s[j..])
  }

  /**
   `Trim(s)` is the slice of `s` between a whitespace-only prefix and a
   whitespace-only suffix, and it neither begins nor ends with whitespace.
   */
  lemma TrimIsInnerSlice(s: string)
    ensures exists i, j :: InnerSlice(s, Trim(s), i, j)
    ensures |Trim(s)| > 0 ==> !IsJsWhitespace(Trim(s)[0]) && !IsJsWhitespace(Trim(s)[|Trim(s)| - 1])
  {
    var t := TrimStart(s);
    var i := |s| - |t|;
    var r := TrimEnd(t);
    var j := i + |r|;
    assert Trim(s) == r;
    assert t == s[i..];
    assert r == s[i..j];
    assert t[|r|..] == s[j..];
    assert InnerSlice(s, r, i, j);
    if |r| > 0 {
      assert r[0] == t[0];
    }
  }

  /** Trimming leaves nothing to trim. */
  lemma TrimIdempotent(s: string)
    ensures Trim(Trim(s)) == Trim(s)
  {
  }

  /** UTF-16 code units a character occupies. */
  function CodeUnits(c: char): nat {
    if c as int > 0xFFFF then 2 else 1
  }

  /** `s.length`: JavaScript counts UTF-16 code units, so a character outside the BMP counts twice. */
  function Utf16Length(s: string): (n: nat)
    ensures |s| <= n <= 2 * |s|
    ensures (forall i :: 0 <= i < |s| ==> s[i] as int <= 0xFFFF) ==> n == |s|
    decreases |s|
  {
    if |s| == 0 then 0 else CodeUnits(s[0]) + Utf16Length(s[1..])
  }

  /**
   `s.replace(/p/g, r)` for a pattern without regular-expression metacharacters
   and a replacement without `$` patterns: scanning left to right, every
   non-overlapping occurrence of `p` is replaced by `r`.
   */
  function ReplaceAll(s: string, p: string, r: string): (t: string)
    requires |p| > 0
    ensures |r| == |p| ==> |t| == |s|
    ensures |r| >= |p| ==> |t| >= |s|
    decreases |s|
  {
    if |s| == 0 then ""
    else if IsPrefix(p, s) then r + ReplaceAll(s[|p|..], p, r)
    else [s[0]] + ReplaceAll(s[1..], p, r)
  }

  /** A text starting with the pattern has that occurrence replaced, and the scan resumes after it. */
  lemma ReplaceAllAt(p: string, b: string, r: string)
    requires |p| > 0
    ensures ReplaceAll(p + b, p, r) == r + ReplaceAll(b, p, r)
  {
    assert IsPrefix(p, p + b) by { assert (p + b)[..|p|] == p; }
    assert (p + b)[|p|..] == b;
  }

  /** No occurrence of `p` in `a + b` begins inside `a`. */
  ghost predicate NoStartIn(a: string, b: string, p: string) {
    forall i :: 0 <= i < |a| ==> !OccursAt(a + b, p, i)
  }

  /** A prefix in which no occurrence of the pattern begins is copied unchanged. */
  lemma {:induction false} ReplaceAllSkip(a: string, b: string, p: string, r: string)
    requires |p| > 0 && NoStartIn(a, b, p)
    ensures ReplaceAll(a + b, p, r) == a + ReplaceAll(b, p, r)
    decreases |a|
  {
    if |a| > 0 {
      var s := a + b;
      assert !OccursAt(s, p, 0);
      assert !IsPrefix(p, s);
      assert s[1..] == a[1..] + b;
      forall i | 0 <= i < |a[1..]|
        ensures !OccursAt(a[1..] + b, p, i)
      {
        assert !OccursAt(s, p, i + 1);
        if i + |p| <= |s[1..]| {
          assert s[1..][i..i + |p|] == s[i + 1..i + 1 + |p|];
        }
      }
      ReplaceAllSkip(a[1..], b, p, r);
      assert [s[0]] + a[1..] == a;
    } else {
      assert a + b == b;
    }
  }

  /**
   The first occurrence of the pattern is replaced in place: the text before it
   is kept, and the scan goes on with the text after it.
   */
  lemma ReplaceFirstOccurrence(a: string, p: string, b: string, r: string)
    requires |p| > 0 && NoStartIn(a, p + b, p)
    ensures ReplaceAll(a + p + b, p, r) == a + r + ReplaceAll(b, p, r)
  {
    assert a + p + b == a + (p + b);
    ReplaceAllSkip(a, p + b, p, r);
    ReplaceAllAt(p, b, r);
  }

  /** One mismatching character rules out an occurrence. */
  lemma Mismatch(s: string, p: string, i: nat, k: nat)
    requires k < |p| && i + k < |s| && s[i + k] != p[k]
    ensures !OccursAt(s, p, i)
  {
    if i + |p| <= |s| {
      assert s[i..i + |p|][k] == s[i + k];
    }
  }

  /** A prefix lacking the pattern's first character holds no start of it. */
  lemma FirstCharAbsent(a: string, b: string, p: string)
    requires |p| > 0 && p[0] !in a
    ensures NoStartIn(a, b, p)
  {
    forall i | 0 <= i < |a|
      ensures !OccursAt(a + b, p, i)
    {
      assert (a + b)[i] == a[i];
      Mismatch(a + b, p, i, 0);
    }
  }

  /** Text without the pattern is left exactly as it is. */
  lemma {:induction false} ReplaceAllAbsent(s: string, p: string, r: string)
    requires |p| > 0
    requires !Contains(s, p)
    ensures ReplaceAll(s, p, r) == s
    decreases |s|
  {
    if |s| > 0 {
      ReplaceAllAbsent(s[1..], p, r);
      assert [s[0]] + s[1..] == s;
    }
  }

  /** Replacing a single character by text that lacks it leaves no trace of that character. */
  lemma {:induction false} ReplaceCharRemovesIt(s: string, c: char, r: string)
    requires c !in r
    ensures c !in ReplaceAll(s, [c], r)
    decreases |s|
  {
    if |s| > 0 {
      ReplaceCharRemovesIt(s[1..], c, r);
      if IsPrefix([c], s) {
        assert s[..1] == [s[0]];
        ReplaceCharRemovesIt(s[1..], c, r);
      } else {
        assert s[..1] == [s[0]];
        assert s[0] != c;
      }
    }
  }

  /** Character-by-character reference definition of replacing one character. */
  function MapChar(s: string, c: char, r: string): string
    decreases |s|
  {
    if |s| == 0 then "" else (if s[0] == c then r else [s[0]]) + MapChar(s[1..], c, r)
  }

  /** The left-to-right scan and the per-character map agree on single-character patterns. */
  lemma {:induction false} ReplaceCharIsMap(s: string, c: char, r: string)
    ensures ReplaceAll(s, [c], r) == MapChar(s, c, r)
    decreases |s|
  {
    if |s| > 0 {
      assert s[..1] == [s[0]];
      assert IsPrefix([c], s) <==> s[0] == c;
      ReplaceCharIsMap(s[1..], c, r);
    }
  }

  /** A character the text lacks is never replaced. */
  lemma {:induction false} MapCharAbsent(s: string, c: char, r: string)
    requires c !in s
    ensures MapChar(s, c, r) == s
    decreases |s|
  {
    if |s| > 0 {
      assert s[0] != c;
      assert c !in s[1..] by { assert forall x :: x in s[1..] ==> x in s; }
      MapCharAbsent(s[1..], c, r);
      assert [s[0]] + s[1..] == s;
    }
  }

  /** The per-character map works piecewise. */
  lemma {:induction false} MapCharConcat(a: string, b: string, c: char, r: string)
    ensures MapChar(a + b, c, r) == MapChar(a, c, r) + MapChar(b, c, r)
    decreases |a|
  {
    if |a| > 0 {
      assert (a + b)[1..] == a[1..] + b;
      MapCharConcat(a[1..], b, c, r);
    } else {
      assert a + b == b;
    }
  }

  /** A pattern holding a character the text lacks does not occur in it. */
  lemma {:induction false} NoOccurrence(s: string, p: string, c: char)
    requires c in p && c !in s
    ensures !Contains(s, p)
    decreases |s|
  {
    if |s| > 0 {
      assert forall x :: x in s[1..] ==> x in s;
      NoOccurrence(s[1..], p, c);
    }
  }

  /** A character occurring once is replaced in place. */
  lemma ReplaceLoneChar(a: string, b: string, c: char, r: string)
    requires c !in a && c !in b
    ensures ReplaceAll(a + [c] + b, [c], r) == a + r + b
  {
    ReplaceCharIsMap(a + [c] + b, c, r);
    MapCharConcat(a + [c], b, c, r);
    MapCharConcat(a, [c], c, r);
    MapCharAbsent(a, c, r);
    MapCharAbsent(b, c, r);
    assert [c][1..] == [];
    assert MapChar([c], c, r) == r;
    assert MapChar(a + [c], c, r) == a + r;
  }
}
