/**
 * The JavaScript string operations the application relies on, over `seq<char>`:
 * `toLowerCase` (ASCII letters only), `includes`, `split` on a one-character
 * separator, `replace` of the first occurrence of a character, `trim() === ""`,
 * `join` and the relational `<` on strings.
 */
module Strings {

  /** `c.toLowerCase()` for the ASCII range; every other character is left as it is. */
  function LowerChar(c: char): char {
    if 'A' <= c <= 'Z' then (c as int + 32) as char else c
  }

  /** `s.toLowerCase()`, ASCII letters only. */
  function Lower(s: string): (r: string)
    ensures |r| == |s|
  {
    seq(|s|, i requires 0 <= i < |s| => LowerChar(s[i]))
  }

  /** Lower-casing twice is lower-casing once, and it distributes over concatenation. */
  lemma LowerProperties(a: string, b: string)
    ensures Lower(Lower(a)) == Lower(a)
    ensures Lower(a + b) == Lower(a) + Lower(b)
  {
    assert forall i | 0 <= i < |a| :: Lower(Lower(a))[i] == Lower(a)[i];
    assert forall i | 0 <= i < |a + b| :: Lower(a + b)[i] == (Lower(a) + Lower(b))[i];
  }

  predicate IsPrefix(p: string, s: string) {
    |p| <= |s| && s[..|p|] == p
  }

  /** `s.includes(sub)`: some window of `s` equals `sub`. */
  predicate Includes(s: string, sub: string)
    decreases |s|
  {
    IsPrefix(sub, s) || (|s| > 0 && Includes(s[1..], sub))
  }

  ghost predicate OccursAt(s: string, sub: string, i: int) {
    0 <= i && i + |sub| <= |s| && s[i..i + |sub|] == sub
  }

  /** `Includes` holds exactly when `sub` occurs at some position of `s`. */
  lemma {:induction false} IncludesIff(s: string, sub: string)
    ensures Includes(s, sub) <==> exists i :: OccursAt(s, sub, i)
    decreases |s|
  {
    if IsPrefix(sub, s) {
      assert OccursAt(s, sub, 0);
    } else if |s| > 0 {
      IncludesIff(s[1..], sub);
      if Includes(s[1..], sub) {
        var j :| OccursAt(s[1..], sub, j);
        assert s[j + 1..j + 1 + |sub|] == s[1..][j..j + |sub|];
        assert OccursAt(s, sub, j + 1);
      }
      if i :| OccursAt(s, sub, i) {
        assert i != 0;
        assert s[1..][i - 1..i - 1 + |sub|] == s[i..i + |sub|];
        assert OccursAt(s[1..], sub, i - 1);
      }
    }
  }

  /** Every string includes the empty string. */
  lemma IncludesEmpty(s: string)
    ensures Includes(s, "")
  {
    assert IsPrefix("", s);
  }

  /** `s.split(sep)` for a one-character separator: the fields between separators. */
  function Split(s: string, sep: char): (r: seq<string>)
    ensures |r| >= 1
    decreases |s|
  {
    if s == [] then [""]
    else
      var rest := Split(s[1..], sep);
      if s[0] == sep then [""] + rest
      else [[s[0]] + rest[0]] + rest[1..]
  }

  /** `parts.join(sep)` for a one-character separator. */
  function Join(parts: seq<string>, sep: char): string
    decreases |parts|
  {
    if |parts| == 0 then ""
    else if |parts| == 1 then parts[0]
    else parts[0] + [sep] + Join(parts[1..], sep)
  }

  /** Splitting and joining again gives back the original string. */
  lemma {:induction false} JoinSplit(s: string, sep: char)
    ensures Join(Split(s, sep), sep) == s
    decreases |s|
  {
    if s != [] {
      var rest := Split(s[1..], sep);
      JoinSplit(s[1..], sep);
      if s[0] == sep {
        assert ([""] + rest)[1..] == rest;
        assert Join([""] + rest, sep) == "" + [sep] + Join(rest, sep);
        assert s == [s[0]] + s[1..];
      } else if |rest| == 1 {
        assert Join(rest, sep) == rest[0];
        assert s == [s[0]] + s[1..];
      } else {
        var r := [[s[0]] + rest[0]] + rest[1..];
        assert r[1..] == rest[1..];
        assert Join(rest, sep) == rest[0] + [sep] + Join(rest[1..], sep);
        assert Join(r, sep) == [s[0]] + rest[0] + [sep] + Join(rest[1..], sep);
        assert s == [s[0]] + s[1..];
      }
    }
  }

  /** No field produced by `split` contains the separator. */
  lemma {:induction false} SplitFieldsAvoidSep(s: string, sep: char)
    ensures forall k :: 0 <= k < |Split(s, sep)| ==> sep !in Split(s, sep)[k]
    decreases |s|
  {
    if s != [] {
      SplitFieldsAvoidSep(s[1..], sep);
    }
  }

  /** A string without the separator splits into itself alone. */
  lemma {:induction false} SplitNoSep(s: string, sep: char)
    requires sep !in s
    ensures Split(s, sep) == [s]
    decreases |s|
  {
    if s != [] {
      assert sep !in s[1..];
      SplitNoSep(s[1..], sep);
      assert s == [s[0]] + s[1..];
    }
  }

  /** The first field is the text before the first separator; the rest is the split of what follows it. */
  lemma {:induction false} SplitAtFirst(a: string, b: string, sep: char)
    requires sep !in a
    ensures Split(a + [sep] + b, sep) == [a] + Split(b, sep)
    decreases |a|
  {
    if a == [] {
      assert a + [sep] + b == [sep] + b;
      assert ([sep] + b)[1..] == b;
    } else {
      var s := a + [sep] + b;
      assert s[0] == a[0] && s[1..] == a[1..] + [sep] + b;
      assert sep !in a[1..];
      SplitAtFirst(a[1..], b, sep);
      assert [a[0]] + a[1..] == a;
    }
  }

  /** `s.replace(from, to)` with a one-character pattern: only the first occurrence changes. */
  function ReplaceFirst(s: string, from: char, to: char): (r: string)
    ensures |r| == |s|
    decreases |s|
  {
    if s == [] then []
    else if s[0] == from then [to] + s[1..]
    else [s[0]] + ReplaceFirst(s[1..], from, to)
  }

  /** Replacing touches exactly the first occurrence of `from`, and nothing when there is none. */
  lemma {:induction false} ReplaceFirstSpec(a: string, b: string, from: char, to: char)
    requires from !in a
    ensures ReplaceFirst(a, from, to) == a
    ensures ReplaceFirst(a + [from] + b, from, to) == a + [to] + b
    decreases |a|
  {
    if a != [] {
      var s := a + [from] + b;
      assert s[0] == a[0] && s[1..] == a[1..] + [from] + b;
      assert from !in a[1..];
      ReplaceFirstSpec(a[1..], b, from, to);
      assert [a[0]] + a[1..] == a;
    } else {
      assert (a + [from] + b)[1..] == b;
    }
  }

  /** Joining with a multi-character separator (`array.join(", ")`). */
  function JoinWith(parts: seq<string>, sep: string): string
    decreases |parts|
  {
    if |parts| == 0 then ""
    else if |parts| == 1 then parts[0]
    else parts[0] + sep + JoinWith(parts[1..], sep)
  }

  /**
   * The characters `String.prototype.trim` removes: the white space and line terminators
   * of ECMAScript (tab, vertical tab, form feed, the byte order mark, every space
   * separator of Unicode category Zs, line feed, carriage return and the line and
   * paragraph separators).
   */
  predicate IsTrimmable(c: char) {
    c == '\t' || c == '\U{000B}' || c == '\U{000C}' || c == '\U{FEFF}'
    || c == ' ' || c == '\U{00A0}' || c == '\U{1680}' || '\U{2000}' <= c <= '\U{200A}'
    || c == '\U{202F}' || c == '\U{205F}' || c == '\U{3000}'
    || c == '\n' || c == '\r' || c == '\U{2028}' || c == '\U{2029}'
  }

  /** `s.trim() === ""`: the string is made of trimmable characters only. */
  predicate IsBlank(s: string) {
    forall i :: 0 <= i < |s| ==> IsTrimmable(s[i])
  }

  /** JavaScript's `a < b` on strings: lexicographic order on characters, a proper prefix first. */
  predicate LexLess(a: string, b: string)
    decreases |a|
  {
    if |b| == 0 then false
    else if |a| == 0 then true
    else if a[0] != b[0] then a[0] < b[0]
    else LexLess(a[1..], b[1..])
  }

  lemma {:induction false} LexLessIrreflexive(a: string)
    ensures !LexLess(a, a)
    decreases |a|
  {
    if |a| > 0 {
      LexLessIrreflexive(a[1..]);
    }
  }

  lemma {:induction false} LexLessAsymmetric(a: string, b: string)
    ensures LexLess(a, b) ==> !LexLess(b, a)
    decreases |a|
  {
    if |a| > 0 && |b| > 0 && a[0] == b[0] {
      LexLessAsymmetric(a[1..], b[1..]);
    }
  }

  lemma {:induction false} LexLessTransitive(a: string, b: string, c: string)
    requires LexLess(a, b) && LexLess(b, c)
    ensures LexLess(a, c)
    decreases |a|
  {
    if |a| > 0 && a[0] == b[0] && b[0] == c[0] {
      LexLessTransitive(a[1..], b[1..], c[1..]);
    }
  }

  /** Two different strings are always ordered one way or the other. */
  lemma {:induction false} LexLessTotal(a: string, b: string)
    requires a != b
    ensures LexLess(a, b) || LexLess(b, a)
    decreases |a|
  {
    if |a| > 0 && |b| > 0 && a[0] == b[0] {
      assert a == [a[0]] + a[1..] && b == [b[0]] + b[1..];
      LexLessTotal(a[1..], b[1..]);
    }
  }
}
