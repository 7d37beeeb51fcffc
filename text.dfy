/**
 * JavaScript string operations the core relies on: `split` and `join` on a
 * one-character separator, and the relational `<` on strings (lexicographic
 * by code point, where JavaScript compares UTF-16 code units).
 */
module Text {

  /** `s.split(sep)`: always at least one field; no field contains sep. */
  function Split(s: string, sep: char): (r: seq<string>)
    ensures |r| >= 1
    ensures forall i :: 0 <= i < |r| ==> sep !in r[i]
  {
    if s == [] then [""]
    else
      var rest := Split(s[1..], sep);
      if s[0] == sep then [""] + rest else [[s[0]] + rest[0]] + rest[1..]
  }

  /** `parts.join(sep)`. */
  function Join(parts: seq<string>, sep: char): string {
    if parts == [] then ""
    else if |parts| == 1 then parts[0]
    else parts[0] + [sep] + Join(parts[1..], sep)
  }

  /** Joining the fields of a split gives back the original string. */
  lemma {:induction false} JoinSplit(s: string, sep: char)
    ensures Join(Split(s, sep), sep) == s
  {
    if s != [] {
      var rest := Split(s[1..], sep);
      JoinSplit(s[1..], sep);
      if s[0] == sep {
        assert Split(s, sep) == [""] + rest;
        assert ([""] + rest)[1..] == rest;
      } else {
        var r := Split(s, sep);
        assert r == [[s[0]] + rest[0]] + rest[1..];
        if |rest| == 1 {
          assert r == [[s[0]] + rest[0]];
        } else {
          assert r[1..] == rest[1..];
          assert Join(rest, sep) == rest[0] + [sep] + Join(rest[1..], sep);
        }
      }
    }
  }

  lemma {:induction false} SplitNoSep(a: string, sep: char)
    requires sep !in a
    ensures Split(a, sep) == [a]
  {
    if a != [] {
      SplitNoSep(a[1..], sep);
      assert [a[0]] + a[1..] == a;
    }
  }

  lemma {:induction false} SplitAfterField(a: string, b: string, sep: char)
    requires sep !in a
    ensures Split(a + [sep] + b, sep) == [a] + Split(b, sep)
  {
    if a == [] {
      assert a + [sep] + b == [sep] + b;
      assert ([sep] + b)[1..] == b;
    } else {
      var s := a + [sep] + b;
      assert s[0] == a[0] && s[1..] == a[1..] + [sep] + b;
      SplitAfterField(a[1..], b, sep);
      assert [a[0]] + a[1..] == a;
    }
  }

  /** Splitting a join of separator-free fields gives back the fields. */
  lemma {:induction false} SplitJoin(parts: seq<string>, sep: char)
    requires |parts| >= 1
    requires forall i :: 0 <= i < |parts| ==> sep !in parts[i]
    ensures Split(Join(parts, sep), sep) == parts
  {
    if |parts| == 1 {
      SplitNoSep(parts[0], sep);
    } else {
      SplitJoin(parts[1..], sep);
      SplitAfterField(parts[0], Join(parts[1..], sep), sep);
      assert [parts[0]] + parts[1..] == parts;
    }
  }

  /** JavaScript `a < b` on strings, read by code point; JavaScript itself compares UTF-16 code units. */
  predicate Less(a: string, b: string) {
    if a == [] then b != []
    else if b == [] then false
    else if a[0] != b[0] then a[0] < b[0]
    else Less(a[1..], b[1..])
  }

  lemma {:induction false} LessIrreflexive(a: string)
    ensures !Less(a, a)
  {
    if a != [] {
      LessIrreflexive(a[1..]);
    }
  }

  lemma {:induction false} LessTransitive(a: string, b: string, c: string)
    requires Less(a, b) && Less(b, c)
    ensures Less(a, c)
  {
    if a != [] && b != [] && c != [] && a[0] == b[0] && b[0] == c[0] {
      LessTransitive(a[1..], b[1..], c[1..]);
    }
  }

  /** Two different strings are ordered one way or the other. */
  lemma {:induction false} LessTotal(a: string, b: string)
    requires a != b
    ensures Less(a, b) || Less(b, a)
  {
    if a != [] && b != [] && a[0] == b[0] {
      assert a == [a[0]] + a[1..] && b == [b[0]] + b[1..];
      LessTotal(a[1..], b[1..]);
    }
  }

  /** A common prefix does not change the order. */
  lemma {:induction false} LessAfterPrefix(p: string, a: string, b: string)
    ensures Less(p + a, p + b) == Less(a, b)
  {
    if p == [] {
      assert p + a == a && p + b == b;
    } else {
      assert (p + a)[0] == (p + b)[0] == p[0];
      assert (p + a)[1..] == p[1..] + a && (p + b)[1..] == p[1..] + b;
      LessAfterPrefix(p[1..], a, b);
    }
  }

  lemma {:induction false} LessAsymmetric(a: string, b: string)
    requires Less(a, b)
    ensures !Less(b, a)
  {
    if a != [] && b != [] && a[0] == b[0] {
      LessAsymmetric(a[1..], b[1..]);
    }
  }

  /** Every character of s is in the class p (a regex `^[...]*$`). */
  function AllChars(s: string, p: char -> bool): (b: bool)
    ensures b <==> forall i :: 0 <= i < |s| ==> p(s[i])
  {
    s == [] || (p(s[0]) && AllChars(s[1..], p))
  }

  /** A character outside the Basic Multilingual Plane, which UTF-16 stores as a surrogate pair. */
  predicate Astral(c: char) { c as int >= 0x1_0000 }

  /** No character of s needs a surrogate pair. */
  predicate InBmp(s: string) {
    forall i :: 0 <= i < |s| ==> !Astral(s[i])
  }

  /**
   * JavaScript's `s.length`: the number of UTF-16 code units, two for an
   * astral character. `|s|` counts code points.
   */
  function Utf16Length(s: string): (n: nat)
    ensures |s| <= n <= 2 * |s|
    ensures n == |s| <==> InBmp(s)
    ensures (forall i :: 0 <= i < |s| ==> Astral(s[i])) ==> n == 2 * |s|
    decreases |s|
  {
    if s == [] then 0
    else
      var rest := Utf16Length(s[1..]);
      assert InBmp(s) <==> !Astral(s[0]) && InBmp(s[1..]) by {
        if !Astral(s[0]) && InBmp(s[1..]) {
          forall i | 0 < i < |s| ensures !Astral(s[i]) {
            assert s[i] == s[1..][i - 1];
          }
        }
      }
      (if Astral(s[0]) then 2 else 1) + rest
  }

  /** U+FE0E or U+FE0F, a variation selector that express-validator's `isLength` does not count. */
  predicate Selector(c: char) { c == '\U{FE0E}' || c == '\U{FE0F}' }

  /**
   * express-validator's `isLength` measure: JavaScript's `length` less one per
   * surrogate pair and one per variation selector, so the number of
   * characters that are not variation selectors.
   */
  function ValidatorLength(s: string): (n: nat)
    ensures n <= |s|
    ensures n == |s| <==> forall i :: 0 <= i < |s| ==> !Selector(s[i])
    decreases |s|
  {
    if s == [] then 0
    else
      var rest := ValidatorLength(s[1..]);
      assert (forall i :: 0 <= i < |s| ==> !Selector(s[i])) <==>
             !Selector(s[0]) && forall i :: 0 <= i < |s| - 1 ==> !Selector(s[1..][i]) by {
        if !Selector(s[0]) && forall i :: 0 <= i < |s| - 1 ==> !Selector(s[1..][i]) {
          forall i | 0 < i < |s| ensures !Selector(s[i]) {
            assert s[i] == s[1..][i - 1];
          }
        }
      }
      (if Selector(s[0]) then 0 else 1) + rest
  }

  predicate IsDigit(c: char) { '0' <= c <= '9' }

  /** `[a-z0-9]` */
  predicate IsLowerAlnum(c: char) { 'a' <= c <= 'z' || IsDigit(c) }

  /** `[a-zA-Z0-9_]` */
  predicate IsWordChar(c: char) { 'a' <= c <= 'z' || 'A' <= c <= 'Z' || IsDigit(c) || c == '_' }

  /** A word of `[a-zA-Z0-9_]` characters has as many code units, and as many counted characters, as characters. */
  lemma WordLength(s: string)
    requires forall i :: 0 <= i < |s| ==> IsWordChar(s[i])
    ensures Utf16Length(s) == |s| && ValidatorLength(s) == |s|
  {
    assert InBmp(s);
  }
}
