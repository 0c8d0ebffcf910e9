/** The string operations the screens use: `trim`, `toLowerCase`/`toUpperCase`,
    `includes`, `startsWith`, `split`, and `localeCompare` as a collation. */
module Text {

  /** ECMAScript WhiteSpace and LineTerminator code points, the ones `trim` removes. */
  predicate IsWhitespace(c: char) {
    var k := c as int;
    k == 0x09 || k == 0x0A || k == 0x0B || k == 0x0C || k == 0x0D || k == 0x20 ||
    k == 0xA0 || k == 0x1680 || (0x2000 <= k <= 0x200A) || k == 0x2028 || k == 0x2029 ||
    k == 0x202F || k == 0x205F || k == 0x3000 || k == 0xFEFF
  }

  predicate AllWhitespace(s: string) {
    forall i :: 0 <= i < |s| ==> IsWhitespace(s[i])
  }

  function TrimStart(s: string): (r: string)
    ensures |r| <= |s| && r == s[|s| - |r|..]
    ensures r != [] ==> !IsWhitespace(r[0])
    ensures r == [] <==> AllWhitespace(s)
  {
    if s != [] && IsWhitespace(s[0]) then TrimStart(s[1..]) else s
  }

  function TrimEnd(s: string): (r: string)
    ensures |r| <= |s| && r == s[..|r|]
    ensures r != [] ==> !IsWhitespace(r[|r| - 1])
    ensures r == [] <==> AllWhitespace(s)
  {
    if s != [] && IsWhitespace(s[|s| - 1]) then TrimEnd(s[..|s| - 1]) else s
  }

  /** `s.trim()` */
  function Trim(s: string): (r: string)
    ensures r != [] ==> !IsWhitespace(r[0]) && !IsWhitespace(r[|r| - 1])
    ensures r == [] <==> AllWhitespace(s)
  {
    TrimEnd(TrimStart(s))
  }

  lemma {:induction false} TrimStartIdentity(s: string)
    requires s == [] || !IsWhitespace(s[0])
    ensures TrimStart(s) == s
  {
  }

  lemma {:induction false} TrimEndIdentity(s: string)
    requires s == [] || !IsWhitespace(s[|s| - 1])
    ensures TrimEnd(s) == s
  {
  }

  /** Trimming twice is trimming once. */
  lemma TrimIdempotent(s: string)
    ensures Trim(Trim(s)) == Trim(s)
  {
    var t := Trim(s);
    TrimStartIdentity(t);
    assert TrimStart(t) == t;
    TrimEndIdentity(t);
    assert Trim(t) == TrimEnd(t);
  }

  /** A string that starts and ends with a visible character is its own trim. */
  lemma TrimNoSurroundingSpace(s: string)
    requires s == [] || (!IsWhitespace(s[0]) && !IsWhitespace(s[|s| - 1]))
    ensures Trim(s) == s
  {
    TrimStartIdentity(s);
    TrimEndIdentity(s);
  }

  /** Case mapping of the ASCII and Latin-1 letters. Every Latin-1 capital lower-cases to
      one character; upper-casing maps µ to Greek capital mu, ÿ to Latin capital Y with
      diaeresis (U+0178) and is the only mapping that changes length: ß becomes "SS". */
  function LowerChar(c: char): char {
    var k := c as int;
    if ('A' as int <= k <= 'Z' as int) || (0xC0 <= k <= 0xDE && k != 0xD7) then (k + 32) as char else c
  }

  const SharpS: char := 0xDF as char

  /** The upper case of a character other than ß, which has no one-character upper case. */
  function UpperChar(c: char): char {
    var k := c as int;
    if ('a' as int <= k <= 'z' as int) || (0xE0 <= k <= 0xFE && k != 0xF7) then (k - 32) as char
    else if k == 0xB5 then 0x39C as char
    else if k == 0xFF then 0x178 as char
    else c
  }

  /** The upper case of one character: "SS" for ß, one character otherwise. */
  function UpperOf(c: char): (r: string)
    ensures c == SharpS ==> r == "SS"
    ensures c != SharpS ==> r == [UpperChar(c)]
    ensures 1 <= |r| <= 2
  {
    if c == SharpS then "SS" else [UpperChar(c)]
  }

  /** `s.toLowerCase()` */
  function Lower(s: string): (r: string)
    ensures |r| == |s|
    ensures forall i :: 0 <= i < |s| ==> r[i] == LowerChar(s[i])
  {
    seq(|s|, i requires 0 <= i < |s| => LowerChar(s[i]))
  }

  /** `s.toUpperCase()`: each character's upper case, in order; without a ß it keeps the
      length and maps every character on its own. */
  function Upper(s: string): (r: string)
    ensures |s| <= |r| <= 2 * |s|
    ensures s != [] ==> r == UpperOf(s[0]) + Upper(s[1..])
    ensures (forall i :: 0 <= i < |s| ==> s[i] != SharpS) ==>
              |r| == |s| && forall i :: 0 <= i < |s| ==> r[i] == UpperChar(s[i])
    decreases |s|
  {
    if s == [] then []
    else
      var rest := Upper(s[1..]);
      assert forall i :: 0 <= i < |s| - 1 ==> s[1..][i] == s[i + 1];
      UpperOf(s[0]) + rest
  }

  lemma LowerIdempotent(s: string)
    ensures Lower(Lower(s)) == Lower(s)
  {
  }

  lemma LowerFixes(s: string)
    requires forall i :: 0 <= i < |s| ==> LowerChar(s[i]) == s[i]
    ensures Lower(s) == s
  {
  }

  lemma LowerAppend(a: string, b: string)
    ensures Lower(a + b) == Lower(a) + Lower(b)
  {
  }

  /** `s.startsWith(p)` */
  predicate StartsWith(s: string, p: string) {
    |p| <= |s| && s[..|p|] == p
  }

  /** `s.includes(q)`: `q` occurs in `s` at some position. */
  predicate Contains(s: string, q: string)
    decreases |s|
  {
    StartsWith(s, q) || (|s| > 0 && Contains(s[1..], q))
  }

  /** `q` occurs in `s` at position `i`. */
  predicate OccursAt(s: string, q: string, i: int) {
    0 <= i && i + |q| <= |s| && s[i..i + |q|] == q
  }

  /** The recursive definition of `Contains` is the occurrence-at-an-index one. */
  lemma {:induction false} ContainsAt(s: string, q: string)
    ensures Contains(s, q) <==> exists i :: OccursAt(s, q, i)
  {
    if Contains(s, q) {
      if StartsWith(s, q) {
        assert OccursAt(s, q, 0);
      } else {
        ContainsAt(s[1..], q);
        var j :| OccursAt(s[1..], q, j);
        assert s[1..][j..j + |q|] == s[j + 1..j + 1 + |q|];
        assert OccursAt(s, q, j + 1);
      }
    }
    if exists i :: OccursAt(s, q, i) {
      var i :| OccursAt(s, q, i);
      if i > 0 {
        assert s[1..][i - 1..i - 1 + |q|] == s[i..i + |q|];
        assert OccursAt(s[1..], q, i - 1);
        ContainsAt(s[1..], q);
      } else {
        assert StartsWith(s, q);
      }
    }
  }

  /** A string contains the first character of anything non-empty it contains. */
  lemma {:induction false} ContainsFirst(s: string, q: string)
    requires q != [] && Contains(s, q)
    ensures q[0] in s
  {
    if StartsWith(s, q) {
      assert s[0] == q[0];
    } else {
      ContainsFirst(s[1..], q);
    }
  }

  lemma ContainsEmpty(s: string)
    ensures Contains(s, "")
  {
  }

  /** What a string contains, every extension of it contains too, on either side. */
  lemma {:induction false} ContainsInAppend(a: string, b: string, q: string)
    ensures Contains(a, q) ==> Contains(a + b, q)
    ensures Contains(b, q) ==> Contains(a + b, q)
  {
    if a != [] {
      ContainsInAppend(a[1..], b, q);
      assert (a + b)[1..] == a[1..] + b;
      if StartsWith(a, q) {
        assert (a + b)[..|q|] == a[..|q|];
      }
    } else {
      assert a + b == b;
    }
  }

  /** A string contains whatever sits inside it. */
  lemma {:induction false} ContainsInfix(a: string, q: string, b: string)
    ensures Contains(a + q + b, q)
  {
    var s := a + q + b;
    assert s[|a|..|a| + |q|] == q;
    assert OccursAt(s, q, |a|);
    ContainsAt(s, q);
  }

  /** Appending to a text keeps what its lower-cased form contains. */
  lemma ContainsLowerExtend(x: string, y: string, q: string)
    requires Contains(Lower(x), q)
    ensures Contains(Lower(x + y), q)
  {
    LowerAppend(x, y);
    ContainsInAppend(Lower(x), Lower(y), q);
  }

  /** Lower-casing around a part that is already lower case leaves that part in place. */
  lemma LowerInfix(a: string, q: string, b: string)
    requires Lower(q) == q
    ensures Lower(a + q + b) == Lower(a) + q + Lower(b)
  {
    LowerAppend(a + q, b);
    LowerAppend(a, q);
  }

  /** `s.split(sep)`: the pieces between the separators, empty pieces included. */
  function Split(s: string, sep: char): (parts: seq<string>)
    ensures |parts| >= 1
    ensures forall k, i :: 0 <= k < |parts| && 0 <= i < |parts[k]| ==> parts[k][i] != sep
  {
    if s == [] then [""]
    else if s[0] == sep then [""] + Split(s[1..], sep)
    else
      var rest := Split(s[1..], sep);
      [[s[0]] + rest[0]] + rest[1..]
  }

  /** `parts.join(sep)` */
  function Join(parts: seq<string>, sep: char): string {
    if |parts| == 0 then ""
    else if |parts| == 1 then parts[0]
    else parts[0] + [sep] + Join(parts[1..], sep)
  }

  /** Splitting loses nothing: joining the pieces with the separator gives the string back. */
  lemma {:induction false} JoinSplit(s: string, sep: char)
    ensures Join(Split(s, sep), sep) == s
  {
    if s != [] {
      JoinSplit(s[1..], sep);
      var rest := Split(s[1..], sep);
      if s[0] == sep {
        assert Split(s, sep)[1..] == rest;
      } else {
        var parts := Split(s, sep);
        assert parts[0] == [s[0]] + rest[0];
        assert parts[1..] == rest[1..];
        if |rest| == 1 {
          assert s == [s[0]] + s[1..];
        } else {
          assert Join(rest, sep) == rest[0] + [sep] + Join(rest[1..], sep);
          assert s == [s[0]] + s[1..];
        }
      }
    }
  }

  /** A string without the separator is a single piece. */
  lemma {:induction false} SplitWithoutSeparator(s: string, sep: char)
    requires forall i :: 0 <= i < |s| ==> s[i] != sep
    ensures Split(s, sep) == [s]
  {
    if s != [] {
      SplitWithoutSeparator(s[1..], sep);
      assert [s[0]] + s[1..] == s;
    }
  }

  /** A separator after a piece without one splits off exactly that piece. */
  lemma {:induction false} SplitAtSeparator(a: string, b: string, sep: char)
    requires forall i :: 0 <= i < |a| ==> a[i] != sep
    ensures Split(a + [sep] + b, sep) == [a] + Split(b, sep)
  {
    var s := a + [sep] + b;
    if a == [] {
      assert s[1..] == b;
    } else {
      assert s[1..] == a[1..] + [sep] + b;
      SplitAtSeparator(a[1..], b, sep);
      assert [a[0]] + a[1..] == a;
    }
  }

  /** `localeCompare` with `sensitivity: "base"` (case ignored, ties allowed), or with the
      default sensitivity (case only breaks ties, lower case first). */
  datatype Collation = Base | Variant

  /** Lexicographic comparison by code point: -1, 0 or 1. */
  function LexCompare(a: string, b: string): (r: int)
    ensures -1 <= r <= 1
  {
    if a == [] && b == [] then 0
    else if a == [] then -1
    else if b == [] then 1
    else if a[0] < b[0] then -1
    else if a[0] > b[0] then 1
    else LexCompare(a[1..], b[1..])
  }

  function Compare(c: Collation, a: string, b: string): (r: int)
    ensures -1 <= r <= 1
  {
    var primary := LexCompare(Lower(a), Lower(b));
    if c == Base || primary != 0 then primary else LexCompare(b, a)
  }

  lemma {:induction false} LexReflexive(a: string)
    ensures LexCompare(a, a) == 0
  {
    if a != [] {
      LexReflexive(a[1..]);
    }
  }

  lemma {:induction false} LexAntisymmetric(a: string, b: string)
    ensures LexCompare(a, b) == -LexCompare(b, a)
  {
    if a != [] && b != [] && a[0] == b[0] {
      LexAntisymmetric(a[1..], b[1..]);
    }
  }

  lemma {:induction false} LexZeroIsEqual(a: string, b: string)
    requires LexCompare(a, b) == 0
    ensures a == b
  {
    if a != [] && b != [] {
      LexZeroIsEqual(a[1..], b[1..]);
      assert a == [a[0]] + a[1..] && b == [b[0]] + b[1..];
    }
  }

  lemma {:induction false} LexTransitive(a: string, b: string, c: string)
    requires LexCompare(a, b) <= 0 && LexCompare(b, c) <= 0
    ensures LexCompare(a, c) <= 0
  {
    if a != [] && b != [] && c != [] && a[0] == b[0] && b[0] == c[0] {
      LexTransitive(a[1..], b[1..], c[1..]);
    }
  }

  /** Both collations are total preorders; `Variant` moreover only ties equal strings. */
  lemma CompareReflexive(c: Collation, a: string)
    ensures Compare(c, a, a) == 0
  {
    LexReflexive(Lower(a));
    LexReflexive(a);
  }

  lemma CompareAntisymmetric(c: Collation, a: string, b: string)
    ensures Compare(c, a, b) == -Compare(c, b, a)
  {
    LexAntisymmetric(Lower(a), Lower(b));
    LexAntisymmetric(a, b);
  }

  lemma CompareTransitive(c: Collation, a: string, b: string, d: string)
    requires Compare(c, a, b) <= 0 && Compare(c, b, d) <= 0
    ensures Compare(c, a, d) <= 0
  {
    var la, lb, ld := Lower(a), Lower(b), Lower(d);
    assert LexCompare(la, lb) <= 0 && LexCompare(lb, ld) <= 0;
    LexTransitive(la, lb, ld);
    if c == Variant && LexCompare(la, ld) == 0 {
      LexZeroIsEqual(la, ld);
      LexAntisymmetric(la, lb);
      assert LexCompare(la, lb) == 0;
      assert LexCompare(lb, ld) == 0;
      LexTransitive(d, b, a);
    }
  }

  lemma VariantTiesOnlyEqual(a: string, b: string)
    requires Compare(Variant, a, b) == 0
    ensures a == b
  {
    LexZeroIsEqual(b, a);
  }
}
