/**
 * ASCII text operations the query code relies on: Python's `str.lower`,
 * `str.title`, the `in` substring test, the character classes `\d` and `\w`
 * of a regular expression, and the decimal text of numbers.
 */
module Text {

  predicate IsUpper(c: char) { 'A' <= c <= 'Z' }
  predicate IsLowerLetter(c: char) { 'a' <= c <= 'z' }
  predicate IsLetter(c: char) { IsUpper(c) || IsLowerLetter(c) }
  predicate IsDigit(c: char) { '0' <= c <= '9' }

  /** `\w` of a regular expression, restricted to ASCII. */
  predicate IsWordChar(c: char) { IsLetter(c) || IsDigit(c) || c == '_' }

  function LowerChar(c: char): (d: char)
    ensures !IsUpper(d)
    ensures IsLetter(d) <==> IsLetter(c)
    ensures !IsUpper(c) ==> d == c
  {
    if IsUpper(c) then (c as int + 32) as char else c
  }

  function UpperChar(c: char): (d: char)
    ensures !IsLowerLetter(d)
    ensures IsLetter(d) <==> IsLetter(c)
    ensures LowerChar(d) == LowerChar(c)
  {
    if IsLowerLetter(c) then (c as int - 32) as char else c
  }

  /** `s.lower()`: every character lower-cased, nothing else changed. */
  function Lower(s: string): (r: string)
    ensures |r| == |s|
    ensures forall i :: 0 <= i < |s| ==> r[i] == LowerChar(s[i])
  {
    if s == [] then [] else [LowerChar(s[0])] + Lower(s[1..])
  }

  /** Lower-casing twice is lower-casing once. */
  lemma {:induction false} LowerIdempotent(s: string)
    ensures Lower(Lower(s)) == Lower(s)
  {
    if s != [] {
      LowerIdempotent(s[1..]);
      assert Lower(s)[1..] == Lower(s[1..]);
    }
  }

  /**
   * The character `str.title` puts in place of `c`: a letter right after a
   * cased character (an ASCII letter) becomes lower case, any other letter
   * upper case; other characters stay as they are.
   */
  function TitleChar(c: char, afterLetter: bool): char {
    if !IsLetter(c) then c
    else if afterLetter then LowerChar(c)
    else UpperChar(c)
  }

  function TitleFrom(s: string, afterLetter: bool): (r: string)
    ensures |r| == |s|
    ensures |s| > 0 ==> r[0] == TitleChar(s[0], afterLetter)
    ensures forall i {:trigger r[i]} :: 0 < i < |s| ==> r[i] == TitleChar(s[i], IsLetter(s[i - 1]))
  {
    if s == [] then [] else [TitleChar(s[0], afterLetter)] + TitleFrom(s[1..], IsLetter(s[0]))
  }

  /** `s.title()`. */
  function Title(s: string): (r: string)
    ensures |r| == |s|
    ensures forall i :: 0 <= i < |s| && !IsLetter(s[i]) ==> r[i] == s[i]
    ensures forall i :: 0 <= i < |s| && IsLetter(s[i]) && (i == 0 || !IsLetter(s[i - 1])) ==> IsUpper(r[i])
    ensures forall i :: 0 < i < |s| && IsLetter(s[i]) && IsLetter(s[i - 1]) ==> IsLowerLetter(r[i])
  {
    TitleFrom(s, false)
  }

  /** Title-casing changes only the case of letters. */
  lemma LowerOfTitle(s: string)
    ensures Lower(Title(s)) == Lower(s)
  {
    var t := Title(s);
    forall i | 0 <= i < |s| ensures LowerChar(t[i]) == LowerChar(s[i]) {
      if IsLetter(s[i]) && (i == 0 || !IsLetter(s[i - 1])) {
        assert t[i] == UpperChar(s[i]);
      }
    }
  }

  predicate StartsWith(s: string, w: string) {
    |w| <= |s| && s[..|w|] == w
  }

  /** Python's `w in s` for strings: `w` occurs in `s` as a contiguous block. */
  predicate Contains(s: string, w: string)
    decreases |s|
  {
    StartsWith(s, w) || (s != [] && Contains(s[1..], w))
  }

  ghost predicate OccursAt(s: string, w: string, i: int) {
    0 <= i && i + |w| <= |s| && s[i..i + |w|] == w
  }

  /** The scan agrees with the positional definition of an occurrence. */
  lemma {:induction false} ContainsIff(s: string, w: string)
    ensures Contains(s, w) <==> exists i :: OccursAt(s, w, i)
    decreases |s|
  {
    if s != [] {
      ContainsIff(s[1..], w);
      if exists i :: OccursAt(s, w, i) {
        var i :| OccursAt(s, w, i);
        if i > 0 {
          assert s[1..][i - 1..i - 1 + |w|] == s[i..i + |w|];
          assert OccursAt(s[1..], w, i - 1);
        } else {
          assert StartsWith(s, w);
        }
      }
      if Contains(s[1..], w) {
        var i :| OccursAt(s[1..], w, i);
        assert s[i + 1..i + 1 + |w|] == s[1..][i..i + |w|];
        assert OccursAt(s, w, i + 1);
      }
      if StartsWith(s, w) {
        assert OccursAt(s, w, 0);
      }
    } else {
      if StartsWith(s, w) {
        assert OccursAt(s, w, 0);
      }
    }
  }

  /** Nothing longer than `s` occurs in it. */
  lemma ContainsOnlyShorter(s: string, w: string)
    requires |s| < |w|
    ensures !Contains(s, w)
  {
    ContainsIff(s, w);
  }

  /** A word whose first character is absent from `s` does not occur in it. */
  lemma ContainsOnlyWithFirst(s: string, w: string)
    requires w != [] && w[0] !in s
    ensures !Contains(s, w)
  {
    ContainsIff(s, w);
    forall i | 0 <= i && i + |w| <= |s| ensures !OccursAt(s, w, i) {
      assert s[i..i + |w|][0] == s[i];
    }
  }

  /** Whatever contains `w` also contains every block of `w`. */
  lemma ContainsTransitive(s: string, w: string, v: string)
    requires Contains(s, w) && Contains(w, v)
    ensures Contains(s, v)
  {
    ContainsIff(s, w);
    ContainsIff(w, v);
    ContainsIff(s, v);
    var i :| OccursAt(s, w, i);
    var j :| OccursAt(w, v, j);
    forall k | 0 <= k < |v| ensures s[i + j + k] == v[k] {
      assert s[i..i + |w|][j + k] == w[j + k];
      assert w[j..j + |v|][k] == v[k];
    }
    assert s[i + j..i + j + |v|] == v;
    assert OccursAt(s, v, i + j);
  }

  function DigitChar(d: nat): (c: char)
    requires d < 10
    ensures IsDigit(c)
  {
    ('0' as int + d) as char
  }

  /** `str(n)` for a natural number. */
  function NatToString(n: nat): (r: string)
    ensures |r| > 0
    ensures forall i :: 0 <= i < |r| ==> IsDigit(r[i])
  {
    if n < 10 then [DigitChar(n)] else NatToString(n / 10) + [DigitChar(n % 10)]
  }

  /** `str(i)` for an integer. */
  function IntToString(i: int): (r: string)
    ensures |r| > 0
  {
    if i < 0 then "-" + NatToString(-i) else NatToString(i)
  }

  /** `sep.join(parts)`. */
  function Join(sep: string, parts: seq<string>): string {
    if parts == [] then ""
    else if |parts| == 1 then parts[0]
    else parts[0] + sep + Join(sep, parts[1..])
  }
}
