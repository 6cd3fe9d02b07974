/**
 * Character-level helpers: the ASCII case folding behind Django's `iexact`
 * and `icontains` lookups, substring search, and the code-point
 * lexicographic order behind the default orderings.
 */
module Text {

  predicate IsUpper(c: char) { 'A' <= c <= 'Z' }

  /** ASCII lower-casing of one character; every other character is kept. */
  function LowerChar(c: char): char
  {
    if IsUpper(c) then (c as int + 32) as char else c
  }

  /** ASCII lower-casing of a string, character by character. */
  function Lower(s: string): (r: string)
    ensures |r| == |s|
    ensures forall i :: 0 <= i < |s| ==> r[i] == LowerChar(s[i])
    ensures forall i :: 0 <= i < |r| ==> !IsUpper(r[i])
  {
    if s == [] then [] else [LowerChar(s[0])] + Lower(s[1..])
  }

  /** Folding commutes with taking a slice. */
  lemma LowerSlice(s: string, i: nat, j: nat)
    requires i <= j <= |s|
    ensures Lower(s[i..j]) == Lower(s)[i..j]
  {
    var a, b := Lower(s[i..j]), Lower(s)[i..j];
    forall k | 0 <= k < |a| ensures a[k] == b[k] {
      assert s[i..j][k] == s[i + k];
    }
  }

  /** Django's `iexact`: equal lengths and, position by position, equal characters up to case. */
  predicate IExact(a: string, b: string)
  {
    |a| == |b| && (a == [] || (LowerChar(a[0]) == LowerChar(b[0]) && IExact(a[1..], b[1..])))
  }

  /** `iexact` is equality of the case-folded strings. */
  lemma {:induction false} IExactIff(a: string, b: string)
    ensures IExact(a, b) <==> Lower(a) == Lower(b)
  {
    if a != [] && b != [] {
      IExactIff(a[1..], b[1..]);
      assert Lower(a) == [LowerChar(a[0])] + Lower(a[1..]);
      assert Lower(b) == [LowerChar(b[0])] + Lower(b[1..]);
    }
  }

  /** `iexact` is reflexive. */
  lemma IExactRefl(a: string)
    ensures IExact(a, a)
  {
    IExactIff(a, a);
  }

  /** Strings that differ at some position, even up to case, are not `iexact`. */
  lemma IExactMismatch(a: string, b: string, i: nat)
    requires i < |a| && i < |b|
    requires LowerChar(a[i]) != LowerChar(b[i])
    ensures !IExact(a, b)
  {
    IExactIff(a, b);
    assert Lower(a)[i] != Lower(b)[i];
  }

  predicate IsPrefix(p: string, s: string)
  {
    |p| <= |s| && s[..|p|] == p
  }

  /** Substring search, scanning `hay` from the left. */
  predicate Contains(hay: string, needle: string)
    decreases |hay|
  {
    IsPrefix(needle, hay) || (hay != [] && Contains(hay[1..], needle))
  }

  /** `needle` occurs in `hay` starting at position `i`. */
  predicate OccursAt(hay: string, needle: string, i: int)
  {
    0 <= i && i + |needle| <= |hay| && hay[i..i + |needle|] == needle
  }

  /** The left-to-right scan finds an occurrence exactly when one exists. */
  lemma {:induction false} ContainsIff(hay: string, needle: string)
    ensures Contains(hay, needle) <==> exists i :: OccursAt(hay, needle, i)
    decreases |hay|
  {
    if hay != [] { ContainsIff(hay[1..], needle); }
    if Contains(hay, needle) {
      if IsPrefix(needle, hay) {
        assert OccursAt(hay, needle, 0);
      } else {
        var k :| OccursAt(hay[1..], needle, k);
        assert hay[1..][k..k + |needle|] == hay[k + 1..k + 1 + |needle|];
        assert OccursAt(hay, needle, k + 1);
      }
    }
    forall i | OccursAt(hay, needle, i) ensures Contains(hay, needle) {
      if i == 0 {
        assert IsPrefix(needle, hay);
      } else {
        assert hay[1..][i - 1..i - 1 + |needle|] == hay[i..i + |needle|];
        assert OccursAt(hay[1..], needle, i - 1);
      }
    }
  }

  /** Django's `icontains`: substring search after case folding. */
  predicate IContains(hay: string, needle: string)
  {
    Contains(Lower(hay), Lower(needle))
  }

  /** Some window of `hay` as long as `needle` equals `needle` up to case. */
  predicate OccursIgnoringCase(hay: string, needle: string, i: int)
  {
    0 <= i && i + |needle| <= |hay| && IExact(hay[i..i + |needle|], needle)
  }

  /** `icontains` holds exactly when `needle` occurs in `hay` up to case. */
  lemma IContainsIff(hay: string, needle: string)
    ensures IContains(hay, needle) <==> exists i :: OccursIgnoringCase(hay, needle, i)
  {
    ContainsIff(Lower(hay), Lower(needle));
    if IContains(hay, needle) {
      var i :| OccursAt(Lower(hay), Lower(needle), i);
      LowerSlice(hay, i, i + |needle|);
      IExactIff(hay[i..i + |needle|], needle);
      assert OccursIgnoringCase(hay, needle, i);
    }
    forall i | OccursIgnoringCase(hay, needle, i) ensures IContains(hay, needle) {
      LowerSlice(hay, i, i + |needle|);
      IExactIff(hay[i..i + |needle|], needle);
      assert OccursAt(Lower(hay), Lower(needle), i);
    }
  }

  /** Lexicographic order on strings, comparing characters by code point. */
  predicate StrLe(a: string, b: string)
  {
    a == [] || (b != [] && (a[0] < b[0] || (a[0] == b[0] && StrLe(a[1..], b[1..]))))
  }

  lemma {:induction false} StrLeRefl(a: string)
    ensures StrLe(a, a)
  {
    if a != [] { StrLeRefl(a[1..]); }
  }

  lemma {:induction false} StrLeTotal(a: string, b: string)
    ensures StrLe(a, b) || StrLe(b, a)
  {
    if a != [] && b != [] && a[0] == b[0] { StrLeTotal(a[1..], b[1..]); }
  }

  lemma {:induction false} StrLeTrans(a: string, b: string, c: string)
    requires StrLe(a, b) && StrLe(b, c)
    ensures StrLe(a, c)
  {
    if a != [] && a[0] == b[0] && b[0] == c[0] { StrLeTrans(a[1..], b[1..], c[1..]); }
  }

  lemma {:induction false} StrLeAntisym(a: string, b: string)
    requires StrLe(a, b) && StrLe(b, a)
    ensures a == b
  {
    if a != [] {
      StrLeAntisym(a[1..], b[1..]);
      assert a == [a[0]] + a[1..];
      assert b == [b[0]] + b[1..];
    }
  }

  /** Every string `icontains` itself. */
  lemma IContainsSelf(s: string)
    ensures IContains(s, s)
  {
    IExactRefl(s);
    assert s[0..|s|] == s;
    assert OccursIgnoringCase(s, s, 0);
    IContainsIff(s, s);
  }

  /** A needle longer than the haystack is never contained in it. */
  lemma IContainsLonger(hay: string, needle: string)
    requires |hay| < |needle|
    ensures !IContains(hay, needle)
  {
    IContainsIff(hay, needle);
  }
}
