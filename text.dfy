/**
 * The two string operations the evaluation rules rely on: lower-casing
 * (Python's `str.lower`) and substring containment (Python's `k in s`).
 */
module Text {

  predicate IsUpper(c: char) {
    'A' <= c <= 'Z'
  }

  /** Lower-cases one character; only the ASCII letters A-Z change. */
  function LowerChar(c: char): (d: char)
    ensures !IsUpper(d)
    ensures IsUpper(c) ==> d as int == c as int + 32
    ensures !IsUpper(c) ==> d == c
  {
    if IsUpper(c) then (c as int + 32) as char else c
  }

  /** `s.lower()`: the same string with every upper-case letter lowered. */
  function Lower(s: string): (r: string)
    ensures |r| == |s|
    ensures forall i :: 0 <= i < |s| ==> r[i] == LowerChar(s[i])
    ensures forall i :: 0 <= i < |r| ==> !IsUpper(r[i])
  {
    if s == [] then [] else [LowerChar(s[0])] + Lower(s[1..])
  }

  /** Lower-casing twice is lower-casing once. */
  lemma {:induction false} LowerIdempotent(s: string)
    ensures Lower(Lower(s)) == Lower(s)
  {
    if s != [] {
      LowerIdempotent(s[1..]);
      assert Lower(s)[1..] == Lower(s[1..]);
    }
  }

  /** A string without upper-case letters is its own lower-case form. */
  lemma LowerOfLowerCase(s: string)
    requires forall i :: 0 <= i < |s| ==> !IsUpper(s[i])
    ensures Lower(s) == s
  {
  }

  /** A capitalised word lowers to the word whose first letter is the small letter and whose rest is the same. */
  lemma LowerCapitalised(word: string, lowered: string)
    requires |word| == |lowered| > 0 && IsUpper(word[0]) && lowered[0] as int == word[0] as int + 32
    requires word[1..] == lowered[1..]
    requires forall i :: 0 <= i < |lowered| ==> !IsUpper(lowered[i])
    ensures Lower(word) == lowered
  {
    LowerOfLowerCase(lowered[1..]);
  }

  /** `needle` starts at position `i` of `hay`. */
  predicate OccursAt(needle: string, hay: string, i: int) {
    0 <= i <= |hay| - |needle| && hay[i..i + |needle|] == needle
  }

  /** `needle in hay` for strings: `needle` occurs as a contiguous piece of `hay`. */
  predicate Occurs(needle: string, hay: string) {
    exists i :: 0 <= i <= |hay| && OccursAt(needle, hay, i)
  }

  /** Lower-casing the text keeps every occurrence, now of the lower-cased needle. */
  lemma LowerKeepsOccurrence(needle: string, hay: string)
    requires Occurs(needle, hay)
    ensures Occurs(Lower(needle), Lower(hay))
  {
    var i :| 0 <= i <= |hay| && OccursAt(needle, hay, i);
    var n := |needle|;
    assert Lower(hay)[i..i + n] == Lower(needle) by {
      forall k | 0 <= k < n
        ensures Lower(hay)[i..i + n][k] == Lower(needle)[k]
      {
        assert hay[i + k] == needle[k];
      }
    }
    assert OccursAt(Lower(needle), Lower(hay), i);
  }

  /** An occurrence survives when more text is put around it. */
  lemma OccursInContext(needle: string, before: string, hay: string, after: string)
    requires Occurs(needle, hay)
    ensures Occurs(needle, before + hay + after)
  {
    var i :| 0 <= i <= |hay| && OccursAt(needle, hay, i);
    var whole := before + hay + after;
    var j := |before| + i;
    assert whole[j..j + |needle|] == hay[i..i + |needle|];
    assert 0 <= j <= |whole| && OccursAt(needle, whole, j);
  }
}
