/**
 * Case folding for sector names. Python's `str.lower()` folds all of
 * Unicode; this model folds the ASCII letters only, which is all the
 * case-insensitive sector match needs: the same function applied to both sides.
 */
module Text {

  predicate IsUpper(c: char) {
    'A' <= c <= 'Z'
  }

  /** One character, lower-cased: upper-case ASCII letters move to their lower-case partner. */
  function LowerChar(c: char): (r: char)
    ensures !IsUpper(r)
    ensures !IsUpper(c) ==> r == c
    ensures IsUpper(c) ==> 'a' <= r <= 'z' && r as int - 'a' as int == c as int - 'A' as int
  {
    if IsUpper(c) then (c as int - 'A' as int + 'a' as int) as char else c
  }

  /** `s.lower()`: the string with every character lower-cased, position by position. */
  function Lower(s: string): (r: string)
    ensures |r| == |s|
    ensures forall i :: 0 <= i < |s| ==> r[i] == LowerChar(s[i])
    ensures forall i :: 0 <= i < |r| ==> !IsUpper(r[i])
  {
    seq(|s|, i requires 0 <= i < |s| => LowerChar(s[i]))
  }

  /** Lower-casing twice is lower-casing once. */
  lemma LowerIdempotent(s: string)
    ensures Lower(Lower(s)) == Lower(s)
  {
  }

  /** Two strings that differ only in the case of ASCII letters lower-case to the same string. */
  lemma LowerOfUpperVariant()
    ensures Lower("OFFSHORE-ENERGY") == Lower("offshore-energy") == "offshore-energy"
  {
    var u, l := "OFFSHORE-ENERGY", "offshore-energy";
    assert forall i :: 0 <= i < |u| ==> LowerChar(u[i]) == l[i];
    assert forall i :: 0 <= i < |l| ==> LowerChar(l[i]) == l[i];
  }
}
