/** Lower-casing of strings, as `String.prototype.toLowerCase` does on ASCII text. */
module Text {

  predicate IsUpper(c: char) { 'A' <= c <= 'Z' }

  /** The lower-case form of one character: `A`-`Z` become `a`-`z`, every other character is kept. */
  function LowerChar(c: char): (d: char)
    ensures !IsUpper(d)
    ensures IsUpper(c) ==> d as int == c as int + 32
    ensures !IsUpper(c) ==> d == c
  {
    if IsUpper(c) then (c as int + 32) as char else c
  }

  /** `toLowerCase`: the string with every upper-case letter replaced by its lower-case form. */
  function ToLower(s: string): (r: string)
    ensures |r| == |s|
    ensures forall i :: 0 <= i < |s| ==> r[i] == LowerChar(s[i])
  {
    if s == [] then [] else [LowerChar(s[0])] + ToLower(s[1..])
  }

  /** Lower-casing a lower-cased string changes nothing. */
  lemma ToLowerIdempotent(s: string)
    ensures ToLower(ToLower(s)) == ToLower(s)
  {
  }

  /** A lower-cased string holds no upper-case letter. */
  lemma ToLowerHasNoUpper(s: string)
    ensures forall i :: 0 <= i < |s| ==> !IsUpper(ToLower(s)[i])
  {
  }

  /** Two strings with the same lower-case form differ at most in the case of their letters. */
  lemma SameLowerAgreesUpToCase(s: string, t: string)
    requires ToLower(s) == ToLower(t)
    ensures |s| == |t|
    ensures forall i :: 0 <= i < |s| ==> s[i] == t[i] || (IsUpper(s[i]) != IsUpper(t[i]) && LowerChar(s[i]) == LowerChar(t[i]))
  {
  }

  /** Strings that differ at most in the case of their first letter have the same lower-case form. */
  lemma LowerDiffersInFirst(s: string, t: string)
    requires s != [] && t != [] && s[1..] == t[1..]
    requires LowerChar(s[0]) == LowerChar(t[0])
    ensures ToLower(s) == ToLower(t)
  {
  }
}
