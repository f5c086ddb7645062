/** Upper-casing of caption text before it is measured and drawn. */
module Text {

  /** ASCII upper-casing of one character; every other character is left as it is. */
  function UpperChar(c: char): (u: char)
    ensures 'a' <= c <= 'z' ==> u as int == c as int - 32
    ensures !('a' <= c <= 'z') ==> u == c
    ensures !('a' <= u <= 'z')
  {
    if 'a' <= c <= 'z' then (c as int - 32) as char else c
  }

  /** The upper-cased string: same length, each character upper-cased in place. */
  function Upper(s: string): (u: string)
    ensures |u| == |s|
    ensures forall i :: 0 <= i < |s| ==> u[i] == UpperChar(s[i])
    ensures forall i :: 0 <= i < |u| ==> !('a' <= u[i] <= 'z')
  {
    if s == [] then [] else [UpperChar(s[0])] + Upper(s[1..])
  }

  /** Upper-casing twice is upper-casing once. */
  lemma UpperIdempotent(s: string)
    ensures Upper(Upper(s)) == Upper(s)
  {
  }

  /** Upper-casing keeps a string empty exactly when it was empty. */
  lemma UpperEmpty(s: string)
    ensures Upper(s) == "" <==> s == ""
  {
  }

  /** The lower- and upper-case spellings of a word have the same upper-cased form. */
  lemma UpperAbc()
    ensures Upper("abc") == "ABC" && Upper("ABC") == "ABC"
  {
    assert Upper("c") == "C";
    assert Upper("bc") == "BC";
    assert Upper("C") == "C";
    assert Upper("BC") == "BC";
  }
}
