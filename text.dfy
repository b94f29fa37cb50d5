/** The string operations the script applies to replies and names: Python's
    `str.lower`, `str.title` and the code-point order it sorts strings by.
    Only ASCII letters change case in this model. */
module Text {

  predicate IsUpper(c: char) { 'A' <= c <= 'Z' }

  predicate IsLowerLetter(c: char) { 'a' <= c <= 'z' }

  predicate IsLetter(c: char) { IsUpper(c) || IsLowerLetter(c) }

  function LowerChar(c: char): (r: char)
    ensures !IsUpper(r)
    ensures IsLetter(c) <==> IsLetter(r)
  {
    if IsUpper(c) then (c as int + 32) as char else c
  }

  function UpperChar(c: char): (r: char)
    ensures !IsLowerLetter(r)
    ensures IsLetter(c) <==> IsLetter(r)
  {
    if IsLowerLetter(c) then (c as int - 32) as char else c
  }

  /** `s.lower()`: every character lower-cased, nothing trimmed. */
  function Lower(s: string): (r: string)
    ensures |r| == |s|
    ensures forall i :: 0 <= i < |s| ==> r[i] == LowerChar(s[i])
  {
    seq(|s|, i requires 0 <= i < |s| => LowerChar(s[i]))
  }

  /** Lower-casing a second time changes nothing. */
  lemma LowerIdempotent(s: string)
    ensures Lower(Lower(s)) == Lower(s)
  {
  }

  /** Lower-casing an already lower-case text returns it unchanged. */
  lemma LowerOfLowercase(s: string)
    requires forall i :: 0 <= i < |s| ==> !IsUpper(s[i])
    ensures Lower(s) == s
  {
  }

  /** `s.title()`: a letter is upper-cased when the character before it is not a
      letter, and lower-cased otherwise; other characters are kept. */
  function Title(s: string): string
  {
    TitleFrom(s, false)
  }

  function TitleFrom(s: string, afterLetter: bool): (r: string)
    ensures |r| == |s|
  {
    if s == [] then []
    else [if afterLetter then LowerChar(s[0]) else UpperChar(s[0])] + TitleFrom(s[1..], IsLetter(s[0]))
  }

  /** Title-casing changes only case: lower-casing the title-cased text gives the
      lower-cased original. */
  lemma {:induction false} LowerTitleFrom(s: string, afterLetter: bool)
    ensures Lower(TitleFrom(s, afterLetter)) == Lower(s)
  {
    if s != [] {
      LowerTitleFrom(s[1..], IsLetter(s[0]));
      var t := TitleFrom(s, afterLetter);
      assert t[1..] == TitleFrom(s[1..], IsLetter(s[0]));
      forall i | 0 <= i < |s|
        ensures Lower(t)[i] == Lower(s)[i]
      {
        if i > 0 {
          assert Lower(t)[i] == Lower(t[1..])[i - 1];
        }
      }
    }
  }

  /** A lower-case text is recovered from its title-cased form by lower-casing. */
  lemma LowerTitleOfLowercase(s: string)
    requires forall i :: 0 <= i < |s| ==> IsLowerLetter(s[i])
    ensures Lower(Title(s)) == s
  {
    LowerTitleFrom(s, false);
    LowerOfLowercase(s);
  }

  /** For a word of lower-case letters, `title()` upper-cases the first letter and
      keeps the rest. */
  lemma {:induction false} TitleOfLowerWord(s: string)
    requires |s| > 0
    requires forall i :: 0 <= i < |s| ==> IsLowerLetter(s[i])
    ensures Title(s) == [UpperChar(s[0])] + s[1..]
  {
    TitleFromAfterLetter(s[1..]);
  }

  /** The same, stated character by character against a given text. */
  lemma TitleOfLowerWordIs(s: string, w: string)
    requires |s| > 0
    requires forall i :: 0 <= i < |s| ==> IsLowerLetter(s[i])
    requires |w| == |s| && w[0] == UpperChar(s[0])
    requires forall i :: 0 < i < |s| ==> w[i] == s[i]
    ensures Title(s) == w
  {
    TitleOfLowerWord(s);
    assert w == [w[0]] + w[1..];
  }

  lemma {:induction false} TitleFromAfterLetter(s: string)
    requires forall i :: 0 <= i < |s| ==> IsLowerLetter(s[i])
    ensures TitleFrom(s, true) == s
  {
    if s != [] {
      TitleFromAfterLetter(s[1..]);
    }
  }

  /** Python's `<=` on strings: code-point lexicographic order, a prefix first. */
  function StrLe(a: string, b: string): bool
  {
    if a == [] then true
    else if b == [] then false
    else if a[0] != b[0] then a[0] < b[0]
    else StrLe(a[1..], b[1..])
  }

  lemma {:induction false} StrLeTotal(a: string, b: string)
    ensures StrLe(a, b) || StrLe(b, a)
  {
    if a != [] && b != [] && a[0] == b[0] {
      StrLeTotal(a[1..], b[1..]);
    }
  }

  lemma {:induction false} StrLeTransitive(a: string, b: string, c: string)
    requires StrLe(a, b) && StrLe(b, c)
    ensures StrLe(a, c)
  {
    if a != [] && b != [] && c != [] && a[0] == b[0] && b[0] == c[0] {
      StrLeTransitive(a[1..], b[1..], c[1..]);
    }
  }

  lemma {:induction false} StrLeAntisymmetric(a: string, b: string)
    requires StrLe(a, b) && StrLe(b, a)
    ensures a == b
  {
    if a != [] && b != [] {
      StrLeAntisymmetric(a[1..], b[1..]);
      assert a == [a[0]] + a[1..] && b == [b[0]] + b[1..];
    }
  }
}
