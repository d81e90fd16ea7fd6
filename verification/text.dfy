/**
 * Header normalisation of main.py: `key.lower().replace(' ', '_').replace('/', '_')`,
 * which turns a column header such as "Parent/Guardian Name" into the field
 * name "parent_guardian_name".
 */
module Text {

  predicate IsUpper(c: char) {
    'A' <= c <= 'Z'
  }

  /** `str.lower()` on one character (ASCII letters only). */
  function LowerChar(c: char): (r: char)
    ensures !IsUpper(r)
    ensures IsUpper(c) ==> r as int == c as int + 32
    ensures !IsUpper(c) ==> r == c
  {
    if IsUpper(c) then (c as int + 32) as char else c
  }

  /** `s.lower()`. */
  function Lower(s: string): (r: string)
    ensures |r| == |s|
    ensures forall i :: 0 <= i < |r| ==> !IsUpper(r[i])
    ensures forall i :: 0 <= i < |s| && IsUpper(s[i]) ==> r[i] as int == s[i] as int + 32
    ensures forall i :: 0 <= i < |s| && !IsUpper(s[i]) ==> r[i] == s[i]
  {
    seq(|s|, i requires 0 <= i < |s| => LowerChar(s[i]))
  }

  /** `s.replace(from, to)` for single characters. */
  function Replace(s: string, from: char, to: char): (r: string)
    ensures |r| == |s|
    ensures forall i :: 0 <= i < |s| ==> r[i] == (if s[i] == from then to else s[i])
    ensures from != to ==> forall i :: 0 <= i < |r| ==> r[i] != from
  {
    seq(|s|, i requires 0 <= i < |s| => if s[i] == from then to else s[i])
  }

  /** The normalisation main.py applies to every header (main.py:76 and main.py:84). */
  function NormalizeHeader(h: string): (r: string)
    ensures |r| == |h|
    ensures forall i :: 0 <= i < |r| ==> r[i] != ' ' && r[i] != '/' && !IsUpper(r[i])
  {
    Replace(Replace(Lower(h), ' ', '_'), '/', '_')
  }

  /** What normalisation does to one character. */
  function NormalizeChar(c: char): (r: char)
    ensures r != ' ' && r != '/' && !IsUpper(r)
    ensures IsUpper(c) ==> r as int == c as int + 32
    ensures c == ' ' || c == '/' ==> r == '_'
    ensures !IsUpper(c) && c != ' ' && c != '/' ==> r == c
  {
    var l := LowerChar(c);
    if l == ' ' || l == '/' then '_' else l
  }

  predicate IsNormalized(s: string) {
    forall i :: 0 <= i < |s| ==> s[i] != ' ' && s[i] != '/' && !IsUpper(s[i])
  }

  /** The three passes act character by character. */
  lemma {:induction false} NormalizeCharwise(h: string)
    ensures NormalizeHeader(h) == seq(|h|, i requires 0 <= i < |h| => NormalizeChar(h[i]))
  {
    var r := NormalizeHeader(h);
    forall i | 0 <= i < |h|
      ensures r[i] == NormalizeChar(h[i])
    {
      var l := Lower(h);
      assert l[i] == LowerChar(h[i]);
    }
  }

  /** A header that is already normalised is left unchanged. */
  lemma {:induction false} NormalizeFixesNormalized(s: string)
    requires IsNormalized(s)
    ensures NormalizeHeader(s) == s
  {
    NormalizeCharwise(s);
  }

  /** Normalising twice is the same as normalising once. */
  lemma {:induction false} NormalizeIdempotent(h: string)
    ensures NormalizeHeader(NormalizeHeader(h)) == NormalizeHeader(h)
  {
    NormalizeFixesNormalized(NormalizeHeader(h));
  }
}
