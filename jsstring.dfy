/**
 * The JavaScript string built-ins the generator relies on, stated over
 * `seq<char>`: `indexOf`, `replace` with a string pattern, the global
 * replace of U+0020 spaces, `toLowerCase` (ASCII letters only) and `||`
 * on strings, where the empty string is falsy.
 */
module JsString {
  import opened Wrappers

  /** `pat` occurs in `s` starting at position `i`. */
  predicate OccursAt(s: string, pat: string, i: nat) {
    i + |pat| <= |s| && s[i..i + |pat|] == pat
  }

  /** `s.indexOf(pat, from)`: the leftmost occurrence at or after `from`; None is JavaScript's -1. */
  function IndexOfFrom(s: string, pat: string, from: nat): (r: Option<nat>)
    requires from <= |s|
    decreases |s| - from
    ensures r.Some? ==> from <= r.value && OccursAt(s, pat, r.value)
    ensures r.Some? ==> forall k: nat :: from <= k < r.value ==> !OccursAt(s, pat, k)
    ensures r.None? ==> forall k: nat :: from <= k ==> !OccursAt(s, pat, k)
  {
    if from + |pat| > |s| then None
    else if s[from..from + |pat|] == pat then Some(from)
    else IndexOfFrom(s, pat, from + 1)
  }

  /** `s.indexOf(pat)`. */
  function IndexOf(s: string, pat: string): Option<nat> {
    IndexOfFrom(s, pat, 0)
  }

  /** `s.indexOf(pat) !== -1`, equivalently a regular expression test for the literal `pat`. */
  function Contains(s: string, pat: string): (b: bool)
    ensures b <==> exists k: nat :: OccursAt(s, pat, k)
  {
    IndexOf(s, pat).Some?
  }

  /** An occurrence at `i` is witnessed by the slice itself. */
  lemma ContainsAt(s: string, pat: string, i: nat)
    requires i + |pat| <= |s| && s[i..i + |pat|] == pat
    ensures Contains(s, pat)
  {
    assert OccursAt(s, pat, i);
  }

  /**
   * `s.replace(pat, rep)` with a string pattern and a replacement that
   * contains no `$`: only the leftmost occurrence of `pat` is replaced;
   * without one, `s` is returned as is.
   */
  function ReplaceFirst(s: string, pat: string, rep: string): (r: string)
    ensures !Contains(s, pat) ==> r == s
    ensures forall i: nat {:trigger OccursAt(s, pat, i)} ::
              OccursAt(s, pat, i) && (forall k: nat :: k < i ==> !OccursAt(s, pat, k)) ==>
                r == s[..i] + rep + s[i + |pat|..]
  {
    match IndexOf(s, pat)
    case None => s
    case Some(i) => s[..i] + rep + s[i + |pat|..]
  }

  /** `s.replace(/\ /g, '')`: every U+0020 space removed, the other characters kept in order. */
  function RemoveSpaces(s: string): (r: string)
    ensures |r| <= |s|
    ensures forall i :: 0 <= i < |r| ==> r[i] != ' '
    ensures (forall i :: 0 <= i < |s| ==> s[i] != ' ') ==> r == s
  {
    if s == [] then []
    else if s[0] == ' ' then RemoveSpaces(s[1..])
    else [s[0]] + RemoveSpaces(s[1..])
  }

  /** A single character: a space is dropped, any other character is kept. */
  lemma RemoveSpacesChar(c: char)
    ensures RemoveSpaces([c]) == if c == ' ' then [] else [c]
  {
    assert [c][1..] == [];
  }

  /** Removing spaces works piecewise, so it keeps every other character in its order. */
  lemma {:induction false} RemoveSpacesAppend(a: string, b: string)
    ensures RemoveSpaces(a + b) == RemoveSpaces(a) + RemoveSpaces(b)
  {
    if a == [] {
      assert a + b == b;
    } else {
      assert (a + b)[0] == a[0];
      assert (a + b)[1..] == a[1..] + b;
      RemoveSpacesAppend(a[1..], b);
    }
  }

  predicate IsUpperAscii(c: char) {
    'A' <= c <= 'Z'
  }

  /** `toLowerCase` of one character, restricted to ASCII letters. */
  function LowerChar(c: char): char {
    if IsUpperAscii(c) then (c as int + 32) as char else c
  }

  /** `s.toLowerCase()` on ASCII: each character lowered in place, no length change. */
  function ToLowerAscii(s: string): (r: string)
    ensures |r| == |s|
    ensures forall i :: 0 <= i < |s| ==> r[i] == LowerChar(s[i])
  {
    if s == [] then [] else [LowerChar(s[0])] + ToLowerAscii(s[1..])
  }

  /** Lowering is the identity on text without upper-case ASCII letters. */
  lemma ToLowerAsciiKeepsLower(s: string)
    requires forall i :: 0 <= i < |s| ==> !IsUpperAscii(s[i])
    ensures ToLowerAscii(s) == s
  {
    var r := ToLowerAscii(s);
    assert |r| == |s|;
    forall i | 0 <= i < |s| ensures r[i] == s[i] {
      assert r[i] == LowerChar(s[i]);
    }
  }

  /** Lowering works piecewise. */
  lemma ToLowerAsciiAppend(a: string, b: string)
    ensures ToLowerAscii(a + b) == ToLowerAscii(a) + ToLowerAscii(b)
  {
    var l, r := ToLowerAscii(a + b), ToLowerAscii(a) + ToLowerAscii(b);
    assert |l| == |r|;
    forall i | 0 <= i < |l| ensures l[i] == r[i] {
      if i < |a| {
        assert (a + b)[i] == a[i];
      } else {
        assert (a + b)[i] == b[i - |a|];
      }
    }
  }

  /** JavaScript `a || b` on two strings: the empty string is falsy. */
  function Or(a: string, b: string): string {
    if a != "" then a else b
  }
}
