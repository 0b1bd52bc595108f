/**
 * Version resolution with fallback: the result of
 * `git ls-remote --tags <repo> | tail -n 1` (an error, or its stdout) is
 * searched with the regular expression `\d\.\d[\.\d]*` (flags i and g); the first match
 * is the version, and an error or no match gives the step's fallback.
 */
module Versions {
  import opened Wrappers

  /** The outcome of the `exec` call: an error (or a synchronous throw), or the text on stdout. */
  datatype CommandResult = Errored | Stdout(text: string)

  /** `\d`: an ASCII digit. */
  predicate IsDigit(c: char) {
    '0' <= c <= '9'
  }

  /** A member of the class `[\.\d]`. */
  predicate IsVersionChar(c: char) {
    IsDigit(c) || c == '.'
  }

  /** The fixed head `\d\.\d` of the pattern matches at position `i`. */
  predicate MatchStartsAt(s: string, i: nat) {
    i + 3 <= |s| && IsDigit(s[i]) && s[i + 1] == '.' && IsDigit(s[i + 2])
  }

  /**
   * What a match of `\d\.\d[\.\d]*` (flags i and g) in `s` is: it starts at the leftmost
   * position where the head matches, runs over digits and dots only, and
   * the greedy tail stops only at the end of `s` or at another character.
   */
  ghost predicate IsVersionMatch(s: string, i: nat, v: string) {
    && MatchStartsAt(s, i)
    && (forall k: nat :: k < i ==> !MatchStartsAt(s, k))
    && 3 <= |v|
    && i + |v| <= |s|
    && v == s[i..i + |v|]
    && (forall k :: 0 <= k < |v| ==> IsVersionChar(v[k]))
    && (i + |v| == |s| || !IsVersionChar(s[i + |v|]))
  }

  /** The end of the greedy run `[\.\d]*` that starts at `j`. */
  function RunEnd(s: string, j: nat): (e: nat)
    requires j <= |s|
    decreases |s| - j
    ensures j <= e <= |s|
    ensures forall k :: j <= k < e ==> IsVersionChar(s[k])
    ensures e == |s| || !IsVersionChar(s[e])
  {
    if j < |s| && IsVersionChar(s[j]) then RunEnd(s, j + 1) else j
  }

  /** The leftmost position at or after `from` where the head `\d\.\d` matches. */
  function FindHead(s: string, from: nat): (r: Option<nat>)
    decreases |s| - from
    ensures r.Some? ==> from <= r.value && MatchStartsAt(s, r.value)
    ensures r.Some? ==> forall k: nat :: from <= k < r.value ==> !MatchStartsAt(s, k)
    ensures r.None? ==> forall k: nat :: from <= k ==> !MatchStartsAt(s, k)
  {
    if from + 3 > |s| then None
    else if MatchStartsAt(s, from) then Some(from)
    else FindHead(s, from + 1)
  }

  /** The match the head at `i` and the run after it form. */
  lemma HeadGivesMatch(s: string, i: nat, e: nat)
    requires MatchStartsAt(s, i) && (forall k: nat :: k < i ==> !MatchStartsAt(s, k))
    requires e == RunEnd(s, i + 3)
    ensures IsVersionMatch(s, i, s[i..e])
  {
    var v := s[i..e];
    assert |v| == e - i;
    forall k | 0 <= k < |v| ensures IsVersionChar(v[k]) {
      assert v[k] == s[i + k];
    }
  }

  /** `pattern.exec(text)`: the first match of the pattern, or None for `null`. */
  function MatchVersion(s: string): (r: Option<string>)
    ensures r.None? <==> forall k: nat :: !MatchStartsAt(s, k)
    ensures r.Some? ==> exists i: nat :: IsVersionMatch(s, i, r.value)
  {
    match FindHead(s, 0)
    case None => None
    case Some(i) =>
      var e := RunEnd(s, i + 3);
      HeadGivesMatch(s, i, e);
      Some(s[i..e])
  }

  /** A string has at most one match: the leftmost head and the greedy tail fix it. */
  lemma {:induction false} VersionMatchUnique(s: string, i: nat, v: string, i': nat, v': string)
    requires IsVersionMatch(s, i, v) && IsVersionMatch(s, i', v')
    ensures i == i' && v == v'
  {
    assert i == i';
    assert |v| == |v'|;
  }

  /** MatchVersion finds exactly the match the pattern defines: both directions. */
  lemma MatchVersionCharacterized(s: string, v: string)
    ensures MatchVersion(s) == Some(v) <==> exists i: nat :: IsVersionMatch(s, i, v)
  {
    if i: nat :| IsVersionMatch(s, i, v) {
      assert MatchStartsAt(s, i);
      var w := MatchVersion(s).value;
      var j: nat :| IsVersionMatch(s, j, w);
      VersionMatchUnique(s, i, v, j, w);
    }
  }

  /**
   * The step's rule: on a command error, or when stdout does not match, the
   * hard-coded fallback; otherwise the first match of the pattern.
   */
  function ResolveVersion(result: CommandResult, fallback: string): (v: string)
    ensures result.Errored? ==> v == fallback
    ensures result.Stdout? && (forall k: nat :: !MatchStartsAt(result.text, k)) ==> v == fallback
    ensures result.Stdout? && (exists k: nat :: MatchStartsAt(result.text, k)) ==>
              exists i: nat :: IsVersionMatch(result.text, i, v)
    ensures fallback != "" ==> v != ""
  {
    match result
    case Errored => fallback
    case Stdout(text) =>
      match MatchVersion(text)
      case Some(m) => m
      case None => fallback
  }

  /** A resolved version is made of digits and dots only, unless it is the fallback. */
  lemma ResolvedVersionIsDigitsAndDots(result: CommandResult, fallback: string)
    ensures var v := ResolveVersion(result, fallback);
            v == fallback || (3 <= |v| && forall k :: 0 <= k < |v| ==> IsVersionChar(v[k]))
  {
    var v := ResolveVersion(result, fallback);
    if v != fallback {
      assert result.Stdout?;
      var i: nat :| IsVersionMatch(result.text, i, v);
    }
  }

  /** The pattern allows one leading digit only: "10.2" resolves to "0.2". */
  lemma OneLeadingDigit(fallback: string)
    ensures ResolveVersion(Stdout("10.2"), fallback) == "0.2"
  {
    var s := "10.2";
    assert !MatchStartsAt(s, 0);
    assert MatchStartsAt(s, 1);
    assert FindHead(s, 0) == Some(1);
    assert RunEnd(s, 4) == 4;
  }

  /** A typical `ls-remote` line: the tag after `refs/tags/` is found, not the hash. */
  lemma TagLineExample(fallback: string)
    ensures ResolveVersion(Stdout("ab12\trefs/tags/3.5.1\n"), fallback) == "3.5.1"
  {
    var s := "ab12\trefs/tags/3.5.1\n";
    assert s[15..20] == "3.5.1";
    forall k: nat | k < 15 ensures !MatchStartsAt(s, k) {
      assert s[k + 1] != '.';
    }
    assert IsVersionMatch(s, 15, "3.5.1");
    MatchVersionCharacterized(s, "3.5.1");
  }
}
