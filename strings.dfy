/** The Python string operations the detectors call, over `seq<char>`.
    Case is modelled for the ASCII letters only: every other character is uncased. */
module Strings {

  /** The typographic apostrophe ’ (U+2019). */
  const RightSingleQuote: char := '\U{2019}'
  /** The closing curly double quotation mark ” (U+201D). */
  const RightDoubleQuote: char := '\U{201D}'

  /** The marks that may end a sentence. */
  const TerminalMarks: string := ".!?"

  predicate IsUpper(c: char) { 'A' <= c <= 'Z' }
  predicate IsLower(c: char) { 'a' <= c <= 'z' }
  predicate IsCased(c: char) { IsUpper(c) || IsLower(c) }

  function LowerChar(c: char): (d: char)
    ensures !IsUpper(d)
    ensures IsUpper(c) ==> IsLower(d) && d as int == c as int + 32
    ensures !IsUpper(c) ==> d == c
  {
    if IsUpper(c) then (c as int + 32) as char else c
  }

  /** `s.lower()`. */
  function Lower(s: string): (r: string)
    ensures |r| == |s|
    ensures forall i :: 0 <= i < |s| ==> r[i] == LowerChar(s[i])
  {
    if s == [] then [] else [LowerChar(s[0])] + Lower(s[1..])
  }

  /** `sub` occurs in `s` starting at position `k`. */
  predicate OccursAt(s: string, sub: string, k: nat) {
    k + |sub| <= |s| && s[k..k + |sub|] == sub
  }

  /** `sub in s` on two strings: `sub` occurs in `s` as a contiguous run. */
  predicate Contains(s: string, sub: string) {
    exists k: nat :: k <= |s| && OccursAt(s, sub, k)
  }

  /** `s.endswith(suffix)`. */
  predicate EndsWith(s: string, suffix: string) {
    |suffix| <= |s| && s[|s| - |suffix|..] == suffix
  }

  /** `s.index(c)`: the position of the first occurrence of `c`. */
  function FirstIndex(s: string, c: char): (k: nat)
    requires c in s
    ensures k < |s| && s[k] == c
    ensures c !in s[..k]
  {
    if s[0] == c then 0 else 1 + FirstIndex(s[1..], c)
  }

  /** The single pass `str.istitle` makes over the characters: `previousCased` says
      whether the character before was cased, `cased` whether any cased character
      has been seen. An upper-case letter after a cased one, or a lower-case letter
      after an uncased one (or at the start), makes the answer false. */
  function TitleScan(s: string, previousCased: bool, cased: bool): bool {
    if s == [] then cased
    else if IsUpper(s[0]) then !previousCased && TitleScan(s[1..], true, true)
    else if IsLower(s[0]) then previousCased && TitleScan(s[1..], true, true)
    else TitleScan(s[1..], false, cased)
  }

  /** `s.istitle()`. */
  function IsTitle(s: string): bool {
    TitleScan(s, false, false)
  }

  /** Whether the character before position `i` of `s` is cased, where `previousCased`
      stands for the character before the whole string. */
  predicate CasedBefore(s: string, previousCased: bool, i: nat)
    requires i <= |s|
  {
    if i == 0 then previousCased else IsCased(s[i - 1])
  }

  /** Title case as Python documents it: at least one cased character, upper-case
      letters only after uncased characters, lower-case letters only after cased ones. */
  ghost predicate TitleCased(s: string) {
    && (exists i :: 0 <= i < |s| && IsCased(s[i]))
    && (forall i :: 0 <= i < |s| && IsUpper(s[i]) ==> !CasedBefore(s, false, i))
    && (forall i :: 0 <= i < |s| && IsLower(s[i]) ==> CasedBefore(s, false, i))
  }

  lemma {:induction false} TitleScanMeaning(s: string, previousCased: bool, cased: bool)
    ensures TitleScan(s, previousCased, cased) <==>
      && (cased || exists i :: 0 <= i < |s| && IsCased(s[i]))
      && (forall i :: 0 <= i < |s| && IsUpper(s[i]) ==> !CasedBefore(s, previousCased, i))
      && (forall i :: 0 <= i < |s| && IsLower(s[i]) ==> CasedBefore(s, previousCased, i))
  {
    if s != [] {
      var rest := s[1..];
      var c0 := IsCased(s[0]);
      TitleScanMeaning(rest, c0, cased || c0);
      assert forall i :: 0 <= i < |rest| ==> rest[i] == s[i + 1];
      assert forall i :: 0 <= i < |rest| ==> CasedBefore(rest, c0, i) == CasedBefore(s, previousCased, i + 1);
      assert (exists i :: 0 <= i < |s| && IsCased(s[i])) <==> c0 || exists i :: 0 <= i < |rest| && IsCased(rest[i]) by {
        if i :| 0 <= i < |s| && IsCased(s[i]) {
          if i > 0 { assert IsCased(rest[i - 1]); }
        }
      }
      if TitleScan(s, previousCased, cased) {
        forall i | 0 <= i < |s| && IsUpper(s[i]) ensures !CasedBefore(s, previousCased, i) {
          if i > 0 { assert IsUpper(rest[i - 1]); }
        }
        forall i | 0 <= i < |s| && IsLower(s[i]) ensures CasedBefore(s, previousCased, i) {
          if i > 0 { assert IsLower(rest[i - 1]); }
        }
      }
    }
  }

  /** `istitle` agrees with its documented meaning, in both directions. */
  lemma IsTitleMeansTitleCased(s: string)
    ensures IsTitle(s) <==> TitleCased(s)
  {
    TitleScanMeaning(s, false, false);
  }

  /** A capitalised word and a phrase of capitalised words pass; a lower-case word and
      an all-capitals acronym do not. */
  lemma IsTitleExamples()
    ensures IsTitle("Sarah") && IsTitle("New York")
    ensures !IsTitle("sarah") && !IsTitle("USA") && !IsTitle("") && !IsTitle("4")
  {
  }
}
